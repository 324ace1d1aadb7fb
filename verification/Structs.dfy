// The shared records of common/structs.h and common/tval.h, as far as the model uses them.
module Structs {
  import opened StreamKeys
  import opened Ports

  datatype Tval = Tval(sec: nat, usec: nat)

  /** A slot is free while its start time has no seconds. */
  predicate EmptySlot(tstart: Tval) {
    tstart.sec == 0
  }

  datatype StreamInfo = StreamInfo(
    tstart: Tval, tlast: Tval, iid: nat, idxLeft: nat, idxRight: nat,
    lport: Port, rport: Port, ipproto: Proto, flowflags: nat, packets: nat, bytes: nat)

  datatype AddrInfo = AddrInfo(
    tstart: Tval, iid: nat, addrOffset: Addr, internal: bool, resvd: Word16, resvd2: Word16,
    nstreamsActive: nat, txpackets: nat, txbytes: nat, rxpackets: nat, rxbytes: nat)

  datatype Flow = Flow(packets: int, bytes: int)

  // Zeroed memory.
  const NO_STREAM := StreamInfo(Tval(0, 0), Tval(0, 0), 0, 0, 0, 0, 0, 0, 0, 0, 0)
  const NO_ADDR := AddrInfo(Tval(0, 0), 0, 0, false, ZERO16, ZERO16, 0, 0, 0, 0, 0)
}
