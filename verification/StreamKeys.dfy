// Stream keys of net/streamkey.c: one key for both directions of a conversation.
module StreamKeys {
  import opened ChainTable

  type Addr = x: nat | x < 0x1_0000_0000
  type Port = x: nat | x < 0x1_0000
  type Proto = x: nat | x < 0x100

  datatype Endpoint = Endpoint(addr: Addr, port: Port)

  /** The fields of stream_key_t that are not always zero for IPv4. */
  datatype StreamKey = StreamKey(ipproto: Proto, lport: Port, rport: Port, left: Addr, right: Addr)
  {
    function Left(): Endpoint { Endpoint(left, lport) }
    function Right(): Endpoint { Endpoint(right, rport) }
  }

  /** Whether source and destination keep their places. */
  predicate KeepsOrder(src: Endpoint, dst: Endpoint) {
    src.port > dst.port || (src.port == dst.port && src.addr < dst.addr)
  }

  /** net_stream_init_v4: the key, and whether it is flipped against the packet's direction. */
  function InitV4(ipproto: Proto, src: Endpoint, dst: Endpoint): (r: (StreamKey, bool))
    ensures r.1 <==> !KeepsOrder(src, dst)
  {
    if KeepsOrder(src, dst)
    then (StreamKey(ipproto, src.port, dst.port, src.addr, dst.addr), false)
    else (StreamKey(ipproto, dst.port, src.port, dst.addr, src.addr), true)
  }

  /** hash_stream_key on an IPv4 key: the protocol does not enter it. */
  function Hash(k: StreamKey): (h: nat) {
    Mix(k.left, k.right, k.lport, k.rport)
  }

  function Mix(left: Addr, right: Addr, lport: Port, rport: Port): (h: nat) {
    MixBits(left as bv32, right as bv32, lport as bv32, rport as bv32) as nat
  }

  function MixBits(left: bv32, right: bv32, lport: bv32, rport: bv32): bv32 {
    ((left ^ right) * rport) ^ lport
  }

  /** hcmp_stream_key compares all bytes. */
  function StreamKeyOps(): Keys<StreamKey> {
    Keys((a: StreamKey, b: StreamKey) => a == b, (k: StreamKey) => Hash(k))
  }

  /** The stream table's comparison and hash meet what the hash table asks of them. */
  lemma StreamKeyOpsLawful()
    ensures Lawful(StreamKeyOps())
  {
    hide Mix;
  }

  /** The side with the larger port is the left one, with equal ports the smaller address; the flag tells
      whether that is the destination. */
  lemma LeftHasTheLargerPort(ipproto: Proto, src: Endpoint, dst: Endpoint)
    ensures var (k, flipped) := InitV4(ipproto, src, dst);
            && k.ipproto == ipproto
            && (k.lport > k.rport || (k.lport == k.rport && k.left <= k.right))
            && (if flipped then k.Left() == dst && k.Right() == src else k.Left() == src && k.Right() == dst)
  {
  }

  /** The hash is the left port when both addresses are equal or the right port is 0. */
  lemma HashBits(left: bv32, right: bv32, lport: bv32, rport: bv32)
    ensures left == right || rport == 0 ==> MixBits(left, right, lport, rport) == lport
  {
  }

  /** Two packets share a key exactly when they have the same protocol and the same unordered
      pair of endpoints. */
  lemma SameKeyIffSameConversation(p1: Proto, s1: Endpoint, d1: Endpoint, p2: Proto, s2: Endpoint, d2: Endpoint)
    ensures InitV4(p1, s1, d1).0 == InitV4(p2, s2, d2).0
            <==> p1 == p2 && ((s1 == s2 && d1 == d2) || (s1 == d2 && d1 == s2))
  {
  }

  /** The reply has the same key and hash, and the opposite direction unless both endpoints
      coincide. */
  lemma ReplyIsFlipped(p: Proto, src: Endpoint, dst: Endpoint)
    ensures InitV4(p, dst, src).0 == InitV4(p, src, dst).0
    ensures Hash(InitV4(p, dst, src).0) == Hash(InitV4(p, src, dst).0)
    ensures InitV4(p, dst, src).1 == !InitV4(p, src, dst).1 <==> src != dst
  {
    hide Mix;
  }

  /** A key made again from its own fields, as the cleanup does, is the same key. */
  lemma RebuiltKey(p: Proto, src: Endpoint, dst: Endpoint)
    ensures var k := InitV4(p, src, dst).0;
            InitV4(k.ipproto, k.Left(), k.Right()).0 == k
  {
  }
}
