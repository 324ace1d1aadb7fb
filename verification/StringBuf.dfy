// The growable string buffer of utils/stringbuf.c.
module StringBuf {

  const NUL: char := '\0'

  /** The numbers that decide whether a write stays inside the allocation; copied counts the
      bytes moved by all resizes so far. */
  datatype Sizes = Sizes(capacity: nat, len: nat, copied: nat)
  {
    predicate NeedsRoom(n: nat) { n > capacity - len - 1 }
    /** One doubling is enough for n more characters and the terminator. */
    predicate Fits(n: nat) { n <= 2 * capacity - len - 1 }
  }

  function AfterAppend(s: Sizes, n: nat): Sizes {
    if s.NeedsRoom(n) then Sizes(2 * s.capacity, s.len + n, s.copied + s.len)
    else s.(len := s.len + n)
  }

  /** What holds between the sizes of a buffer created with a given capacity. */
  ghost predicate Bounded(s: Sizes, initial: nat) {
    && 0 < initial <= s.capacity
    && s.len < s.capacity
    && (s.capacity <= initial || s.capacity <= 2 * s.len)
    && s.copied + initial <= s.capacity
  }

  lemma AppendKeepsBounds(s: Sizes, initial: nat, n: nat)
    requires Bounded(s, initial)
    ensures Bounded(AfterAppend(s, n), initial) <==> s.Fits(n)
  {
  }

  function AfterAppends(initial: nat, lines: seq<string>): (s: Sizes) {
    if lines == [] then Sizes(initial, 0, 0)
    else AfterAppend(AfterAppends(initial, lines[..|lines| - 1]), |lines[|lines| - 1]|)
  }

  function Joined(lines: seq<string>): string {
    if lines == [] then [] else Joined(lines[..|lines| - 1]) + lines[|lines| - 1]
  }

  /** Lines shorter than the initial capacity: one doubling always suffices, the capacity stays
      within twice the contents, and all resizes together copy less than the final capacity. */
  lemma {:induction false} LinesAlwaysFit(initial: nat, lines: seq<string>, next: string)
    requires initial > 0 && |next| < initial
    requires forall i :: 0 <= i < |lines| ==> |lines[i]| < initial
    ensures var s := AfterAppends(initial, lines);
            && s.len == |Joined(lines)|
            && s.Fits(|next|)
            && (s.capacity <= initial || s.capacity <= 2 * s.len)
            && s.copied < s.capacity
            && Bounded(s, initial)
    decreases |lines|
  {
    if lines != [] {
      var n := |lines| - 1;
      LinesAlwaysFit(initial, lines[..n], lines[n]);
      AppendKeepsBounds(AfterAppends(initial, lines[..n]), initial, |lines[n]|);
    }
  }

  class Buffer {
    var capacity: nat
    var len: nat
    var ptr: array<char>
    ghost var initial: nat
    ghost var copied: nat

    ghost function View(): Sizes
      reads this
    {
      Sizes(capacity, len, copied)
    }

    ghost predicate Valid()
      reads this, ptr
    {
      Bounded(View(), initial) && ptr.Length == capacity && NUL !in ptr[..len]
    }

    /** What sbuf_to_s points to, up to the length. */
    ghost function Contents(): string
      requires Valid()
      reads this, ptr
    {
      ptr[..len]
    }

    /** Whether sbuf_to_s points to a C string: a fresh buffer is not terminated yet. */
    ghost predicate Terminated()
      requires Valid()
      reads this, ptr
    {
      ptr[len] == NUL
    }

    constructor (capacity: nat)
      requires capacity > 0
      ensures Valid() && fresh(ptr) && Contents() == [] && View() == Sizes(capacity, 0, 0) && initial == capacity
    {
      ptr := new char[capacity];
      this.capacity, len := capacity, 0;
      initial, copied := capacity, 0;
    }

    /** 0 on success; 1, with nothing changed, when the larger block cannot be allocated; 2 stands for
        a write past the block, which happens exactly when one doubling is not enough. */
    method Append(str: string, memory: bool) returns (err: int)
      requires Valid() && NUL !in str
      modifies this, ptr
      ensures Valid() && (ptr == old(ptr) || fresh(ptr)) && initial == old(initial)
      ensures err == if !old(View()).NeedsRoom(|str|) then 0
                     else if !memory then 1
                     else if old(View()).Fits(|str|) then 0 else 2
      ensures err == 0 ==> View() == AfterAppend(old(View()), |str|)
      ensures err == 0 ==> Contents() == old(Contents()) + str && Terminated()
      ensures err == 1 ==> View() == old(View()) && ptr == old(ptr) && ptr[..] == old(ptr[..])
    {
      AppendKeepsBounds(View(), initial, |str|);
      if |str| > capacity - len - 1 {
        if !memory {
          return 1;
        }
        if |str| > 2 * capacity - len - 1 {
          return 2;
        }
        Resize(2 * capacity);
      }
      Write(str);
      return 0;
    }

    /** strcpy: the characters and the terminator. */
    method Write(str: string)
      requires ptr.Length == capacity && len + |str| < capacity && NUL !in ptr[..len] && NUL !in str
      modifies this`len, ptr
      ensures len == old(len) + |str| && ptr[..len] == old(ptr[..len]) + str && ptr[len] == NUL
      ensures NUL !in ptr[..len]
    {
      forall i | 0 <= i <= |str| {
        ptr[len + i] := if i < |str| then str[i] else NUL;
      }
      assert ptr[..len + |str|] == old(ptr[..len]) + str;
      len := len + |str|;
    }

    method Resize(wanted: nat)
      requires ptr.Length == capacity && len < capacity < wanted && NUL !in ptr[..len]
      modifies this
      ensures fresh(ptr) && ptr.Length == capacity == wanted && len == old(len) && initial == old(initial)
      ensures ptr[..len] == old(ptr[..len]) && copied == old(copied) + len
    {
      var bigger := new char[wanted];
      forall i | 0 <= i < len {
        bigger[i] := ptr[i];
      }
      assert bigger[..len] == ptr[..len];
      copied := copied + len;
      ptr := bigger;
      capacity := wanted;
    }
  }
}
