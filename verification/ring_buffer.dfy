/** The fixed-capacity log buffer: an array written round and round, against the whole history. */
module RingBuffers {
  lemma Wrap(x: nat, m: nat)
    requires 0 < m && x < 2 * m
    ensures x % m == if x < m then x else x - m
  {
    assert x >= m ==> x / m == 1;
  }

  /** The entries of the array, oldest first. */
  function Unrolled<T>(a: seq<T>, head: nat, full: bool): (s: seq<T>)
    requires head <= |a|
    ensures |s| == if full then |a| else head
  {
    if full then a[head..] + a[..head] else a[..head]
  }

  lemma UnrolledAt<T>(a: seq<T>, head: nat, full: bool, i: nat)
    requires head < |a| && i < (if full then |a| else head)
    ensures var start := if full then head else 0;
      Unrolled(a, head, full)[i] == a[(start + i) % |a|]
  {
    Wrap((if full then head else 0) + i, |a|);
  }

  /** Writing at the head drops the oldest entry of a full buffer and appends the new one. */
  lemma UnrolledNext<T>(a: seq<T>, head: nat, full: bool, e: T)
    requires head < |a|
    ensures var before := Unrolled(a, head, full);
      Unrolled(a[head := e], if head + 1 == |a| then 0 else head + 1, full || head + 1 == |a|)
        == (if full then before[1..] else before) + [e]
  {
    var b := a[head := e];
    assert b[..head + 1] == a[..head] + [e] && b[head + 1..] == a[head + 1..];
    if full {
      assert (a[head..] + a[..head])[1..] == a[head + 1..] + a[..head];
      if head + 1 == |a| {
        assert b[0..] + b[..0] == b;
      }
    }
  }

  function Last<T>(s: seq<T>, k: nat): seq<T>
    requires k <= |s|
  {
    s[|s| - k..]
  }

  lemma EndOfHeld<T>(history: seq<T>, held: seq<T>, n: nat, k: nat)
    requires k <= n <= |history| && held == Last(history, n)
    ensures held[n - k..n] == history[|history| - k..]
  {
  }

  lemma LastAppend<T>(s: seq<T>, n: nat, e: T)
    requires n <= |s|
    ensures Last(s + [e], n + 1) == Last(s, n) + [e]
  {
  }

  lemma LastDropped<T>(s: seq<T>, n: nat)
    requires 1 <= n <= |s|
    ensures Last(s, n)[1..] == Last(s, n - 1)
  {
  }

  lemma NextOfSlice<T>(s: seq<T>, from: nat, i: nat)
    requires from <= i < |s|
    ensures s[from..i + 1] == s[from..i] + [s[i]]
  {
  }

  /** How many entries a snapshot returns out of those held. */
  function Chosen(limit: int, held: nat): (k: nat)
    ensures k <= held
  {
    if limit <= 0 || limit > held then held else limit
  }

  /** The array shows the end of the history. */
  ghost predicate Shows<T>(a: seq<T>, head: nat, full: bool, history: seq<T>) {
    && head < |a|
    && (if full then |history| >= |a| else |history| == head)
    && Unrolled(a, head, full) == Last(history, if full then |a| else head)
  }

  lemma ShowsNext<T>(a: seq<T>, head: nat, full: bool, history: seq<T>, e: T)
    requires Shows(a, head, full, history)
    ensures Shows(a[head := e], if head + 1 == |a| then 0 else head + 1, full || head + 1 == |a|, history + [e])
  {
    UnrolledNext(a, head, full, e);
    if full {
      LastDropped(history, |a|);
      LastAppend(history, |a| - 1, e);
    } else {
      LastAppend(history, head, e);
    }
  }

  class RingBuffer<T(0)> {
    const entries: array<T>
    var head: nat
    var full: bool
    const cap: nat
    /** Everything ever added. */
    ghost var history: seq<T>

    ghost predicate Valid()
      reads this, entries
    {
      entries.Length == cap && Shows(entries[..], head, full, history)
    }

    constructor (cap: int)
      ensures Valid() && fresh(entries) && history == []
      ensures this.cap == if cap <= 0 then 1000 else cap
    {
      var size := if cap <= 0 then 1000 else cap;
      this.cap := size;
      entries := new T[size];
      head, full, history := 0, false, [];
    }

    method Add(e: T)
      requires Valid()
      modifies this, entries
      ensures Valid() && history == old(history) + [e]
    {
      ghost var a := entries[..];
      Wrap(head + 1, cap);
      ShowsNext(a, head, full, history, e);
      entries[head] := e;
      assert entries[..] == a[head := e];
      head := (head + 1) % cap;
      if head == 0 {
        full := true;
      }
      history := history + [e];
    }

    /** The last k entries of the history in order, where k is the limit, or all that is held if the limit
    is not positive or asks for more. */
    method Snapshot(limit: int) returns (out: seq<T>)
      requires Valid()
      ensures |out| <= |history| && out == history[|history| - |out|..]
      ensures var held := if |history| < cap then |history| else cap;
        |out| == if 1 <= limit <= held then limit else held
    {
      var n := if full then cap else head;
      var wanted := Chosen(limit, n);
      var start := if full then head else 0;
      ghost var a := entries[..];
      ghost var held := Unrolled(a, head, full);
      out := [];
      for i := n - wanted to n
        invariant out == held[n - wanted..i]
      {
        UnrolledAt(a, head, full, i);
        NextOfSlice(held, n - wanted, i);
        Wrap(start + i, cap);
        assert entries[(start + i) % cap] == a[(start + i) % cap] == held[i];
        out := out + [entries[(start + i) % cap]];
      }
      EndOfHeld(history, held, n, wanted);
    }
  }
}
