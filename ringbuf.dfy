/**
 * The bounded first-in first-out buffer of crates/core-metrics/src/ringbuf.rs.
 * The Rust value is a handle to a shared, locked deque; every clone of the
 * handle reaches the same deque, which a Dafny object reference models.
 */
module RingBuffer {
  import opened Collections

  /** The contents after pushing `v` onto `s`: the front goes first when the length has reached the capacity. */
  function Pushed<T>(s: seq<T>, cap: nat, v: T): (r: seq<T>)
    ensures |r| > 0 && r[|r| - 1] == v
    ensures cap == 0 ==> r == s + [v]
    ensures 0 < cap && |s| <= cap ==> r == (s + [v])[|s| + 1 - Min(|s| + 1, cap)..]
  {
    if |s| == cap && |s| > 0 then s[1..] + [v] else s + [v]
  }

  /** The last `cap` values of `u`, or all of them when there are fewer. */
  function Newest<T>(u: seq<T>, cap: nat): seq<T>
  {
    u[|u| - Min(|u|, cap)..]
  }

  /** The contents after pushing every value of `vs`, in order. */
  function PushedAll<T>(s: seq<T>, cap: nat, vs: seq<T>): seq<T>
    decreases |vs|
  {
    if vs == [] then s else PushedAll(Pushed(s, cap, vs[0]), cap, vs[1..])
  }

  /** A buffer of capacity at least one never holds more than its capacity. */
  lemma PushKeepsBound<T>(s: seq<T>, cap: nat, v: T)
    requires 0 < cap && |s| <= cap
    ensures |Pushed(s, cap, v)| <= cap
  {
  }

  /**
   * Pushing onto a buffer within its capacity (at least one) leaves the last
   * `cap` values of everything pushed so far, oldest first.
   */
  lemma {:induction false} PushedAllKeepsNewest<T>(s: seq<T>, cap: nat, vs: seq<T>)
    requires 0 < cap && |s| <= cap
    ensures PushedAll(s, cap, vs) == Newest(s + vs, cap)
    decreases |vs|
  {
    if vs == [] {
      assert s + vs == s;
    } else {
      var t := Pushed(s, cap, vs[0]);
      PushedAllKeepsNewest(t, cap, vs[1..]);
      PushThenNewest(s, cap, vs);
    }
  }

  /** One push, then keeping the newest of the rest, is keeping the newest of everything. */
  lemma PushThenNewest<T>(s: seq<T>, cap: nat, vs: seq<T>)
    requires 0 < cap && |s| <= cap && vs != []
    ensures Newest(Pushed(s, cap, vs[0]) + vs[1..], cap) == Newest(s + vs, cap)
  {
    var u := s + vs;
    assert u == (s + [vs[0]]) + vs[1..];
    if |s| < cap {
      assert Pushed(s, cap, vs[0]) == s + [vs[0]];
    } else {
      assert Pushed(s, cap, vs[0]) + vs[1..] == u[1..] by {
        assert Pushed(s, cap, vs[0]) == s[1..] + [vs[0]];
      }
      assert Min(|u[1..]|, cap) == cap && Min(|u|, cap) == cap;
      SuffixOfSuffix(u, 1, |u| - 1 - cap);
    }
  }

  lemma SuffixOfSuffix<T>(u: seq<T>, k: nat, a: nat)
    requires k + a <= |u|
    ensures u[k..][a..] == u[k + a..]
  {
  }

  /** n pushes onto an empty buffer of capacity at least one keep the last min(n, cap) values. */
  lemma {:induction false} PushedAllFromEmpty<T>(cap: nat, vs: seq<T>)
    requires 0 < cap
    ensures PushedAll([], cap, vs) == Newest(vs, cap)
  {
    var empty: seq<T> := [];
    PushedAllKeepsNewest(empty, cap, vs);
    assert empty + vs == vs;
  }

  /** With capacity zero nothing is ever evicted: the buffer grows by one per push. */
  lemma {:induction false} ZeroCapacityGrows<T>(s: seq<T>, vs: seq<T>)
    ensures PushedAll(s, 0, vs) == s + vs
    decreases |vs|
  {
    if vs == [] {
      assert s + vs == s;
    } else {
      ZeroCapacityGrows(s + [vs[0]], vs[1..]);
      assert (s + [vs[0]]) + vs[1..] == s + vs;
    }
  }

  class RingBuf<T> {
    const cap: nat
    var contents: seq<T>

    /** Within capacity, except that capacity zero bounds nothing. */
    ghost predicate Valid()
      reads this
    {
      0 < cap ==> |contents| <= cap
    }

    constructor (cap: nat)
      ensures this.cap == cap && contents == []
      ensures Valid()
    {
      this.cap := cap;
      contents := [];
    }

    method Push(v: T)
      requires Valid()
      modifies this
      ensures Valid()
      ensures contents == Pushed(old(contents), cap, v)
    {
      var c := contents;
      if |c| == cap && |c| > 0 {
        c := c[1..];
      }
      contents := c + [v];
    }

    /** A copy of the contents, front to back; the buffer is left as it was. */
    method Snapshot() returns (items: seq<T>)
      ensures items == contents
    {
      items := contents;
    }
  }

  /** Three pushes onto a buffer of capacity two keep the last two values. */
  method EvictionScenario() returns (items: seq<int>)
    ensures items == [2, 3]
  {
    var b := new RingBuf<int>(2);
    b.Push(1);
    b.Push(2);
    b.Push(3);
    items := b.Snapshot();
  }

  /** Capacity zero: every push is kept. */
  method ZeroCapacityScenario() returns (items: seq<int>)
    ensures items == [1, 2, 3]
  {
    var b := new RingBuf<int>(0);
    b.Push(1);
    b.Push(2);
    b.Push(3);
    items := b.Snapshot();
  }
}
