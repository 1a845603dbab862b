/** Helpers over sequences and maps shared by the registries and the snapshot builder. */
module Collections {

  /** No element of `s` occurs twice. */
  ghost predicate Distinct<T>(s: seq<T>)
  {
    forall i, j :: 0 <= i < j < |s| ==> s[i] != s[j]
  }

  /** The elements of `s`, as a set. */
  function Elements<T>(s: seq<T>): set<T>
  {
    set x | x in s
  }

  /** The smaller of two naturals. */
  function Min(a: nat, b: nat): nat
  {
    if a <= b then a else b
  }

  /** Unsigned subtraction that stops at zero, as Rust's `saturating_sub`. */
  function SatSub(a: nat, b: nat): (r: nat)
    ensures r <= a
    ensures b <= a ==> r + b == a
    ensures a <= b ==> r == 0
  {
    if b <= a then a - b else 0
  }

  /** A sequence without repetitions has as many elements as its set of elements. */
  lemma {:induction false} DistinctCardinality<T>(s: seq<T>)
    requires Distinct(s)
    ensures |Elements(s)| == |s|
  {
    if s != [] {
      var t := s[1..];
      assert Distinct(t) by {
        forall i, j | 0 <= i < j < |t| ensures t[i] != t[j] {
          assert t[i] == s[i + 1] && t[j] == s[j + 1];
        }
      }
      DistinctCardinality(t);
      assert s == [s[0]] + t;
      assert Elements(s) == {s[0]} + Elements(t);
    }
  }

  /** A repetition-free sequence drawn from `universe` is no longer than `universe`. */
  lemma DistinctWithinBound<T>(s: seq<T>, universe: set<T>)
    requires Distinct(s)
    requires Elements(s) <= universe
    ensures |s| <= |universe|
  {
    DistinctCardinality(s);
    SubsetCardinality(Elements(s), universe);
  }

  lemma {:induction false} SubsetCardinality<T>(a: set<T>, b: set<T>)
    requires a <= b
    ensures |a| <= |b|
  {
    if a != {} {
      var x :| x in a;
      SubsetCardinality(a - {x}, b - {x});
    }
  }

  /** Two repetition-free sequences with no common element concatenate to a repetition-free sequence. */
  lemma DistinctConcat<T>(a: seq<T>, b: seq<T>)
    requires Distinct(a) && Distinct(b)
    requires forall x :: x in a ==> x !in b
    ensures Distinct(a + b)
  {
    var c := a + b;
    forall i, j | 0 <= i < j < |c| ensures c[i] != c[j] {
      if j < |a| {
        assert c[i] == a[i] && c[j] == a[j];
      } else if i >= |a| {
        assert c[i] == b[i - |a|] && c[j] == b[j - |a|];
      } else {
        assert c[i] == a[i] && c[j] == b[j - |a|];
        assert c[i] in a && c[j] in b;
      }
    }
  }

  /** In a repetition-free sequence, an element does not occur before its own position. */
  lemma DistinctPrefix<T>(s: seq<T>, j: nat)
    requires Distinct(s) && j < |s|
    ensures s[j] !in Elements(s[..j])
  {
    forall t | 0 <= t < j ensures s[..j][t] != s[j] {
      assert s[..j][t] == s[t];
    }
  }

  /**
   * Lists the keys of `m` once each, in an order the caller cannot rely on:
   * this is what iterating a Rust `HashMap` (keys(), values(), into_values()) gives.
   */
  method Enumerate<K, V>(m: map<K, V>) returns (ks: seq<K>)
    ensures Distinct(ks)
    ensures Elements(ks) == m.Keys
    ensures |ks| == |m|
  {
    ks := [];
    var rest := m.Keys;
    while rest != {}
      invariant rest <= m.Keys
      invariant Elements(ks) == m.Keys - rest
      invariant Distinct(ks)
      invariant |ks| + |rest| == |m.Keys|
      decreases |rest|
    {
      var k :| k in rest;
      assert k !in ks;
      assert Elements(ks + [k]) == Elements(ks) + {k};
      ks := ks + [k];
      rest := rest - {k};
    }
    assert |m| == |m.Keys|;
  }
}
