/** Generic sequence helpers: duplicates, first occurrences, prefixes. */
module Seqs {

  predicate NoDups<T(==)>(s: seq<T>) {
    forall i, j :: 0 <= i < j < |s| ==> s[i] != s[j]
  }

  /** Index of the first occurrence of `x` in `s`. */
  function FirstIndex<T(==)>(s: seq<T>, x: T): (i: nat)
    requires x in s
    ensures i < |s| && s[i] == x && x !in s[..i]
  {
    if s[0] == x then 0 else 1 + FirstIndex(s[1..], x)
  }

  /** Python's `s[:n]` for n >= 0. */
  function Take<T>(s: seq<T>, n: nat): (r: seq<T>)
    ensures |r| <= n && |r| <= |s| && r == s[..|r|]
    ensures |s| >= n ==> |r| == n
  {
    if |s| <= n then s else s[..n]
  }

  /**
   * Python's `list(dict.fromkeys(s))`: the distinct elements of `s`, each kept
   * at its first occurrence, in order.
   */
  function Unique<T(==,!new)>(s: seq<T>): (u: seq<T>)
    ensures forall x :: x in u <==> x in s
    ensures |u| <= |s|
  {
    if s == [] then []
    else
      var p := s[..|s| - 1];
      var x := s[|s| - 1];
      assert s == p + [x];
      var u := Unique(p);
      if x in u then u else u + [x]
  }

  lemma {:induction false} FirstIndexOfPrefix<T>(s: seq<T>, n: nat, x: T)
    requires n <= |s| && x in s[..n]
    ensures FirstIndex(s, x) == FirstIndex(s[..n], x)
  {
    if s[0] != x {
      assert s[..n][1..] == s[1..][..n - 1];
      FirstIndexOfPrefix(s[1..], n - 1, x);
    }
  }

  /** `Unique` keeps no element twice and lists elements in the order of their first occurrence. */
  lemma {:induction false} UniqueFirstOccurrenceOrder<T(!new)>(s: seq<T>)
    ensures NoDups(Unique(s))
    ensures forall i, j :: 0 <= i < j < |Unique(s)| ==>
              FirstIndex(s, Unique(s)[i]) < FirstIndex(s, Unique(s)[j])
  {
    if s != [] {
      var p := s[..|s| - 1];
      var u := Unique(p);
      var x := s[|s| - 1];
      UniqueFirstOccurrenceOrder(p);
      forall y | y in u ensures FirstIndex(s, y) == FirstIndex(p, y) && FirstIndex(s, y) < |s| - 1 {
        FirstIndexOfPrefix(s, |s| - 1, y);
      }
      if x !in u {
        assert x !in p;
        assert s[..|s| - 1] == p;
        assert FirstIndex(s, x) == |s| - 1;
        var r := u + [x];
        assert r == Unique(s);
        forall i, j | 0 <= i < j < |r| ensures r[i] in s && r[j] in s && FirstIndex(s, r[i]) < FirstIndex(s, r[j]) {
          assert r[i] in r && r[j] in r;
          if j < |u| {
            assert r[i] == u[i] && r[j] == u[j];
          } else {
            assert r[i] == u[i] && r[j] == x;
          }
        }
      }
    }
  }

  /** Counting occurrences. */
  function Count<T(==)>(s: seq<T>, x: T): nat {
    if s == [] then 0 else (if s[0] == x then 1 else 0) + Count(s[1..], x)
  }

  lemma {:induction false} CountAppend<T>(s: seq<T>, y: T, x: T)
    ensures Count(s + [y], x) == Count(s, x) + (if y == x then 1 else 0)
  {
    if s != [] {
      assert (s + [y])[1..] == s[1..] + [y];
      CountAppend(s[1..], y, x);
    }
  }

  /** Concatenation regroups freely. */
  lemma ConcatAssoc<T>(a: seq<T>, b: seq<T>, c: seq<T>)
    ensures (a + b) + c == a + (b + c)
  {
  }

  /**
   * A dictionary filled by assigning `vals[i]` to `keys[i]` in order, so that a later
   * assignment to the same key replaces an earlier one.
   */
  function Assigned<K(==), V>(keys: seq<K>, vals: seq<V>): map<K, V>
    requires |keys| == |vals|
  {
    if keys == [] then map[]
    else Assigned(keys[..|keys| - 1], vals[..|vals| - 1])[keys[|keys| - 1] := vals[|vals| - 1]]
  }

  /** Extending both sequences by one assignment extends the dictionary by it. */
  lemma AssignedSnoc<K, V>(keys: seq<K>, vals: seq<V>, i: nat)
    requires |keys| == |vals| && i < |keys|
    ensures Assigned(keys[..i + 1], vals[..i + 1]) == Assigned(keys[..i], vals[..i])[keys[i] := vals[i]]
  {
    assert keys[..i + 1][..i] == keys[..i];
    assert vals[..i + 1][..i] == vals[..i];
  }

  /** The dictionary's keys are exactly the assigned keys. */
  lemma {:induction false} AssignedKeys<K, V>(keys: seq<K>, vals: seq<V>)
    requires |keys| == |vals|
    ensures forall k :: k in Assigned(keys, vals) <==> k in keys
  {
    if keys != [] {
      var p := keys[..|keys| - 1];
      AssignedKeys(p, vals[..|vals| - 1]);
      assert keys == p + [keys[|keys| - 1]];
    }
  }

  /** A key holds the value of its last assignment. */
  lemma {:induction false} AssignedLastWins<K, V>(keys: seq<K>, vals: seq<V>, i: nat)
    requires |keys| == |vals| && i < |keys|
    requires forall j :: i < j < |keys| ==> keys[j] != keys[i]
    ensures keys[i] in Assigned(keys, vals) && Assigned(keys, vals)[keys[i]] == vals[i]
  {
    if i < |keys| - 1 {
      var p := keys[..|keys| - 1];
      assert p[i] == keys[i];
      forall j | i < j < |p| ensures p[j] != p[i] {
        assert p[j] == keys[j];
      }
      AssignedLastWins(p, vals[..|vals| - 1], i);
    }
  }
}
