/**
  Byte strings as the ordered key-value engine sees them: keys are compared
  byte by byte (the order of `bytes.Compare`), and a prefix scan visits the keys
  that start with a prefix in ascending order.
 */
module ByteKeys {

  newtype byte = x: int | 0 <= x < 256

  /** A key of the engine; Go strings are byte sequences, so trace IDs are too. */
  type Key = seq<byte>

  predicate HasPrefix(k: Key, prefix: Key) {
    |prefix| <= |k| && k[..|prefix|] == prefix
  }

  /** Strict lexicographic order on byte strings: `bytes.Compare(a, b) < 0`. */
  predicate LexLess(a: Key, b: Key)
    decreases |a|
  {
    if |a| == 0 then |b| > 0
    else if |b| == 0 then false
    else if a[0] != b[0] then a[0] < b[0]
    else LexLess(a[1..], b[1..])
  }

  lemma {:induction false} LexIrreflexive(a: Key)
    ensures !LexLess(a, a)
    decreases |a|
  {
    if |a| > 0 {
      LexIrreflexive(a[1..]);
    }
  }

  lemma {:induction false} LexAsymmetric(a: Key, b: Key)
    requires LexLess(a, b)
    ensures !LexLess(b, a)
    decreases |a|
  {
    if |a| > 0 && a[0] == b[0] {
      LexAsymmetric(a[1..], b[1..]);
    }
  }

  lemma {:induction false} LexTransitive(a: Key, b: Key, c: Key)
    requires LexLess(a, b) && LexLess(b, c)
    ensures LexLess(a, c)
    decreases |a|
  {
    if |a| > 0 && a[0] == b[0] && b[0] == c[0] {
      LexTransitive(a[1..], b[1..], c[1..]);
    }
  }

  lemma {:induction false} LexTotal(a: Key, b: Key)
    requires a != b
    ensures LexLess(a, b) || LexLess(b, a)
    decreases |a|
  {
    if |a| > 0 && |b| > 0 && a[0] == b[0] {
      assert a == [a[0]] + a[1..] && b == [b[0]] + b[1..];
      LexTotal(a[1..], b[1..]);
    }
  }

  /** `m` is the smallest key of `s`. */
  predicate IsLeast(m: Key, s: set<Key>) {
    m in s && forall k :: k in s && k != m ==> LexLess(m, k)
  }

  lemma {:induction false} LeastExists(s: set<Key>)
    requires s != {}
    ensures exists m :: IsLeast(m, s)
    decreases |s|
  {
    var x :| x in s;
    if s == {x} {
      assert IsLeast(x, s);
    } else {
      LeastExists(s - {x});
      var m :| IsLeast(m, s - {x});
      LexTotal(x, m);
      if LexLess(x, m) {
        forall k | k in s && k != x
          ensures LexLess(x, k)
        {
          if k != m {
            LexTransitive(x, m, k);
          }
        }
        assert IsLeast(x, s);
      } else {
        assert IsLeast(m, s);
      }
    }
  }

  /** Strictly ascending, hence without duplicates. */
  predicate Ascending(ks: seq<Key>) {
    forall i, j :: 0 <= i < j < |ks| ==> LexLess(ks[i], ks[j])
  }

  /** The keys of `s` in the order a prefix scan visits them. */
  ghost function SortedKeys(s: set<Key>): (r: seq<Key>)
    ensures Ascending(r)
    ensures forall k :: k in r <==> k in s
    decreases |s|
  {
    if s == {} then []
    else
      LeastExists(s);
      var m :| IsLeast(m, s);
      var rest := SortedKeys(s - {m});
      assert forall j :: 0 <= j < |rest| ==> rest[j] in rest && LexLess(m, rest[j]);
      [m] + rest
  }

  /** The first key of an ascending sequence is its least element. */
  lemma AscendingHeadIsLeast(ks: seq<Key>)
    requires Ascending(ks) && ks != []
    ensures IsLeast(ks[0], set k | k in ks)
  {
    forall k | k in ks && k != ks[0]
      ensures LexLess(ks[0], k)
    {
      var j :| 0 <= j < |ks| && ks[j] == k;
    }
  }

  lemma LeastUnique(m1: Key, m2: Key, s: set<Key>)
    requires IsLeast(m1, s) && IsLeast(m2, s)
    ensures m1 == m2
  {
    if m1 != m2 {
      LexAsymmetric(m1, m2);
    }
  }

  /** There is only one ascending enumeration of a set of keys. */
  lemma {:induction false} AscendingUnique(a: seq<Key>, b: seq<Key>)
    requires Ascending(a) && Ascending(b)
    requires forall k :: k in a <==> k in b
    ensures a == b
    decreases |a|
  {
    assert a == [] || a[0] in a;
    assert b == [] || b[0] in b;
    if a != [] && b != [] {
      AscendingHeadIsLeast(a);
      AscendingHeadIsLeast(b);
      assert (set k | k in a) == (set k | k in b);
      LeastUnique(a[0], b[0], set k | k in a);
      forall k
        ensures k in a[1..] <==> k in b[1..]
      {
        if k in a[1..] {
          var i :| 1 <= i < |a| && a[i] == k;
          assert LexLess(a[0], a[i]);
          LexIrreflexive(k);
          assert k in b && k != b[0];
          var j :| 0 <= j < |b| && b[j] == k;
          assert j != 0;
          assert b[j] in b[1..];
        }
        if k in b[1..] {
          var j :| 1 <= j < |b| && b[j] == k;
          assert LexLess(b[0], b[j]);
          LexIrreflexive(k);
          assert k in a && k != a[0];
          var i :| 0 <= i < |a| && a[i] == k;
          assert i != 0;
          assert a[i] in a[1..];
        }
      }
      AscendingUnique(a[1..], b[1..]);
      assert a == [a[0]] + a[1..] && b == [b[0]] + b[1..];
    }
  }

  /** The sorted enumeration of a single key. */
  lemma SortedSingleton(k: Key)
    ensures SortedKeys({k}) == [k]
  {
    AscendingUnique(SortedKeys({k}), [k]);
  }

  /** Removing one key from a set removes exactly that key from its enumeration. */
  function Without(ks: seq<Key>, x: Key): (r: seq<Key>)
    ensures forall k :: k in r <==> k in ks && k != x
    ensures Ascending(ks) ==> Ascending(r)
    decreases |ks|
  {
    if ks == [] then []
    else
      var rest := Without(ks[..|ks| - 1], x);
      var last := ks[|ks| - 1];
      assert Ascending(ks) ==> Ascending(ks[..|ks| - 1]);
      assert Ascending(ks) ==> forall j :: 0 <= j < |rest| ==> LexLess(rest[j], last) by {
        if Ascending(ks) {
          forall j | 0 <= j < |rest|
            ensures LexLess(rest[j], last)
          {
            assert rest[j] in ks[..|ks| - 1];
          }
        }
      }
      if last == x then rest else rest + [last]
  }

  lemma SortedKeysRemove(s: set<Key>, x: Key)
    ensures SortedKeys(s - {x}) == Without(SortedKeys(s), x)
  {
    AscendingUnique(SortedKeys(s - {x}), Without(SortedKeys(s), x));
  }
}
