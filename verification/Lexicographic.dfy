/** The order of strings in sorted collections. */
module Lexicographic {

  predicate Less(a: string, b: string)
    decreases |a|
  {
    if b == "" then false
    else if a == "" then true
    else a[0] < b[0] || (a[0] == b[0] && Less(a[1..], b[1..]))
  }

  predicate AtMost(a: string, b: string) {
    a == b || Less(a, b)
  }

  lemma {:induction false} Irreflexive(a: string)
    ensures !Less(a, a)
    decreases |a|
  {
    if a != "" {
      Irreflexive(a[1..]);
    }
  }

  lemma {:induction false} Transitive(a: string, b: string, c: string)
    requires Less(a, b) && Less(b, c)
    ensures Less(a, c)
    decreases |a|
  {
    if a != "" && a[0] == b[0] == c[0] {
      Transitive(a[1..], b[1..], c[1..]);
    }
  }

  lemma {:induction false} Total(a: string, b: string)
    ensures Less(a, b) || a == b || Less(b, a)
    decreases |a|
  {
    if a != "" && b != "" && a[0] == b[0] {
      Total(a[1..], b[1..]);
      assert a == [a[0]] + a[1..] && b == [b[0]] + b[1..];
    }
  }

  /** Up to position `i` the texts agree; there the first one ends or has the smaller character. */
  predicate SmallerAt(a: string, b: string, i: nat) {
    i <= |a| && i < |b| && a[..i] == b[..i] && (i == |a| || a[i] < b[i])
  }

  /** The first difference decides. */
  lemma {:induction false} LessAtFirstDifference(a: string, b: string)
    ensures Less(a, b) <==> exists i: nat :: SmallerAt(a, b, i)
    decreases |a|
  {
    if a == "" {
      assert b != "" ==> SmallerAt(a, b, 0);
    } else if b != "" {
      LessAtFirstDifference(a[1..], b[1..]);
      if a[0] < b[0] {
        assert SmallerAt(a, b, 0);
      } else if Less(a, b) {
        var i: nat :| SmallerAt(a[1..], b[1..], i);
        assert a[..i + 1] == [a[0]] + a[1..][..i] && b[..i + 1] == [b[0]] + b[1..][..i];
        assert SmallerAt(a, b, i + 1);
      }
      if i: nat :| SmallerAt(a, b, i) {
        if i > 0 {
          assert a[0] == a[..i][0] == b[..i][0] == b[0];
          assert a[1..][..i - 1] == a[..i][1..] == b[..i][1..] == b[1..][..i - 1];
          assert SmallerAt(a[1..], b[1..], i - 1);
        }
      }
    }
  }

  /** A strict total order of keys. */
  ghost predicate IsStrictTotal(less: (string, string) -> bool) {
    && (forall a :: !less(a, a))
    && (forall a, b, c :: less(a, b) && less(b, c) ==> less(a, c))
    && (forall a, b :: less(a, b) || a == b || less(b, a))
  }

  lemma LessIsStrictTotal()
    ensures IsStrictTotal(Less)
  {
    forall a {
      Irreflexive(a);
    }
    forall a, b, c | Less(a, b) && Less(b, c) {
      Transitive(a, b, c);
    }
    forall a, b {
      Total(a, b);
    }
  }

  /** The order in which a map with ordered keys is visited; it need not be that of their texts. */
  type KeyOrder = less: (string, string) -> bool | IsStrictTotal(less) witness (LessIsStrictTotal(); Less)

  const LEXICOGRAPHIC: KeyOrder := (LessIsStrictTotal(); Less)

  predicate IsLeast(less: KeyOrder, k: string, keys: set<string>) {
    k in keys && forall l :: l in keys ==> k == l || less(k, l)
  }

  lemma {:induction false} LeastExists(less: KeyOrder, keys: set<string>) returns (k: string)
    requires keys != {}
    ensures IsLeast(less, k, keys)
  {
    k :| k in keys;
    var rest := keys - {k};
    assert forall x :: x in keys ==> x == k || x in rest;
    if rest != {} {
      var l := LeastExists(less, rest);
      if less(l, k) {
        k := l;
      }
    }
  }

  function Least(less: KeyOrder, keys: set<string>): (k: string)
    requires keys != {}
    ensures IsLeast(less, k, keys)
  {
    assert exists k :: IsLeast(less, k, keys) by {
      var k := LeastExists(less, keys);
    }
    var k :| IsLeast(less, k, keys);
    k
  }
}
