/** Validated key/value pairs such as labels, and how duplicate keys are resolved. */
module KeyValuePairs {
  import opened Wrappers
  import opened Lexicographic

  /** A validated pair. Keys are compared by their canonical text, pairs by key and then by value. */
  datatype Pair = Pair(key: string, value: string)

  datatype Error = InvalidKey(key: string) | InvalidValue(key: string, value: string)

  /** The parsers of keys and values; different texts may denote one key. */
  datatype Parsers = Parsers(key: string -> Option<string>, value: string -> Option<string>)

  function ParsePair(p: Parsers, raw: (string, string)): Result<Pair, Error> {
    match p.key(raw.0)
    case None => Err(InvalidKey(raw.0))
    case Some(key) =>
      match p.value(raw.1)
      case None => Err(InvalidValue(key, raw.1))
      case Some(value) => Ok(Pair(key, value))
  }

  /** Collects the pairs into a sorted set and stops at the first that is invalid. */
  function Collect(p: Parsers, raw: seq<(string, string)>): Result<set<Pair>, Error> {
    if raw == [] then Ok({})
    else
      var pair :- ParsePair(p, raw[0]);
      var rest :- Collect(p, raw[1..]);
      Ok({pair} + rest)
  }

  predicate PairAtMost(a: Pair, b: Pair) {
    Less(a.key, b.key) || (a.key == b.key && AtMost(a.value, b.value))
  }

  function ValuesOf(pairs: set<Pair>, key: string): set<string> {
    set x | x in pairs && x.key == key :: x.value
  }

  /** The first pair of the sorted set. */
  function LeastPair(pairs: set<Pair>): (r: Pair)
    requires pairs != {}
    ensures r in pairs && forall q :: q in pairs ==> PairAtMost(r, q)
  {
    var keys := set x | x in pairs :: x.key;
    assert keys != {} by { var x :| x in pairs; assert x.key in keys; }
    var k := Least(LEXICOGRAPHIC, keys);
    var values := ValuesOf(pairs, k);
    assert values != {} by { var x :| x in pairs && x.key == k; assert x.value in values; }
    var r := Pair(k, Least(LEXICOGRAPHIC, values));
    assert forall q :: q in pairs && q.key == k ==> q.value in values;
    assert forall q :: q in pairs ==> q.key in keys;
    r
  }

  /** Inserts the pairs in ascending order, so a later pair of the same key overwrites an earlier one. */
  function InsertAscending(pairs: set<Pair>, m: map<string, string>): map<string, string>
    decreases |pairs|
  {
    if pairs == {} then m
    else
      var first := LeastPair(pairs);
      InsertAscending(pairs - {first}, m[first.key := first.value])
  }

  function TryFromIter(p: Parsers, raw: seq<(string, string)>): Result<map<string, string>, Error> {
    var pairs :- Collect(p, raw);
    Ok(InsertAscending(pairs, map[]))
  }

  /** Everything inserted so far is smaller than what is still to come. */
  ghost predicate Below(m: map<string, string>, pairs: set<Pair>) {
    forall k, q :: k in m && q in pairs ==> PairAtMost(Pair(k, m[k]), q)
  }

  /** Each key ends up with the greatest of its values. */
  lemma {:induction false} GreatestValueWins(pairs: set<Pair>, m: map<string, string>)
    requires Below(m, pairs)
    ensures var r := InsertAscending(pairs, m);
            && (forall k :: k in r <==> k in m || exists q :: q in pairs && q.key == k)
            && (forall k :: k in r ==> Pair(k, r[k]) in pairs || (k in m && r[k] == m[k]))
            && (forall q :: q in pairs ==> q.key in r && AtMost(q.value, r[q.key]))
            && (forall k :: k in m ==> AtMost(m[k], r[k]))
    decreases |pairs|
  {
    if pairs != {} {
      var first := LeastPair(pairs);
      var rest := pairs - {first};
      var next := m[first.key := first.value];
      GreatestValueWins(rest, next);
      var r := InsertAscending(rest, next);
      forall k | k in m
        ensures AtMost(m[k], r[k])
      {
        Irreflexive(k);
        if k == first.key {
          AtMostTransitive(m[k], first.value, r[k]);
        }
      }
      assert forall q :: q in pairs ==> q == first || q in rest;
    }
  }

  lemma AtMostTransitive(a: string, b: string, c: string)
    requires AtMost(a, b) && AtMost(b, c)
    ensures AtMost(a, c)
  {
    if Less(a, b) && Less(b, c) {
      Transitive(a, b, c);
    }
  }

  lemma {:induction false} CollectedPairs(p: Parsers, raw: seq<(string, string)>)
    ensures Collect(p, raw).Ok? <==> forall x :: x in raw ==> ParsePair(p, x).Ok?
    ensures Collect(p, raw).Ok? ==>
              forall q :: q in Collect(p, raw).value <==> exists x :: x in raw && ParsePair(p, x) == Ok(q)
    ensures Collect(p, raw).Err? ==>
              exists i :: 0 <= i < |raw| && ParsePair(p, raw[i]) == Err(Collect(p, raw).error) &&
                          forall j :: 0 <= j < i ==> ParsePair(p, raw[j]).Ok?
  {
    if raw != [] {
      var rest := raw[1..];
      CollectedPairs(p, rest);
      assert forall x :: x in raw <==> x == raw[0] || x in rest;
      if ParsePair(p, raw[0]).Ok? && Collect(p, rest).Err? {
        var i :| 0 <= i < |rest| && ParsePair(p, rest[i]) == Err(Collect(p, rest).error) &&
                 forall j :: 0 <= j < i ==> ParsePair(p, rest[j]).Ok?;
        assert raw[i + 1] == rest[i];
        assert forall j :: 0 < j < i + 1 ==> raw[j] == rest[j - 1];
      }
    }
  }

  /** For some given pair, the key parser accepts the first text and the value parser the second. */
  ghost predicate Given(p: Parsers, raw: seq<(string, string)>, q: Pair) {
    exists x :: x in raw && p.key(x.0) == Some(q.key) && p.value(x.1) == Some(q.value)
  }

  predicate IsValid(p: Parsers, x: (string, string)) {
    p.key(x.0).Some? && p.value(x.1).Some?
  }

  /** The error of an invalid pair: its key is checked first. */
  function PairError(p: Parsers, x: (string, string)): Error
    requires !IsValid(p, x)
  {
    if p.key(x.0).None? then InvalidKey(x.0) else InvalidValue(p.key(x.0).value, x.1)
  }

  /**
   * Construction succeeds exactly if every pair is valid; each key then maps to the greatest of the
   * values given for it.
   */
  lemma ConstructionKeepsGreatest(p: Parsers, raw: seq<(string, string)>)
    ensures TryFromIter(p, raw).Ok? <==> forall x :: x in raw ==> IsValid(p, x)
    ensures TryFromIter(p, raw).Err? ==>
              exists i :: 0 <= i < |raw| && !IsValid(p, raw[i]) && TryFromIter(p, raw).error == PairError(p, raw[i]) &&
                          forall j :: 0 <= j < i ==> IsValid(p, raw[j])
    ensures TryFromIter(p, raw).Ok? ==>
              var m := TryFromIter(p, raw).value;
              && (forall k :: k in m ==> Given(p, raw, Pair(k, m[k])))
              && (forall q :: Given(p, raw, q) ==> q.key in m && AtMost(q.value, m[q.key]))
  {
    CollectedPairs(p, raw);
    if Collect(p, raw).Ok? {
      var pairs := Collect(p, raw).value;
      GreatestValueWins(pairs, map[]);
      assert forall q :: q in pairs <==> Given(p, raw, q);
    }
  }

  /** Two inputs with the same pairs, in any order and number, give the same map or both fail. */
  lemma ConstructionIgnoresOrder(p: Parsers, a: seq<(string, string)>, b: seq<(string, string)>)
    requires forall x :: x in a <==> x in b
    ensures TryFromIter(p, a).Ok? <==> TryFromIter(p, b).Ok?
    ensures TryFromIter(p, a).Ok? ==> TryFromIter(p, a) == TryFromIter(p, b)
  {
    ConstructionKeepsGreatest(p, a);
    ConstructionKeepsGreatest(p, b);
    if TryFromIter(p, a).Ok? {
      var (m, n) := (TryFromIter(p, a).value, TryFromIter(p, b).value);
      assert forall q :: Given(p, a, q) <==> Given(p, b, q);
      forall k | k in m
        ensures k in n && m[k] == n[k]
      {
        assert Given(p, b, Pair(k, m[k]));
        assert Given(p, a, Pair(k, n[k]));
        if m[k] != n[k] {
          Transitive(m[k], n[k], m[k]);
          Irreflexive(m[k]);
        }
      }
      assert forall k :: k in n ==> Given(p, a, Pair(k, n[k]));
      assert m == n;
    }
  }
}
