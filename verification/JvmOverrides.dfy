/** Overrides of JVM arguments: the eager merge (v1) and the delayed one (v2). */
module JvmOverrides {
  import opened Wrappers
  import opened Layering

  /** A compiled regular expression, as the set of arguments it matches. */
  type Matcher = string -> bool

  /** The regex engine compiles a pattern or rejects it. */
  type Engine = string -> Option<Matcher>

  function TrimStart(s: string, c: char): string {
    if s != "" && s[0] == c then TrimStart(s[1..], c) else s
  }

  function TrimEnd(s: string, c: char): string {
    if s != "" && s[|s| - 1] == c then TrimEnd(s[..|s| - 1], c) else s
  }

  /** Patterns always match whole arguments. */
  function Anchored(pattern: string): string {
    "^" + TrimEnd(TrimStart(pattern, '^'), '$') + "$"
  }

  lemma {:induction false} TrimmedStart(s: string, c: char) returns (n: nat)
    ensures n <= |s| && TrimStart(s, c) == s[n..] && forall i :: 0 <= i < n ==> s[i] == c
    ensures n < |s| ==> s[n] != c
  {
    n := 0;
    if s != "" && s[0] == c {
      var m := TrimmedStart(s[1..], c);
      n := m + 1;
      assert forall i :: 0 < i < n ==> s[i] == s[1..][i - 1];
    }
  }

  lemma {:induction false} TrimmedEnd(s: string, c: char) returns (n: nat)
    ensures n <= |s| && TrimEnd(s, c) == s[..n] && forall i :: n <= i < |s| ==> s[i] == c
    ensures n > 0 ==> s[n - 1] != c
  {
    n := |s|;
    if s != "" && s[|s| - 1] == c {
      var init := s[..|s| - 1];
      n := TrimmedEnd(init, c);
      assert forall i :: 0 <= i < |init| ==> s[i] == init[i];
    }
  }

  /** A pattern loses all its leading carets and trailing dollars and gets one of each. */
  lemma AnchoredPattern(pattern: string) returns (from: nat, to: nat)
    ensures from <= to <= |pattern| && Anchored(pattern) == "^" + pattern[from..to] + "$"
    ensures (forall i :: 0 <= i < from ==> pattern[i] == '^') && (forall i :: to <= i < |pattern| ==> pattern[i] == '$')
    ensures from < to ==> pattern[from] != '^' && pattern[to - 1] != '$'
  {
    from := TrimmedStart(pattern, '^');
    var rest := pattern[from..];
    var n := TrimmedEnd(rest, '$');
    to := from + n;
    assert rest[..n] == pattern[from..to];
    assert forall i :: to <= i < |pattern| ==> pattern[i] == rest[i - from];
  }

  datatype Error = InvalidRegex

  function CompileAll(engine: Engine, patterns: seq<string>): (r: Result<seq<Matcher>, Error>)
    ensures r.Ok? <==> ValidPatterns(engine, patterns)
    ensures r.Ok? ==> |r.value| == |patterns|
    ensures r.Ok? ==> forall i :: 0 <= i < |patterns| ==> engine(Anchored(patterns[i])) == Some(r.value[i])
  {
    if patterns == [] then Ok([])
    else
      match engine(Anchored(patterns[0]))
      case None => Err(InvalidRegex)
      case Some(matcher) =>
        var rest :- CompileAll(engine, patterns[1..]);
        Ok([matcher] + rest)
  }

  predicate ValidPatterns(engine: Engine, patterns: seq<string>) {
    forall p :: p in patterns ==> engine(Anchored(p)).Some?
  }

  predicate AnyMatches(matchers: seq<Matcher>, arg: string) {
    exists i :: 0 <= i < |matchers| && matchers[i](arg)
  }

  /** The arguments that are neither removed exactly nor by a pattern, in order. */
  function Keep(args: seq<string>, remove: set<string>, matchers: seq<Matcher>): seq<string> {
    if args == [] then []
    else if args[0] in remove || AnyMatches(matchers, args[0]) then Keep(args[1..], remove, matchers)
    else [args[0]] + Keep(args[1..], remove, matchers)
  }

  /** Neither listed nor matched by a pattern. */
  ghost predicate Stays(arg: string, remove: set<string>, matchers: seq<Matcher>) {
    arg !in remove && forall i :: 0 <= i < |matchers| ==> !matchers[i](arg)
  }

  /** `kept` are the arguments at the given ascending positions, which are those of all that stay. */
  ghost predicate Survive(kept: seq<string>, positions: seq<nat>, args: seq<string>, remove: set<string>, matchers: seq<Matcher>) {
    && |kept| == |positions|
    && (forall j :: 0 <= j < |positions| ==> positions[j] < |args| && kept[j] == args[positions[j]])
    && (forall i, j :: 0 <= i < j < |positions| ==> positions[i] < positions[j])
    && (forall i :: 0 <= i < |args| ==> (i in positions <==> Stays(args[i], remove, matchers)))
  }

  lemma AnotherSurvives(kept: seq<string>, positions: seq<nat>, args: seq<string>, last: string, remove: set<string>, matchers: seq<Matcher>)
    requires Survive(kept, positions, args, remove, matchers) && Stays(last, remove, matchers)
    ensures Survive(kept + [last], positions + [|args|], args + [last], remove, matchers)
  {
    var (all, more) := (args + [last], positions + [|args|]);
    forall i | 0 <= i < |all|
      ensures i in more <==> Stays(all[i], remove, matchers)
    {
      assert i in more <==> i in positions || i == |args|;
    }
  }

  lemma AnotherIsRemoved(kept: seq<string>, positions: seq<nat>, args: seq<string>, last: string, remove: set<string>, matchers: seq<Matcher>)
    requires Survive(kept, positions, args, remove, matchers) && !Stays(last, remove, matchers)
    ensures Survive(kept, positions, args + [last], remove, matchers)
  {
    assert |args| !in positions;
  }

  /** Exactly the arguments that stay survive, in their order and number. */
  lemma {:induction false} KeepSurvivors(args: seq<string>, remove: set<string>, matchers: seq<Matcher>)
    returns (positions: seq<nat>)
    ensures Survive(Keep(args, remove, matchers), positions, args, remove, matchers)
  {
    positions := [];
    if args != [] {
      var (init, last) := (args[..|args| - 1], args[|args| - 1]);
      var kept := Keep(init, remove, matchers);
      positions := KeepSurvivors(init, remove, matchers);
      KeepLast(args, remove, matchers);
      assert args == init + [last];
      if Stays(last, remove, matchers) {
        AnotherSurvives(kept, positions, init, last, remove, matchers);
        positions := positions + [|init|];
      } else {
        AnotherIsRemoved(kept, positions, init, last, remove, matchers);
        assert kept + [] == kept;
      }
    }
  }

  lemma {:induction false} KeepLast(args: seq<string>, remove: set<string>, matchers: seq<Matcher>)
    requires args != []
    ensures var (init, last) := (args[..|args| - 1], args[|args| - 1]);
            Keep(args, remove, matchers) ==
            Keep(init, remove, matchers) + if Stays(last, remove, matchers) then [last] else []
  {
    if |args| == 1 {
      assert args[1..] == [] && args[..0] == [];
    } else {
      var rest := args[1..];
      KeepLast(rest, remove, matchers);
      assert args[..|args| - 1][1..] == rest[..|rest| - 1];
    }
  }

  // ----- Version 1: merged at once -----

  datatype EagerOverrides = EagerOverrides(add: seq<string>, remove: set<string>, removeRegex: seq<string>)

  /** Removes from the defaults, appends the additions; no removals are left. */
  function TryMerge(engine: Engine, self: EagerOverrides, defaults: EagerOverrides): Result<EagerOverrides, Error> {
    var matchers :- CompileAll(engine, self.removeRegex);
    Ok(EagerOverrides(Keep(defaults.add, self.remove, matchers) + self.add, {}, []))
  }

  /**
   * The eager merge: of the default arguments exactly those that are neither listed nor matched by a
   * pattern survive, in their order and number, followed by the additions.
   */
  lemma TryMergeResult(engine: Engine, self: EagerOverrides, defaults: EagerOverrides)
    returns (matchers: seq<Matcher>, kept: seq<string>, positions: seq<nat>)
    requires ValidPatterns(engine, self.removeRegex)
    ensures |matchers| == |self.removeRegex|
    ensures forall i :: 0 <= i < |matchers| ==> engine(Anchored(self.removeRegex[i])) == Some(matchers[i])
    ensures Survive(kept, positions, defaults.add, self.remove, matchers)
    ensures TryMerge(engine, self, defaults) == Ok(EagerOverrides(kept + self.add, {}, []))
  {
    matchers := CompileAll(engine, self.removeRegex).value;
    kept := Keep(defaults.add, self.remove, matchers);
    positions := KeepSurvivors(defaults.add, self.remove, matchers);
  }

  /** Role overrides are merged onto the operator's arguments, then those of the role group. */
  function MergedOverrides(engine: Engine, operator: EagerOverrides, role: EagerOverrides, roleGroup: EagerOverrides)
    : Result<EagerOverrides, Error>
  {
    var fromRole :- TryMerge(engine, role, operator);
    TryMerge(engine, roleGroup, fromRole)
  }

  /** Merges any number of layers, most specific first, onto the operator's arguments. */
  function MergeLayers(engine: Engine, layers: seq<EagerOverrides>, operator: EagerOverrides): Result<EagerOverrides, Error> {
    if layers == [] then Ok(operator)
    else
      var below :- MergeLayers(engine, layers[1..], operator);
      TryMerge(engine, layers[0], below)
  }

  /** Eager overrides that are merged in place. */
  class EagerCell {
    var current: EagerOverrides

    constructor (o: EagerOverrides)
      ensures current == o
    {
      current := o;
    }

    /** Replaces all three fields, or none if a pattern is invalid. */
    method TryMergeInPlace(engine: Engine, defaults: EagerOverrides) returns (r: Result<(), Error>)
      modifies this
      ensures r.Ok? <==> ValidPatterns(engine, old(current).removeRegex)
      ensures r.Ok? ==> TryMerge(engine, old(current), defaults) == Ok(current)
      ensures r.Err? ==> current == old(current)
    {
      var compiled := CompileAll(engine, current.removeRegex);
      if compiled.Err? {
        return Err(compiled.error);
      }
      var add := Keep(defaults.add, current.remove, compiled.value) + current.add;
      current := current.(add := add);
      current := current.(remove := {});
      current := current.(removeRegex := []);
      return Ok(());
    }
  }

  // ----- Version 2: collected and applied later -----

  datatype DelayedOverrides = DelayedOverrides(
    add: seq<string>,
    remove: set<string>,
    removeRegex: seq<Matcher>,
    preceding: seq<DelayedOverrides>)

  /** Deserialization compiles the patterns. */
  function Parse(engine: Engine, o: EagerOverrides): Result<DelayedOverrides, Error> {
    var matchers :- CompileAll(engine, o.removeRegex);
    Ok(DelayedOverrides(o.add, o.remove, matchers, []))
  }

  function Merge(self: DelayedOverrides, defaults: DelayedOverrides): DelayedOverrides {
    self.(preceding := self.preceding + [defaults])
  }

  function ApplyTo(o: DelayedOverrides, args: seq<string>): seq<string>
    decreases o, 1
  {
    Keep(ApplyPreceding(o, |o.preceding|, args), o.remove, o.removeRegex) + o.add
  }

  /** The first `n` preceding overrides, the last of them first. */
  function ApplyPreceding(o: DelayedOverrides, n: nat, args: seq<string>): seq<string>
    requires n <= |o.preceding|
    decreases o, 0, n
  {
    if n == 0 then args else ApplyPreceding(o, n - 1, ApplyTo(o.preceding[n - 1], args))
  }

  lemma {:induction false} PrecedingIsStable(o: DelayedOverrides, p: DelayedOverrides, n: nat, args: seq<string>)
    requires n <= |o.preceding| && n <= |p.preceding| && o.preceding[..n] == p.preceding[..n]
    ensures ApplyPreceding(o, n, args) == ApplyPreceding(p, n, args)
  {
    if n > 0 {
      assert o.preceding[n - 1] == o.preceding[..n][n - 1] == p.preceding[n - 1];
      assert o.preceding[..n - 1] == o.preceding[..n][..n - 1] == p.preceding[..n - 1];
      PrecedingIsStable(o, p, n - 1, ApplyTo(o.preceding[n - 1], args));
    }
  }

  lemma {:induction false} PrecedingAreLayers(o: DelayedOverrides, n: nat, args: seq<string>)
    requires n <= |o.preceding|
    ensures ApplyPreceding(o, n, args) == ApplyLayers(ApplyTo, o.preceding[..n], args)
  {
    if n > 0 {
      var (init, last) := (o.preceding[..n - 1], o.preceding[n - 1]);
      PrecedingAreLayers(o, n - 1, ApplyTo(last, args));
      assert o.preceding[..n] == init + [last];
      ApplyLayersAppend(ApplyTo, init, last, args);
    }
  }

  /**
   * Delayed overrides: of the arguments that the preceding overrides leave, the last of them applied
   * first, exactly those that are neither listed nor matched survive, in their order and number,
   * followed by the additions.
   */
  lemma ApplyToResult(o: DelayedOverrides, args: seq<string>) returns (kept: seq<string>, positions: seq<nat>)
    ensures Survive(kept, positions, ApplyLayers(ApplyTo, o.preceding, args), o.remove, o.removeRegex)
    ensures ApplyTo(o, args) == kept + o.add
  {
    var below := ApplyPreceding(o, |o.preceding|, args);
    PrecedingAreLayers(o, |o.preceding|, args);
    assert o.preceding[..|o.preceding|] == o.preceding;
    kept := Keep(below, o.remove, o.removeRegex);
    positions := KeepSurvivors(below, o.remove, o.removeRegex);
  }

  /** An argument is there in the end exactly if it was added, or was there before and stays. */
  lemma ApplyToMembers(o: DelayedOverrides, args: seq<string>, arg: string)
    ensures arg in ApplyTo(o, args) <==>
            || arg in o.add
            || (arg in ApplyLayers(ApplyTo, o.preceding, args) && arg !in o.remove
                && forall i :: 0 <= i < |o.removeRegex| ==> !o.removeRegex[i](arg))
  {
    var below := ApplyLayers(ApplyTo, o.preceding, args);
    var kept, positions := ApplyToResult(o, args);
    if arg in below && Stays(arg, o.remove, o.removeRegex) {
      var i :| 0 <= i < |below| && below[i] == arg;
      var j :| 0 <= j < |positions| && positions[j] == i;
      assert kept[j] == arg;
    }
    if arg in kept {
      var j :| 0 <= j < |kept| && kept[j] == arg;
      assert positions[j] in positions && below[positions[j]] == arg;
    }
  }

  /** Applying merged overrides is applying the defaults and then the overrides. */
  lemma MergeComposes(self: DelayedOverrides, defaults: DelayedOverrides, args: seq<string>)
    ensures ApplyTo(Merge(self, defaults), args) == ApplyTo(self, ApplyTo(defaults, args))
  {
    var merged := Merge(self, defaults);
    var n := |self.preceding|;
    assert merged.preceding[n] == defaults && merged.preceding[..n] == self.preceding[..n];
    PrecedingIsStable(merged, self, n, ApplyTo(defaults, args));
  }

  /** Delayed overrides that are merged in place. */
  class DelayedCell {
    var current: DelayedOverrides

    constructor (o: DelayedOverrides)
      ensures current == o
    {
      current := o;
    }

    /** Pushes the defaults onto the preceding overrides, so that they are applied before all others. */
    method MergeInPlace(defaults: DelayedOverrides)
      modifies this
      ensures current == Merge(old(current), defaults)
      ensures forall args :: ApplyTo(current, args) == ApplyTo(old(current), ApplyTo(defaults, args))
    {
      forall args
        ensures ApplyTo(Merge(current, defaults), args) == ApplyTo(current, ApplyTo(defaults, args))
      {
        MergeComposes(current, defaults, args);
      }
      current := current.(preceding := current.preceding + [defaults]);
    }
  }

  lemma OverridesCompose()
    ensures Composes(Merge, ApplyTo)
  {
    forall self, defaults, args
      ensures ApplyTo(Merge(self, defaults), args) == ApplyTo(self, ApplyTo(defaults, args))
    {
      MergeComposes(self, defaults, args);
    }
  }

  /** However delayed layers are grouped, they transform the arguments in the same way. */
  lemma AnyGroupingTransformsTheSame(g: Grouping<DelayedOverrides>, args: seq<string>)
    ensures ApplyTo(MergeGrouped(Merge, g), args) == ApplyLayers(ApplyTo, Layers(g), args)
  {
    OverridesCompose();
    GroupingIsIrrelevant(Merge, ApplyTo, g, args);
  }

  // ----- Both versions agree -----

  /** The delayed layers are the parsed eager ones. */
  ghost predicate ParsedFrom(engine: Engine, eager: seq<EagerOverrides>, delayed: seq<DelayedOverrides>) {
    |eager| == |delayed| && forall i :: 0 <= i < |eager| ==> Parse(engine, eager[i]) == Ok(delayed[i])
  }

  /**
   * The eager merge of any list of layers fails exactly if a layer has an invalid pattern, as
   * parsing does; otherwise it yields the arguments that any grouping of the delayed layers
   * yields, in the same order, with no removals left.
   */
  lemma {:induction false} EagerAgreesWithDelayed(engine: Engine, eager: seq<EagerOverrides>, operator: EagerOverrides)
    ensures MergeLayers(engine, eager, operator).Ok? <==>
            forall i :: 0 <= i < |eager| ==> Parse(engine, eager[i]).Ok?
    ensures forall delayed :: ParsedFrom(engine, eager, delayed) ==>
              && MergeLayers(engine, eager, operator).Ok?
              && MergeLayers(engine, eager, operator).value.add == ApplyLayers(ApplyTo, delayed, operator.add)
    ensures MergeLayers(engine, eager, operator).Ok? && eager != [] ==>
              MergeLayers(engine, eager, operator).value.remove == {} &&
              MergeLayers(engine, eager, operator).value.removeRegex == []
    decreases |eager|
  {
    if eager != [] {
      var rest := eager[1..];
      EagerAgreesWithDelayed(engine, rest, operator);
      assert forall i :: 0 <= i < |rest| ==> rest[i] == eager[i + 1];
      forall delayed | ParsedFrom(engine, eager, delayed)
        ensures MergeLayers(engine, eager, operator).Ok?
        ensures MergeLayers(engine, eager, operator).value.add == ApplyLayers(ApplyTo, delayed, operator.add)
      {
        assert ParsedFrom(engine, rest, delayed[1..]);
        assert Parse(engine, eager[0]) == Ok(delayed[0]);
        var below := ApplyLayers(ApplyTo, delayed[1..], operator.add);
        assert ApplyPreceding(delayed[0], 0, below) == below;
      }
    }
  }

  /** The role group and role overrides of both versions give the same arguments, order included. */
  lemma BothVersionsAgree(engine: Engine, operator: EagerOverrides, role: EagerOverrides, roleGroup: EagerOverrides)
    ensures MergedOverrides(engine, operator, role, roleGroup).Ok? <==>
            ValidPatterns(engine, role.removeRegex) && ValidPatterns(engine, roleGroup.removeRegex)
    ensures Parse(engine, role).Ok? <==> ValidPatterns(engine, role.removeRegex)
    ensures Parse(engine, roleGroup).Ok? <==> ValidPatterns(engine, roleGroup.removeRegex)
    ensures Parse(engine, role).Ok? && Parse(engine, roleGroup).Ok? ==>
              MergedOverrides(engine, operator, role, roleGroup).value.add ==
              ApplyTo(Merge(Parse(engine, roleGroup).value, Parse(engine, role).value), operator.add)
  {
    var eager := [roleGroup, role];
    assert eager[1..] == [role] && [role][1..] == [];
    assert MergeLayers(engine, [], operator) == Ok(operator);
    assert MergeLayers(engine, [role], operator) == TryMerge(engine, role, operator);
    assert MergeLayers(engine, eager, operator) == MergedOverrides(engine, operator, role, roleGroup);
    EagerAgreesWithDelayed(engine, eager, operator);
    if Parse(engine, role).Ok? && Parse(engine, roleGroup).Ok? {
      var (g, r) := (Parse(engine, roleGroup).value, Parse(engine, role).value);
      assert ParsedFrom(engine, eager, [g, r]);
      MergeComposes(g, r, operator.add);
      assert [g, r][1..] == [r] && [r][1..] == [];
    }
  }
}
