/** Validation of merged fragments and the path it reports for a missing required setting. */
module ConfigFragment {
  import opened Wrappers
  import opened ConfigMerge
  import opened Lexicographic

  /** The chain from a field to the root of the validated fragment. */
  datatype Validator = Validator(ident: Option<string>, parent: Option<Validator>)

  const ROOT := Validator(None, None)

  function FieldOf(v: Validator, ident: string): Validator {
    Validator(Some(ident), Some(v))
  }

  /** The identifiers of a chain from the field to the root. */
  function Idents(v: Validator): seq<string>
    decreases v, 1
  {
    (if v.ident.Some? then [v.ident.value] else []) + IdentsFrom(v.parent)
  }

  function IdentsFrom(v: Option<Validator>): seq<string> {
    if v.Some? then Idents(v.value) else []
  }

  datatype ValidationError = FieldRequired(idents: seq<string>)

  /** Walks the chain to its root. */
  method ErrorRequired(v: Validator) returns (e: ValidationError)
    ensures e == FieldRequired(Idents(v))
  {
    var idents := [];
    var current := Some(v);
    while current.Some?
      invariant idents + IdentsFrom(current) == Idents(v)
      decreases current
    {
      ghost var (before, rest) := (idents, IdentsFrom(current.value.parent));
      if current.value.ident.Some? {
        idents := idents + [current.value.ident.value];
        assert idents + rest == before + ([current.value.ident.value] + rest);
      } else {
        assert [] + rest == rest;
      }
      current := current.value.parent;
    }
    assert idents + [] == idents;
    return FieldRequired(idents);
  }

  function Joined(names: seq<string>): string {
    if names == [] then ""
    else if |names| == 1 then names[0]
    else names[0] + "." + Joined(names[1..])
  }

  function Reversed(names: seq<string>): (r: seq<string>)
    ensures |r| == |names|
  {
    if names == [] then [] else Reversed(names[1..]) + [names[0]]
  }

  lemma {:induction false} JoinedAppend(names: seq<string>, last: string)
    requires names != []
    ensures Joined(names + [last]) == Joined(names) + "." + last
  {
    if |names| > 1 {
      assert (names + [last])[1..] == names[1..] + [last];
      JoinedAppend(names[1..], last);
    } else {
      assert (names + [last])[1..] == [last];
    }
  }

  lemma {:induction false} ReversedConcat(a: seq<string>, b: seq<string>)
    ensures Reversed(a + b) == Reversed(b) + Reversed(a)
  {
    if a == [] {
      assert a + b == b;
    } else {
      assert (a + b)[1..] == a[1..] + b;
      ReversedConcat(a[1..], b);
    }
  }

  /** Prints the path from the root to the field, separated by dots. */
  method PrintPath(idents: seq<string>) returns (text: string)
    ensures text == Joined(Reversed(idents))
  {
    text := "";
    var i := |idents|;
    while i > 0
      invariant 0 <= i <= |idents|
      invariant text == Joined(Reversed(idents[i..]))
    {
      i := i - 1;
      ghost var done := Reversed(idents[i + 1..]);
      assert idents[i..][0] == idents[i] && idents[i..][1..] == idents[i + 1..];
      if i < |idents| - 1 {
        JoinedAppend(done, idents[i]);
        text := text + ".";
      }
      text := text + idents[i];
    }
    assert idents[0..] == idents;
  }

  // ----- Validation -----

  /** A validated value: required settings are set. */
  datatype Value =
    | Required(leaf: Leaf)
    | Optional(maybe: Option<Leaf>)
    | Fields(values: seq<Value>)
    | Entries(entries: map<string, Value>)
    | MaybeContent(content: Option<Value>)
    | MaybeChoice(choice: Option<Choice>)

  datatype Choice = Choice(tag: string, payload: Value)

  type Validated = Result<Value, ValidationError>

  /** Settings are validated in field and key order; the first error is returned. */
  function FromFragment(f: Fragment, sh: Shape, v: Validator): Validated
    requires HasShape(f, sh)
    decreases sh, 1, 0
  {
    match sh
    case AtomShape(required) =>
      if !required then Ok(Optional(f.value))
      else if f.value.Some? then Ok(Required(f.value.value))
      else Err(FieldRequired(Idents(v)))
    case StructShape(_) =>
      var fields :- FromFields(f, sh, v, 0);
      Ok(Fields(fields))
    case MapShape(_, _) =>
      var entries :- FromEntries(f, sh, v, f.entries.Keys);
      Ok(Entries(entries))
    case SectionShape(content) =>
      if f.content.None? then Ok(MaybeContent(None))
      else
        var value :- FromFragment(f.content.value, content, v);
        Ok(MaybeContent(Some(value)))
    case EnumShape(variants) =>
      if f.choice.None? then Ok(MaybeChoice(None))
      else
        var value :- FromFragment(f.choice.value.payload, variants[f.choice.value.tag], v);
        Ok(MaybeChoice(Some(Choice(f.choice.value.tag, value))))
  }

  function FromFields(f: Fragment, sh: Shape, v: Validator, i: nat): Result<seq<Value>, ValidationError>
    requires sh.StructShape? && HasShape(f, sh) && i <= |f.fields|
    decreases sh, 0, |f.fields| - i
  {
    if i == |f.fields| then Ok([])
    else
      var value :- FromFragment(f.fields[i], sh.fields[i].shape, FieldOf(v, sh.fields[i].name));
      var rest :- FromFields(f, sh, v, i + 1);
      Ok([value] + rest)
  }

  function FromEntries(f: Fragment, sh: Shape, v: Validator, keys: set<string>)
    : Result<map<string, Value>, ValidationError>
    requires sh.MapShape? && HasShape(f, sh) && keys <= f.entries.Keys
    decreases sh, 0, |keys|
  {
    if keys == {} then Ok(map[])
    else
      var k := Least(sh.order, keys);
      var value :- FromFragment(f.entries[k], sh.element, FieldOf(v, k));
      var rest :- FromEntries(f, sh, v, keys - {k});
      Ok(rest[k := value])
  }

  function Validate(f: Fragment, sh: Shape): Validated
    requires HasShape(f, sh)
  {
    FromFragment(f, sh, ROOT)
  }

  // ----- The first missing required setting -----

  /** A required leaf that exists in the fragment and is not set. */
  ghost predicate Missing(f: Fragment, sh: Shape, path: seq<Segment>) {
    ShapeAt(sh, path) == Some(AtomShape(true)) && At(f, path) == Some(Atom(None))
  }

  /** Field order in structs, key order in maps. */
  predicate Before(sh: Shape, p: seq<Segment>, q: seq<Segment>)
    decreases |p|
  {
    if p == [] || q == [] then false
    else if p[0] == q[0] then ChildShape(sh, p[0]).Some? && Before(ChildShape(sh, p[0]).value, p[1..], q[1..])
    else
      match (sh, p[0], q[0])
      case (StructShape(_), Field(i), Field(j)) => i < j
      case (MapShape(_, less), Key(k), Key(l)) => less(k, l)
      case _ => false
  }

  /** The names on a path: fields and keys; sections and enum payloads have none. */
  function Names(sh: Shape, path: seq<Segment>): seq<string>
    requires ShapeAt(sh, path).Some?
    decreases |path|
  {
    if path == [] then []
    else
      (match path[0]
       case Field(i) => [sh.fields[i].name]
       case Key(k) => [k]
       case _ => []) + Names(ChildShape(sh, path[0]).value, path[1..])
  }

  /** The error of `r` names `path`, and every missing leaf is at or after it. */
  ghost predicate ReportsFirst(f: Fragment, sh: Shape, v: Validator, e: ValidationError, path: seq<Segment>) {
    && Missing(f, sh, path)
    && e == FieldRequired(Reversed(Names(sh, path)) + Idents(v))
    && forall q :: Missing(f, sh, q) ==> q == path || Before(sh, path, q)
  }

  ghost predicate NothingMissing(f: Fragment, sh: Shape) {
    forall path :: !Missing(f, sh, path)
  }

  /** Lifts the first missing leaf of a child to its parent. */
  lemma LiftMissing(f: Fragment, sh: Shape, seg: Segment, q: seq<Segment>)
    requires Child(f, seg).Some? && ChildShape(sh, seg).Some?
    ensures Missing(f, sh, [seg] + q) <==> Missing(Child(f, seg).value, ChildShape(sh, seg).value, q)
  {
  }

  lemma MissingHasChild(f: Fragment, sh: Shape, q: seq<Segment>)
    requires Missing(f, sh, q) && HasShape(f, sh) && !sh.AtomShape?
    ensures q != [] && Child(f, q[0]).Some? && ChildShape(sh, q[0]).Some? && q == [q[0]] + q[1..]
    ensures Missing(Child(f, q[0]).value, ChildShape(sh, q[0]).value, q[1..])
  {
  }

  lemma NamesOfChild(sh: Shape, seg: Segment, q: seq<Segment>, name: string)
    requires ChildShape(sh, seg).Some? && ShapeAt(ChildShape(sh, seg).value, q).Some?
    requires seg.Key? || seg.Field?
    requires if seg.Key? then name == seg.key else name == sh.fields[seg.index].name
    ensures ShapeAt(sh, [seg] + q).Some?
    ensures Reversed(Names(sh, [seg] + q)) == Reversed(Names(ChildShape(sh, seg).value, q)) + [name]
  {
  }

  /** Sections and enum payloads are transparent for paths. */
  lemma TransparentChild(f: Fragment, sh: Shape, v: Validator, seg: Segment, e: ValidationError, p: seq<Segment>)
    requires HasShape(f, sh) && (sh.SectionShape? || sh.EnumShape?)
    requires Child(f, seg).Some? && ChildShape(sh, seg).Some?
    requires ReportsFirst(Child(f, seg).value, ChildShape(sh, seg).value, v, e, p)
    ensures ReportsFirst(f, sh, v, e, [seg] + p)
  {
    LiftMissing(f, sh, seg, p);
    assert ([seg] + p)[1..] == p;
    assert Names(sh, [seg] + p) == Names(ChildShape(sh, seg).value, p);
    forall q: seq<Segment> | Missing(f, sh, q)
      ensures q == [seg] + p || Before(sh, [seg] + p, q)
    {
      MissingHasChild(f, sh, q);
    }
  }

  /**
   * Validation succeeds exactly if no required leaf is missing; otherwise it reports the first
   * missing one in field and key order, at any depth.
   */
  lemma {:induction false} FirstMissing(f: Fragment, sh: Shape, v: Validator) returns (path: seq<Segment>)
    requires HasShape(f, sh)
    ensures FromFragment(f, sh, v).Ok? ==> NothingMissing(f, sh)
    ensures FromFragment(f, sh, v).Err? ==> ReportsFirst(f, sh, v, FromFragment(f, sh, v).error, path)
    decreases sh, 1, 0
  {
    path := [];
    match sh
    case AtomShape(_) =>
      assert Reversed(Names(sh, path)) + Idents(v) == Idents(v);
    case StructShape(_) =>
      path := FirstMissingField(f, sh, v, 0);
      forall q: seq<Segment> | Missing(f, sh, q)
        ensures MissingFrom(f, sh, q, 0)
      {
        MissingHasChild(f, sh, q);
      }
    case MapShape(_, _) =>
      path := FirstMissingEntry(f, sh, v, f.entries.Keys);
      forall q: seq<Segment> | Missing(f, sh, q)
        ensures MissingAmong(f, sh, q, f.entries.Keys)
      {
        MissingHasChild(f, sh, q);
      }
    case SectionShape(content) =>
      path := FirstMissingInside(f, sh, v, Content);
    case EnumShape(variants) =>
      if f.choice.Some? {
        path := FirstMissingInside(f, sh, v, Payload(f.choice.value.tag));
      } else {
        path := FirstMissingInside(f, sh, v, Content);
      }
  }

  lemma {:induction false} FirstMissingInside(f: Fragment, sh: Shape, v: Validator, seg: Segment) returns (path: seq<Segment>)
    requires HasShape(f, sh) && (sh.SectionShape? || sh.EnumShape?)
    requires sh.SectionShape? ==> seg == Content
    requires sh.EnumShape? && f.choice.Some? ==> seg == Payload(f.choice.value.tag)
    ensures FromFragment(f, sh, v).Ok? ==> NothingMissing(f, sh)
    ensures FromFragment(f, sh, v).Err? ==> ReportsFirst(f, sh, v, FromFragment(f, sh, v).error, path)
    decreases sh, 0, 0
  {
    path := [];
    if Child(f, seg).Some? {
      var p := FirstMissing(Child(f, seg).value, ChildShape(sh, seg).value, v);
      path := [seg] + p;
      if FromFragment(f, sh, v).Err? {
        TransparentChild(f, sh, v, seg, FromFragment(f, sh, v).error, p);
      }
    }
    forall q: seq<Segment> | Missing(f, sh, q)
      ensures FromFragment(f, sh, v).Err?
    {
      MissingHasChild(f, sh, q);
    }
  }

  /** An error below a named child carries the name. */
  lemma LiftError(sh: Shape, v: Validator, seg: Segment, name: string, p: seq<Segment>)
    requires ChildShape(sh, seg).Some? && ShapeAt(ChildShape(sh, seg).value, p).Some? && (seg.Key? || seg.Field?)
    requires if seg.Key? then name == seg.key else name == sh.fields[seg.index].name
    ensures ShapeAt(sh, [seg] + p).Some?
    ensures Reversed(Names(sh, [seg] + p)) + Idents(v)
         == Reversed(Names(ChildShape(sh, seg).value, p)) + Idents(FieldOf(v, name))
  {
    var child := Reversed(Names(ChildShape(sh, seg).value, p));
    NamesOfChild(sh, seg, p, name);
    assert IdentsFrom(Some(v)) == Idents(v);
    assert child + [name] + Idents(v) == child + ([name] + Idents(v));
  }

  /** The first missing leaf of a child is the first of its parent below that child. */
  lemma LiftFirst(f: Fragment, sh: Shape, seg: Segment, p: seq<Segment>)
    requires Child(f, seg).Some? && ChildShape(sh, seg).Some?
    requires Missing(Child(f, seg).value, ChildShape(sh, seg).value, p)
    requires forall q :: Missing(Child(f, seg).value, ChildShape(sh, seg).value, q) ==> q == p || Before(ChildShape(sh, seg).value, p, q)
    ensures Missing(f, sh, [seg] + p)
    ensures forall q :: Missing(f, sh, q) && q != [] && q[0] == seg ==> q == [seg] + p || Before(sh, [seg] + p, q)
  {
    LiftMissing(f, sh, seg, p);
    forall q: seq<Segment> | Missing(f, sh, q) && q != [] && q[0] == seg
      ensures q == [seg] + p || Before(sh, [seg] + p, q)
    {
      assert q == [seg] + q[1..] && ([seg] + p)[1..] == p;
      LiftMissing(f, sh, seg, q[1..]);
    }
  }

  lemma NothingMissingBelow(f: Fragment, sh: Shape, seg: Segment, q: seq<Segment>)
    requires Child(f, seg).Some? && ChildShape(sh, seg).Some?
    requires NothingMissing(Child(f, seg).value, ChildShape(sh, seg).value)
    requires q != [] && q[0] == seg
    ensures !Missing(f, sh, q)
  {
    assert q == [seg] + q[1..];
    LiftMissing(f, sh, seg, q[1..]);
  }

  /** A missing leaf in a field from the `i`-th on. */
  ghost predicate MissingFrom(f: Fragment, sh: Shape, q: seq<Segment>, i: nat) {
    q != [] && q[0].Field? && q[0].index >= i && Missing(f, sh, q)
  }

  lemma {:induction false} FirstMissingField(f: Fragment, sh: Shape, v: Validator, i: nat) returns (path: seq<Segment>)
    requires sh.StructShape? && HasShape(f, sh) && i <= |f.fields|
    ensures FromFields(f, sh, v, i).Ok? ==> forall q :: !MissingFrom(f, sh, q, i)
    ensures FromFields(f, sh, v, i).Err? ==>
              && MissingFrom(f, sh, path, i)
              && FromFields(f, sh, v, i).error == FieldRequired(Reversed(Names(sh, path)) + Idents(v))
              && forall q :: MissingFrom(f, sh, q, i) ==> q == path || Before(sh, path, q)
    decreases sh, 0, |f.fields| - i
  {
    path := [];
    if i < |f.fields| {
      var name := sh.fields[i].name;
      var head := FromFragment(f.fields[i], sh.fields[i].shape, FieldOf(v, name));
      var p := FirstMissing(f.fields[i], sh.fields[i].shape, FieldOf(v, name));
      if head.Err? {
        path := [Field(i)] + p;
        LiftFirst(f, sh, Field(i), p);
        LiftError(sh, v, Field(i), name, p);
      } else {
        path := FirstMissingField(f, sh, v, i + 1);
        forall q: seq<Segment> | MissingFrom(f, sh, q, i)
          ensures MissingFrom(f, sh, q, i + 1)
        {
          if q[0].index == i {
            NothingMissingBelow(f, sh, Field(i), q);
          }
        }
      }
    }
  }

  /** A missing leaf in an entry with one of the keys. */
  ghost predicate MissingAmong(f: Fragment, sh: Shape, q: seq<Segment>, keys: set<string>) {
    q != [] && q[0].Key? && q[0].key in keys && Missing(f, sh, q)
  }

  lemma {:induction false} FirstMissingEntry(f: Fragment, sh: Shape, v: Validator, keys: set<string>)
    returns (path: seq<Segment>)
    requires sh.MapShape? && HasShape(f, sh) && keys <= f.entries.Keys
    ensures FromEntries(f, sh, v, keys).Ok? ==> forall q :: !MissingAmong(f, sh, q, keys)
    ensures FromEntries(f, sh, v, keys).Err? ==>
              && MissingAmong(f, sh, path, keys)
              && FromEntries(f, sh, v, keys).error == FieldRequired(Reversed(Names(sh, path)) + Idents(v))
              && forall q :: MissingAmong(f, sh, q, keys) ==> q == path || Before(sh, path, q)
    decreases sh, 0, |keys|
  {
    path := [];
    if keys != {} {
      var k := Least(sh.order, keys);
      var head := FromFragment(f.entries[k], sh.element, FieldOf(v, k));
      var p := FirstMissing(f.entries[k], sh.element, FieldOf(v, k));
      if head.Err? {
        path := [Key(k)] + p;
        LiftFirst(f, sh, Key(k), p);
        LiftError(sh, v, Key(k), k, p);
      } else {
        path := FirstMissingEntry(f, sh, v, keys - {k});
        forall q: seq<Segment> | MissingAmong(f, sh, q, keys)
          ensures MissingAmong(f, sh, q, keys - {k})
        {
          if q[0].key == k {
            NothingMissingBelow(f, sh, Key(k), q);
          }
        }
      }
    }
  }

  /** The text of the error is the dotted path from the root to the first missing leaf. */
  method ValidateAndPrint(f: Fragment, sh: Shape) returns (text: Option<string>, ghost path: seq<Segment>)
    requires HasShape(f, sh)
    ensures text.None? <==> NothingMissing(f, sh)
    ensures text.Some? ==> Missing(f, sh, path) && text.value == Joined(Names(sh, path))
    ensures text.Some? ==> forall q :: Missing(f, sh, q) ==> q == path || Before(sh, path, q)
  {
    path := FirstMissing(f, sh, ROOT);
    match Validate(f, sh)
    case Ok(_) => text := None;
    case Err(e) =>
      var printed := PrintPath(e.idents);
      ReversedTwice(Names(sh, path));
      assert e.idents == Reversed(Names(sh, path));
      text := Some(printed);
  }

  lemma {:induction false} ReversedTwice(names: seq<string>)
    ensures Reversed(Reversed(names)) == names
  {
    if names != [] {
      ReversedConcat(Reversed(names[1..]), [names[0]]);
      ReversedTwice(names[1..]);
      assert Reversed([names[0]]) == [names[0]];
    }
  }

  // ----- Validation loses nothing -----

  /** A validated value as a fragment again. */
  function Embed(v: Value): Fragment {
    match v
    case Required(leaf) => Atom(Some(leaf))
    case Optional(maybe) => Atom(maybe)
    case Fields(values) => Struct(seq(|values|, i requires 0 <= i < |values| => Embed(values[i])))
    case Entries(entries) => Map(map k | k in entries :: Embed(entries[k]))
    case MaybeContent(None) => Section(None)
    case MaybeContent(Some(content)) => Section(Some(Embed(content)))
    case MaybeChoice(None) => Enum(None)
    case MaybeChoice(Some(choice)) => Enum(Some(Variant(choice.tag, Embed(choice.payload))))
  }

  /** A successful validation returns the fragment itself, only typed. */
  lemma {:induction false} ValidationLosesNothing(f: Fragment, sh: Shape, v: Validator)
    requires HasShape(f, sh) && FromFragment(f, sh, v).Ok?
    ensures Embed(FromFragment(f, sh, v).value) == f
    decreases sh, 1, 0
  {
    match sh
    case AtomShape(_) =>
    case StructShape(_) =>
      FieldsLoseNothing(f, sh, v, 0);
    case MapShape(_, _) =>
      EntriesLoseNothing(f, sh, v, f.entries.Keys);
    case SectionShape(content) =>
      if f.content.Some? {
        ValidationLosesNothing(f.content.value, content, v);
      }
    case EnumShape(variants) =>
      if f.choice.Some? {
        ValidationLosesNothing(f.choice.value.payload, variants[f.choice.value.tag], v);
      }
  }

  lemma {:induction false} FieldsLoseNothing(f: Fragment, sh: Shape, v: Validator, i: nat)
    requires sh.StructShape? && HasShape(f, sh) && i <= |f.fields| && FromFields(f, sh, v, i).Ok?
    ensures var values := FromFields(f, sh, v, i).value;
            |values| == |f.fields| - i && forall j :: 0 <= j < |values| ==> Embed(values[j]) == f.fields[i + j]
    decreases sh, 0, |f.fields| - i
  {
    if i < |f.fields| {
      ValidationLosesNothing(f.fields[i], sh.fields[i].shape, FieldOf(v, sh.fields[i].name));
      FieldsLoseNothing(f, sh, v, i + 1);
      var rest := FromFields(f, sh, v, i + 1).value;
      assert forall j :: 0 <= j < |rest| ==> Embed(rest[j]) == f.fields[i + 1 + j];
    }
  }

  lemma {:induction false} EntriesLoseNothing(f: Fragment, sh: Shape, v: Validator, keys: set<string>)
    requires sh.MapShape? && HasShape(f, sh) && keys <= f.entries.Keys && FromEntries(f, sh, v, keys).Ok?
    ensures var entries := FromEntries(f, sh, v, keys).value;
            entries.Keys == keys && forall k :: k in entries ==> Embed(entries[k]) == f.entries[k]
    decreases sh, 0, |keys|
  {
    if keys != {} {
      var k := Least(sh.order, keys);
      ValidationLosesNothing(f.entries[k], sh.element, FieldOf(v, k));
      EntriesLoseNothing(f, sh, v, keys - {k});
    }
  }

  // ----- Role group, role and default configuration -----

  function ValidateConfig(roleGroup: Fragment, role: Fragment, defaults: Fragment, sh: Shape): Validated
    requires HasShape(roleGroup, sh) && HasShape(role, sh) && HasShape(defaults, sh)
  {
    MergeKeepsShape(role, defaults, sh);
    MergeKeepsShape(roleGroup, Merge(role, defaults), sh);
    Validate(Merge(roleGroup, Merge(role, defaults)), sh)
  }

  /** A required leaf of the merged shape that no contributing layer sets. */
  ghost predicate Unset(layers: seq<Fragment>, sh: Shape, path: seq<Segment>) {
    && ShapeAt(sh, path) == Some(AtomShape(true))
    && Contributing(layers, path) != [] && FirstSet(Contributing(layers, path)).None?
  }

  /**
   * Validating the merged layers succeeds exactly if every required leaf of the merged shape is set
   * by a contributing layer; otherwise the first unset one is reported.
   */
  lemma ValidateConfigReportsFirstUnset(roleGroup: Fragment, role: Fragment, defaults: Fragment, sh: Shape)
    returns (path: seq<Segment>)
    requires HasShape(roleGroup, sh) && HasShape(role, sh) && HasShape(defaults, sh)
    ensures ValidateConfig(roleGroup, role, defaults, sh).Ok? <==>
            forall q :: !Unset([roleGroup, role, defaults], sh, q)
    ensures ValidateConfig(roleGroup, role, defaults, sh).Err? ==>
              && Unset([roleGroup, role, defaults], sh, path)
              && ValidateConfig(roleGroup, role, defaults, sh).error == FieldRequired(Reversed(Names(sh, path)))
              && forall q :: Unset([roleGroup, role, defaults], sh, q) ==> q == path || Before(sh, path, q)
  {
    var layers := [roleGroup, role, defaults];
    MergeKeepsShape(role, defaults, sh);
    MergeKeepsShape(roleGroup, Merge(role, defaults), sh);
    var merged := Merge(roleGroup, Merge(role, defaults));
    ThreeLayers(roleGroup, role, defaults);
    forall q
      ensures Unset(layers, sh, q) <==> Missing(merged, sh, q)
    {
      if ShapeAt(sh, q) == Some(AtomShape(true)) {
        LeafIsFirstSet(layers, sh, q);
      }
    }
    path := FirstMissing(merged, sh, ROOT);
    if Validate(merged, sh).Err? {
      assert Reversed(Names(sh, path)) + Idents(ROOT) == Reversed(Names(sh, path));
    }
  }

  /** On success, what stands at a path of the validated value is the merge of what contributes to it. */
  lemma ValidatedConfigAtPath(roleGroup: Fragment, role: Fragment, defaults: Fragment, sh: Shape, path: seq<Segment>)
    requires HasShape(roleGroup, sh) && HasShape(role, sh) && HasShape(defaults, sh)
    requires ValidateConfig(roleGroup, role, defaults, sh).Ok?
    ensures var (value, contributing) :=
              (Embed(ValidateConfig(roleGroup, role, defaults, sh).value), Contributing([roleGroup, role, defaults], path));
            && At(value, path) == MergeAny(contributing)
            && (ShapeAt(sh, path).Some? && ShapeAt(sh, path).value.AtomShape? ==>
                  At(value, path) == if contributing == [] then None else Some(Atom(FirstSet(contributing))))
  {
    var layers := [roleGroup, role, defaults];
    var merged := Merge(roleGroup, Merge(role, defaults));
    MergeKeepsShape(role, defaults, sh);
    MergeKeepsShape(roleGroup, Merge(role, defaults), sh);
    ThreeLayers(roleGroup, role, defaults);
    ValidationLosesNothing(merged, sh, ROOT);
    MergedLayersAtPath(layers, sh, path);
    if ShapeAt(sh, path).Some? && ShapeAt(sh, path).value.AtomShape? {
      LeafIsFirstSet(layers, sh, path);
    }
  }

  lemma ThreeLayers(a: Fragment, b: Fragment, c: Fragment)
    ensures MergeAll([a, b, c]) == Merge(a, Merge(b, c))
  {
    assert [a, b, c][1..] == [b, c] && [b, c][1..] == [c];
    assert MergeAll([b, c]) == Merge(b, c);
  }
}
