/** Merging of layered configuration fragments: atoms, structs, maps, optional sections and enums. */
module ConfigMerge {
  import opened Wrappers
  import opened Lexicographic

  /** The value of an atomic setting; atoms are never merged field by field. */
  type Leaf = string

  /** A fragment: every setting may be unset. */
  datatype Fragment =
    | Atom(value: Option<Leaf>)
    | Struct(fields: seq<Fragment>)
    | Map(entries: map<string, Fragment>)
    | Section(content: Option<Fragment>)
    | Enum(choice: Option<Variant>)

  datatype Variant = Variant(tag: string, payload: Fragment)

  /** The Rust type of a fragment. Enums are always optional, atoms may be required. */
  datatype Shape =
    | AtomShape(required: bool)
    | StructShape(fields: seq<FieldShape>)
    | MapShape(element: Shape, order: KeyOrder)
    | SectionShape(content: Shape)
    | EnumShape(variants: map<string, Shape>)

  datatype FieldShape = FieldShape(name: string, shape: Shape)

  ghost predicate HasShape(f: Fragment, sh: Shape)
    decreases sh
  {
    match sh
    case AtomShape(_) => f.Atom?
    case StructShape(fields) =>
      && f.Struct? && |f.fields| == |fields|
      && forall i :: 0 <= i < |fields| ==> HasShape(f.fields[i], fields[i].shape)
    case MapShape(element, _) => f.Map? && forall k :: k in f.entries ==> HasShape(f.entries[k], element)
    case SectionShape(content) => f.Section? && (f.content.Some? ==> HasShape(f.content.value, content))
    case EnumShape(variants) =>
      f.Enum? && (f.choice.Some? ==> f.choice.value.tag in variants && HasShape(f.choice.value.payload, variants[f.choice.value.tag]))
  }

  /** Merges `defaults` below `self`; two values of different constructors never have one type. */
  function Merge(self: Fragment, defaults: Fragment): Fragment
    decreases self
  {
    match (self, defaults)
    case (Atom(v), Atom(d)) => Atom(v.Or(d))
    case (Struct(fs), Struct(ds)) =>
      if |fs| != |ds| then self
      else Struct(seq(|fs|, i requires 0 <= i < |fs| => Merge(fs[i], ds[i])))
    case (Map(m), Map(d)) =>
      Map(map k | k in m.Keys + d.Keys :: if k !in m then d[k] else if k in d then Merge(m[k], d[k]) else m[k])
    case (Section(Some(f)), Section(Some(d))) => Section(Some(Merge(f, d)))
    case (Section(None), Section(_)) => defaults
    case (Enum(Some(v)), Enum(Some(d))) =>
      if v.tag == d.tag then Enum(Some(Variant(v.tag, Merge(v.payload, d.payload)))) else self
    case (Enum(None), Enum(_)) => defaults
    case _ => self
  }

  /** A map that is merged in place. */
  class MapCell {
    var entries: map<string, Fragment>

    constructor (m: map<string, Fragment>)
      ensures entries == m
    {
      entries := m;
    }

    /** Visits every default entry once: occupied entries are merged, vacant ones are inserted. */
    method MergeInPlace(defaults: map<string, Fragment>)
      modifies this
      ensures Map(entries) == Merge(Map(old(entries)), Map(defaults))
    {
      var todo := defaults.Keys;
      while todo != {}
        invariant todo <= defaults.Keys
        invariant entries.Keys == old(entries).Keys + (defaults.Keys - todo)
        invariant forall k :: k in entries ==>
                    entries[k] ==
                    if k !in old(entries) then defaults[k]
                    else if k in defaults && k !in todo then Merge(old(entries)[k], defaults[k])
                    else old(entries)[k]
        decreases todo
      {
        var k :| k in todo;
        if k in entries {
          entries := entries[k := Merge(entries[k], defaults[k])];
        } else {
          entries := entries[k := defaults[k]];
        }
        todo := todo - {k};
      }
    }
  }

  lemma {:induction false} MergeKeepsShape(a: Fragment, b: Fragment, sh: Shape)
    requires HasShape(a, sh) && HasShape(b, sh)
    ensures HasShape(Merge(a, b), sh)
    decreases sh
  {
    match sh
    case AtomShape(_) =>
    case StructShape(fields) =>
      forall i | 0 <= i < |fields|
        ensures HasShape(Merge(a, b).fields[i], fields[i].shape)
      {
        MergeKeepsShape(a.fields[i], b.fields[i], fields[i].shape);
      }
    case MapShape(element, _) =>
      forall k | k in a.entries && k in b.entries
        ensures HasShape(Merge(a.entries[k], b.entries[k]), element)
      {
        MergeKeepsShape(a.entries[k], b.entries[k], element);
      }
    case SectionShape(content) =>
      if a.content.Some? && b.content.Some? {
        MergeKeepsShape(a.content.value, b.content.value, content);
      }
    case EnumShape(variants) =>
      if a.choice.Some? && b.choice.Some? && a.choice.value.tag == b.choice.value.tag {
        MergeKeepsShape(a.choice.value.payload, b.choice.value.payload, variants[a.choice.value.tag]);
      }
  }

  // ----- Algebraic laws -----

  /** The fragment in which nothing is set. */
  function Empty(sh: Shape): Fragment {
    match sh
    case AtomShape(_) => Atom(None)
    case StructShape(fields) => Struct(seq(|fields|, i requires 0 <= i < |fields| => Empty(fields[i].shape)))
    case MapShape(_, _) => Map(map[])
    case SectionShape(_) => Section(None)
    case EnumShape(_) => Enum(None)
  }

  /** The empty fragment is the identity on both sides, enums included. */
  lemma {:induction false} EmptyIsIdentity(f: Fragment, sh: Shape)
    requires HasShape(f, sh)
    ensures Merge(f, Empty(sh)) == f && Merge(Empty(sh), f) == f
    decreases sh
  {
    if sh.StructShape? {
      forall i | 0 <= i < |sh.fields|
        ensures Merge(f, Empty(sh)).fields[i] == f.fields[i] && Merge(Empty(sh), f).fields[i] == f.fields[i]
      {
        EmptyIsIdentity(f.fields[i], sh.fields[i].shape);
      }
    }
  }

  /** Everything `d` sets is already set in `f`, so `d` adds nothing below `f`. */
  predicate AddsNothing(f: Fragment, d: Fragment)
    decreases f
  {
    match (f, d)
    case (Atom(v), Atom(w)) => v.Some? || w.None?
    case (Struct(fs), Struct(ds)) => |fs| == |ds| && forall i :: 0 <= i < |fs| ==> AddsNothing(fs[i], ds[i])
    case (Map(m), Map(n)) => n.Keys <= m.Keys && forall k :: k in n && k in m ==> AddsNothing(m[k], n[k])
    case (Section(Some(s)), Section(Some(t))) => AddsNothing(s, t)
    case (Section(s), Section(t)) => s.Some? || t.None?
    case (Enum(Some(v)), Enum(Some(w))) => v.tag == w.tag ==> AddsNothing(v.payload, w.payload)
    case (Enum(v), Enum(w)) => v.Some? || w.None?
    case _ => false
  }

  lemma {:induction false} AddsNothingMeaning(f: Fragment, d: Fragment, sh: Shape)
    requires HasShape(f, sh) && HasShape(d, sh)
    ensures AddsNothing(f, d) <==> Merge(f, d) == f
    decreases sh
  {
    match sh
    case AtomShape(_) =>
    case StructShape(fields) =>
      forall i | 0 <= i < |fields|
        ensures AddsNothing(f.fields[i], d.fields[i]) <==> Merge(f, d).fields[i] == f.fields[i]
      {
        AddsNothingMeaning(f.fields[i], d.fields[i], fields[i].shape);
      }
      assert Merge(f, d) == f <==> forall i :: 0 <= i < |fields| ==> Merge(f, d).fields[i] == f.fields[i];
    case MapShape(element, _) =>
      forall k | k in f.entries && k in d.entries
        ensures AddsNothing(f.entries[k], d.entries[k]) <==> Merge(f, d).entries[k] == f.entries[k]
      {
        AddsNothingMeaning(f.entries[k], d.entries[k], element);
      }
      assert Merge(f, d).entries.Keys == f.entries.Keys + d.entries.Keys;
      assert Merge(f, d) == f <==>
             d.entries.Keys <= f.entries.Keys && forall k :: k in f.entries ==> Merge(f, d).entries[k] == f.entries[k];
    case SectionShape(content) =>
      if f.content.Some? && d.content.Some? {
        AddsNothingMeaning(f.content.value, d.content.value, content);
      }
    case EnumShape(variants) =>
      if f.choice.Some? && d.choice.Some? && f.choice.value.tag == d.choice.value.tag {
        AddsNothingMeaning(f.choice.value.payload, d.choice.value.payload, variants[f.choice.value.tag]);
      }
  }

  /** Merging is idempotent, enums included. */
  lemma {:induction false} MergeIsIdempotent(f: Fragment, sh: Shape)
    requires HasShape(f, sh)
    ensures Merge(f, f) == f
  {
    FragmentAddsNothingToItself(f, sh);
    AddsNothingMeaning(f, f, sh);
  }

  lemma {:induction false} FragmentAddsNothingToItself(f: Fragment, sh: Shape)
    requires HasShape(f, sh)
    ensures AddsNothing(f, f)
    decreases sh
  {
    match sh
    case AtomShape(_) =>
    case StructShape(fields) =>
      forall i | 0 <= i < |fields|
        ensures AddsNothing(f.fields[i], f.fields[i])
      {
        FragmentAddsNothingToItself(f.fields[i], fields[i].shape);
      }
    case MapShape(element, _) =>
      forall k | k in f.entries
        ensures AddsNothing(f.entries[k], f.entries[k])
      {
        FragmentAddsNothingToItself(f.entries[k], element);
      }
    case SectionShape(content) =>
      if f.content.Some? {
        FragmentAddsNothingToItself(f.content.value, content);
      }
    case EnumShape(variants) =>
      if f.choice.Some? {
        FragmentAddsNothingToItself(f.choice.value.payload, variants[f.choice.value.tag]);
      }
  }

  /**
   * Nowhere does `b` set an enum to a variant that separates `a` from a `c` of `a`'s variant which
   * would have contributed something.
   */
  predicate NoInterruption(a: Fragment, b: Fragment, c: Fragment)
    decreases a
  {
    match (a, b, c)
    case (Struct(fs), Struct(gs), Struct(hs)) =>
      |fs| == |gs| == |hs| ==> forall i :: 0 <= i < |fs| ==> NoInterruption(fs[i], gs[i], hs[i])
    case (Map(m), Map(n), Map(o)) =>
      forall k :: k in m && k in n && k in o ==> NoInterruption(m[k], n[k], o[k])
    case (Section(Some(s)), Section(Some(t)), Section(Some(u))) => NoInterruption(s, t, u)
    case (Enum(Some(u)), Enum(Some(v)), Enum(Some(w))) =>
      if u.tag == v.tag == w.tag then NoInterruption(u.payload, v.payload, w.payload)
      else if u.tag == w.tag then AddsNothing(u.payload, w.payload)
      else true
    case _ => true
  }

  /** Merge associates exactly when no enum variant in the middle layer interrupts the outer two. */
  lemma {:induction false} AssociativityCondition(a: Fragment, b: Fragment, c: Fragment, sh: Shape)
    requires HasShape(a, sh) && HasShape(b, sh) && HasShape(c, sh)
    ensures NoInterruption(a, b, c) <==> Merge(a, Merge(b, c)) == Merge(Merge(a, b), c)
    decreases sh
  {
    match sh
    case AtomShape(_) =>
    case StructShape(fields) =>
      StructAssociativity(a, b, c, sh);
    case MapShape(element, _) =>
      MapAssociativity(a, b, c, sh);
    case SectionShape(content) =>
      if a.content.Some? && b.content.Some? && c.content.Some? {
        AssociativityCondition(a.content.value, b.content.value, c.content.value, content);
      }
    case EnumShape(variants) =>
      if a.choice.Some? && b.choice.Some? && c.choice.Some? && a.choice.value.tag == c.choice.value.tag {
        var (u, v, w) := (a.choice.value, b.choice.value, c.choice.value);
        if u.tag == v.tag {
          AssociativityCondition(u.payload, v.payload, w.payload, variants[u.tag]);
        } else {
          AddsNothingMeaning(u.payload, w.payload, variants[u.tag]);
        }
      }
  }

  lemma {:induction false} StructAssociativity(a: Fragment, b: Fragment, c: Fragment, sh: Shape)
    requires sh.StructShape? && HasShape(a, sh) && HasShape(b, sh) && HasShape(c, sh)
    ensures NoInterruption(a, b, c) <==> Merge(a, Merge(b, c)) == Merge(Merge(a, b), c)
    decreases sh, 0
  {
    var (l, r) := (Merge(a, Merge(b, c)), Merge(Merge(a, b), c));
    forall i | 0 <= i < |sh.fields|
      ensures NoInterruption(a.fields[i], b.fields[i], c.fields[i]) <==> l.fields[i] == r.fields[i]
    {
      AssociativityCondition(a.fields[i], b.fields[i], c.fields[i], sh.fields[i].shape);
    }
    assert l == r <==> forall i :: 0 <= i < |sh.fields| ==> l.fields[i] == r.fields[i];
  }

  lemma {:induction false} MapAssociativity(a: Fragment, b: Fragment, c: Fragment, sh: Shape)
    requires sh.MapShape? && HasShape(a, sh) && HasShape(b, sh) && HasShape(c, sh)
    ensures NoInterruption(a, b, c) <==> Merge(a, Merge(b, c)) == Merge(Merge(a, b), c)
    decreases sh, 0
  {
    var (l, r) := (Merge(a, Merge(b, c)), Merge(Merge(a, b), c));
    assert l.entries.Keys == r.entries.Keys;
    forall k | k in l.entries
      ensures l.entries[k] == r.entries[k] <==>
              (k in a.entries && k in b.entries && k in c.entries ==>
                 NoInterruption(a.entries[k], b.entries[k], c.entries[k]))
    {
      if k in a.entries && k in b.entries && k in c.entries {
        AssociativityCondition(a.entries[k], b.entries[k], c.entries[k], sh.element);
      }
    }
    assert l == r <==> forall k :: k in l.entries ==> l.entries[k] == r.entries[k];
  }

  /** Grouping matters: a foreign variant in the middle hides the outer layers from each other. */
  lemma EnumMergeIsNotAssociative()
    ensures exists a, b, c, sh ::
              && HasShape(a, sh) && HasShape(b, sh) && HasShape(c, sh)
              && Merge(a, Merge(b, c)) != Merge(Merge(a, b), c)
  {
    var sh := EnumShape(map["Custom" := AtomShape(true), "Automatic" := AtomShape(true)]);
    var a := Enum(Some(Variant("Custom", Atom(None))));
    var b := Enum(Some(Variant("Automatic", Atom(None))));
    var c := Enum(Some(Variant("Custom", Atom(Some("config-map")))));
    assert HasShape(a, sh) && HasShape(b, sh) && HasShape(c, sh);
    assert Merge(a, Merge(b, c)) == a;
    assert Merge(Merge(a, b), c) == c;
  }

  predicate EnumFree(sh: Shape) {
    match sh
    case AtomShape(_) => true
    case StructShape(fields) => forall i :: 0 <= i < |fields| ==> EnumFree(fields[i].shape)
    case MapShape(element, _) => EnumFree(element)
    case SectionShape(content) => EnumFree(content)
    case EnumShape(_) => false
  }

  /** Without enums, merging is associative. */
  lemma {:induction false} MergeIsAssociativeWithoutEnums(a: Fragment, b: Fragment, c: Fragment, sh: Shape)
    requires EnumFree(sh) && HasShape(a, sh) && HasShape(b, sh) && HasShape(c, sh)
    ensures Merge(a, Merge(b, c)) == Merge(Merge(a, b), c)
  {
    EnumFreeIsNeverInterrupted(a, b, c, sh);
    AssociativityCondition(a, b, c, sh);
  }

  lemma {:induction false} EnumFreeIsNeverInterrupted(a: Fragment, b: Fragment, c: Fragment, sh: Shape)
    requires EnumFree(sh) && HasShape(a, sh) && HasShape(b, sh) && HasShape(c, sh)
    ensures NoInterruption(a, b, c)
    decreases sh
  {
    match sh
    case AtomShape(_) =>
    case StructShape(fields) =>
      forall i | 0 <= i < |fields|
        ensures NoInterruption(a.fields[i], b.fields[i], c.fields[i])
      {
        EnumFreeIsNeverInterrupted(a.fields[i], b.fields[i], c.fields[i], fields[i].shape);
      }
    case MapShape(element, _) =>
      forall k | k in a.entries && k in b.entries && k in c.entries
        ensures NoInterruption(a.entries[k], b.entries[k], c.entries[k])
      {
        EnumFreeIsNeverInterrupted(a.entries[k], b.entries[k], c.entries[k], element);
      }
    case SectionShape(content) =>
      if a.content.Some? && b.content.Some? && c.content.Some? {
        EnumFreeIsNeverInterrupted(a.content.value, b.content.value, c.content.value, content);
      }
  }

  // ----- What a list of layers denotes -----

  /** Merges layers from right to left; the first layer is the most specific one. */
  function MergeAll(layers: seq<Fragment>): Fragment
    requires layers != []
  {
    if |layers| == 1 then layers[0] else Merge(layers[0], MergeAll(layers[1..]))
  }

  /** One step into a fragment. */
  datatype Segment = Field(index: nat) | Key(key: string) | Content | Payload(tag: string)

  function Child(f: Fragment, seg: Segment): Option<Fragment> {
    match (f, seg)
    case (Struct(fields), Field(i)) => if i < |fields| then Some(fields[i]) else None
    case (Map(entries), Key(k)) => if k in entries then Some(entries[k]) else None
    case (Section(content), Content) => content
    case (Enum(Some(v)), Payload(tag)) => if v.tag == tag then Some(v.payload) else None
    case _ => None
  }

  function At(f: Fragment, path: seq<Segment>): Option<Fragment>
    decreases |path|
  {
    if path == [] then Some(f)
    else
      match Child(f, path[0])
      case None => None
      case Some(child) => At(child, path[1..])
  }

  /** Those layers that have the child, reduced to it. */
  function Collect(layers: seq<Fragment>, seg: Segment): seq<Fragment> {
    if layers == [] then []
    else
      (match Child(layers[0], seg)
       case None => []
       case Some(child) => [child]) + Collect(layers[1..], seg)
  }

  /** The payloads of the set layers before the first set layer of another variant. */
  function LeadingPayloads(layers: seq<Fragment>, tag: string): seq<Fragment> {
    if layers == [] then []
    else
      match layers[0]
      case Enum(Some(v)) => if v.tag == tag then [v.payload] + LeadingPayloads(layers[1..], tag) else []
      case _ => LeadingPayloads(layers[1..], tag)
  }

  function Narrow(layers: seq<Fragment>, seg: Segment): seq<Fragment> {
    if seg.Payload? then LeadingPayloads(layers, seg.tag) else Collect(layers, seg)
  }

  /** The fragments that contribute to the setting at a path, most specific first. */
  function Contributing(layers: seq<Fragment>, path: seq<Segment>): seq<Fragment>
    decreases |path|
  {
    if path == [] then layers else Contributing(Narrow(layers, path[0]), path[1..])
  }

  /** The first set value of atomic layers. */
  function FirstSet(layers: seq<Fragment>): Option<Leaf> {
    if layers == [] then None
    else
      match layers[0]
      case Atom(Some(v)) => Some(v)
      case _ => FirstSet(layers[1..])
  }

  predicate IsSet(f: Fragment) {
    f.Atom? && f.value.Some?
  }

  function MergeAny(layers: seq<Fragment>): Option<Fragment> {
    if layers == [] then None else Some(MergeAll(layers))
  }

  ghost predicate AllHaveShape(layers: seq<Fragment>, sh: Shape) {
    forall i :: 0 <= i < |layers| ==> HasShape(layers[i], sh)
  }

  lemma {:induction false} MergeAllKeepsShape(layers: seq<Fragment>, sh: Shape)
    requires layers != [] && AllHaveShape(layers, sh)
    ensures HasShape(MergeAll(layers), sh)
  {
    if |layers| > 1 {
      MergeAllKeepsShape(layers[1..], sh);
      MergeKeepsShape(layers[0], MergeAll(layers[1..]), sh);
    }
  }

  lemma {:induction false} PayloadOfMergeAll(layers: seq<Fragment>, sh: Shape, tag: string)
    requires layers != [] && AllHaveShape(layers, sh)
    ensures Child(MergeAll(layers), Payload(tag)) == MergeAny(LeadingPayloads(layers, tag))
    decreases |layers|
  {
    assert HasShape(layers[0], sh);
    if sh.EnumShape? {
      assert forall i :: 0 <= i < |layers| ==> HasShape(layers[i], sh) && layers[i].Enum?;
      MergedEnumLayers(layers);
      if FirstTag(layers) != Some(tag) {
        OtherVariantFirst(layers, tag);
      }
    } else {
      MergeAllKeepsShape(layers, sh);
      NoPayloads(layers, sh, tag);
    }
  }

  lemma {:induction false} NoPayloads(layers: seq<Fragment>, sh: Shape, tag: string)
    requires AllHaveShape(layers, sh) && !sh.EnumShape?
    ensures LeadingPayloads(layers, tag) == []
  {
    if layers != [] {
      assert HasShape(layers[0], sh);
      NoPayloads(layers[1..], sh, tag);
    }
  }

  /** Merging two fragments merges what both have and keeps what one has. */
  lemma ChildOfMerge(a: Fragment, b: Fragment, sh: Shape, seg: Segment)
    requires HasShape(a, sh) && HasShape(b, sh) && !seg.Payload?
    ensures Child(Merge(a, b), seg) ==
            if Child(a, seg).Some? && Child(b, seg).Some? then Some(Merge(Child(a, seg).value, Child(b, seg).value))
            else Child(a, seg).Or(Child(b, seg))
  {
  }

  lemma {:induction false} CollectOfMergeAll(layers: seq<Fragment>, sh: Shape, seg: Segment)
    requires layers != [] && AllHaveShape(layers, sh) && !seg.Payload?
    ensures Child(MergeAll(layers), seg) == MergeAny(Collect(layers, seg))
    decreases |layers|
  {
    var (rest, child) := (layers[1..], Child(layers[0], seg));
    var below := Collect(rest, seg);
    assert Collect(layers, seg) == if child.Some? then [child.value] + below else below;
    assert child.Some? ==> ([child.value] + below)[1..] == below;
    if |layers| == 1 {
      assert below == [];
    } else {
      CollectOfMergeAll(rest, sh, seg);
      MergeAllKeepsShape(rest, sh);
      ChildOfMerge(layers[0], MergeAll(rest), sh, seg);
    }
  }

  /** A child of merged layers is the merge of the children that contribute to it. */
  lemma ChildOfMergeAll(layers: seq<Fragment>, sh: Shape, seg: Segment)
    requires layers != [] && AllHaveShape(layers, sh)
    ensures Child(MergeAll(layers), seg) == MergeAny(Narrow(layers, seg))
  {
    if seg.Payload? {
      PayloadOfMergeAll(layers, sh, seg.tag);
    } else {
      CollectOfMergeAll(layers, sh, seg);
    }
  }

  /** The shape of a child. */
  function ChildShape(sh: Shape, seg: Segment): Option<Shape> {
    match (sh, seg)
    case (StructShape(fields), Field(i)) => if i < |fields| then Some(fields[i].shape) else None
    case (MapShape(element, _), Key(_)) => Some(element)
    case (SectionShape(content), Content) => Some(content)
    case (EnumShape(variants), Payload(tag)) => if tag in variants then Some(variants[tag]) else None
    case _ => None
  }

  function ShapeAt(sh: Shape, path: seq<Segment>): Option<Shape>
    decreases |path|
  {
    if path == [] then Some(sh)
    else
      match ChildShape(sh, path[0])
      case None => None
      case Some(child) => ShapeAt(child, path[1..])
  }

  lemma {:induction false} NarrowKeepsShape(layers: seq<Fragment>, sh: Shape, seg: Segment)
    requires AllHaveShape(layers, sh)
    ensures Narrow(layers, seg) != [] ==> ChildShape(sh, seg).Some?
    ensures ChildShape(sh, seg).Some? ==> AllHaveShape(Narrow(layers, seg), ChildShape(sh, seg).value)
    decreases |layers|
  {
    if layers != [] {
      assert HasShape(layers[0], sh);
      NarrowKeepsShape(layers[1..], sh, seg);
    }
  }

  /**
   * The law of layered merging at any depth, enums included: what stands at a path of the merged
   * layers is the merge of exactly the fragments that contribute to it.
   */
  lemma {:induction false} MergedLayersAtPath(layers: seq<Fragment>, sh: Shape, path: seq<Segment>)
    requires layers != [] && AllHaveShape(layers, sh)
    ensures At(MergeAll(layers), path) == MergeAny(Contributing(layers, path))
    decreases |path|
  {
    if path != [] {
      ChildOfMergeAll(layers, sh, path[0]);
      NarrowKeepsShape(layers, sh, path[0]);
      var narrowed := Narrow(layers, path[0]);
      if narrowed == [] {
        NothingContributesToNothing(path[1..]);
      } else {
        MergedLayersAtPath(narrowed, ChildShape(sh, path[0]).value, path[1..]);
      }
    }
  }

  lemma {:induction false} NothingContributesToNothing(path: seq<Segment>)
    ensures Contributing([], path) == []
    decreases |path|
  {
    if path != [] {
      NothingContributesToNothing(path[1..]);
    }
  }

  lemma {:induction false} CollectMembers(layers: seq<Fragment>, seg: Segment, f: Fragment)
    ensures f in Collect(layers, seg) <==> exists layer :: layer in layers && Child(layer, seg) == Some(f)
  {
    if layers != [] {
      CollectMembers(layers[1..], seg, f);
      assert forall layer :: layer in layers <==> layer == layers[0] || layer in layers[1..];
    }
  }

  /** Without enums on the way, all layers contribute what they have at the path. */
  lemma {:induction false} ContributingMembers(layers: seq<Fragment>, path: seq<Segment>, f: Fragment)
    requires forall seg :: seg in path ==> !seg.Payload?
    ensures f in Contributing(layers, path) <==> exists layer :: layer in layers && At(layer, path) == Some(f)
    decreases |path|
  {
    if path != [] {
      var narrowed := Narrow(layers, path[0]);
      ContributingMembers(narrowed, path[1..], f);
      forall child: Fragment
        ensures child in narrowed <==> exists layer :: layer in layers && Child(layer, path[0]) == Some(child)
      {
        CollectMembers(layers, path[0], child);
      }
    }
  }

  lemma {:induction false} NothingSet(layers: seq<Fragment>)
    ensures FirstSet(layers).None? <==> forall f :: f in layers ==> !IsSet(f)
  {
    if layers != [] {
      var (first, rest) := (layers[0], layers[1..]);
      NothingSet(rest);
      assert first in layers && forall f :: f in rest ==> f in layers;
      assert forall f :: f in layers ==> f == first || f in rest;
      assert IsSet(first) ==> FirstSet(layers).Some?;
      assert !IsSet(first) ==> FirstSet(layers) == FirstSet(rest);
    }
  }

  lemma {:induction false} ContributingKeepsShape(layers: seq<Fragment>, sh: Shape, path: seq<Segment>)
    requires AllHaveShape(layers, sh)
    ensures Contributing(layers, path) != [] ==> ShapeAt(sh, path).Some?
    ensures ShapeAt(sh, path).Some? ==> AllHaveShape(Contributing(layers, path), ShapeAt(sh, path).value)
    decreases |path|
  {
    if path != [] {
      NarrowKeepsShape(layers, sh, path[0]);
      if ChildShape(sh, path[0]).Some? {
        ContributingKeepsShape(Narrow(layers, path[0]), ChildShape(sh, path[0]).value, path[1..]);
      } else {
        NothingContributesToNothing(path[1..]);
      }
    }
  }

  lemma {:induction false} AtomsMergeToFirstSet(layers: seq<Fragment>)
    requires layers != [] && forall i :: 0 <= i < |layers| ==> layers[i].Atom?
    ensures MergeAll(layers) == Atom(FirstSet(layers))
  {
    if |layers| > 1 {
      AtomsMergeToFirstSet(layers[1..]);
    } else {
      assert layers[1..] == [];
    }
  }

  /** Every leaf of merged layers is the first set value among its contributing layers. */
  lemma LeafIsFirstSet(layers: seq<Fragment>, sh: Shape, path: seq<Segment>)
    requires layers != [] && AllHaveShape(layers, sh)
    requires ShapeAt(sh, path).Some? && ShapeAt(sh, path).value.AtomShape?
    ensures At(MergeAll(layers), path) ==
            if Contributing(layers, path) == [] then None else Some(Atom(FirstSet(Contributing(layers, path))))
  {
    MergedLayersAtPath(layers, sh, path);
    ContributingKeepsShape(layers, sh, path);
    if Contributing(layers, path) != [] {
      AtomsMergeToFirstSet(Contributing(layers, path));
    }
  }

  // ----- Reducing a list of optional layers -----

  /** The layers that exist, most specific first, of a list that starts with the least specific. */
  function Present(layers: seq<Option<Fragment>>): seq<Fragment> {
    if layers == [] then []
    else Present(layers[1..]) + if layers[0].Some? then [layers[0].value] else []
  }

  lemma {:induction false} PresentAppend(layers: seq<Option<Fragment>>, last: Option<Fragment>)
    ensures Present(layers + [last]) == (if last.Some? then [last.value] else []) + Present(layers)
  {
    if layers == [] {
      assert layers + [last] == [last] && [last][1..] == [];
    } else {
      assert (layers + [last])[1..] == layers[1..] + [last];
      PresentAppend(layers[1..], last);
    }
  }

  /** Merging each layer over the result so far merges the layers from right to left. */
  method ReduceLayers(layers: seq<Option<Fragment>>) returns (r: Option<Fragment>)
    ensures r == MergeAny(Present(layers))
  {
    r := None;
    for i := 0 to |layers|
      invariant r == MergeAny(Present(layers[..i]))
    {
      assert layers[..i + 1] == layers[..i] + [layers[i]];
      PresentAppend(layers[..i], layers[i]);
      ghost var below := Present(layers[..i]);
      assert [] + below == below;
      if layers[i].Some? {
        assert ([layers[i].value] + below)[1..] == below;
        r := if r.None? then layers[i] else Some(Merge(layers[i].value, r.value));
      }
    }
    assert layers[..|layers|] == layers;
  }

  /** The variant of the first set layer. */
  function FirstTag(layers: seq<Fragment>): Option<string> {
    if layers == [] then None
    else
      match layers[0]
      case Enum(Some(v)) => Some(v.tag)
      case _ => FirstTag(layers[1..])
  }

  /**
   * Merged enum layers take the variant of the first set layer, and its payload is the merge of
   * the set layers before the first set layer of another variant.
   */
  lemma {:induction false} MergedEnumLayers(layers: seq<Fragment>)
    requires layers != [] && forall i :: 0 <= i < |layers| ==> layers[i].Enum?
    ensures FirstTag(layers) == None ==> MergeAll(layers) == Enum(None)
    ensures FirstTag(layers).Some? ==>
              && LeadingPayloads(layers, FirstTag(layers).value) != []
              && MergeAll(layers) ==
                 Enum(Some(Variant(FirstTag(layers).value, MergeAll(LeadingPayloads(layers, FirstTag(layers).value)))))
    decreases |layers|
  {
    var rest := layers[1..];
    if |layers| == 1 {
      assert rest == [];
    } else {
      MergedEnumLayers(rest);
      if layers[0].choice.Some? {
        var v := layers[0].choice.value;
        var below := LeadingPayloads(rest, v.tag);
        assert LeadingPayloads(layers, v.tag) == [v.payload] + below;
        assert ([v.payload] + below)[1..] == below;
        if FirstTag(rest) != Some(v.tag) {
          OtherVariantFirst(rest, v.tag);
        }
      }
    }
  }

  lemma {:induction false} OtherVariantFirst(layers: seq<Fragment>, tag: string)
    requires FirstTag(layers) != Some(tag)
    ensures LeadingPayloads(layers, tag) == []
  {
    if layers != [] && !(layers[0].Enum? && layers[0].choice.Some?) {
      OtherVariantFirst(layers[1..], tag);
    }
  }
}
