/** Overrides of JSON configuration files that are collected first and applied later. */
module JsonOverrides {
  import opened Wrappers
  import opened Layering

  datatype Json =
    | Null
    | Bool(b: bool)
    | Number(n: real)
    | String(s: string)
    | Array(items: seq<Json>)
    | Object(members: map<string, Json>)

  /** JSON merge patch, section 2 of RFC 7396. */
  function MergePatch(target: Json, patch: Json): Json
    decreases patch
  {
    if !patch.Object? then patch
    else
      var known := if target.Object? then target.members else map[];
      Object(map k | k in known.Keys + patch.members.Keys && (k in patch.members ==> patch.members[k] != Null) ::
               if k !in patch.members then known[k]
               else MergePatch(if k in known then known[k] else Null, patch.members[k]))
  }

  /** One operation of a JSON patch (RFC 6902) transforms a document or fails. */
  type Operation = Json -> Option<Json>

  /** The operations of a patch are applied in order until one fails. */
  function Patch(doc: Json, operations: seq<Operation>): Option<Json>
    decreases |operations|
  {
    if operations == [] then Some(doc)
    else
      match operations[0](doc)
      case None => None
      case Some(next) => Patch(next, operations[1..])
  }

  datatype Overrides =
    | JsonMergePatch(patch: Json)
    | JsonPatch(operations: seq<Operation>)
    | UserProvided(content: Json)
    | Sequence(latestFirst: seq<Overrides>)

  /** A patch that fails leaves the document as it was. */
  function Apply(o: Overrides, base: Json): Json
    decreases o
  {
    match o
    case JsonMergePatch(patch) => MergePatch(base, patch)
    case JsonPatch(operations) => Patch(base, operations).GetOr(base)
    case UserProvided(content) => content
    case Sequence(latestFirst) => ApplyEach(latestFirst, base)
  }

  /** Applies overrides from the last to the first. */
  function ApplyEach(latestFirst: seq<Overrides>, base: Json): Json
    decreases latestFirst
  {
    if latestFirst == [] then base else Apply(latestFirst[0], ApplyEach(latestFirst[1..], base))
  }

  /** The loop over a sequence in reverse order. */
  method ApplySequence(latestFirst: seq<Overrides>, base: Json) returns (doc: Json)
    ensures doc == Apply(Sequence(latestFirst), base)
  {
    doc := base;
    var i := |latestFirst|;
    while i > 0
      invariant 0 <= i <= |latestFirst|
      invariant doc == ApplyEach(latestFirst[i..], base)
    {
      i := i - 1;
      assert latestFirst[i..][0] == latestFirst[i] && latestFirst[i..][1..] == latestFirst[i + 1..];
      doc := Apply(latestFirst[i], doc);
    }
    assert latestFirst[0..] == latestFirst;
  }

  // ----- What a single override does -----

  /** Each document is what the operation gives for the one before it. */
  ghost predicate IsChain(docs: seq<Json>, operations: seq<Operation>) {
    && 0 < |docs| <= |operations| + 1
    && forall i :: 0 <= i < |docs| - 1 ==> operations[i](docs[i]) == Some(docs[i + 1])
  }

  lemma {:induction false} PatchFollowsChain(docs: seq<Json>, operations: seq<Operation>)
    requires IsChain(docs, operations)
    ensures |docs| == |operations| + 1 ==> Patch(docs[0], operations) == Some(docs[|operations|])
    ensures |docs| <= |operations| && operations[|docs| - 1](docs[|docs| - 1]).None? ==> Patch(docs[0], operations).None?
    decreases |operations|
  {
    if |docs| > 1 {
      var (rest, next) := (operations[1..], docs[1..]);
      forall i | 0 <= i < |next| - 1
        ensures rest[i](next[i]) == Some(next[i + 1])
      {
        assert operations[i + 1](docs[i + 1]) == Some(docs[i + 2]);
      }
      PatchFollowsChain(next, rest);
      assert operations[0](docs[0]) == Some(docs[0 + 1]);
      assert |docs| <= |operations| ==> rest[|next| - 1] == operations[|docs| - 1] && next[|next| - 1] == docs[|docs| - 1];
    }
  }

  /** A JSON patch whose operations all succeed in turn gives the last document. */
  lemma CompletePatchApplies(docs: seq<Json>, operations: seq<Operation>)
    requires IsChain(docs, operations) && |docs| == |operations| + 1
    ensures Apply(JsonPatch(operations), docs[0]) == docs[|operations|]
  {
    PatchFollowsChain(docs, operations);
  }

  /** A JSON patch of which an operation fails on the way is rolled back. */
  lemma FailedPatchIsRolledBack(docs: seq<Json>, operations: seq<Operation>)
    requires IsChain(docs, operations) && |docs| <= |operations|
    requires operations[|docs| - 1](docs[|docs| - 1]).None?
    ensures Apply(JsonPatch(operations), docs[0]) == docs[0]
  {
    PatchFollowsChain(docs, operations);
  }

  /** For every document, the operations form a complete chain or one that fails at its end. */
  lemma {:induction false} PatchCompletesOrFails(base: Json, operations: seq<Operation>) returns (docs: seq<Json>)
    ensures IsChain(docs, operations) && docs[0] == base
    ensures |docs| == |operations| + 1 || operations[|docs| - 1](docs[|docs| - 1]).None?
    decreases |operations|
  {
    docs := [base];
    if operations != [] && operations[0](base).Some? {
      var rest := PatchCompletesOrFails(operations[0](base).value, operations[1..]);
      docs := [base] + rest;
      forall i | 0 <= i < |docs| - 1
        ensures operations[i](docs[i]) == Some(docs[i + 1])
      {
        if i > 0 {
          assert operations[1..][i - 1](rest[i - 1]) == Some(rest[i - 1 + 1]);
        }
      }
    }
  }

  /**
   * A merge patch member by member: null removes, an object is merged into what is there, anything
   * else replaces it, and what the patch does not name is kept. A patch that is no object replaces all.
   */
  lemma MergePatchAtKey(target: Json, patch: Json, k: string)
    ensures !patch.Object? ==> MergePatch(target, patch) == patch
    ensures patch.Object? ==>
              && MergePatch(target, patch).Object?
              && var r := MergePatch(target, patch).members;
                 var known := target.Object? && k in target.members;
                 if k !in patch.members then
                   (k in r <==> known) && (known ==> r[k] == target.members[k])
                 else if patch.members[k] == Null then k !in r
                 else if patch.members[k].Object? then
                   k in r && r[k] == MergePatch(if known then target.members[k] else Null, patch.members[k])
                 else k in r && r[k] == patch.members[k]
  {
  }

  /** Merge patches and user-provided contents do what their names say, sequences apply the last first. */
  lemma SingleOverrides(o: Overrides, base: Json)
    ensures o.JsonMergePatch? ==> Apply(o, base) == MergePatch(base, o.patch)
    ensures o.UserProvided? ==> Apply(o, base) == o.content
    ensures o == Sequence([]) ==> Apply(o, base) == base
    ensures o.Sequence? && o.latestFirst != [] ==>
              Apply(o, base) == Apply(o.latestFirst[0], Apply(Sequence(o.latestFirst[1..]), base))
  {
  }

  function Flat(o: Overrides): seq<Overrides> {
    if o.Sequence? then o.latestFirst else [o]
  }

  /** Defaults are appended, one level of nesting is flattened. */
  function Merge(self: Overrides, defaults: Overrides): Overrides {
    Sequence(Flat(self) + Flat(defaults))
  }

  const DEFAULT := JsonMergePatch(Object(map[]))

  lemma {:induction false} ApplyEachConcat(a: seq<Overrides>, b: seq<Overrides>, base: Json)
    ensures ApplyEach(a + b, base) == ApplyEach(a, ApplyEach(b, base))
  {
    if a == [] {
      assert a + b == b;
    } else {
      assert (a + b)[1..] == a[1..] + b;
      ApplyEachConcat(a[1..], b, base);
    }
  }

  lemma ApplyFlat(o: Overrides, base: Json)
    ensures ApplyEach(Flat(o), base) == Apply(o, base)
  {
  }

  /** Applying merged overrides is applying the defaults and then the overrides. */
  lemma MergeComposes(self: Overrides, defaults: Overrides, base: Json)
    ensures Apply(Merge(self, defaults), base) == Apply(self, Apply(defaults, base))
  {
    ApplyEachConcat(Flat(self), Flat(defaults), base);
    ApplyFlat(self, ApplyEach(Flat(defaults), base));
    ApplyFlat(defaults, base);
  }

  /** Overrides that are merged in place. */
  class OverridesCell {
    var current: Overrides

    constructor (o: Overrides)
      ensures current == o
    {
      current := o;
    }

    /** Overwrites itself with a sequence that applies the defaults first, whatever the document. */
    method MergeInPlace(defaults: Overrides)
      modifies this
      ensures current == Merge(old(current), defaults)
      ensures forall base :: Apply(current, base) == Apply(old(current), Apply(defaults, base))
    {
      var sequence := if current.Sequence? then current.latestFirst else [current];
      if defaults.Sequence? {
        sequence := sequence + defaults.latestFirst;
      } else {
        sequence := sequence + [defaults];
      }
      forall base
        ensures Apply(Merge(current, defaults), base) == Apply(current, Apply(defaults, base))
      {
        MergeComposes(current, defaults, base);
      }
      current := Sequence(sequence);
    }
  }

  lemma OverridesCompose()
    ensures Composes(Merge, Apply)
  {
    forall self, defaults, base
      ensures Apply(Merge(self, defaults), base) == Apply(self, Apply(defaults, base))
    {
      MergeComposes(self, defaults, base);
    }
  }

  /** However the layers are grouped, they denote the same document transformation. */
  lemma AnyGroupingDenotesTheSame(g: Grouping<Overrides>, base: Json)
    ensures Apply(MergeGrouped(Merge, g), base) == ApplyLayers(Apply, Layers(g), base)
  {
    OverridesCompose();
    GroupingIsIrrelevant(Merge, Apply, g, base);
  }

  lemma ContentStandsAlone(o: Overrides, below: seq<Overrides>, base: Json)
    requires o.UserProvided?
    ensures ApplyLayers(Apply, [o] + below, base) == o.content
  {
  }

  /** A user-provided layer hides the document and every layer below it. */
  lemma UserProvidedHidesBelow(g: Grouping<Overrides>, i: nat, base: Json, other: seq<Overrides>, otherBase: Json)
    requires i < |Layers(g)| && Layers(g)[i].UserProvided?
    ensures Apply(MergeGrouped(Merge, g), base) == ApplyLayers(Apply, Layers(g)[..i + 1] + other, otherBase)
  {
    AnyGroupingDenotesTheSame(g, base);
    HiddenLayers(Layers(g), i, base, other, otherBase);
  }

  lemma HiddenLayers(layers: seq<Overrides>, i: nat, base: Json, other: seq<Overrides>, otherBase: Json)
    requires i < |layers| && layers[i].UserProvided?
    ensures ApplyLayers(Apply, layers, base) == ApplyLayers(Apply, layers[..i + 1] + other, otherBase)
  {
    var (upper, lower) := (layers[..i], layers[i + 1..]);
    assert layers == upper + ([layers[i]] + lower);
    assert layers[..i + 1] + other == upper + ([layers[i]] + other);
    ApplyLayersConcat(Apply, upper, [layers[i]] + lower, base);
    ApplyLayersConcat(Apply, upper, [layers[i]] + other, otherBase);
    ContentStandsAlone(layers[i], lower, base);
    ContentStandsAlone(layers[i], other, otherBase);
  }

  /** The default override changes nothing exactly if the document is an object. */
  lemma DefaultIsNeutralOnObjects(base: Json)
    ensures Apply(DEFAULT, base) == base <==> base.Object?
  {
  }

  /** Applying a merge patch again changes nothing. */
  lemma {:induction false} MergePatchIsIdempotent(target: Json, patch: Json)
    ensures MergePatch(MergePatch(target, patch), patch) == MergePatch(target, patch)
    decreases patch
  {
    if patch.Object? {
      var once := MergePatch(target, patch);
      var twice := MergePatch(once, patch);
      assert once.members.Keys == twice.members.Keys;
      forall k | k in once.members
        ensures once.members[k] == twice.members[k]
      {
        if k in patch.members {
          var below := if target.Object? && k in target.members then target.members[k] else Null;
          MergePatchIsIdempotent(below, patch.members[k]);
        }
      }
    }
  }

  // ----- Key-value overrides -----

  type KeyValues = map<string, string>

  /** `self` extends a copy of the defaults. */
  function MergeKeyValues(self: KeyValues, defaults: KeyValues): KeyValues {
    defaults + self
  }

  function FromKeyValues(kv: KeyValues): Overrides {
    JsonMergePatch(Object(Strings(kv)))
  }

  datatype JsonOrKeyValue = IsJson(json: Overrides) | IsKeyValue(keyValue: KeyValues)

  function ToOverrides(o: JsonOrKeyValue): Overrides {
    match o
    case IsJson(json) => json
    case IsKeyValue(kv) => FromKeyValues(kv)
  }

  function MergeEither(self: JsonOrKeyValue, defaults: JsonOrKeyValue): JsonOrKeyValue {
    IsJson(Merge(ToOverrides(self), ToOverrides(defaults)))
  }

  function Members(doc: Json): map<string, Json> {
    if doc.Object? then doc.members else map[]
  }

  function Strings(kv: KeyValues): map<string, Json> {
    map k | k in kv :: String(kv[k])
  }

  /** Key-value overrides set exactly their keys and turn any document into an object. */
  lemma KeyValuesOverwrite(kv: KeyValues, base: Json)
    ensures Apply(FromKeyValues(kv), base) == Object(Members(base) + Strings(kv))
    ensures forall k :: k in kv ==> Apply(FromKeyValues(kv), base).members[k] == String(kv[k])
  {
    var patch := Object(Strings(kv));
    var merged := MergePatch(base, patch).members;
    forall k | k in kv
      ensures k in merged && merged[k] == String(kv[k])
    {
      var below := if k in Members(base) then Members(base)[k] else Null;
      assert patch.members[k] == String(kv[k]);
      assert MergePatch(below, String(kv[k])) == String(kv[k]);
      assert merged[k] == MergePatch(below, patch.members[k]);
    }
    assert merged == Members(base) + Strings(kv);
  }

  lemma StringsOverwrite(members: map<string, Json>, defaults: KeyValues, self: KeyValues)
    ensures members + Strings(defaults) + Strings(self) == members + Strings(defaults + self)
  {
  }

  lemma DelayedKeyValues(self: KeyValues, defaults: KeyValues, base: Json)
    ensures Apply(Merge(FromKeyValues(self), FromKeyValues(defaults)), base)
         == Object(Members(base) + Strings(defaults) + Strings(self))
  {
    MergeComposes(FromKeyValues(self), FromKeyValues(defaults), base);
    KeyValuesOverwrite(defaults, base);
    KeyValuesOverwrite(self, Object(Members(base) + Strings(defaults)));
  }

  /** The flat merge of key-value overrides has the same effect as the delayed one, on any document. */
  lemma FlatMergeAgreesWithDelayedMerge(self: KeyValues, defaults: KeyValues, base: Json)
    ensures Apply(FromKeyValues(MergeKeyValues(self, defaults)), base)
         == Apply(ToOverrides(MergeEither(IsKeyValue(self), IsKeyValue(defaults))), base)
  {
    DelayedKeyValues(self, defaults, base);
    KeyValuesOverwrite(MergeKeyValues(self, defaults), base);
    StringsOverwrite(Members(base), defaults, self);
  }
}
