/** User-provided object overrides that are deep-merged into the objects of an operator. */
module ObjectOverrides {
  import opened Wrappers
  import opened Kubernetes

  /** An untyped object; `spec` is `None` if the content cannot be parsed as the type it names. */
  datatype DynamicObject = DynamicObject(types: Option<TypeMeta>, meta: Metadata, spec: Option<Spec>)

  datatype Error = ParseDynamicObject

  /** An override matches if apiVersion, kind, name and namespace are those of the object. */
  predicate Matches(base: Object, merge: DynamicObject) {
    && merge.types == Some(TypeOf(base.kind))
    && merge.meta.name == Some(base.meta.NameAny())
    && merge.meta.namespace == base.meta.namespace
  }

  /** The effect of one override as the early returns of the code compute it. */
  function ApplyOne(base: Object, merge: DynamicObject): Result<Object, Error> {
    if merge.types.None? then Ok(base)
    else if merge.types.value.apiVersion != TypeOf(base.kind).apiVersion
         || merge.types.value.kind != TypeOf(base.kind).kind then Ok(base)
    else if merge.meta.name.None? then Ok(base)
    else if base.meta.NameAny() != merge.meta.name.value then Ok(base)
    else if base.meta.namespace != merge.meta.namespace then Ok(base)
    else if merge.spec.None? then Err(ParseDynamicObject)
    else Ok(MergeFrom(base, Object(base.kind, merge.meta, merge.spec.value)))
  }

  /** The object a list of overrides leaves behind and whether every merge succeeded. */
  function ApplyTo(base: Object, overrides: seq<DynamicObject>): (Object, bool)
    decreases |overrides|
  {
    if overrides == [] then (base, true)
    else
      match ApplyOne(base, overrides[0])
      case Ok(o) => ApplyTo(o, overrides[1..])
      case Err(_) => (base, false)
  }

  /** A mutable object, as the framework holds it while it prepares an apply. */
  class ObjectCell {
    var current: Object

    constructor (o: Object)
      ensures current == o
    {
      current := o;
    }

    /** Merges one override in place; a parse failure leaves the object as it was. */
    method ApplyDeepMerge(merge: DynamicObject) returns (r: Result<(), Error>)
      modifies this
      ensures r.Err? <==> Matches(old(current), merge) && merge.spec.None?
      ensures Matches(old(current), merge) && merge.spec.Some? ==>
                current == MergeFrom(old(current), Object(old(current).kind, merge.meta, merge.spec.value))
      ensures !Matches(old(current), merge) || merge.spec.None? ==> current == old(current)
    {
      if merge.types.None? { return Ok(()); }
      if merge.types.value.apiVersion != TypeOf(current.kind).apiVersion
         || merge.types.value.kind != TypeOf(current.kind).kind { return Ok(()); }
      if merge.meta.name.None? { return Ok(()); }
      if current.meta.NameAny() != merge.meta.name.value { return Ok(()); }
      if current.meta.namespace != merge.meta.namespace { return Ok(()); }
      if merge.spec.None? { return Err(ParseDynamicObject); }
      current := MergeFrom(current, Object(current.kind, merge.meta, merge.spec.value));
      return Ok(());
    }

    /** Merges the overrides one after the other and stops at the first that cannot be parsed. */
    method ApplyAll(overrides: seq<DynamicObject>) returns (r: Result<(), Error>)
      modifies this
      ensures (current, r.Ok?) == ApplyTo(old(current), overrides)
    {
      var i := 0;
      while i < |overrides|
        invariant 0 <= i <= |overrides|
        invariant ApplyTo(current, overrides[i..]) == ApplyTo(old(current), overrides)
      {
        ghost var before := current;
        assert overrides[i..][0] == overrides[i] && overrides[i..][1..] == overrides[i + 1..];
        r := ApplyDeepMerge(overrides[i]);
        if r.Err? { return; }
        assert ApplyOne(before, overrides[i]) == Ok(current);
        i := i + 1;
      }
      return Ok(());
    }
  }

  /** Merging a matching override never changes what later overrides are matched on. */
  lemma MatchingMergeKeepsIdentity(base: Object, merge: DynamicObject, spec: Spec)
    requires Matches(base, merge)
    ensures var merged := MergeFrom(base, Object(base.kind, merge.meta, spec));
            KeyOf(merged) == KeyOf(base) && forall other :: Matches(merged, other) <==> Matches(base, other)
  {
  }

  /** An override that names an object matches objects under one key only. */
  lemma OverrideMatchesOneKey(a: Object, b: Object, m: DynamicObject)
    requires Matches(a, m) && Matches(b, m)
    ensures KeyOf(a) == KeyOf(b)
    ensures a.meta.name.Some? ==> m.meta.name == a.meta.name
  {
    TypesIdentifyKinds(a.kind, b.kind);
  }

  /** The overrides that match `base`, in order. */
  function Matching(base: Object, overrides: seq<DynamicObject>): (r: seq<DynamicObject>)
    ensures forall m :: m in r <==> m in overrides && Matches(base, m)
  {
    if overrides == [] then []
    else if Matches(base, overrides[0]) then [overrides[0]] + Matching(base, overrides[1..])
    else Matching(base, overrides[1..])
  }

  /** Merges every given override without looking at its identity. */
  function MergeEach(base: Object, merges: seq<DynamicObject>): Object
    requires forall m :: m in merges ==> m.spec.Some?
    decreases |merges|
  {
    if merges == [] then base
    else MergeEach(MergeFrom(base, Object(base.kind, merges[0].meta, merges[0].spec.value)), merges[1..])
  }

  lemma {:induction false} MatchingDependsOnIdentity(a: Object, b: Object, overrides: seq<DynamicObject>)
    requires forall m :: Matches(a, m) <==> Matches(b, m)
    ensures Matching(a, overrides) == Matching(b, overrides)
  {
    if overrides != [] {
      MatchingDependsOnIdentity(a, b, overrides[1..]);
    }
  }

  /**
   * Applying a list of overrides is folding, in order, exactly those that match the original
   * object; it fails exactly if one of these cannot be parsed.
   */
  lemma {:induction false} ApplyToFoldsTheMatchingOverrides(base: Object, overrides: seq<DynamicObject>)
    ensures ApplyTo(base, overrides).1 <==> forall m :: m in Matching(base, overrides) ==> m.spec.Some?
    ensures ApplyTo(base, overrides).1 ==>
              ApplyTo(base, overrides).0 == MergeEach(base, Matching(base, overrides))
    ensures KeyOf(ApplyTo(base, overrides).0) == KeyOf(base)
    decreases |overrides|
  {
    if overrides != [] {
      var m := overrides[0];
      if Matches(base, m) && m.spec.Some? {
        var merged := MergeFrom(base, Object(base.kind, m.meta, m.spec.value));
        MatchingMergeKeepsIdentity(base, m, m.spec.value);
        MatchingDependsOnIdentity(base, merged, overrides[1..]);
        ApplyToFoldsTheMatchingOverrides(merged, overrides[1..]);
        var rest := Matching(base, overrides[1..]);
        assert Matching(base, overrides) == [m] + rest;
        assert ([m] + rest)[1..] == rest;
      } else if Matches(base, m) {
        assert m in Matching(base, overrides);
      } else {
        ApplyToFoldsTheMatchingOverrides(base, overrides[1..]);
      }
    }
  }

  /** The last set replica count in a list of overrides, else `default`. */
  function LastReplicas(merges: seq<DynamicObject>, default: Option<int>): Option<int> {
    if merges == [] then default
    else
      var last := merges[|merges| - 1];
      if last.spec.Some? && last.spec.value.replicas.Some? then last.spec.value.replicas
      else LastReplicas(merges[..|merges| - 1], default)
  }

  /** The last value a list of overrides gives to a node selector key, else `default`. */
  function LastSelector(merges: seq<DynamicObject>, key: string, default: Option<string>): Option<string> {
    if merges == [] then default
    else
      var last := merges[|merges| - 1];
      if last.spec.Some? && key in last.spec.value.nodeSelector then Some(last.spec.value.nodeSelector[key])
      else LastSelector(merges[..|merges| - 1], key, default)
  }

  function Selector(o: Object, key: string): Option<string> {
    if key in o.spec.nodeSelector then Some(o.spec.nodeSelector[key]) else None
  }

  /** The last value a list of overrides gives to another setting, else `default`. */
  function LastOther(merges: seq<DynamicObject>, path: string, default: Option<string>): Option<string> {
    if merges == [] then default
    else
      var last := merges[|merges| - 1];
      if last.spec.Some? && path in last.spec.value.other then Some(last.spec.value.other[path])
      else LastOther(merges[..|merges| - 1], path, default)
  }

  function Other(o: Object, path: string): Option<string> {
    if path in o.spec.other then Some(o.spec.other[path]) else None
  }

  lemma {:induction false} MergeEachAppend(base: Object, merges: seq<DynamicObject>, last: DynamicObject)
    requires forall m :: m in merges + [last] ==> m.spec.Some?
    ensures last in merges + [last] && forall m :: m in merges ==> m in merges + [last]
    ensures MergeEach(base, merges + [last])
         == MergeFrom(MergeEach(base, merges), Object(base.kind, last.meta, last.spec.value))
    decreases |merges|
  {
    var all := merges + [last];
    assert all[|merges|] == last;
    assert forall i :: 0 <= i < |merges| ==> all[i] == merges[i];
    if merges != [] {
      var merged := MergeFrom(base, Object(base.kind, merges[0].meta, merges[0].spec.value));
      assert all[1..] == merges[1..] + [last];
      MergeEachAppend(merged, merges[1..], last);
    } else {
      assert all[1..] == [];
    }
  }

  /** After folding overrides, the last one that sets a field decides it. */
  lemma {:induction false} MergeEachFields(base: Object, merges: seq<DynamicObject>, key: string)
    requires forall m :: m in merges ==> m.spec.Some?
    ensures MergeEach(base, merges).kind == base.kind
    ensures MergeEach(base, merges).spec.replicas == LastReplicas(merges, base.spec.replicas)
    ensures Selector(MergeEach(base, merges), key) == LastSelector(merges, key, Selector(base, key))
    ensures Other(MergeEach(base, merges), key) == LastOther(merges, key, Other(base, key))
    decreases |merges|
  {
    if merges != [] {
      var init, last := merges[..|merges| - 1], merges[|merges| - 1];
      assert merges == init + [last];
      MergeEachAppend(base, init, last);
      MergeEachFields(base, init, key);
    }
  }
}
