/** Lists of layers, most specific first, whose merge delays their application. */
module Layering {

  /** A way to group layers into pairwise merges. */
  datatype Grouping<O> = Layer(layer: O) | Merged(upper: Grouping<O>, lower: Grouping<O>)

  function Layers<O>(g: Grouping<O>): seq<O> {
    match g
    case Layer(o) => [o]
    case Merged(upper, lower) => Layers(upper) + Layers(lower)
  }

  function MergeGrouped<O>(merge: (O, O) -> O, g: Grouping<O>): O {
    match g
    case Layer(o) => o
    case Merged(upper, lower) => merge(MergeGrouped(merge, upper), MergeGrouped(merge, lower))
  }

  /** Applies the layers one after the other, the last one first. */
  function ApplyLayers<O, X>(apply: (O, X) -> X, layers: seq<O>, x: X): X {
    if layers == [] then x else apply(layers[0], ApplyLayers(apply, layers[1..], x))
  }

  /** A merged layer acts like the defaults followed by the overrides. */
  ghost predicate Composes<O(!new), X(!new)>(merge: (O, O) -> O, apply: (O, X) -> X) {
    forall self, defaults, x :: apply(merge(self, defaults), x) == apply(self, apply(defaults, x))
  }

  lemma {:induction false} ApplyLayersConcat<O, X>(apply: (O, X) -> X, a: seq<O>, b: seq<O>, x: X)
    ensures ApplyLayers(apply, a + b, x) == ApplyLayers(apply, a, ApplyLayers(apply, b, x))
  {
    if a == [] {
      assert a + b == b;
    } else {
      assert (a + b)[1..] == a[1..] + b;
      ApplyLayersConcat(apply, a[1..], b, x);
    }
  }

  lemma ApplyLayersAppend<O, X>(apply: (O, X) -> X, layers: seq<O>, last: O, x: X)
    ensures ApplyLayers(apply, layers + [last], x) == ApplyLayers(apply, layers, apply(last, x))
  {
    ApplyLayersConcat(apply, layers, [last], x);
    assert [last][1..] == [];
  }

  /** If merging composes, every grouping of the layers acts like the layers one after the other. */
  lemma {:induction false} GroupingIsIrrelevant<O(!new), X(!new)>(
    merge: (O, O) -> O, apply: (O, X) -> X, g: Grouping<O>, x: X)
    requires Composes(merge, apply)
    ensures apply(MergeGrouped(merge, g), x) == ApplyLayers(apply, Layers(g), x)
    decreases g
  {
    match g
    case Layer(o) =>
      assert [o][1..] == [];
    case Merged(upper, lower) =>
      GroupingIsIrrelevant(merge, apply, lower, x);
      GroupingIsIrrelevant(merge, apply, upper, apply(MergeGrouped(merge, lower), x));
      ApplyLayersConcat(apply, Layers(upper), Layers(lower), x);
  }
}
