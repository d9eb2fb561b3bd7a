/** Binding of world facets to the layers that draw them (`MainFrame.getLayers`):
    an insertion-ordered table from facet capability to layer factory, scanned
    in registration order, keeping one layer for EVERY capability the facet
    class is assignable to. */
module Layers {
  import opened Facets
  import opened LinkedMaps

  /** The layers the viewer can draw. A field layer is built for the concrete
      facet class it renders, with the two numeric parameters it was given. */
  datatype FacetLayer =
    | FieldFacetLayer(facetClass: ClassName, offset: int, scale: int)
    | WhittakerBiomeFacetLayer
    | CoreBiomeFacetLayer
    | MoistureModelFacetLayer
    | RiverModelFacetLayer
    | GraphFacetLayer
    | FloraFacetLayer
    | TreeFacetLayer

  /** `Function<Class<?>, FacetLayer>`: builds a layer for a concrete facet class. */
  type LayerFactory = FacetClass -> FacetLayer

  type Binding = (ClassName, LayerFactory)

  /** The capabilities of the table, in the order they are registered. */
  const RegistrationOrder: seq<ClassName> :=
    [FieldFacet2D, WhittakerBiomeFacet, BiomeFacet, MoistureModelFacet,
     RiverModelFacet, GraphFacet, FloraFacet, TreeFacet]

  /** The `put` calls `getLayers` makes, in call order. */
  const Registrations: seq<Binding> := [
    (FieldFacet2D, (c: FacetClass) => FieldFacetLayer(c.name, 0, 5)),
    (WhittakerBiomeFacet, (c: FacetClass) => WhittakerBiomeFacetLayer),
    (BiomeFacet, (c: FacetClass) => CoreBiomeFacetLayer),
    (MoistureModelFacet, (c: FacetClass) => MoistureModelFacetLayer),
    (RiverModelFacet, (c: FacetClass) => RiverModelFacetLayer),
    (GraphFacet, (c: FacetClass) => GraphFacetLayer),
    (FloraFacet, (c: FacetClass) => FloraFacetLayer),
    (TreeFacet, (c: FacetClass) => TreeFacetLayer)
  ]

  /** The table `getLayers` builds afresh on every call. */
  function LayerMapping(): LinkedMap<ClassName, LayerFactory>
  {
    PutAll(Empty(), Registrations)
  }

  /** No capability is put twice, so the table holds all eight registrations in
      call order. */
  lemma LayerMappingEntries()
    ensures LayerMapping().entries == Registrations
    ensures DistinctKeys(LayerMapping())
    ensures Keys(LayerMapping()) == RegistrationOrder
  {
    RegistrationsDistinct();
    PutAllFresh(Empty(), Registrations);
    assert LayerMapping().entries == Registrations;
  }

  lemma RegistrationsDistinct()
    ensures DistinctKeys(LinkedMap(Registrations))
    ensures Keys(LinkedMap(Registrations)) == RegistrationOrder
  {
  }

  /** The layers bound to facet class `f` by the entries of a table: one layer per
      entry whose capability `f` is assignable to, built by that entry's factory,
      in table order. */
  function Resolve(entries: seq<Binding>, f: FacetClass): (r: seq<FacetLayer>)
    ensures |r| <= |entries|
    decreases |entries|
  {
    if entries == [] then []
    else
      var last := entries[|entries| - 1];
      Resolve(entries[..|entries| - 1], f) + (if IsAssignableFrom(last.0, f) then [last.1(f)] else [])
  }

  /** Positions, in increasing order, of the entries whose capability `f` is
      assignable to. */
  function MatchingIndices(entries: seq<Binding>, f: FacetClass): (ix: seq<nat>)
    ensures forall k :: 0 <= k < |ix| ==> ix[k] < |entries|
    ensures forall k, l :: 0 <= k < l < |ix| ==> ix[k] < ix[l]
    ensures forall i :: 0 <= i < |entries| ==> (i in ix <==> IsAssignableFrom(entries[i].0, f))
    decreases |entries|
  {
    if entries == [] then []
    else
      var n := |entries| - 1;
      MatchingIndices(entries[..n], f) + (if IsAssignableFrom(entries[n].0, f) then [n] else [])
  }

  /** The `k`-th layer bound to `f` is built by the `k`-th matching entry: exactly
      one layer per matching entry, in table order. */
  lemma {:induction false} ResolveFollowsMatches(entries: seq<Binding>, f: FacetClass)
    ensures |Resolve(entries, f)| == |MatchingIndices(entries, f)|
    ensures forall k :: 0 <= k < |Resolve(entries, f)| ==>
              Resolve(entries, f)[k] == entries[MatchingIndices(entries, f)[k]].1(f)
    decreases |entries|
  {
    if entries != [] {
      var n := |entries| - 1;
      ResolveFollowsMatches(entries[..n], f);
      assert forall i :: 0 <= i < n ==> entries[..n][i] == entries[i];
    }
  }

  /** Multi-match: every matching entry contributes its own layer, and two matching
      entries contribute theirs in registration order. */
  lemma ResolveKeepsEveryMatch(entries: seq<Binding>, f: FacetClass, i: nat, j: nat)
    requires i < j < |entries|
    requires IsAssignableFrom(entries[i].0, f) && IsAssignableFrom(entries[j].0, f)
    ensures exists k, l :: 0 <= k < l < |Resolve(entries, f)| &&
              Resolve(entries, f)[k] == entries[i].1(f) && Resolve(entries, f)[l] == entries[j].1(f)
  {
    ResolveFollowsMatches(entries, f);
    var ix := MatchingIndices(entries, f);
    var k :| 0 <= k < |ix| && ix[k] == i;
    var l :| 0 <= l < |ix| && ix[l] == j;
  }

  /** Subsumption is reflexive: a facet class registered as a capability itself
      receives that entry's layer. */
  lemma ResolveReflexive(entries: seq<Binding>, f: FacetClass, i: nat)
    requires i < |entries| && entries[i].0 == f.name
    ensures entries[i].1(f) in Resolve(entries, f)
  {
    ResolveFollowsMatches(entries, f);
    var ix := MatchingIndices(entries, f);
    var k :| 0 <= k < |ix| && ix[k] == i;
    assert Resolve(entries, f)[k] == entries[i].1(f);
  }

  /** A facet gets no layer exactly when no entry's capability subsumes it. */
  lemma ResolveEmptyIffUnmatched(entries: seq<Binding>, f: FacetClass)
    ensures Resolve(entries, f) == [] <==>
            forall i :: 0 <= i < |entries| ==> !IsAssignableFrom(entries[i].0, f)
  {
    ResolveFollowsMatches(entries, f);
    var ix := MatchingIndices(entries, f);
    if ix != [] {
      assert ix[0] in ix;
    }
  }

  /** A facet class that is a `FieldFacet2D` gets, first of all, a field layer for
      its own concrete class with parameters 0 and 5. */
  lemma FieldFacetComesFirst(f: FacetClass)
    requires IsAssignableFrom(FieldFacet2D, f)
    ensures Resolve(Registrations, f) != []
    ensures Resolve(Registrations, f)[0] == FieldFacetLayer(f.name, 0, 5)
  {
    ResolveFollowsMatches(Registrations, f);
    var ix := MatchingIndices(Registrations, f);
    assert 0 in ix;
    var k :| 0 <= k < |ix| && ix[k] == 0;
  }

  /** A strictly increasing sequence of naturals below `b` has at most `b` elements,
      and its `k`-th element is at least `k`. */
  lemma {:induction false} IncreasingBelow(ix: seq<nat>, b: nat)
    requires forall k, l :: 0 <= k < l < |ix| ==> ix[k] < ix[l]
    requires forall k :: 0 <= k < |ix| ==> ix[k] < b
    ensures |ix| <= b
    ensures forall k :: 0 <= k < |ix| ==> k <= ix[k]
    decreases |ix|
  {
    if ix != [] {
      var n := |ix| - 1;
      IncreasingBelow(ix[..n], ix[n]);
    }
  }

  /** A facet class assignable to both `FieldFacet2D` and `WhittakerBiomeFacet`
      (the Whittaker facet itself when it extends the field facet, or any class
      below both), and to no other registered capability, gets a field layer
      followed by a Whittaker biome layer. */
  lemma WhittakerFieldFacetGetsBoth(f: FacetClass)
    requires IsAssignableFrom(FieldFacet2D, f) && IsAssignableFrom(WhittakerBiomeFacet, f)
    requires forall i :: 2 <= i < |RegistrationOrder| ==> !IsAssignableFrom(RegistrationOrder[i], f)
    ensures Resolve(Registrations, f) == [FieldFacetLayer(f.name, 0, 5), WhittakerBiomeFacetLayer]
  {
    ResolveFollowsMatches(Registrations, f);
    RegistrationsDistinct();
    var ix := MatchingIndices(Registrations, f);
    assert forall i :: 0 <= i < 8 ==> Registrations[i].0 == RegistrationOrder[i];
    assert 0 in ix && 1 in ix;
    assert forall i :: 2 <= i < 8 ==> i !in ix;
    assert forall k :: 0 <= k < |ix| ==> ix[k] < 2;
    IncreasingBelow(ix, 2);
  }

  /** The eight `put` calls at the start of `getLayers`. */
  method NewLayerMapping() returns (mapping: LinkedMap<ClassName, LayerFactory>)
    ensures mapping.entries == Registrations
    ensures DistinctKeys(mapping)
  {
    mapping := LayerMapping();
    LayerMappingEntries();
  }

  /** `Resolve` over one more entry of a table. */
  lemma ResolveSnoc(entries: seq<Binding>, i: nat, f: FacetClass)
    requires i < |entries|
    ensures Resolve(entries[..i + 1], f) ==
              Resolve(entries[..i], f) + (if IsAssignableFrom(entries[i].0, f) then [entries[i].1(f)] else [])
  {
    assert entries[..i + 1][..i] == entries[..i];
  }

  /** `getLayers`: builds the table, walks its keys in insertion order and keeps
      the layer of every capability the facet class is assignable to. `warned` is
      whether the "no layers found" warning is logged. */
  method GetLayers(facetClass: FacetClass) returns (result: seq<FacetLayer>, warned: bool)
    ensures result == Resolve(Registrations, facetClass)
    ensures |result| <= |RegistrationOrder|
    ensures warned <==> result == []
  {
    var mapping := NewLayerMapping();
    ghost var entries := mapping.entries;
    result := [];
    var keys := Keys(mapping);
    for i := 0 to |keys|
      invariant result == Resolve(entries[..i], facetClass)
    {
      ResolveSnoc(entries, i, facetClass);
      var clazz := keys[i];
      if IsAssignableFrom(clazz, facetClass) {
        GetAt(mapping, i);
        var factory := Get(mapping, clazz).value;
        result := result + [factory(facetClass)];
      }
    }
    assert entries[..|keys|] == entries;
    warned := result == [];
  }

  /** The layer list a table binds to the facets a generator declares: the
      layers of each facet, concatenated in declaration order. With the table
      `Registrations` this is the viewer's default layer list. */
  function LayersOf(table: seq<Binding>, facets: seq<FacetClass>): (r: seq<FacetLayer>)
    ensures |r| <= |table| * |facets|
    decreases |facets|
  {
    if facets == [] then []
    else
      var n := |facets| - 1;
      assert |table| * |facets| == |table| * n + |table|;
      LayersOf(table, facets[..n]) + Resolve(table, facets[n])
  }

  /** Layers are bound facet by facet: the layers of two runs of facets are the
      layers of each, one after the other. */
  lemma {:induction false} LayersOfAppend(table: seq<Binding>, a: seq<FacetClass>, b: seq<FacetClass>)
    ensures LayersOf(table, a + b) == LayersOf(table, a) + LayersOf(table, b)
    decreases |b|
  {
    if b != [] {
      var n := |b| - 1;
      assert (a + b)[..|a + b| - 1] == a + b[..n];
      LayersOfAppend(table, a, b[..n]);
    } else {
      assert a + b == a;
    }
  }

  /** The layers of the `i`-th declared facet sit, unchanged and in table order,
      between the layers of the facets before it and those after it. */
  lemma FacetLayersInPlace(table: seq<Binding>, facets: seq<FacetClass>, i: nat)
    requires i < |facets|
    ensures LayersOf(table, facets) ==
              LayersOf(table, facets[..i]) + Resolve(table, facets[i]) + LayersOf(table, facets[i + 1..])
  {
    var before, f, after := facets[..i], facets[i], facets[i + 1..];
    assert facets == before + [f] + after;
    LayersOfAppend(table, before + [f], after);
    LayersOfAppend(table, before, [f]);
    assert [f][..0] == [];
  }

  /** The default-building loop of the `MainFrame` constructor: `addAll` of
      `getLayers` for every facet the generator declares. */
  method DefaultLayers(facets: seq<FacetClass>) returns (loadedLayers: seq<FacetLayer>)
    ensures loadedLayers == LayersOf(Registrations, facets)
  {
    loadedLayers := [];
    for i := 0 to |facets|
      invariant loadedLayers == LayersOf(Registrations, facets[..i])
    {
      var layers, _ := GetLayers(facets[i]);
      assert facets[..i + 1][..i] == facets[..i];
      loadedLayers := loadedLayers + layers;
    }
    assert facets[..|facets|] == facets;
  }
}
