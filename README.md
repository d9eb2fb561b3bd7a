# WorldViewer: generator instantiation and facet-to-layer binding

A Dafny model of two pieces of decision logic in the WorldViewer preview tool
for Terasology world generators:

- **Facet-to-layer binding** (`MainFrame`). `getLayers` builds an
  insertion-ordered table (a `LinkedHashMap`) from eight facet capability
  classes to layer factories. It walks the table in registration order and
  keeps one layer for every capability the facet class is assignable to. The
  `MainFrame` constructor concatenates these layers over all facets the
  generator declares. It then replaces them with the layers loaded from the
  configuration, and keeps the defaults if loading throws.
- **Generator instantiation** (`WorldGenerators`). `createWorldGenerator`
  resolves a class by name and checks it in a fixed order: it links, it
  implements `WorldGenerator`, it carries `@RegisterWorldGenerator`, and it
  has a `SimpleUri` constructor that returns normally. Any failure becomes
  `null`. `getAnnotatedDisplayName` returns the annotation's display name, or
  the class's simple name when the class has no annotation.

Files:

- `wrappers.dfy` — `Option` (a Java reference that may be `null`) and `Result`.
- `facets.dfy` — class identities. A facet class carries its full set of
  supertypes. `IsAssignableFrom` is reflexive membership in that set.
- `linked_map.dfy` — `LinkedHashMap` as a sequence of entries. `put` of a new
  key appends; `put` of a present key replaces the value in place.
- `layers.dfy` — the eight registrations and the resolution specification
  `Resolve`. Also the `getLayers` loop (`GetLayers`), the default-building
  loop (`DefaultLayers`) and the lemmas about them.
- `main_frame.dfy` — class `MainFrame`: the constructor's
  defaults-then-load-with-fallback sequence.
- `world_generators.dfy` — `createWorldGenerator` and
  `getAnnotatedDisplayName` over class descriptors.

Reflection is replaced by data. `Class.forName` becomes a lookup in a
`ClassPath` map; an absent name is `ClassNotFoundException`. Each class is
described by a `ClassInfo` record: whether it links, whether it implements
`WorldGenerator`, its optional annotation, whether it has a `SimpleUri`
constructor, whether that constructor returns normally, and the facets an
instance declares. `Config.loadLayers` is a total function parameter that
either returns a layer list or throws. Logging is left out. The one log call
whose trigger is part of the contract, the "no layers found" warning, is the
`warned` out-parameter of `GetLayers`.

Notes on the code's behaviour:

- The display name is chosen by annotation presence alone. An annotated class
  with an empty display name is shown with that empty name, not its simple
  name.
- Every instantiation failure the method catches ends in `null`. The model keeps the failing
  check (`CreationFailure`) only to state the order of the checks.
- The constructor itself does not merge persisted layers with the defaults. It
  hands the defaults to the loader (MainFrame.java:101), and the list the
  loader returns becomes the layer list. Any merging happens inside the loader.

## Model

| member | source | states |
|---|---|---|
| `LinkedMaps.PutSpec` | src/main/java/org/terasology/worldviewer/MainFrame.java:147-171 | `put` stores the value under the key and leaves every other key's value alone. A new key is appended to the key order. A present key keeps its position. Distinct keys stay distinct. |
| `LinkedMaps.PutAllFresh` | src/main/java/org/terasology/worldviewer/MainFrame.java:147-171 | A run of `put` calls with new, pairwise different keys leaves exactly those entries, in call order. |
| `LinkedMaps.GetAt` | src/main/java/org/terasology/worldviewer/MainFrame.java:173-175 | With distinct keys, `get` of the i-th key returns the i-th factory. |
| `Layers.LayerMappingEntries` | src/main/java/org/terasology/worldviewer/MainFrame.java:147-171 | The table rebuilt on every call holds the eight registrations, in registration order, with distinct keys. |
| `Layers.NewLayerMapping` | src/main/java/org/terasology/worldviewer/MainFrame.java:147-171 | The table built at the start of `getLayers` is exactly the eight registrations, with distinct keys. |
| `Layers.Resolve` | src/main/java/org/terasology/worldviewer/MainFrame.java:173-177 | The layers bound to a facet class never outnumber the table's entries. |
| `Layers.MatchingIndices` | src/main/java/org/terasology/worldviewer/MainFrame.java:173-174 | The matching positions are strictly increasing and in range. A position is listed iff its capability is assignable from the facet class. |
| `Layers.ResolveFollowsMatches` | src/main/java/org/terasology/worldviewer/MainFrame.java:173-177 | There is exactly one layer per matching entry. The k-th layer is built by the k-th matching entry's factory, applied to the facet class. |
| `Layers.ResolveKeepsEveryMatch` | src/main/java/org/terasology/worldviewer/MainFrame.java:173-177 | Multi-match: two matching entries i < j both contribute layers, with i's layer before j's. |
| `Layers.ResolveReflexive` | src/main/java/org/terasology/worldviewer/MainFrame.java:174 | A facet class equal to a registered capability receives that entry's layer. |
| `Layers.ResolveEmptyIffUnmatched` | src/main/java/org/terasology/worldviewer/MainFrame.java:184-188 | The result is empty iff no entry's capability is assignable from the facet class. |
| `Layers.FieldFacetComesFirst` | src/main/java/org/terasology/worldviewer/MainFrame.java:149-150 | A `FieldFacet2D` facet's first layer is a field layer for its own concrete class, with parameters 0 and 5. |
| `Layers.WhittakerFieldFacetGetsBoth` | src/main/java/org/terasology/worldviewer/MainFrame.java:149-153 | Take a facet class assignable to both `FieldFacet2D` and `WhittakerBiomeFacet` and to no other registered capability. This includes `WhittakerBiomeFacet` itself when it extends `FieldFacet2D`. It gets exactly a field layer followed by a Whittaker biome layer. |
| `Layers.GetLayers` | src/main/java/org/terasology/worldviewer/MainFrame.java:143-189 | The loop returns exactly `Resolve` over the eight registrations, so two calls on one facet class agree. It returns at most eight layers. The warning is raised exactly when the result is empty. |
| `Layers.LayersOf` | src/main/java/org/terasology/worldviewer/MainFrame.java:95-97 | The per-facet concatenation has at most (entries × facets) layers. |
| `Layers.LayersOfAppend` | src/main/java/org/terasology/worldviewer/MainFrame.java:95-97 | The layers of `a + b` are the layers of `a` followed by those of `b`. |
| `Layers.FacetLayersInPlace` | src/main/java/org/terasology/worldviewer/MainFrame.java:95-97 | The i-th declared facet's layers appear unchanged, after those of earlier facets and before those of later facets. |
| `Layers.DefaultLayers` | src/main/java/org/terasology/worldviewer/MainFrame.java:92-97 | The `addAll` loop produces the concatenation, in declared-facet order, of `getLayers` for each facet. |
| `Frame.MainFrame.constructor` | src/main/java/org/terasology/worldviewer/MainFrame.java:87-108 | The layer list is whatever the loader returned. If the loader throws, it is the unchanged defaults. |
| `WorldGenerators.Instantiate` | src/main/java/org/terasology/worldviewer/WorldGenerators.java:80-90 | The attempt succeeds iff the class resolves, links, implements `WorldGenerator`, is annotated, and has a `SimpleUri` constructor that returns normally. |
| `WorldGenerators.CreateWorldGenerator` | src/main/java/org/terasology/worldviewer/WorldGenerators.java:78-104 | The result is `null` exactly when some check fails, so no partial generator is ever returned. On success the generator has the given class name and the URI `unknown:<annotation id>`. |
| `WorldGenerators.FirstFailingCheckDecides` | src/main/java/org/terasology/worldviewer/WorldGenerators.java:80-90 | Each failure kind occurs exactly when its check is the first, in source order, that does not pass. |
| `WorldGenerators.NonGeneratorNeverConsultsAnnotation` | src/main/java/org/terasology/worldviewer/WorldGenerators.java:82-84 | A class that does not implement `WorldGenerator` yields `null`. Changing its annotation or constructors does not change the outcome. |
| `WorldGenerators.UnannotatedNeverConsultsConstructor` | src/main/java/org/terasology/worldviewer/WorldGenerators.java:85-87 | A class without the annotation yields `null`. Changing its constructors does not change the outcome. |
| `WorldGenerators.AnnotatedDisplayName` | src/main/java/org/terasology/worldviewer/WorldGenerators.java:110-117 | The name is the annotation's display name when the class is annotated, and its simple name otherwise. |
| `WorldGenerators.CreatedGeneratorNamedByItsAnnotation` | src/main/java/org/terasology/worldviewer/WorldGenerators.java:85-90 | A created generator's URI name and display name come from the same annotation. |

## Left out

- The Swing window: panel layout, the status bar, the memory `Timer` and its
  label (MainFrame.java:110-139). This is GUI code with no decision logic.
- The copy-on-write list handed to the tile renderer (MainFrame.java:108). It
  exists for thread safety; the layer list is a plain sequence here.
- `dispose` and `Config.storeLayers` (MainFrame.java:191-200). This is
  teardown, and `Config` is not part of this model.
- `Config.loadLayers`: how it merges persisted settings into the defaults is
  not visible. It is a parameter returning a layer list or throwing a
  `RuntimeException`. An `Error` escaping from it, which the source does not
  catch, is not modelled.
- `findOnClasspath` (WorldGenerators.java:55-72). It wraps a classpath scanner
  that is not part of this model.
- The distinct catch clauses and log messages of `createWorldGenerator`. All
  of them end in `null`. A `SecurityException` from `getConstructor` counts as
  "no `SimpleUri` constructor" (`hasUriConstructor` false).
- `WorldGenerators.CreateWorldGenerator`: an `Error` other than a
  `LinkageError` is not caught (WorldGenerators.java:91-101) and escapes.
  Examples are an `AssertionError` thrown by a static initializer during
  `Class.forName`, or an `AnnotationFormatError` from `getAnnotation`.
  `ClassInfo` has no value for such a class, so the model promises `null` or a
  generator in every case.
- `Frame.MainFrame.constructor`: assumes the loader neither modifies the
  default list and layer objects passed to it nor returns `null`. In the source
  the defaults are passed by reference. A loader that changes them and then
  throws leaves changed defaults in the layer list (MainFrame.java:101-108). A
  `null` result throws a `NullPointerException` at line 108, outside the
  `try`. With a pure loader the model keeps the defaults unchanged when loading
  throws.
- The layer classes themselves. Each layer is a constructor of the
  `FacetLayer` datatype. The field layer's two `double` parameters are the
  integers 0 and 5, the only values used.
- The generic type parameters and unchecked casts of `getLayers`, and the
  commented-out `ObjectFacet2D` entry (MainFrame.java:179-182).
- `MapViewer.main` (a logging and window-showing entry point).
