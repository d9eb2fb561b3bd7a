/** Class identities of world facets and the subsumption test used to bind
    them to layers (`Class.isAssignableFrom`), without reflection. */
module Facets {

  /** A fully qualified Java class name. */
  type ClassName = string

  /** A facet class: its own name and the names of every class and interface it
      extends or implements, directly or transitively. */
  datatype FacetClass = FacetClass(name: ClassName, supertypes: set<ClassName>)

  /** `capability.isAssignableFrom(c)`: `c` is `capability` itself or one of its
      subtypes. */
  predicate IsAssignableFrom(capability: ClassName, c: FacetClass)
  {
    capability == c.name || capability in c.supertypes
  }

  // The facet capabilities that have a layer in the viewer.
  const FieldFacet2D: ClassName := "org.terasology.world.generation.facets.base.FieldFacet2D"
  const WhittakerBiomeFacet: ClassName := "org.terasology.polyworld.biome.WhittakerBiomeFacet"
  const BiomeFacet: ClassName := "org.terasology.core.world.generator.facets.BiomeFacet"
  const MoistureModelFacet: ClassName := "org.terasology.polyworld.moisture.MoistureModelFacet"
  const RiverModelFacet: ClassName := "org.terasology.polyworld.rivers.RiverModelFacet"
  const GraphFacet: ClassName := "org.terasology.polyworld.voronoi.GraphFacet"
  const FloraFacet: ClassName := "org.terasology.core.world.generator.facets.FloraFacet"
  const TreeFacet: ClassName := "org.terasology.core.world.generator.facets.TreeFacet"
}
