/** The start-up part of the viewer's main window (`MainFrame`): the default
    layers of every declared facet, replaced by the persisted layers unless
    loading them throws. */
module Frame {
  import opened Layers
  import opened WorldGenerators

  /** What `Config.loadLayers` does: return a layer list, or throw a
      `RuntimeException`. */
  datatype LoadOutcome = Loaded(layers: seq<FacetLayer>) | Threw

  /** The viewer configuration, reduced to its layer loader: given the
      generator's URI and the default layers, the outcome of loading. */
  datatype Config = Config(loadLayers: (SimpleUri, seq<FacetLayer>) -> LoadOutcome)

  class MainFrame {
    const worldGen: WorldGenerator
    const config: Config

    /** The layers handed to the viewer and the layer panel. */
    var layerList: seq<FacetLayer>

    /** Fills the layer list with the defaults for every declared facet, then
        tries to replace it with the loaded layers, keeping the defaults when
        loading throws. */
    constructor (worldGen: WorldGenerator, config: Config)
      ensures this.worldGen == worldGen && this.config == config
      ensures var defaults := LayersOf(Registrations, worldGen.facets);
              match config.loadLayers(worldGen.uri, defaults)
              case Loaded(layers) => layerList == layers
              case Threw => layerList == defaults
    {
      this.worldGen := worldGen;
      this.config := config;
      var loadedLayers := DefaultLayers(worldGen.facets);
      var outcome := config.loadLayers(worldGen.uri, loadedLayers);
      if outcome.Loaded? {
        loadedLayers := outcome.layers;
      }
      layerList := loadedLayers;
    }
  }
}
