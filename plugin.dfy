/**
 * The records every loader plugin hands back to the service: one `Data` per
 * loaded signal and the `Identifier` that describes the plugin.
 */
module Plugin {

  /** One loaded signal: seven strings and its [x, y] points, in order. */
  datatype Data = Data(
    name: string,
    dataId: string,
    path: string,
    xDescription: string,
    yDescription: string,
    xUnit: string,
    yUnit: string,
    datapoints: seq<(real, real)>)

  /** How a plugin describes itself: descriptions, its tag and its load options. */
  datatype Identifier = Identifier(
    longDescription: string,
    shortDescription: string,
    tag: string,
    loadOptions: seq<string>)
}
