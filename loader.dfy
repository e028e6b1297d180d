/**
 * What the service's data loader hands to both transports.
 *
 * Text reaches this model already encoded: a string is the sequence of its
 * UTF-8 bytes, so every length is a byte count. A double is its raw 64-bit
 * pattern. The loader itself (plugin dispatch by format tag) is not part of
 * this model: it is a value, a list of formats and a total function from a
 * request to a result.
 */
module Loader {
  import opened Bytes

  /** The UTF-8 bytes of a string. */
  type Text = seq<byte>

  datatype Point = Point(x: f64, y: f64)

  /** One loaded trace. */
  datatype Dataset = Dataset(
    name: Text, dataId: Text, path: Text,
    xDescription: Text, yDescription: Text, xUnit: Text, yUnit: Text,
    datapoints: seq<Point>)

  /** One supported format: descriptions, its tag and the labels of its load options. */
  datatype FileFormatInfo = FileFormatInfo(
    longDescription: Text, shortDescription: Text, tag: Text, loadOptions: seq<Text>)

  /** The loader's answer: datasets, whether it succeeded, and its error message. */
  datatype LoadedPack = LoadedPack(data: seq<Dataset>, success: bool, error: Text)

  datatype LoadMode = Interactive | Hint | File

  /**
   * One call into the loader: `loadData(tag, option)` is mode `Interactive`
   * with an empty path, `loadDataHint` is `Hint`, `loadDataPath` is `File`.
   */
  datatype LoadCall = LoadCall(tag: Text, mode: LoadMode, path: Text, option: int32)

  datatype DataLoader = DataLoader(formats: seq<FileFormatInfo>, load: LoadCall -> LoadedPack)
}
