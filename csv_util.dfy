/**
 * What the CSV load dialog hands over, and its translation into the
 * loader's parameters, refused with a message when the user's input
 * cannot be used.
 */
module CsvUtil {
  import opened Wrappers
  import opened CsvLoader

  /** Whether the table has a header line, and whether that line also names the units. */
  datatype HeaderHandling = NoHeader | HeaderWithUnits | HeaderWithoutUnits

  /**
   * The dialog's answer. The delimiter is the text the user typed; the
   * labels and units are used when the table has no header (or no units).
   * `readBom` is the dialog's byte-order-mark setting.
   */
  datatype DialogParameters = DialogParameters(
    delimiter: string,
    decimalSeparator: char,
    xColumn: int,
    yColumn: int,
    multipleYcols: bool,
    xType: string,
    yType: string,
    xUnit: string,
    yUnit: string,
    header: HeaderHandling,
    linesToSkip: int,
    encodingId: string,
    readBom: bool)

  /** The two characters by which the user asks for a tab. */
  const TAB_ESCAPE := "\\t"

  const BAD_DELIMITER_MSG := "Delimiter must be a single character or '\\t' to represent TAB."
  const SAME_SEPARATOR_MSG := "Delimiter and decimal separator cannot be the same character."
  const SAME_COLUMNS_MSG := "X and Y columns cannot be the same"

  /** The delimiter character the typed text stands for. */
  function DelimiterOf(text: string): char
    requires |text| == 1 || text == TAB_ESCAPE
  {
    if text == TAB_ESCAPE then '\t' else text[0]
  }

  /**
   * `dialogParamsToLoaderParams`: check the delimiter text, that it is not
   * the decimal separator and that the columns differ, in that order, and
   * build valid loader parameters.
   */
  function DialogParamsToLoaderParams(p: DialogParameters): Result<Parameters, string>
  {
    if |p.delimiter| != 1 && p.delimiter != TAB_ESCAPE then Err(BAD_DELIMITER_MSG)
    else if [p.decimalSeparator] == p.delimiter then Err(SAME_SEPARATOR_MSG)
    else if p.xColumn == p.yColumn then Err(SAME_COLUMNS_MSG)
    else Ok(LoaderParameters(DelimiterOf(p.delimiter), p.decimalSeparator, p.xColumn, p.yColumn,
                             p.multipleYcols, p.header != NoHeader, p.linesToSkip, p.encodingId, p.readBom))
  }

  /**
   * The answer is accepted exactly when the delimiter is one character or
   * the tab escape, is not the decimal separator, and the columns differ;
   * the first failed check names the refusal. Accepted parameters are valid,
   * carry the delimiter the text stands for, and read a header line exactly
   * when the dialog says there is one.
   */
  lemma DialogParamsMeaning(p: DialogParameters)
    ensures DialogParamsToLoaderParams(p).Ok? <==>
      (|p.delimiter| == 1 || p.delimiter == TAB_ESCAPE)
      && p.delimiter != [p.decimalSeparator]
      && p.xColumn != p.yColumn
    ensures DialogParamsToLoaderParams(p).Err? ==>
      DialogParamsToLoaderParams(p).error ==
        if |p.delimiter| != 1 && p.delimiter != TAB_ESCAPE then BAD_DELIMITER_MSG
        else if p.delimiter == [p.decimalSeparator] then SAME_SEPARATOR_MSG
        else SAME_COLUMNS_MSG
    ensures DialogParamsToLoaderParams(p).Ok? ==>
      var q := DialogParamsToLoaderParams(p).value;
      q.isValid
      && (p.delimiter == TAB_ESCAPE ==> q.delimiter == '\t')
      && (|p.delimiter| == 1 ==> [q.delimiter] == p.delimiter && q.delimiter != q.decimalSeparator)
      && (q.hasHeader <==> p.header != NoHeader)
      && q.xColumn == p.xColumn && q.yColumn == p.yColumn && q.xColumn != q.yColumn
      && q.multipleYcols == p.multipleYcols && q.linesToSkip == p.linesToSkip
      && q.encodingId == p.encodingId && q.readBom == p.readBom
  {
  }
}
