/**
 * Choosing a parser for a bulk-upload file by its extension: the text after
 * the last '.', lower-cased. The CSV parser and the workbook reader are
 * outside the model and come in as functions.
 */
module ParseFile {
  import opened Wrappers
  import opened Text
  import opened Multer

  /** One parsed row: the columns the bulk upload reads, each possibly missing. */
  datatype Row = Row(
    name: Option<string>,
    price: Option<string>,
    category: Option<string>,
    stock: Option<string>,
    imageUrl: Option<string>,
    description: Option<string>,
    status: Option<string>)

  datatype ParseError = UnsupportedFileType | ParserFailed

  /** `originalname.split('.').pop().toLowerCase()`. */
  function Extension(name: string): string {
    var parts := Split(name, '.');
    Lower(parts[|parts| - 1])
  }

  /** The extension is the lower-cased text after the last dot. */
  lemma ExtensionAfterLastDot(stem: string, suffix: string)
    requires '.' !in suffix
    ensures Extension(stem + "." + suffix) == Lower(suffix)
  {
    LastPiece(stem, '.', suffix);
  }

  /** A name without a dot is its own extension. */
  lemma ExtensionWithoutDot(name: string)
    requires '.' !in name
    ensures Extension(name) == Lower(name)
  {
    SplitFree(name, '.');
  }

  datatype Kind = Csv | Spreadsheet

  function Dispatch(name: string): Option<Kind> {
    KindOf(Extension(name))
  }

  function KindOf(ext: string): Option<Kind> {
    if ext == "csv" then Some(Csv)
    else if ext == "xlsx" || ext == "xls" then Some(Spreadsheet)
    else None
  }

  /**
   * `parseFileBuffer`: the rows of a CSV file or of a workbook's first sheet
   * (none when there is no sheet), or an unsupported-type error.
   */
  function ParseFileBuffer(file: UploadedFile,
                           csv: seq<byte> -> Option<seq<Row>>,
                           workbook: seq<byte> -> Option<seq<seq<Row>>>): (r: Result<seq<Row>, ParseError>)
    ensures Dispatch(file.originalname).None? <==> r == Failure(UnsupportedFileType)
    ensures Dispatch(file.originalname) == Some(Csv) ==>
      r == if csv(file.buffer).Some? then Success(csv(file.buffer).value) else Failure(ParserFailed)
    ensures Dispatch(file.originalname) == Some(Spreadsheet) ==>
      (r.Success? <==> workbook(file.buffer).Some?)
    ensures Dispatch(file.originalname) == Some(Spreadsheet) && r.Success? ==>
      r.value == if workbook(file.buffer).value == [] then [] else workbook(file.buffer).value[0]
  {
    match Dispatch(file.originalname)
    case None => Failure(UnsupportedFileType)
    case Some(Csv) =>
      (match csv(file.buffer)
       case Some(rows) => Success(rows)
       case None => Failure(ParserFailed))
    case Some(Spreadsheet) =>
      (match workbook(file.buffer)
       case None => Failure(ParserFailed)
       case Some(sheets) => if |sheets| == 0 then Success([]) else Success(sheets[0]))
  }

  /** Dispatch ignores case and uses only the last extension. */
  lemma DispatchUpperCaseCsv()
    ensures Dispatch("DATA.CSV") == Some(Csv)
  {
    assert "DATA.CSV" == "DATA" + "." + "CSV";
    ExtensionAfterLastDot("DATA", "CSV");
    assert Lower("CSV") == "csv";
  }

  lemma DispatchLastExtension()
    ensures Dispatch("report.v2.Xlsx") == Some(Spreadsheet)
  {
    assert "report.v2.Xlsx" == "report.v2" + "." + "Xlsx";
    ExtensionAfterLastDot("report.v2", "Xlsx");
    assert Lower("Xlsx") == "xlsx";
  }

  /** Only the text after the last dot counts: "notes.csv.pdf" is not a CSV file. */
  lemma DispatchIgnoresInnerExtension(stem: string, suffix: string)
    requires '.' !in suffix
    requires Lower(suffix) !in {"csv", "xlsx", "xls"}
    ensures Dispatch(stem + "." + suffix).None?
  {
    ExtensionAfterLastDot(stem, suffix);
  }

  /** A bare name "csv" has no dot, so the whole name is taken as the extension. */
  lemma DispatchBareName()
    ensures Dispatch("csv") == Some(Csv)
  {
    ExtensionWithoutDot("csv");
    assert Lower("csv") == "csv";
  }
}
