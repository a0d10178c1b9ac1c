/**
 * The upload middleware's file filter: a file is accepted exactly when its
 * declared MIME type is one of six literal strings.
 */
module Multer {

  newtype byte = x: int | 0 <= x < 256

  /** An uploaded file as the middleware hands it on: name, declared type and contents. */
  datatype UploadedFile = UploadedFile(originalname: string, mimetype: string, buffer: seq<byte>)

  const AllowedMimeTypes: seq<string> := [
    "image/jpeg", "image/jpg", "image/png", "image/webp",
    "application/vnd.openxmlformats-officedocument.spreadsheetml.sheet", "text/csv"
  ]

  datatype FilterDecision = Accept | Reject(message: string)

  /** `fileFilter`: the callback gets `true` for an allowed type and an error otherwise. */
  function FileFilter(file: UploadedFile): (d: FilterDecision)
    ensures d.Accept? <==> file.mimetype in AllowedMimeTypes
    ensures d.Reject? ==> d.message == "Invalid file type"
  {
    if file.mimetype in AllowedMimeTypes then Accept else Reject("Invalid file type")
  }

  /** The decision looks at the declared type only, never at the name or the contents. */
  lemma FilterIgnoresNameAndContents(a: UploadedFile, b: UploadedFile)
    requires a.mimetype == b.mimetype
    ensures FileFilter(a) == FileFilter(b)
  {
  }

  /** Matching is exact: no case folding, no parameters, no prefix match, and no legacy Excel type. */
  lemma FilterIsExact(name: string, buffer: seq<byte>)
    ensures FileFilter(UploadedFile(name, "text/csv", buffer)).Accept?
    ensures FileFilter(UploadedFile(name, "TEXT/CSV", buffer)).Reject?
    ensures FileFilter(UploadedFile(name, "text/csv; charset=utf-8", buffer)).Reject?
    ensures FileFilter(UploadedFile(name, "image/", buffer)).Reject?
    ensures FileFilter(UploadedFile(name, "application/vnd.ms-excel", buffer)).Reject?
  {
  }
}
