/** The upload pipes: `ImageUploadPipe` and `DiagramUploadPipe` check an uploaded
    file's presence, size and MIME type before a controller sees it. */
module UploadPipes {
  import opened Wrappers

  /** `IMAGE_MAX_SIZE`: 5 MiB. */
  const ImageMaxSize: nat := 1024 * 1024 * 5

  const AllowedImageTypes: seq<string> := ["image/png", "image/jpeg", "image/heic", "image/webp"]
  const AllowedDiagramTypes: seq<string> := ["image/png", "image/svg+xml"]

  const InvalidFileMessage := "Invalid File Type / Size"

  /** The parts of a Multer file the pipes read; `None` is a missing file. */
  datatype UploadedFile = UploadedFile(size: nat, mimetype: string, originalName: string)

  /** The pipes' shared condition, negated: the file is there, within the size limit
      and of a listed type. */
  predicate Acceptable(file: Option<UploadedFile>, allowed: seq<string>) {
    file.Some? && file.value.size <= ImageMaxSize && file.value.mimetype in allowed
  }

  /** `ImageUploadPipe.transform`. */
  function ImageUpload(file: Option<UploadedFile>): (r: Result<UploadedFile>)
    ensures r.Ok? <==> file.Some? && file.value.size <= 5242880 && file.value.mimetype in AllowedImageTypes
    ensures r.Ok? ==> r.value == file.value
    ensures r.Err? ==> r.error == BadRequest(InvalidFileMessage)
  {
    if !Acceptable(file, AllowedImageTypes) then Err(BadRequest(InvalidFileMessage)) else Ok(file.value)
  }

  /** `DiagramUploadPipe.transform`. */
  function DiagramUpload(file: Option<UploadedFile>): (r: Result<UploadedFile>)
    ensures r.Ok? <==> file.Some? && file.value.size <= 5242880 && file.value.mimetype in AllowedDiagramTypes
    ensures r.Ok? ==> r.value == file.value
    ensures r.Err? ==> r.error == BadRequest(InvalidFileMessage)
  {
    if !Acceptable(file, AllowedDiagramTypes) then Err(BadRequest(InvalidFileMessage)) else Ok(file.value)
  }

  /** The size limit is inclusive: 5,242,880 bytes pass, one more does not. */
  lemma SizeLimitIsInclusive(name: string)
    ensures ImageUpload(Some(UploadedFile(5242880, "image/png", name))).Ok?
    ensures ImageUpload(Some(UploadedFile(5242881, "image/png", name))).Err?
    ensures DiagramUpload(Some(UploadedFile(5242880, "image/svg+xml", name))).Ok?
    ensures DiagramUpload(Some(UploadedFile(5242881, "image/svg+xml", name))).Err?
  {
  }

  /** The two pipes agree on PNG only: JPEG, HEIC and WebP are images but not diagrams,
      SVG is a diagram but not an image. */
  lemma PipesDiffer(file: UploadedFile)
    requires file.size <= ImageMaxSize
    ensures file.mimetype == "image/png" ==> ImageUpload(Some(file)).Ok? && DiagramUpload(Some(file)).Ok?
    ensures file.mimetype in ["image/jpeg", "image/heic", "image/webp"] ==>
      ImageUpload(Some(file)).Ok? && DiagramUpload(Some(file)).Err?
    ensures file.mimetype == "image/svg+xml" ==> ImageUpload(Some(file)).Err? && DiagramUpload(Some(file)).Ok?
  {
  }

  /** A missing file fails both pipes the same way as a bad one. */
  lemma MissingFileRejected()
    ensures ImageUpload(None) == Err(BadRequest(InvalidFileMessage))
    ensures DiagramUpload(None) == Err(BadRequest(InvalidFileMessage))
  {
  }
}
