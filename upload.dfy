/**
 * The upload step of `server/app.js`: one file from the form field `image`,
 * kept only when its mimetype is PNG or JPEG, stored under `images` as the
 * upload time in ISO format, a dash and the client's file name.
 */
module Upload {
  import opened Wrappers

  const Destination: string := "images"
  const FieldName: string := "image"

  /** A file part of a multipart request, before it is stored. */
  datatype IncomingFile = IncomingFile(fieldname: string, originalname: string, mimetype: string)

  /** What the controller sees as `req.file`. */
  datatype StoredFile = StoredFile(fieldname: string, originalname: string, mimetype: string, filename: string) {
    /** `destination` joined with `filename`. */
    function Path(): string {
      Destination + "/" + filename
    }
  }

  /** Refusal by the upload step itself, before the filter: a file under another field. */
  datatype UploadError = UnexpectedField(field: string)

  /** The file filter: PNG and JPEG images only. */
  predicate AcceptedMimetype(mimetype: string) {
    mimetype == "image/png" || mimetype == "image/jpg" || mimetype == "image/jpeg"
  }

  /** The stored name for a file uploaded at `isoTime`. */
  function StoredName(isoTime: string, originalname: string): (r: string)
    ensures |r| == |isoTime| + 1 + |originalname|
  {
    isoTime + "-" + originalname
  }

  /** The client's file name back from a stored name, given the width of the timestamp. */
  function OriginalName(filename: string, timeWidth: nat): string
    requires |filename| > timeWidth
  {
    filename[timeWidth + 1..]
  }

  /**
   * `single('image')` with the filter: no file leaves `req.file` unset, a
   * file under another field is refused, a file of another type is dropped
   * without error, and an accepted file is stored.
   */
  function Receive(part: Option<IncomingFile>, isoTime: string): Result<Option<StoredFile>, UploadError> {
    match part
    case None => Success(None)
    case Some(f) =>
      if f.fieldname != FieldName then Failure(UnexpectedField(f.fieldname))
      else if !AcceptedMimetype(f.mimetype) then Success(None)
      else Success(Some(StoredFile(f.fieldname, f.originalname, f.mimetype, StoredName(isoTime, f.originalname))))
  }

  /** The filter keeps exactly the three image mimetypes. */
  lemma FilterAcceptsExactly(mimetype: string)
    ensures AcceptedMimetype(mimetype) <==> mimetype in ["image/png", "image/jpg", "image/jpeg"]
  {
  }

  /** An image field of any other type reaches the controller as "no file", not as an error. */
  lemma OtherTypesDropped(f: IncomingFile, isoTime: string)
    requires f.fieldname == FieldName && !AcceptedMimetype(f.mimetype)
    ensures Receive(Some(f), isoTime) == Success(None)
  {
  }

  /** An accepted image is stored under `images` with the timestamp and its own name. */
  lemma AcceptedStored(f: IncomingFile, isoTime: string)
    requires f.fieldname == FieldName && AcceptedMimetype(f.mimetype)
    ensures Receive(Some(f), isoTime).Success?
    ensures var s := Receive(Some(f), isoTime).value;
      s.Some? && s.value.originalname == f.originalname && s.value.mimetype == f.mimetype
      && s.value.Path() == "images/" + isoTime + "-" + f.originalname
  {
  }

  /** `req.file` is set only for an accepted image from the `image` field. */
  lemma StoredOnlyAccepted(part: Option<IncomingFile>, isoTime: string)
    requires Receive(part, isoTime).Success? && Receive(part, isoTime).value.Some?
    ensures part.Some? && part.value.fieldname == FieldName && AcceptedMimetype(part.value.mimetype)
  {
  }

  /** A stored path is never empty and always lies under `images/`. */
  lemma PathUnderImages(s: StoredFile)
    ensures |s.Path()| > |Destination| && s.Path()[..|Destination| + 1] == Destination + "/"
  {
  }

  /** The timestamp has a fixed width, so the client's name can be read back from the stored name. */
  lemma StoredNameRoundTrip(isoTime: string, originalname: string)
    ensures OriginalName(StoredName(isoTime, originalname), |isoTime|) == originalname
    ensures StoredName(isoTime, originalname)[..|isoTime|] == isoTime
  {
    var r := StoredName(isoTime, originalname);
    assert r == isoTime + ("-" + originalname);
  }
}
