/** The upload rules: which files the upload layer accepts, where it stores them and
    under which name, and the clean-up of a staged file when a request fails. */
module Uploads {
  import opened Common
  import opened Numbers

  /** What the upload layer knows of an incoming file. */
  datatype UploadedFile = UploadedFile(originalname: string, mimetype: string)

  datatype Verdict = Accept | Reject(error: ApiError)

  const AllowedMimetypes: set<string> := {"image/png", "image/jpg", "image/jpeg"}

  const InvalidFormat := ApiError("Invalid file format", 401)

  /** `fileFilter`: exactly the three image types pass; anything else is refused with 401. */
  function FileFilter(file: UploadedFile): (r: Verdict)
    ensures r.Accept? <==> file.mimetype in AllowedMimetypes
    ensures r.Reject? ==> r.error == InvalidFormat
  {
    if file.mimetype == "image/png" || file.mimetype == "image/jpg" || file.mimetype == "image/jpeg"
    then Accept
    else Reject(InvalidFormat)
  }

  /** The `destination` rule of `multerConfig(multer, imgPath)`: the configured directory, whatever the file. */
  function Destination(imgPath: string, file: UploadedFile): string
  {
    imgPath
  }

  /** Every file, whatever its name or type, goes to the configured directory. */
  lemma DestinationIsConfigured(imgPath: string, file: UploadedFile, other: UploadedFile)
    ensures Destination(imgPath, file) == imgPath == Destination(imgPath, other)
  {
  }

  /** The `filename` rule: the upload instant in milliseconds, a dash, then the client's file name. */
  function StoredFilename(now: nat, file: UploadedFile): (r: string)
    ensures |r| > |file.originalname| && r[|r| - |file.originalname|..] == file.originalname
  {
    Decimal(now) + "-" + file.originalname
  }

  /** Reads a stored name back into its instant and original name: the digits before the first dash. */
  function ParseStoredFilename(name: string): Option<(nat, string)>
  {
    var d := DigitPrefix(name);
    if d != [] && |d| < |name| && name[|d|] == '-' then Some((DigitsValue(d), name[|d| + 1..])) else None
  }

  /** A stored name determines both the instant and the original name, so two uploads
      get the same stored name only if they agree on both. */
  lemma StoredFilenameRoundTrip(now: nat, file: UploadedFile)
    ensures ParseStoredFilename(StoredFilename(now, file)) == Some((now, file.originalname))
  {
    var r := StoredFilename(now, file);
    assert r == Decimal(now) + ("-" + file.originalname);
    DigitPrefixStops(Decimal(now), "-" + file.originalname);
    DecimalRoundTrip(now);
    assert r[|Decimal(now)| + 1..] == file.originalname;
  }

  /** The clean-up policy: a staged file, if there is one, is removed from the upload directory. */
  function Discard(files: set<string>, file: Option<string>): (r: set<string>)
    ensures r <= files
    ensures file.None? ==> r == files
    ensures file.Some? ==> file.value !in r && forall f :: f in files && f != file.value ==> f in r
  {
    if file.Some? then files - {file.value} else files
  }
}
