/** The image-upload endpoint (src/app/api/upload-image/route.ts): checks
    the caller, the `image` form field and its declared type, names the file
    `<uuid>.<extension>` and stores it in public blob storage. The uuid and
    the storage outcome are parameters. */
module UploadImage {
  import opened Wrappers
  import opened Strings
  import opened Js
  import Auth

  /** What `formData.get('image')` yields: nothing, a text field, or a file. */
  datatype FormEntry = NoEntry | TextEntry(text: string) | FileEntry(file: File)

  /** What blob storage does with the bytes: a public URL, or a thrown error. */
  datatype Put = Stored(url: string) | PutFailed

  datatype UploadResponse =
    | UploadUnauthorized
    | NoFileUploaded
    | InvalidFileType
    | Uploaded(success: bool, filename: string, path: string)
    | UploadFailed

  /** The response, and the name handed to blob storage when it was called. */
  datatype UploadResult = UploadResult(response: UploadResponse, putName: Option<string>)

  function UploadStatus(r: UploadResponse): int
  {
    match r
    case UploadUnauthorized => 401
    case NoFileUploaded => 400
    case InvalidFileType => 400
    case Uploaded(_, _, _) => 200
    case UploadFailed => 500
  }

  function ErrorMessage(r: UploadResponse): string
    requires !r.Uploaded?
  {
    match r
    case UploadUnauthorized => "Unauthorized"
    case NoFileUploaded => "No file uploaded"
    case InvalidFileType => "Invalid file type"
    case UploadFailed => "Failed to upload image"
  }

  const DefaultExtension: string := "jpg"

  /** `name.split('.').pop() || 'jpg'`. */
  function Extension(name: string): (ext: string)
    ensures ext != ""
    // a name ending in a dot, or empty, falls back to jpg
    ensures |name| == 0 || name[|name| - 1] == '.' ==> ext == DefaultExtension
    // otherwise: the dot-free tail of the name, after its last dot or the whole name
    ensures |name| > 0 && name[|name| - 1] != '.' ==>
              && EndsWith(name, ext)
              && '.' !in ext
              && (|ext| == |name| || name[|name| - |ext| - 1] == '.')
  {
    var segment := LastSegment(name, '.');
    if segment == "" then DefaultExtension else segment
  }

  /** The extension agrees with the JavaScript expression it models. */
  lemma ExtensionIsSplitPop(name: string)
    ensures var parts := Split(name, '.');
            Extension(name) == if parts[|parts| - 1] == "" then DefaultExtension else parts[|parts| - 1]
  {
    LastOfSplit(name, '.');
  }

  /** A dot-less name is its own extension. */
  lemma DotlessNameIsExtension(name: string)
    requires name != "" && '.' !in name
    ensures Extension(name) == name
  {
    NoSepLastSegment(name, '.');
  }

  /** The stored name. */
  function StoredName(uuid: string, name: string): string
  {
    uuid + "." + Extension(name)
  }

  /** The stored name keeps the extension: reading it back from the stored
      name gives the extension derived from the uploaded name. */
  lemma {:induction false} StoredNameKeepsExtension(uuid: string, name: string)
    ensures Extension(StoredName(uuid, name)) == Extension(name)
  {
    var ext := Extension(name);
    assert StoredName(uuid, name) == (uuid + ".") + ext;
    NoSepLastSegment(ext, '.');
    LastSegmentOfSuffix(uuid + ".", ext, '.');
  }

  lemma {:induction false} LastSegmentOfSuffix(a: string, b: string, sep: char)
    requires |a| > 0 && a[|a| - 1] == sep
    requires sep !in b
    ensures LastSegment(a + b, sep) == b
  {
    if |b| == 0 {
      assert a + b == a;
    } else {
      var init := b[..|b| - 1];
      assert (a + b)[..|a + b| - 1] == a + init;
      assert sep !in init by {
        forall k | 0 <= k < |init| ensures init[k] != sep { assert init[k] == b[k]; }
      }
      LastSegmentOfSuffix(a, init, sep);
      assert b == init + [b[|b| - 1]];
    }
  }

  /** POST, given the caller and the form (`None` when the body is not form data). */
  function Upload(user: Option<Auth.AuthUser>, form: Option<FormEntry>, uuid: string, put: Put): (res: UploadResult)
    ensures user.None? ==> res == UploadResult(UploadUnauthorized, None)
    // a body that is not form data, or a text field read as a file, throws: 500
    ensures user.Some? && (form.None? || (form.Some? && form.value.TextEntry? && form.value.text != "")) ==>
              res == UploadResult(UploadFailed, None)
    ensures user.Some? && (form == Some(NoEntry) || form == Some(TextEntry(""))) ==>
              res == UploadResult(NoFileUploaded, None)
    ensures user.Some? && form.Some? && form.value.FileEntry? && !StartsWith(form.value.file.mimeType, "image/") ==>
              res == UploadResult(InvalidFileType, None)
    // storage is called exactly for an image file from an authenticated caller
    ensures res.putName.Some? <==>
              user.Some? && form.Some? && form.value.FileEntry? && StartsWith(form.value.file.mimeType, "image/")
    ensures res.putName.Some? ==> res.putName.value == StoredName(uuid, form.value.file.name)
    ensures res.response.Uploaded? <==> res.putName.Some? && put.Stored?
    ensures res.response.Uploaded? ==>
              res.response == Uploaded(true, res.putName.value, put.url)
    ensures res.putName.Some? && put.PutFailed? ==> res.response == UploadFailed
  {
    if user.None? then UploadResult(UploadUnauthorized, None)
    else match form
      case None => UploadResult(UploadFailed, None)
      case Some(NoEntry) => UploadResult(NoFileUploaded, None)
      case Some(TextEntry(t)) =>
        // a non-empty text field has no `type`: reading `startsWith` of it throws
        if t == "" then UploadResult(NoFileUploaded, None) else UploadResult(UploadFailed, None)
      case Some(FileEntry(f)) =>
        if !StartsWith(f.mimeType, "image/") then UploadResult(InvalidFileType, None)
        else
          var filename := StoredName(uuid, f.name);
          match put
          case Stored(url) => UploadResult(Uploaded(true, filename, url), Some(filename))
          case PutFailed => UploadResult(UploadFailed, Some(filename))
  }
}
