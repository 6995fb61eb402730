/** The image picker (src/components/ImageUpload.tsx): HEIC/HEIF detection
    and conversion to JPEG, the image-type gate before a file is handed on,
    and the drag highlight. The converter and the file reader are outcome
    parameters. */
module ImageUpload {
  import opened Wrappers
  import opened Strings
  import opened Js

  const JpegType: string := "image/jpeg"

  /** `file.type` is HEIC/HEIF, or the lower-cased name ends in `.heic` or `.heif`. */
  predicate IsHeic(f: File)
  {
    || f.mimeType == "image/heic" || f.mimeType == "image/heif"
    || EndsWith(ToLowerAscii(f.name), ".heic") || EndsWith(ToLowerAscii(f.name), ".heif")
  }

  /** The regex `/\.(heic|heif)$/i`, matched case-insensitively at the end. */
  predicate HasHeicSuffix(name: string)
  {
    && |name| >= 5
    && name[|name| - 5] == '.'
    && LowerAscii(name[|name| - 4]) == 'h'
    && LowerAscii(name[|name| - 3]) == 'e'
    && LowerAscii(name[|name| - 2]) == 'i'
    && (LowerAscii(name[|name| - 1]) == 'c' || LowerAscii(name[|name| - 1]) == 'f')
  }

  /** `name.replace(/\.(heic|heif)$/i, '.jpg')`. */
  function RenameHeic(name: string): (r: string)
    ensures HasHeicSuffix(name) ==> r == name[..|name| - 5] + ".jpg"
    ensures !HasHeicSuffix(name) ==> r == name
  {
    if HasHeicSuffix(name) then name[..|name| - 5] + ".jpg" else name
  }

  /** The regex test and the lower-cased suffix test agree: a name is renamed
      exactly when its name alone marks it as HEIC. */
  lemma {:induction false} SuffixTestsAgree(name: string)
    ensures HasHeicSuffix(name) <==> EndsWith(ToLowerAscii(name), ".heic") || EndsWith(ToLowerAscii(name), ".heif")
  {
    var low := ToLowerAscii(name);
    if |name| >= 5 {
      var tail := LowerTail(name);
      assert EndsWith(low, ".heic") <==> tail == ".heic";
      assert EndsWith(low, ".heif") <==> tail == ".heif";
      assert LowerAscii(name[|name| - 5]) == '.' <==> name[|name| - 5] == '.';
      HeicLetters(tail);
    } else {
      assert !EndsWith(low, ".heic") && !EndsWith(low, ".heif");
    }
  }

  /** The last five characters of the lower-cased name, each lower-cased on its own. */
  lemma LowerTail(name: string) returns (tail: string)
    requires |name| >= 5
    ensures tail == ToLowerAscii(name)[|name| - 5..]
    ensures |tail| == 5
    ensures forall k :: 0 <= k < 5 ==> tail[k] == LowerAscii(name[|name| - 5 + k])
  {
    tail := ToLowerAscii(name)[|name| - 5..];
  }

  /** Five characters spell `.heic` or `.heif` exactly when they match letter by letter. */
  lemma HeicLetters(t: string)
    requires |t| == 5
    ensures t == ".heic" || t == ".heif" <==>
              t[0] == '.' && t[1] == 'h' && t[2] == 'e' && t[3] == 'i' && (t[4] == 'c' || t[4] == 'f')
  {
    if t[0] == '.' && t[1] == 'h' && t[2] == 'e' && t[3] == 'i' {
      if t[4] == 'c' { assert t == ".heic"; }
      if t[4] == 'f' { assert t == ".heif"; }
    }
  }

  /** The file a successful conversion produces. */
  function Converted(f: File): (g: File)
    ensures g.mimeType == JpegType
    ensures g.name == RenameHeic(f.name)
  {
    File(RenameHeic(f.name), JpegType)
  }

  /** What `heic2any` does: converts, or throws. */
  datatype Conversion = ConversionOk | ConversionFailed

  /** What the `FileReader` does: loads a data-URL preview, or never calls `onload`. */
  datatype Reading = Loaded(preview: string) | NeverLoaded

  /** The `converting` flag afterwards, and the `onImageSelect` call made, if any. */
  datatype Selection = Selection(converting: bool, selected: Option<(File, string)>)

  /** `handleFileSelect`. */
  function HandleFileSelect(converting: bool, file: Option<File>, conversion: Conversion, reading: Reading): (r: Selection)
    ensures file.None? ==> r == Selection(converting, None)
    // a HEIC file is handed on converted; any other file unchanged
    ensures r.selected.Some? ==>
              && file.Some?
              && reading == Loaded(r.selected.value.1)
              && (IsHeic(file.value) ==> r.selected.value.0 == Converted(file.value))
              && (!IsHeic(file.value) ==> r.selected.value.0 == file.value)
              && StartsWith(r.selected.value.0.mimeType, "image/")
    ensures file.Some? && IsHeic(file.value) && conversion.ConversionFailed? ==>
              r == Selection(false, None)
    ensures file.Some? && !IsHeic(file.value) && !StartsWith(file.value.mimeType, "image/") ==>
              r == Selection(false, None)
    // the flag is cleared on every path that reaches an end, and stays set while the reader never loads
    ensures file.Some? && r.selected.Some? ==> !r.converting
    ensures file.Some? && (IsHeic(file.value) ==> conversion.ConversionOk?)
            && StartsWith((if IsHeic(file.value) then Converted(file.value) else file.value).mimeType, "image/") ==>
              (r.selected.Some? <==> reading.Loaded?) && (r.converting <==> reading.NeverLoaded?)
  {
    if file.None? then Selection(converting, None)
    else
      var f := file.value;
      if IsHeic(f) && conversion.ConversionFailed? then Selection(false, None)
      else
        var processed := if IsHeic(f) then Converted(f) else f;
        if StartsWith(processed.mimeType, "image/") then
          match reading
          case Loaded(preview) => Selection(false, Some((processed, preview)))
          case NeverLoaded => Selection(true, None)
        else Selection(false, None)
  }

  /** A HEIC file whose conversion succeeds always passes the type gate. */
  lemma ConvertedHeicPasses(f: File, preview: string)
    requires IsHeic(f)
    ensures HandleFileSelect(false, Some(f), ConversionOk, Loaded(preview))
            == Selection(false, Some((Converted(f), preview)))
  {
    assert StartsWith(JpegType, "image/") by { assert JpegType[..6] == "image/"; }
  }

  /** `handleDrag`: enter and over highlight, leave clears, anything else keeps. */
  function HandleDrag(active: bool, eventType: string): (active': bool)
    ensures eventType == "dragenter" || eventType == "dragover" ==> active'
    ensures eventType == "dragleave" ==> !active'
    ensures eventType != "dragenter" && eventType != "dragover" && eventType != "dragleave" ==> active' == active
  {
    if eventType == "dragenter" || eventType == "dragover" then true
    else if eventType == "dragleave" then false
    else active
  }

  /** `handleDrop`: clears the highlight and selects the first dropped file. */
  function HandleDrop(active: bool, converting: bool, dropped: Option<File>,
                      conversion: Conversion, reading: Reading): (r: (bool, Selection))
    ensures !r.0
    ensures dropped.None? ==> r.1 == Selection(converting, None)
    ensures r.1 == HandleFileSelect(converting, dropped, conversion, reading)
  {
    (false, HandleFileSelect(converting, dropped, conversion, reading))
  }
}
