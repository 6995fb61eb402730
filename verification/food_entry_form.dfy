/** The add-entry form (src/components/FoodEntryForm.tsx): choosing an image,
    asking for an analysis, editing the macros and saving (upload, then
    create the entry). Each handler is one atomic step; the network calls are
    outcome parameters and the requests made are returned. */
module FoodEntryForm {
  import opened Wrappers
  import opened Strings
  import opened Js
  import opened Nutrition

  datatype FormState = FormState(
    selectedFile: Option<File>,
    imagePreview: string,
    description: string,
    analyzing: bool,
    saving: bool,
    macros: Macros,
    confidence: real,
    detectedFoods: seq<string>)

  const Initial := FormState(None, "", "", false, false, Zero, 0.0, [])

  /** The analysis fields are back at their initial values. */
  predicate AnalysisCleared(s: FormState)
  {
    s.macros == Zero && s.confidence == 0.0 && s.detectedFoods == []
  }

  /** `handleImageSelect`: a new image discards any earlier analysis. */
  function HandleImageSelect(s: FormState, file: File, preview: string): (s': FormState)
    ensures s'.selectedFile == Some(file) && s'.imagePreview == preview
    ensures AnalysisCleared(s')
    ensures s'.description == s.description && s'.analyzing == s.analyzing && s'.saving == s.saving
  {
    s.(selectedFile := Some(file), imagePreview := preview, macros := Zero, confidence := 0.0, detectedFoods := [])
  }

  function SetDescription(s: FormState, text: string): FormState
  {
    s.(description := text)
  }

  /** `MacroEditor`'s `onUpdate` is `setMacros`. */
  function UpdateMacros(s: FormState, m: Macros): FormState
  {
    s.(macros := m)
  }

  /** `text.trim() || undefined` (and `|| null`): blank text is absent. */
  function OptionalText(text: string): (r: Option<string>)
    ensures r.None? <==> AllWhitespace(text)
    ensures r.Some? ==> r.value == Trim(text) && Trimmed(r.value) && r.value != ""
  {
    var t := Trim(text);
    if t == "" then
      None
    else
      assert !AllWhitespace(text) by {
        var i, j :| 0 <= i <= j <= |text| && t == text[i..j];
        assert text[i] == t[0];
      }
      Some(t)
  }

  /** The `OpenAIAnalysisResult` fields the form reads. */
  datatype AnalysisResult = AnalysisResult(macros: Macros, confidence: real, detectedFoods: seq<string>)

  datatype AnalyzeRequest = AnalyzeRequest(imageBase64: string, description: Option<string>)

  /** What the analysis call does: an ok response with a result, a non-ok
      response, or a thrown error. */
  datatype AnalysisOutcome = AnalysisOk(result: AnalysisResult) | AnalysisNotOk | AnalysisThrew

  datatype Analyzed = Analyzed(state: FormState, request: Option<AnalyzeRequest>)

  /** `analyzeFood`. */
  function AnalyzeFood(s: FormState, outcome: AnalysisOutcome): (r: Analyzed)
    ensures s.selectedFile.None? || s.imagePreview == "" ==> r == Analyzed(s, None)
    ensures r.request.Some? <==> s.selectedFile.Some? && s.imagePreview != ""
    ensures r.request.Some? ==>
              && r.request.value == AnalyzeRequest(s.imagePreview, OptionalText(s.description))
              && !r.state.analyzing
    ensures r.request.Some? && outcome.AnalysisOk? ==>
              && r.state.macros == outcome.result.macros
              && r.state.confidence == outcome.result.confidence
              && r.state.detectedFoods == outcome.result.detectedFoods
    ensures !outcome.AnalysisOk? ==>
              r.state.macros == s.macros && r.state.confidence == s.confidence
              && r.state.detectedFoods == s.detectedFoods
    ensures r.state.selectedFile == s.selectedFile && r.state.imagePreview == s.imagePreview
            && r.state.description == s.description && r.state.saving == s.saving
  {
    if s.selectedFile.None? || s.imagePreview == "" then Analyzed(s, None)
    else
      var request := AnalyzeRequest(s.imagePreview, OptionalText(s.description));
      var running := s.(analyzing := true);
      var finished := match outcome
        case AnalysisOk(res) =>
          running.(macros := res.macros, confidence := res.confidence, detectedFoods := res.detectedFoods)
        case _ => running;
      Analyzed(finished.(analyzing := false), Some(request))
  }

  datatype EntryRequest = EntryRequest(imagePath: string, description: Option<string>, macros: Macros)

  /** What the upload call does: an ok response carrying the stored path, a
      non-ok response, or a thrown error. */
  datatype UploadOutcome = UploadOk(path: string) | UploadNotOk | UploadThrew

  /** What the create-entry call does. */
  datatype EntryOutcome = EntryOk | EntryNotOk | EntryThrew

  const SavedAlert: string := "Food entry saved successfully!"
  const FailedAlert: string := "Failed to save food entry"

  /** The state afterwards, the file uploaded, the entry request made and the alert shown. */
  datatype Saved = Saved(state: FormState, uploaded: Option<File>, entry: Option<EntryRequest>, alert: Option<string>)

  /** `saveFoodEntry`. */
  function SaveFoodEntry(s: FormState, upload: UploadOutcome, entry: EntryOutcome): (r: Saved)
    ensures s.selectedFile.None? ==> r == Saved(s, None, None, None)
    ensures s.selectedFile.Some? ==> r.uploaded == s.selectedFile && !r.state.saving
    // the entry is posted only after a successful upload, with that upload's path
    ensures r.entry.Some? <==> s.selectedFile.Some? && upload.UploadOk?
    ensures r.entry.Some? ==>
              r.entry.value == EntryRequest(upload.path, OptionalText(s.description), s.macros)
    // success resets every field the save handler sets (all but `analyzing`);
    // failure changes nothing but the alert
    ensures s.selectedFile.Some? && upload.UploadOk? && entry.EntryOk? ==>
              r.state == Initial.(analyzing := s.analyzing) && r.alert == Some(SavedAlert)
    ensures s.selectedFile.Some? && !(upload.UploadOk? && entry.EntryOk?) ==>
              r.state == s.(saving := false) && r.alert == Some(FailedAlert)
  {
    if s.selectedFile.None? then Saved(s, None, None, None)
    else
      var saving := s.(saving := true);
      match upload
      case UploadOk(path) =>
        var request := EntryRequest(path, OptionalText(s.description), s.macros);
        if entry.EntryOk? then
          var reset := saving.(selectedFile := None, imagePreview := "", description := "",
                               macros := Zero, confidence := 0.0, detectedFoods := []);
          Saved(reset.(saving := false), s.selectedFile, Some(request), Some(SavedAlert))
        else Saved(saving.(saving := false), s.selectedFile, Some(request), Some(FailedAlert))
      case _ => Saved(saving.(saving := false), s.selectedFile, None, Some(FailedAlert))
  }

  /** The macro editor and the save button show only with a file and a positive confidence. */
  predicate EditorShown(s: FormState)
  {
    s.selectedFile.Some? && s.confidence > 0.0
  }

  /** A fresh image hides the editor until a new analysis reports confidence. */
  lemma ImageSelectHidesEditor(s: FormState, file: File, preview: string)
    ensures !EditorShown(HandleImageSelect(s, file, preview))
  {
  }

  /** After a successful save the editor is hidden and nothing can be saved again. */
  lemma {:induction false} SaveThenSaveIsNoOp(s: FormState, path: string, u: UploadOutcome, e: EntryOutcome)
    requires s.selectedFile.Some?
    ensures var after := SaveFoodEntry(s, UploadOk(path), EntryOk).state;
            !EditorShown(after) && SaveFoodEntry(after, u, e) == Saved(after, None, None, None)
  {
  }
}
