/** Properties that span several components: the bearer header from the
    client reaching the server, an expired session ending at the sign-in
    form, the auth form showing the session's errors, and the add-entry
    page with its macro editor mounted. */
module Flows {
  import opened Wrappers
  import opened Js
  import opened Nutrition
  import Bearer
  import Auth
  import AuthContext
  import ApiClient
  import AuthForm
  import AuthGuard
  import MacroEditor
  import FoodEntryForm

  /** The session's header and the fetch helper's header agree, and the
      server hands exactly the stored token to the verifier. */
  lemma {:induction false} StoredTokenReachesVerifier(token: string, verify: Auth.Verifier,
                                                      users: Auth.UserTable, p: Auth.Payload)
    requires token != ""
    requires verify(token) == Some(p) && p.userId in users
    ensures AuthContext.AuthHeaders(Some(token))["Authorization"]
            == ApiClient.DefaultHeaders(Some(token))["Authorization"]
    ensures Auth.GetUserFromRequest(Some(ApiClient.DefaultHeaders(Some(token))["Authorization"]), verify, users).user
            == Some(Auth.AuthUser(p.userId, users[p.userId]))
  {
    Auth.ClientHeaderResolves(token, verify, users, p);
  }

  /** A 401 from any call clears the token; after the reload the session
      check makes no request and the guard shows the sign-in form. */
  lemma {:induction false} ExpiredSessionShowsSignIn(url: string, options: ApiClient.Options,
                                                     token: Option<string>, me: AuthContext.MeOutcome)
    ensures var c := ApiClient.ApiCall(url, options, token, ApiClient.Responded(ApiClient.Response(401)));
            var checked := AuthContext.CheckAuth(AuthContext.Initial(c.token), me);
            && c.reloads
            && checked.request.None?
            && AuthGuard.View(checked.session, AuthGuard.InitialMode) == AuthGuard.FormView(AuthForm.LoginMode)
  {
  }

  /** How a session handler's completion reaches the form's `catch`: a
      session handler only ever throws `Error` values. */
  function AsCallResult(c: AuthContext.Completion): (r: AuthForm.CallResult)
    ensures r.Resolved? <==> c.Completed?
    ensures c.Threw? ==> r == AuthForm.RejectedWith(AuthForm.ErrorValue(c.message))
  {
    match c
    case Completed => AuthForm.Resolved
    case Threw(m) => AuthForm.RejectedWith(AuthForm.ErrorValue(m))
  }

  /** A refused sign-in without server text shows "Login failed", and the
      server's own text when there is one. */
  lemma {:induction false} RefusedLoginMessage(f: AuthForm.FormState, s: AuthContext.Session, error: Option<string>)
    ensures var attempt := AuthContext.Login(s, f.email, f.password, AuthContext.Rejected(error)).1;
            var shown := AuthForm.HandleSubmit(f, AuthForm.LoginMode, AsCallResult(attempt.completion)).1;
            && attempt.session == s
            && shown.error == (if error.Some? && error.value != "" then error.value else AuthContext.LoginFailed)
  {
  }

  // ---------------------------------------------------------------------
  // The add-entry page: the form's state and the macro editor's own state.
  // The editor is rendered while `EditorShown` holds; React keeps a mounted
  // component's `useState` value across re-renders and only reads the
  // initial props when it mounts.
  // ---------------------------------------------------------------------

  datatype Page = Page(form: FoodEntryForm.FormState, editor: Option<MacroEditor.Editor>)

  /** What the user does on the page. */
  datatype Event =
    | ImageSelected(file: File, preview: string)
    | DescriptionTyped(text: string)
    | AnalysisFinished(outcome: FoodEntryForm.AnalysisOutcome)
    | MacroTyped(field: Macro, parsed: Float)
    | SaveFinished(upload: FoodEntryForm.UploadOutcome, entry: FoodEntryForm.EntryOutcome)

  /** The page's first render. */
  const Start := Page(FoodEntryForm.Initial, None)

  /** The editor is in step with the form: mounted exactly when shown, and
      then holding the form's macros. */
  predicate Synced(p: Page)
  {
    && (p.editor.Some? <==> FoodEntryForm.EditorShown(p.form))
    && (p.editor.Some? ==> p.editor.value.values == p.form.macros)
  }

  /** The form after an event, and the macros the editor reports (if the
      event was an edit of a mounted editor). */
  function FormAfter(p: Page, e: Event): (r: (FoodEntryForm.FormState, Option<MacroEditor.Edit>))
    ensures r.1.Some? <==> e.MacroTyped? && p.editor.Some?
    ensures r.1.Some? ==> r.1.value == MacroEditor.HandleChange(p.editor.value, e.field, e.parsed)
                          && r.0 == FoodEntryForm.UpdateMacros(p.form, r.1.value.reported)
    ensures e.MacroTyped? && p.editor.None? ==> r.0 == p.form
  {
    match e
    case ImageSelected(file, preview) => (FoodEntryForm.HandleImageSelect(p.form, file, preview), None)
    case DescriptionTyped(text) => (FoodEntryForm.SetDescription(p.form, text), None)
    case AnalysisFinished(outcome) => (FoodEntryForm.AnalyzeFood(p.form, outcome).state, None)
    case MacroTyped(field, parsed) =>
      if p.editor.None? then (p.form, None)
      else
        var edit := MacroEditor.HandleChange(p.editor.value, field, parsed);
        (FoodEntryForm.UpdateMacros(p.form, edit.reported), Some(edit))
    case SaveFinished(upload, entry) => (FoodEntryForm.SaveFoodEntry(p.form, upload, entry).state, None)
  }

  /** The editor after a re-render, as the page is written: a mounted editor
      keeps its own values; a newly shown one copies the props. */
  function KeepMounted(form: FoodEntryForm.FormState, editor: Option<MacroEditor.Editor>): (r: Option<MacroEditor.Editor>)
    ensures r.Some? <==> FoodEntryForm.EditorShown(form)
    ensures r.Some? && editor.Some? ==> r == editor
    ensures r.Some? && editor.None? ==> r.value.values == form.macros
  {
    if !FoodEntryForm.EditorShown(form) then None
    else if editor.Some? then editor
    else Some(MacroEditor.Mount(form.macros))
  }

  /** One event on the page as written. */
  function StepAsWritten(p: Page, e: Event): (p': Page)
    ensures p'.form == FormAfter(p, e).0
    ensures p'.editor.Some? <==> FoodEntryForm.EditorShown(p'.form)
    // an editor that stays mounted through anything but its own edit keeps its old values
    ensures !e.MacroTyped? && p.editor.Some? && p'.editor.Some? ==> p'.editor == p.editor
    // its own edits keep a synced page synced
    ensures e.MacroTyped? && Synced(p) ==> Synced(p')
  {
    var (form, edit) := FormAfter(p, e);
    Page(form, KeepMounted(form, if edit.Some? then Some(edit.value.editor) else p.editor))
  }

  /** The editor after a re-render when it follows its props (for instance,
      keyed on the analysis): shown editors always hold the form's macros. */
  function FollowProps(form: FoodEntryForm.FormState): (r: Option<MacroEditor.Editor>)
    ensures r.Some? <==> FoodEntryForm.EditorShown(form)
    ensures r.Some? ==> r.value.values == form.macros
  {
    if FoodEntryForm.EditorShown(form) then Some(MacroEditor.Mount(form.macros)) else None
  }

  /** One event on the corrected page. */
  function Step(p: Page, e: Event): (p': Page)
    ensures Synced(p')
    ensures p'.form == FormAfter(p, e).0
  {
    var form := FormAfter(p, e).0;
    Page(form, FollowProps(form))
  }

  function Run(p: Page, events: seq<Event>): Page
    decreases |events|
  {
    if events == [] then p else Run(Step(p, events[0]), events[1..])
  }

  function RunAsWritten(p: Page, events: seq<Event>): Page
    decreases |events|
  {
    if events == [] then p else RunAsWritten(StepAsWritten(p, events[0]), events[1..])
  }

  /** On a synced page, an edit changes exactly the edited field of the
      form's macros. */
  lemma {:induction false} EditChangesOnlyThatField(p: Page, field: Macro, parsed: Float)
    requires Synced(p) && p.editor.Some?
    ensures var after := Step(p, MacroTyped(field, parsed)).form.macros;
            && Get(after, field) == OrZero(parsed)
            && forall g :: g != field ==> Get(after, g) == Get(p.form.macros, g)
  {
    var edit := MacroEditor.HandleChange(p.editor.value, field, parsed);
    assert p.editor.value.values == p.form.macros;
    assert Step(p, MacroTyped(field, parsed)).form.macros == edit.reported;
  }

  /** The two pages agree on every event that keeps a synced page synced. */
  lemma {:induction false} AsWrittenAgreesWhileSynced(p: Page, e: Event)
    requires Synced(p) && Synced(StepAsWritten(p, e))
    ensures StepAsWritten(p, e) == Step(p, e)
  {
    var a := StepAsWritten(p, e);
    var b := Step(p, e);
    assert a.form == b.form;
    if a.editor.Some? {
      assert a.editor.value.values == b.editor.value.values;
    }
  }

  /** As written, the one event that can leave a mounted editor behind the
      form: a successful analysis arriving while the editor is mounted. */
  predicate ReanalysedUnderEditor(p: Page, e: Event)
  {
    p.editor.Some? && e.AnalysisFinished? && e.outcome.AnalysisOk?
  }

  /** Apart from that event, a step as written keeps a synced page synced. */
  lemma {:induction false} StepAsWrittenKeepsSynced(p: Page, e: Event)
    requires Synced(p) && !ReanalysedUnderEditor(p, e)
    ensures Synced(StepAsWritten(p, e))
  {
    var q := StepAsWritten(p, e);
    match e
    case ImageSelected(_, _) =>
      assert !FoodEntryForm.EditorShown(q.form);
    case DescriptionTyped(_) =>
      assert q.form.macros == p.form.macros;
    case AnalysisFinished(outcome) =>
      if p.editor.Some? {
        assert q.form.macros == p.form.macros;
      }
    case MacroTyped(_, _) =>
    case SaveFinished(upload, entry) =>
      if FoodEntryForm.EditorShown(q.form) {
        assert q.form.macros == p.form.macros;
      }
  }

  /** No event of the run, as written, is a re-analysis under a mounted editor. */
  predicate NeverReanalysedUnderEditor(p: Page, events: seq<Event>)
    decreases |events|
  {
    events == []
    || (!ReanalysedUnderEditor(p, events[0])
        && NeverReanalysedUnderEditor(StepAsWritten(p, events[0]), events[1..]))
  }

  /** A run as written stays synced, and agrees with the corrected page, as
      long as no successful analysis arrives while the editor is mounted. */
  lemma {:induction false} RunAsWrittenStaysSynced(p: Page, events: seq<Event>)
    requires Synced(p) && NeverReanalysedUnderEditor(p, events)
    ensures Synced(RunAsWritten(p, events))
    ensures RunAsWritten(p, events) == Run(p, events)
    decreases |events|
  {
    if events != [] {
      StepAsWrittenKeepsSynced(p, events[0]);
      AsWrittenAgreesWhileSynced(p, events[0]);
      RunAsWrittenStaysSynced(StepAsWritten(p, events[0]), events[1..]);
    }
  }

  /** Four events, one after the other, on the page as written. */
  lemma {:induction false} RunAsWrittenOfFour(p: Page, a: Event, b: Event, c: Event, d: Event)
    ensures RunAsWritten(p, [a, b, c, d])
            == StepAsWritten(StepAsWritten(StepAsWritten(StepAsWritten(p, a), b), c), d)
  {
    var p1 := StepAsWritten(p, a);
    var p2 := StepAsWritten(p1, b);
    var p3 := StepAsWritten(p2, c);
    var p4 := StepAsWritten(p3, d);
    assert [a, b, c, d][1..] == [b, c, d];
    assert [b, c, d][1..] == [c, d];
    assert [c, d][1..] == [d];
    assert [d][1..] == [];
    assert RunAsWritten(p3, [d]) == RunAsWritten(p4, []) == p4;
    assert RunAsWritten(p2, [c, d]) == p4;
    assert RunAsWritten(p1, [b, c, d]) == p4;
  }

  /** Four events, one after the other, on the corrected page. */
  lemma {:induction false} RunOfFour(p: Page, a: Event, b: Event, c: Event, d: Event)
    ensures Run(p, [a, b, c, d]) == Step(Step(Step(Step(p, a), b), c), d)
  {
    var p1 := Step(p, a);
    var p2 := Step(p1, b);
    var p3 := Step(p2, c);
    var p4 := Step(p3, d);
    assert [a, b, c, d][1..] == [b, c, d];
    assert [b, c, d][1..] == [c, d];
    assert [c, d][1..] == [d];
    assert [d][1..] == [];
    assert Run(p3, [d]) == Run(p4, []) == p4;
    assert Run(p2, [c, d]) == p4;
    assert Run(p1, [b, c, d]) == p4;
  }

  const Meal := File("meal.jpg", "image/jpeg")
  const FirstAnalysis := FoodEntryForm.AnalysisResult(Macros(10.0, 5.0, 20.0, 200.0), 0.5, [])
  const SecondAnalysis := FoodEntryForm.AnalysisResult(Macros(30.0, 15.0, 40.0, 500.0), 0.9, [])

  /** Choose an image, analyse it twice, then type 35 into the protein field. */
  const Reanalysed: seq<Event> := [
    ImageSelected(Meal, "data:image/jpeg;base64,AA"),
    AnalysisFinished(FoodEntryForm.AnalysisOk(FirstAnalysis)),
    AnalysisFinished(FoodEntryForm.AnalysisOk(SecondAnalysis)),
    MacroTyped(Protein, Fin(35.0))]

  /** As written, the edit after the second analysis writes the first
      analysis's values back into the three fields that were not edited. */
  lemma StaleEditorOverwritesAnalysis()
    ensures RunAsWritten(Start, Reanalysed).form.macros == Macros(35.0, 5.0, 20.0, 200.0)
  {
    var e := Reanalysed;
    RunAsWrittenOfFour(Start, e[0], e[1], e[2], e[3]);
    var w1 := StepAsWritten(Start, e[0]);
    var w2 := StepAsWritten(w1, e[1]);
    assert w2.editor == Some(MacroEditor.Editor(FirstAnalysis.macros));
    var w3 := StepAsWritten(w2, e[2]);
    assert w3.editor == w2.editor;
    assert w3.form.macros == SecondAnalysis.macros;
  }

  /** On the corrected page the same edit keeps the second analysis's values. */
  lemma CorrectedEditKeepsAnalysis()
    ensures Run(Start, Reanalysed).form.macros == Macros(35.0, 15.0, 40.0, 500.0)
  {
    var e := Reanalysed;
    RunOfFour(Start, e[0], e[1], e[2], e[3]);
    var c3 := Step(Step(Step(Start, e[0]), e[1]), e[2]);
    assert c3.editor == Some(MacroEditor.Editor(SecondAnalysis.macros));
  }

  /** As written, on any page showing an analysis, a second successful
      analysis followed by an edit leaves the three unedited fields at the
      first analysis's values, whatever the second analysis reported. */
  lemma {:induction false} ReanalysisRevertsUneditedFields(p: Page, second: FoodEntryForm.AnalysisResult,
                                                           field: Macro, parsed: Float)
    requires Synced(p) && p.editor.Some? && p.form.imagePreview != ""
    requires second.confidence > 0.0
    ensures var q := StepAsWritten(StepAsWritten(p, AnalysisFinished(FoodEntryForm.AnalysisOk(second))),
                                   MacroTyped(field, parsed));
            forall g :: g != field ==> Get(q.form.macros, g) == Get(p.form.macros, g)
  {
    var q1 := StepAsWritten(p, AnalysisFinished(FoodEntryForm.AnalysisOk(second)));
    assert q1.form.macros == second.macros && FoodEntryForm.EditorShown(q1.form);
    assert q1.editor == p.editor;
    assert p.editor.value.values == p.form.macros;
  }

  /** On the corrected page the same sequence leaves the three unedited
      fields at the second analysis's values. */
  lemma {:induction false} ReanalysisKeepsUneditedFields(p: Page, second: FoodEntryForm.AnalysisResult,
                                                         field: Macro, parsed: Float)
    requires Synced(p) && p.editor.Some? && p.form.imagePreview != ""
    requires second.confidence > 0.0
    ensures var q := Step(Step(p, AnalysisFinished(FoodEntryForm.AnalysisOk(second))), MacroTyped(field, parsed));
            forall g :: g != field ==> Get(q.form.macros, g) == Get(second.macros, g)
  {
    var q1 := Step(p, AnalysisFinished(FoodEntryForm.AnalysisOk(second)));
    assert q1.form.macros == second.macros && FoodEntryForm.EditorShown(q1.form);
    EditChangesOnlyThatField(q1, field, parsed);
  }
}
