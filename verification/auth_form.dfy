/** The sign-in / sign-up form (src/components/AuthForm.tsx): which auth
    call a submit makes and how its failure is shown. */
module AuthForm {
  import opened Wrappers

  datatype Mode = LoginMode | SignupMode

  datatype FormState = FormState(email: string, password: string, name: string, loading: bool, error: string)

  const Initial := FormState("", "", "", false, "")

  /** The call `handleSubmit` makes. */
  datatype AuthCall =
    | LoginCall(email: string, password: string)
    | SignupCall(email: string, password: string, name: Option<string>)

  /** A thrown value: an `Error` with its message, or anything else. */
  datatype Thrown = ErrorValue(message: string) | OtherValue

  datatype CallResult = Resolved | RejectedWith(thrown: Thrown)

  const GenericError: string := "An error occurred"

  /** The first step of a submit: clear the error and start loading. */
  function BeginSubmit(s: FormState): (s': FormState)
    ensures s'.error == "" && s'.loading
    ensures s'.email == s.email && s'.password == s.password && s'.name == s.name
  {
    s.(error := "", loading := true)
  }

  /** The call a submit makes in `mode`; an empty name is left out. */
  function CallFor(s: FormState, mode: Mode): (c: AuthCall)
    ensures mode == LoginMode ==> c == LoginCall(s.email, s.password)
    ensures mode == SignupMode ==> c.SignupCall? && c.email == s.email && c.password == s.password
    ensures mode == SignupMode ==> (c.name.None? <==> s.name == "")
    ensures mode == SignupMode && s.name != "" ==> c.name == Some(s.name)
  {
    match mode
    case LoginMode => LoginCall(s.email, s.password)
    case SignupMode => SignupCall(s.email, s.password, if s.name == "" then None else Some(s.name))
  }

  /** The message shown for a thrown value. */
  function ErrorText(t: Thrown): string
  {
    match t
    case ErrorValue(m) => m
    case OtherValue => GenericError
  }

  /** `handleSubmit`: the call made and the form afterwards. */
  function HandleSubmit(s: FormState, mode: Mode, result: CallResult): (r: (AuthCall, FormState))
    ensures r.0 == CallFor(s, mode)
    ensures !r.1.loading
    ensures r.1.email == s.email && r.1.password == s.password && r.1.name == s.name
    ensures result.Resolved? ==> r.1.error == ""
    ensures result.RejectedWith? && result.thrown.ErrorValue? ==> r.1.error == result.thrown.message
    ensures result.RejectedWith? && result.thrown.OtherValue? ==> r.1.error == GenericError
  {
    var started := BeginSubmit(s);
    var finished := match result
      case Resolved => started
      case RejectedWith(t) => started.(error := ErrorText(t));
    (CallFor(s, mode), finished.(loading := false))
  }

  /** A successful retry clears the previous failure's message. */
  lemma RetryClearsError(s: FormState, mode: Mode, t: Thrown)
    ensures HandleSubmit(HandleSubmit(s, mode, RejectedWith(t)).1, mode, Resolved).1.error == ""
  {
  }
}
