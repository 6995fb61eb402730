/** The food-analysis endpoint (src/app/api/analyze-food/route.ts): checks
    the caller and the image, asks the vision model with an optional context
    line, strips a Markdown code fence from the reply and parses it as JSON.
    The model's reply and `JSON.parse` are parameters. */
module AnalyzeFood {
  import opened Wrappers
  import opened Strings
  import opened Js
  import Auth

  datatype AnalyzeBody = AnalyzeBody(imageBase64: JsValue, description: JsValue)

  /** What the model call does: a reply whose first choice's content may be
      missing, or a thrown error. */
  datatype ModelReply = Replied(content: Option<string>) | CallFailed

  /** The parts of the model request the handler varies: the context line in
      the prompt and the image URL. */
  datatype ModelRequest = ModelRequest(contextLine: string, image: JsValue)

  datatype AnalyzeResponse =
    | AnalyzeUnauthorized
    | ImageRequired
    | Analysis(result: JsValue)
    | AnalysisFailed

  /** The response, and the request sent to the model when it was called. */
  datatype AnalyzeResult = AnalyzeResult(response: AnalyzeResponse, request: Option<ModelRequest>)

  function AnalyzeStatus(r: AnalyzeResponse): int
  {
    match r
    case AnalyzeUnauthorized => 401
    case ImageRequired => 400
    case Analysis(_) => 200
    case AnalysisFailed => 500
  }

  const ContextLabel: string := "Additional context: "

  /** The context part of the prompt; `show` is JavaScript's conversion of a
      value to text in a template literal. */
  function ContextLine(description: JsValue, show: JsValue -> string): string
  {
    if Truthy(description) then ContextLabel + show(description) else ""
  }

  /** The prompt carries the context label exactly when the description is truthy. */
  lemma ContextIffTruthy(description: JsValue, show: JsValue -> string)
    ensures StartsWith(ContextLine(description, show), ContextLabel) <==> Truthy(description)
    ensures Truthy(description) ==> ContextLine(description, show)[|ContextLabel|..] == show(description)
  {
  }

  /** `response.choices[0]?.message?.content || ''`. */
  function ReplyText(content: Option<string>): string
  {
    content.GetOr("")
  }

  const Fence: string := "```"
  const JsonFence: string := "```json"

  /** `.replace(/\s*```$/, '')`: the leftmost match of whitespace then a
      closing fence at the very end is removed. */
  function StripClosingFence(s: string): (r: string)
    ensures !EndsWith(s, Fence) ==> r == s
    ensures EndsWith(s, Fence) ==>
              && |r| <= |s| - 3
              && r == s[..|r|]
              && AllWhitespace(s[|r|..|s| - 3])
              && (|r| == 0 || !IsWhitespace(r[|r| - 1]))
  {
    if EndsWith(s, Fence) then TrimEnd(s[..|s| - 3]) else s
  }

  /** `.replace(/^<marker>\s*<rest>/, '')` for a string starting with `marker`. */
  function StripOpening(s: string, marker: string): (r: string)
    requires StartsWith(s, marker)
    ensures |r| <= |s| - |marker| && r == s[|s| - |r|..]
    ensures AllWhitespace(s[|marker|..|s| - |r|])
    ensures |r| == 0 || !IsWhitespace(r[0])
  {
    var t := s[|marker|..];
    var r := TrimStart(t);
    assert t[..|t| - |r|] == s[|marker|..|s| - |r|];
    r
  }

  /** The reply cleanup: trim, then strip a `json`-tagged fence or, failing
      that, a bare fence. */
  function CleanReply(raw: string): (cleaned: string)
    // the parser always receives text with no whitespace at either end
    ensures Trimmed(cleaned)
    ensures |cleaned| <= |Trim(raw)|
    // text that does not open with a fence is only trimmed
    ensures !StartsWith(Trim(raw), Fence) ==> cleaned == Trim(raw)
  {
    var t := Trim(raw);
    JsonFenceOpensFence(t);
    UnfenceKeepsTrimmed(t);
    Unfence(t)
  }

  /** The two fence branches of the cleanup, applied to already trimmed text. */
  function Unfence(t: string): string
  {
    if StartsWith(t, JsonFence) then StripClosingFence(StripOpening(t, JsonFence))
    else if StartsWith(t, Fence) then StripClosingFence(StripOpening(t, Fence))
    else t
  }

  /** Removing a fence from trimmed text leaves trimmed text, no longer than before. */
  lemma {:induction false} UnfenceKeepsTrimmed(t: string)
    requires Trimmed(t)
    ensures Trimmed(Unfence(t)) && |Unfence(t)| <= |t|
  {
    if StartsWith(t, JsonFence) {
      StrippedKeepsTrimmed(t, JsonFence);
    } else if StartsWith(t, Fence) {
      StrippedKeepsTrimmed(t, Fence);
    }
  }

  lemma {:induction false} StrippedKeepsTrimmed(t: string, marker: string)
    requires Trimmed(t) && StartsWith(t, marker)
    ensures var c := StripClosingFence(StripOpening(t, marker)); Trimmed(c) && |c| <= |t|
  {
    var o := StripOpening(t, marker);
    if |o| > 0 {
      assert o[|o| - 1] == t[|t| - 1];
    }
  }

  /** Text already trimmed goes straight to the fence branches. */
  lemma {:induction false} CleanTrimmed(t: string)
    requires Trimmed(t)
    ensures CleanReply(t) == Unfence(t)
  {
    TrimOfTrimmed(t);
  }

  /** Text that, once trimmed, does not open with a fence reaches the parser trimmed and otherwise unchanged. */
  lemma UnfencedReplyOnlyTrimmed(raw: string)
    requires !StartsWith(Trim(raw), Fence)
    ensures CleanReply(raw) == Trim(raw)
  {
    JsonFenceOpensFence(Trim(raw));
  }

  lemma JsonFenceOpensFence(t: string)
    ensures StartsWith(t, JsonFence) ==> StartsWith(t, Fence)
  {
    if StartsWith(t, JsonFence) {
      assert t[..3] == JsonFence[..3];
    }
  }

  /** JSON text wrapped in a `json`-tagged fence comes back unwrapped. */
  lemma {:induction false} JsonFencedRoundTrip(j: string)
    requires Trimmed(j)
    ensures CleanReply("```json\n" + j + "\n```") == j
  {
    var w := "```json\n" + j + "\n```";
    assert Unfence(w) == j by {
      assert StartsWith(w, JsonFence) by { assert w[..7] == JsonFence; }
      FencedBodyUnwraps(w, JsonFence, j);
    }
    assert Trimmed(w) by { assert w[0] == '`' && w[|w| - 1] == '`'; }
    CleanTrimmed(w);
  }

  /** JSON text wrapped in a bare fence comes back unwrapped. */
  lemma {:induction false} BareFencedRoundTrip(j: string)
    requires Trimmed(j)
    ensures CleanReply("```\n" + j + "\n```") == j
  {
    var w := "```\n" + j + "\n```";
    assert Unfence(w) == j by {
      assert !StartsWith(w, JsonFence) by { assert w[3] == '\n'; }
      assert StartsWith(w, Fence) by { assert w[..3] == Fence; }
      FencedBodyUnwraps(w, Fence, j);
    }
    assert Trimmed(w) by { assert w[0] == '`' && w[|w| - 1] == '`'; }
    CleanTrimmed(w);
  }

  lemma {:induction false} FencedBodyUnwraps(w: string, marker: string, j: string)
    requires w == marker + "\n" + j + "\n```"
    requires StartsWith(w, marker)
    requires Trimmed(j)
    ensures StripClosingFence(StripOpening(w, marker)) == j
  {
    if |j| == 0 {
      OpeningOfEmptyBody(w, marker);
      ClosingFenceAfterText(j);
      assert j + Fence == Fence;
    } else {
      OpeningOfBody(w, marker, j);
      ClosingFenceOfBody(j);
    }
  }

  lemma OpeningOfBody(w: string, marker: string, j: string)
    requires w == marker + "\n" + j + "\n```"
    requires StartsWith(w, marker)
    requires |j| > 0 && !IsWhitespace(j[0])
    ensures StripOpening(w, marker) == j + "\n```"
  {
    assert w[|marker|..] == ['\n'] + (j + "\n```");
    TrimStartSkipsWhitespace('\n', j + "\n```");
    assert (j + "\n```")[0] == j[0];
  }

  lemma OpeningOfEmptyBody(w: string, marker: string)
    requires w == marker + "\n" + "" + "\n```"
    requires StartsWith(w, marker)
    ensures StripOpening(w, marker) == Fence
  {
    var x := ['\n'] + Fence;
    var t := w[|marker|..];
    assert t == ['\n'] + x;
    TrimStartSkipsWhitespace('\n', x);
    TrimStartSkipsWhitespace('\n', Fence);
    assert TrimStart(t) == TrimStart(Fence);
    assert TrimStart(Fence) == Fence by { assert !IsWhitespace(Fence[0]); }
  }

  lemma ClosingFenceOfBody(j: string)
    requires Trimmed(j)
    ensures StripClosingFence(j + "\n```") == j
  {
    var o := j + "\n```";
    assert EndsWith(o, Fence) by { assert o[|o| - 3..] == Fence; }
    assert o[..|o| - 3] == j + ['\n'];
    TrimEndSkipsWhitespace(j, '\n');
    assert TrimEnd(j) == j;
  }

  /** The `json` tag is tested first: a tagged reply loses its tag, which the
      bare-fence branch alone would have left in front of the JSON. */
  lemma JsonTagTestedFirst(j: string)
    requires Trimmed(j) && |j| > 0
    ensures CleanReply(JsonFence + j + Fence) == j
    ensures StripClosingFence(StripOpening(JsonFence + j + Fence, Fence)) == "json" + j
  {
    TaggedFenceUnwraps(j);
    BareStripKeepsTag(j);
  }

  lemma {:induction false} TaggedFenceUnwraps(j: string)
    requires Trimmed(j) && |j| > 0
    ensures CleanReply(JsonFence + j + Fence) == j
  {
    var body := j + Fence;
    var w := JsonFence + body;
    assert JsonFence + j + Fence == w;
    PrefixOfConcat(JsonFence, body);
    assert Trim(w) == w by {
      assert w[0] == '`' && w[|w| - 1] == '`';
      TrimOfTrimmed(w);
    }
    assert StripOpening(w, JsonFence) == body by {
      assert body[0] == j[0];
    }
    ClosingFenceAfterText(j);
  }

  lemma {:induction false} BareStripKeepsTag(j: string)
    requires Trimmed(j) && |j| > 0
    ensures StartsWith(JsonFence + j + Fence, Fence)
    ensures StripClosingFence(StripOpening(JsonFence + j + Fence, Fence)) == "json" + j
  {
    var tagged := "json" + j;
    var w := JsonFence + j + Fence;
    assert w == Fence + (tagged + Fence) by {
      assert JsonFence == Fence + "json";
      SeqAssoc(Fence, "json", j);
      SeqAssoc(Fence + "json", j, Fence);
      SeqAssoc(Fence, tagged, Fence);
    }
    PrefixOfConcat(Fence, tagged + Fence);
    assert StripOpening(w, Fence) == tagged + Fence by {
      assert (tagged + Fence)[0] == 'j';
    }
    assert Trimmed(tagged) by { assert tagged[|tagged| - 1] == j[|j| - 1]; }
    ClosingFenceAfterText(tagged);
  }

  lemma SeqAssoc(a: string, b: string, c: string)
    ensures (a + b) + c == a + (b + c)
  {
  }

  lemma PrefixOfConcat(p: string, rest: string)
    ensures StartsWith(p + rest, p)
    ensures (p + rest)[|p|..] == rest
  {
    assert (p + rest)[..|p|] == p;
  }

  lemma ClosingFenceAfterText(j: string)
    requires Trimmed(j)
    ensures StripClosingFence(j + Fence) == j
  {
    var o := j + Fence;
    assert EndsWith(o, Fence) by { assert o[|o| - 3..] == Fence; }
    assert o[..|o| - 3] == j;
  }

  /** POST, given the caller and the body (`None` when it is not JSON). */
  function Analyze(user: Option<Auth.AuthUser>, body: Option<AnalyzeBody>, show: JsValue -> string,
                   reply: ModelReply, parse: string -> Option<JsValue>): (res: AnalyzeResult)
    ensures user.None? ==> res == AnalyzeResult(AnalyzeUnauthorized, None)
    // a body that is not JSON throws, and the outer handler answers 500
    ensures user.Some? && body.None? ==> res == AnalyzeResult(AnalysisFailed, None)
    ensures user.Some? && body.Some? && !Truthy(body.value.imageBase64) ==>
              res == AnalyzeResult(ImageRequired, None)
    // the model is called exactly for an authenticated request with an image
    ensures res.request.Some? <==> user.Some? && body.Some? && Truthy(body.value.imageBase64)
    ensures res.request.Some? ==>
              && res.request.value.image == body.value.imageBase64
              && res.request.value.contextLine == ContextLine(body.value.description, show)
    // a result is exactly what the parser made of the cleaned reply
    ensures res.response.Analysis? <==>
              res.request.Some? && reply.Replied? && parse(CleanReply(ReplyText(reply.content))).Some?
    ensures res.response.Analysis? ==>
              Some(res.response.result) == parse(CleanReply(ReplyText(reply.content)))
    ensures res.request.Some? && !res.response.Analysis? ==> res.response == AnalysisFailed
  {
    if user.None? then AnalyzeResult(AnalyzeUnauthorized, None)
    else if body.None? then AnalyzeResult(AnalysisFailed, None)
    else if !Truthy(body.value.imageBase64) then AnalyzeResult(ImageRequired, None)
    else
      var request := ModelRequest(ContextLine(body.value.description, show), body.value.imageBase64);
      match reply
      case CallFailed => AnalyzeResult(AnalysisFailed, Some(request))
      case Replied(content) =>
        match parse(CleanReply(ReplyText(content)))
        case Some(v) => AnalyzeResult(Analysis(v), Some(request))
        case None => AnalyzeResult(AnalysisFailed, Some(request))
  }

  /** A reply without content is the empty text, which `JSON.parse` rejects: 500. */
  lemma MissingContentFails(user: Auth.AuthUser, body: AnalyzeBody, show: JsValue -> string,
                            parse: string -> Option<JsValue>)
    requires Truthy(body.imageBase64)
    requires parse("") == None
    ensures Analyze(Some(user), Some(body), show, Replied(None), parse).response == AnalysisFailed
  {
    assert Trim("") == "";
  }
}
