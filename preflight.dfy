/** issue_check: the gate run before any texture is generated. Five checks
    in a fixed order; the first one that fails shows one warning dialog and
    the gate returns False, and only when all five pass does it return True.

    What the checks look at comes from outside and is taken as input: whether
    the output folder exists, what GET http://127.0.0.1:7860 did, the text of
    the key field, the configured OpenAI key, and what the probe completion
    did. */
module Preflight {
  import opened Results
  import opened Text
  import opened Services

  /** The Stable Diffusion server's base URL, which the gate GETs. */
  const SD_URL: string := "http://127.0.0.1:7860"

  /** The prompt of the probe completion that tests the OpenAI key. */
  const PROBE_PROMPT: string := "test"

  /** What requests.get did: a response with its status code, or a
      RequestException (no connection, timeout, ...). */
  datatype HttpOutcome = Responded(status: int) | RequestFailed

  /** Everything the gate reads. */
  datatype PreflightInputs = PreflightInputs(
    folderExists: bool,          // QDir(folder_path).exists()
    server: HttpOutcome,         // requests.get(SD_URL)
    keyField: string,            // key_edit.text()
    apiKey: string,              // openai.api_key
    probe: CompletionOutcome)    // openai.Completion.create(prompt="test", ...)

  /** The gate's checks, with what each one asks of the outside. */
  datatype Check =
    | FolderExists
    | ServerAnswers(url: string)
    | KeyFieldLatin1
    | ApiKeyLatin1
    | ProbeCompletes(prompt: string)

  /** The checks in the order the gate runs them. */
  const ALL_CHECKS: seq<Check> :=
    [FolderExists, ServerAnswers(SD_URL), KeyFieldLatin1, ApiKeyLatin1, ProbeCompletes(PROBE_PROMPT)]

  /** How the gate ends: it returns a boolean, or an exception it does not
      catch leaves it. */
  datatype Verdict = Returned(passed: bool) | Propagated(error: OpenAIError)

  /** What the gate did: the checks it ran, in order, the warning dialogs it
      showed, and how it ended. */
  datatype Report = Report(ran: seq<Check>, dialogs: seq<string>, verdict: Verdict)

  // ---------------------------------------------------------------------------
  // The checks

  /** Response.raise_for_status raises for the client and server error
      classes, 400 to 599, and for nothing else. */
  predicate IsErrorStatus(status: int)
  {
    400 <= status < 600
  }

  /** Whether a check passes on the inputs: the folder exists, the GET got a
      response without an error status, the key field and the configured key
      have no character above U+00FF, and the probe got a reply. */
  predicate Passes(inputs: PreflightInputs, check: Check)
  {
    match check
    case FolderExists => inputs.folderExists
    case ServerAnswers(_) => inputs.server.Responded? && !IsErrorStatus(inputs.server.status)
    case KeyFieldLatin1 => IsLatin1(inputs.keyField)
    case ApiKeyLatin1 => IsLatin1(inputs.apiKey)
    case ProbeCompletes(_) => inputs.probe.Reply?
  }

  /** The dialog text for each of the four openai errors the gate catches,
      and none for any other error. */
  function ProbeMessage(error: OpenAIError): Option<string>
  {
    match error
    case APIError => Some("APIError ")
    case APIConnectionError => Some("APIConnectionError")
    case RateLimitError => Some("RateLimitError")
    case AuthenticationError => Some("AuthenticationError")
    case OtherError(_) => None
  }

  /** The dialog a failing check shows, if it shows one. */
  function FailureMessage(inputs: PreflightInputs, check: Check): Option<string>
  {
    match check
    case FolderExists => Some("folder")
    case ServerAnswers(_) => Some("sd")
    case KeyFieldLatin1 => Some("bad input ")
    case ApiKeyLatin1 => Some("bad key ")
    case ProbeCompletes(_) => if inputs.probe.Raised? then ProbeMessage(inputs.probe.error) else None
  }

  /** The gate stops at a failed check: with its dialog and False, or, when
      the failure is an error it does not catch, by letting that error out. */
  function Stop(ran: seq<Check>, message: Option<string>, error: OpenAIError): Report
  {
    match message
    case Some(text) => Report(ran, [text], Returned(false))
    case None => Report(ran, [], Propagated(error))
  }

  /** issue_check, its early returns in the order written. The two Latin-1
      checks fail exactly when str.encode('latin-1') raises. */
  function IssueCheck(inputs: PreflightInputs): (r: Report)
    ensures 1 <= |r.ran| <= |ALL_CHECKS| && r.ran == ALL_CHECKS[..|r.ran|]
    ensures |r.dialogs| <= 1
    ensures |r.dialogs| == 1 <==> r.verdict == Returned(false)
    ensures r.verdict.Propagated? ==> r.ran == ALL_CHECKS && inputs.probe == Raised(r.verdict.error)
  {
    if !inputs.folderExists then
      Report(ALL_CHECKS[..1], ["folder"], Returned(false))
    else if inputs.server.RequestFailed? || IsErrorStatus(inputs.server.status) then
      Report(ALL_CHECKS[..2], ["sd"], Returned(false))
    else if EncodeLatin1(inputs.keyField).Failure? then
      Report(ALL_CHECKS[..3], ["bad input "], Returned(false))
    else if EncodeLatin1(inputs.apiKey).Failure? then
      Report(ALL_CHECKS[..4], ["bad key "], Returned(false))
    else
      match inputs.probe
      case Reply(_) => Report(ALL_CHECKS, [], Returned(true))
      case Raised(error) => Stop(ALL_CHECKS, ProbeMessage(error), error)
  }

  // ---------------------------------------------------------------------------
  // The gate against its reference: the first failing check

  /** The index in ALL_CHECKS of the first check from index from on that
      fails, or |ALL_CHECKS| when none does. */
  function FirstFailing(inputs: PreflightInputs, from: nat): (k: nat)
    requires from <= |ALL_CHECKS|
    ensures from <= k <= |ALL_CHECKS|
    ensures forall j | from <= j < k :: Passes(inputs, ALL_CHECKS[j])
    ensures k < |ALL_CHECKS| ==> !Passes(inputs, ALL_CHECKS[k])
    decreases |ALL_CHECKS| - from
  {
    if from == |ALL_CHECKS| then from
    else if !Passes(inputs, ALL_CHECKS[from]) then from
    else FirstFailing(inputs, from + 1)
  }

  /** The gate runs the checks in order up to the first failing one and runs
      none after it; with no failure it runs all five. */
  lemma IssueCheckStopsAtFirstFailure(inputs: PreflightInputs)
    ensures var k := FirstFailing(inputs, 0);
      IssueCheck(inputs).ran == if k < |ALL_CHECKS| then ALL_CHECKS[..k + 1] else ALL_CHECKS
  {
    var k := FirstFailing(inputs, 0);
    Latin1Encodes(inputs.keyField);
    Latin1Encodes(inputs.apiKey);
    assert 0 < k ==> Passes(inputs, ALL_CHECKS[0]);
    assert 1 < k ==> Passes(inputs, ALL_CHECKS[1]);
    assert 2 < k ==> Passes(inputs, ALL_CHECKS[2]);
    assert 3 < k ==> Passes(inputs, ALL_CHECKS[3]);
  }

  /** The gate returns True exactly when every check passes, and then it has
      shown no dialog. */
  lemma IssueCheckPassesIffAll(inputs: PreflightInputs)
    ensures IssueCheck(inputs).verdict == Returned(true) <==> forall c | c in ALL_CHECKS :: Passes(inputs, c)
    ensures IssueCheck(inputs).verdict == Returned(true) ==> IssueCheck(inputs).dialogs == []
  {
    Latin1Encodes(inputs.keyField);
    Latin1Encodes(inputs.apiKey);
    if forall c | c in ALL_CHECKS :: Passes(inputs, c) {
      assert Passes(inputs, ALL_CHECKS[0]) && Passes(inputs, ALL_CHECKS[1]) && Passes(inputs, ALL_CHECKS[2]);
      assert Passes(inputs, ALL_CHECKS[3]) && Passes(inputs, ALL_CHECKS[4]);
    }
    if IssueCheck(inputs).verdict == Returned(true) {
      forall c | c in ALL_CHECKS
        ensures Passes(inputs, c)
      {
        assert c == FolderExists || c == ServerAnswers(SD_URL) || c == KeyFieldLatin1 || c == ApiKeyLatin1
            || c == ProbeCompletes(PROBE_PROMPT);
      }
    }
  }

  /** When a check fails, the gate shows that check's dialog, exactly once,
      and returns False; when the failure is an openai error it does not
      catch, it shows nothing and the error leaves the gate. */
  lemma IssueCheckReportsFirstFailure(inputs: PreflightInputs)
    ensures var k := FirstFailing(inputs, 0);
      var r := IssueCheck(inputs);
      k < |ALL_CHECKS| ==>
        match FailureMessage(inputs, ALL_CHECKS[k])
        case Some(text) => r.dialogs == [text] && r.verdict == Returned(false)
        case None => r.dialogs == [] && r.verdict == Propagated(inputs.probe.error)
  {
    IssueCheckStopsAtFirstFailure(inputs);
    Latin1Encodes(inputs.keyField);
    Latin1Encodes(inputs.apiKey);
  }

  /** The Latin-1 checks fail exactly when a character's code point is above
      255. */
  lemma Latin1Encodes(s: string)
    ensures EncodeLatin1(s).Failure? <==> exists k | 0 <= k < |s| :: s[k] as int > 0xFF
  {
    if EncodeLatin1(s).Failure? {
      var k := EncodeLatin1(s).error;
      assert s[k] as int > 0xFF;
    }
  }

  /** The eight dialogs are all different, so each failure can be told from
      the others by its dialog. */
  lemma FailureMessagesDistinct(inputs: PreflightInputs, a: Check, b: Check)
    requires a in ALL_CHECKS && b in ALL_CHECKS && a != b
    requires FailureMessage(inputs, a).Some? && FailureMessage(inputs, b).Some?
    ensures FailureMessage(inputs, a) != FailureMessage(inputs, b)
  {
  }

  /** Each of the four caught openai errors has a dialog of its own, and any
      other error has none. */
  lemma ProbeMessagesDistinct(e: OpenAIError, f: OpenAIError)
    ensures ProbeMessage(e).None? <==> e.OtherError?
    ensures ProbeMessage(e).Some? && e != f ==> ProbeMessage(e) != ProbeMessage(f)
  {
  }
}
