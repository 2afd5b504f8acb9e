/** The gate in front of the chat provider: at most one request in flight,
    and at least five seconds between two accepted requests.

    `Decide` and `Release` are the gate's rules on its two variables; `Run`
    replays a history of submissions and completions from the initial state.
    The class `Gate` holds the two variables and is proved to follow `Run`
    over its own history, so the lemmas about histories (spacing of accepted
    requests, at most one in flight) hold for every gate. The provider call
    between acceptance and completion is not modelled: a completion is an
    explicit call carrying the outcome. */
module RequestGate {
  import opened Wrappers
  import opened JsValues
  import opened JsStrings
  import opened ResponseText
  import opened MarkdownLines
  import opened MarkdownTags
  import opened MarkdownStructure
  import opened MarkdownRender

  /** Milliseconds that must pass between two accepted requests. */
  const MinRequestInterval := 5000

  /** The instructions appended to every accepted query. */
  const Instructions :=
    "You are an AI assistant with in-depth " + "expertise in the Indian Constitution, "
    + "criminal law, and all relevant acts, " + "sections, and legal provisions. Your "
    + "role is to support law enforcement " + "officers in the process of filing a "
    + "First Information Report (FIR) by " + "identifying and listing all applicable "
    + "laws, including relevant acts, " + "sections, and provisions. For each act "
    + "or section, provide a concise yet " + "comprehensive explanation of its "
    + "significance, its direct relevance to " + "the case, and how it should be applied "
    + "in the context of the incident. Ensure " + "that no pertinent legal provision is "
    + "overlooked, and that the officer is " + "equipped with a thorough understanding "
    + "of the laws involved, enabling them to " + "file a complete and legally sound FIR."

  datatype GateState = GateState(lastRequestTime: int, isRequestInProgress: bool)

  const Initial := GateState(0, false)

  /** What a click on the submit button leads to: nothing (empty query), the
      busy notice, the wait notice with its number of seconds, or a request
      to the provider with the prompt sent. */
  datatype SubmitResult = Ignored | Busy | Throttled(waitSeconds: int) | Accepted(prompt: string)

  /** `Math.ceil(n / d)` for integers `n` and a positive `d`. */
  function CeilDiv(n: int, d: int): (r: int)
    requires d > 0
    ensures d * (r - 1) < n <= d * r
  {
    -((-n) / d)
  }

  /** The whole seconds still to wait at time `now`. */
  function WaitSeconds(st: GateState, now: int): int {
    CeilDiv(MinRequestInterval - (now - st.lastRequestTime), 1000)
  }

  /** The gate's answer to a submission of `query` at time `now`. */
  function Decide(st: GateState, query: string, now: int): SubmitResult {
    var q := Trim(query);
    if q == [] then Ignored
    else if st.isRequestInProgress then Busy
    else if now - st.lastRequestTime < MinRequestInterval then Throttled(WaitSeconds(st, now))
    else Accepted(Prompt(q))
  }

  /** The prompt sent for the trimmed query `q`. */
  function Prompt(q: string): string {
    q + ". " + Instructions
  }

  /** Acceptance stamps the time and marks a request in flight; every other
      answer leaves the gate as it was. */
  function AfterSubmit(st: GateState, r: SubmitResult, now: int): GateState {
    if r.Accepted? then GateState(now, true) else st
  }

  /** The `finally` block: the flag is cleared, whatever the outcome. */
  function Release(st: GateState): GateState {
    GateState(st.lastRequestTime, false)
  }

  // Histories.

  datatype Event = Submitted(query: string, now: int) | Completed

  function Apply(st: GateState, e: Event): GateState {
    match e
    case Submitted(q, now) => AfterSubmit(st, Decide(st, q, now), now)
    case Completed => Release(st)
  }

  /** The gate's state after the events of `es`, from the initial state. */
  function Run(es: seq<Event>): GateState
    decreases |es|
  {
    if es == [] then Initial else Apply(Run(es[..|es| - 1]), es[|es| - 1])
  }

  /** A completion only ever follows a request in flight. */
  predicate WellFormed(es: seq<Event>)
    decreases |es|
  {
    es == [] ||
    (WellFormed(es[..|es| - 1]) && (es[|es| - 1].Completed? ==> Run(es[..|es| - 1]).isRequestInProgress))
  }

  /** The last event of `es` is a submission the gate accepted. */
  predicate AcceptedLast(es: seq<Event>)
    requires es != []
  {
    var e := es[|es| - 1];
    e.Submitted? && Decide(Run(es[..|es| - 1]), e.query, e.now).Accepted?
  }

  /** The times of the accepted submissions, in order. */
  function AcceptedTimes(es: seq<Event>): seq<int>
    decreases |es|
  {
    if es == [] then []
    else AcceptedTimes(es[..|es| - 1]) + (if AcceptedLast(es) then [es[|es| - 1].now] else [])
  }

  function Completions(es: seq<Event>): nat
    decreases |es|
  {
    if es == [] then 0 else Completions(es[..|es| - 1]) + (if es[|es| - 1].Completed? then 1 else 0)
  }

  // The gate's rules.

  /** A throttled submission waits at least one second, and at most five
      when the clock has not gone back since the last accepted request. */
  lemma ThrottleWait(st: GateState, query: string, now: int)
    requires Decide(st, query, now).Throttled?
    ensures Decide(st, query, now).waitSeconds >= 1
    ensures now >= st.lastRequestTime ==> Decide(st, query, now).waitSeconds <= 5
  {
  }

  /** The gate accepts exactly a non-empty query, with no request in
      flight, five seconds or more after the last accepted one; the prompt
      is the trimmed query, `". "` and the instructions. */
  lemma AcceptedIff(st: GateState, query: string, now: int)
    ensures Decide(st, query, now).Accepted? <==>
      Trim(query) != [] && !st.isRequestInProgress && now - st.lastRequestTime >= MinRequestInterval
    ensures Decide(st, query, now).Accepted? ==> Decide(st, query, now).prompt == Trim(query) + ". " + Instructions
  {
    var q := Trim(query);
    if q != [] && !st.isRequestInProgress && now - st.lastRequestTime >= MinRequestInterval {
      assert Decide(st, query, now) == Accepted(Prompt(q));
    } else {
      assert !Decide(st, query, now).Accepted?;
    }
  }

  /** Every submission not accepted leaves the gate unchanged. */
  lemma RejectionKeepsState(st: GateState, query: string, now: int)
    requires !Decide(st, query, now).Accepted?
    ensures Apply(st, Submitted(query, now)) == st
  {
  }

  /** A completion never moves the time of the last accepted request. */
  lemma CompletionKeepsTime(st: GateState)
    ensures Apply(st, Completed).lastRequestTime == st.lastRequestTime
    ensures !Apply(st, Completed).isRequestInProgress
  {
  }

  /** A submission extends a well-formed history, and the replay by one event. */
  lemma SubmissionStep(es: seq<Event>, query: string, now: int)
    requires WellFormed(es)
    ensures WellFormed(es + [Submitted(query, now)])
    ensures Run(es + [Submitted(query, now)]) == AfterSubmit(Run(es), Decide(Run(es), query, now), now)
  {
    RunPrefix(es, Submitted(query, now));
  }

  /** A completion of a request in flight extends a well-formed history. */
  lemma CompletionStep(es: seq<Event>)
    requires WellFormed(es) && Run(es).isRequestInProgress
    ensures WellFormed(es + [Completed])
    ensures Run(es + [Completed]) == Release(Run(es))
  {
    RunPrefix(es, Completed);
  }

  /** The gate remembers the time of the last accepted submission (0 before any). */
  lemma {:induction false} LastTimeIsLastAccepted(es: seq<Event>)
    ensures var ts := AcceptedTimes(es);
      Run(es).lastRequestTime == if ts == [] then 0 else ts[|ts| - 1]
    decreases |es|
  {
    if es != [] {
      var init, e := es[..|es| - 1], es[|es| - 1];
      LastTimeIsLastAccepted(init);
      var accepted := AcceptedLast(es);
      assert Run(es).lastRequestTime == if accepted then e.now else Run(init).lastRequestTime by {
        ApplyStamps(Run(init), e);
      }
      var ts := AcceptedTimes(init);
      assert AcceptedTimes(es) == if accepted then ts + [e.now] else ts;
    }
  }

  /** An event moves the time exactly when it is an accepted submission. */
  lemma ApplyStamps(st: GateState, e: Event)
    ensures Apply(st, e).lastRequestTime ==
      if e.Submitted? && Decide(st, e.query, e.now).Accepted? then e.now else st.lastRequestTime
  {
  }

  /** Two successive accepted submissions are at least five seconds apart. */
  lemma {:induction false} ConsecutiveSpacing(es: seq<Event>)
    ensures forall k :: 0 <= k < |AcceptedTimes(es)| - 1 ==>
      AcceptedTimes(es)[k + 1] - AcceptedTimes(es)[k] >= MinRequestInterval
    decreases |es|
  {
    if es != [] {
      var init, e := es[..|es| - 1], es[|es| - 1];
      ConsecutiveSpacing(init);
      var ts := AcceptedTimes(init);
      if AcceptedLast(es) {
        assert AcceptedTimes(es) == ts + [e.now];
        assert ts != [] ==> e.now - ts[|ts| - 1] >= MinRequestInterval by {
          LastTimeIsLastAccepted(init);
          AcceptedIff(Run(init), e.query, e.now);
        }
        SpacedAppend(ts, e.now);
      } else {
        assert AcceptedTimes(es) == ts;
      }
    }
  }

  lemma SpacedAppend(ts: seq<int>, t: int)
    requires forall k :: 0 <= k < |ts| - 1 ==> ts[k + 1] - ts[k] >= MinRequestInterval
    requires ts != [] ==> t - ts[|ts| - 1] >= MinRequestInterval
    ensures forall k :: 0 <= k < |ts + [t]| - 1 ==> (ts + [t])[k + 1] - (ts + [t])[k] >= MinRequestInterval
  {
    var ts' := ts + [t];
    forall k | 0 <= k < |ts'| - 1
      ensures ts'[k + 1] - ts'[k] >= MinRequestInterval
    {
      assert ts'[k] == ts[k];
      if k + 1 < |ts| {
        assert ts'[k + 1] == ts[k + 1];
      }
    }
  }

  /** Any two accepted submissions, the `i`-th and the `j`-th, are at least
      `j - i` intervals apart. */
  lemma AcceptedSpacing(es: seq<Event>, i: nat, j: nat)
    requires i <= j < |AcceptedTimes(es)|
    ensures AcceptedTimes(es)[j] - AcceptedTimes(es)[i] >= MinRequestInterval * (j - i)
    decreases j - i
  {
    if i < j {
      ConsecutiveSpacing(es);
      AcceptedSpacing(es, i + 1, j);
    }
  }

  /** At most one request is in flight: on a history whose completions
      follow requests in flight, the accepted submissions outnumber the
      completions by one while a request is in flight and by none otherwise. */
  lemma {:induction false} InFlight(es: seq<Event>)
    requires WellFormed(es)
    ensures |AcceptedTimes(es)| == Completions(es) + if Run(es).isRequestInProgress then 1 else 0
    decreases |es|
  {
    if es != [] {
      var init := es[..|es| - 1];
      InFlight(init);
      var e := es[|es| - 1];
      if e.Submitted? {
        AcceptedIff(Run(init), e.query, e.now);
      }
    }
  }

  // The gate as the front end holds it.

  /** How a request ended: the provider's answer, or the `message` of the
      error it threw (`None` when there is none). */
  datatype Outcome = Answered(response: Value) | Threw(message: Option<string>)

  /** What the response box shows at the end of a request. */
  datatype Screen = Rendered(html: string) | ErrorScreen(kind: ErrorKind)

  /** The screen a request ending in `outcome` leaves. `stringify` stands
      for `JSON.stringify`; the renderer always receives a string here. */
  function ScreenFor(outcome: Outcome, stringify: Value -> string): Screen {
    match outcome
    case Answered(v) => Rendered(RenderSpec(Str(ExtractText(v, stringify)), x => ""))
    case Threw(m) => ErrorScreen(ClassifyError(m))
  }

  /** An empty string from the provider leaves the response box empty. */
  lemma EmptyAnswerShowsNothing(stringify: Value -> string)
    ensures ScreenFor(Answered(Str("")), stringify) == Rendered("")
  {
    EmptyTextRendersNothing(x => "");
  }

  /** An answer that is neither a string nor an object shows the notice that
      no response was received, as one paragraph. */
  lemma MissingAnswerShowsNotice(response: Value, stringify: Value -> string)
    requires !response.Str? && !response.Arr? && !response.Obj?
    ensures ScreenFor(Answered(response), stringify) == Rendered(ParagraphHtml(NoResponse))
  {
    assert ExtractText(response, stringify) == NoResponse;
    assert RenderSpec(Str(NoResponse), x => "") == ParagraphHtml(NoResponse) by {
      NoResponseIsPlainLine();
      MarkerFreeLineIsParagraph(NoResponse);
      PlainLineRendersParagraph(NoResponse);
    }
  }

  lemma NoResponseIsPlainLine()
    ensures Plain(NoResponse) && NoResponse != [] && !IsWhitespace(NoResponse[0])
    ensures NoResponse[0] != '#' && NoResponse[0] != '*' && NoResponse[0] != '-' && !IsDigit(NoResponse[0])
  {
  }

  class Gate {
    var lastRequestTime: int
    var isRequestInProgress: bool
    /** The submissions and completions seen so far. */
    ghost var history: seq<Event>

    function State(): GateState
      reads this
    {
      GateState(lastRequestTime, isRequestInProgress)
    }

    ghost predicate Valid()
      reads this
    {
      State() == Run(history) && WellFormed(history)
    }

    constructor()
      ensures Valid() && State() == Initial && history == []
    {
      lastRequestTime := 0;
      isRequestInProgress := false;
      history := [];
    }

    /** A click on the submit button at time `now`. */
    method Submit(query: string, now: int) returns (r: SubmitResult)
      requires Valid()
      modifies this
      ensures Valid()
      ensures r == Decide(old(State()), query, now)
      ensures State() == AfterSubmit(old(State()), r, now)
      ensures history == old(history) + [Submitted(query, now)]
    {
      SubmissionStep(history, query, now);
      var q := Trim(query);
      if q == [] {
        r := Ignored;
      } else if isRequestInProgress {
        r := Busy;
      } else if now - lastRequestTime < MinRequestInterval {
        r := Throttled(CeilDiv(MinRequestInterval - (now - lastRequestTime), 1000));
      } else {
        lastRequestTime := now;
        isRequestInProgress := true;
        r := Accepted(Prompt(q));
      }
      history := history + [Submitted(query, now)];
    }

    /** The end of an accepted request: the response box gets the rendered
        answer or the error screen, and the flag is cleared in every case. */
    method Complete(outcome: Outcome, stringify: Value -> string) returns (screen: Screen)
      requires Valid() && isRequestInProgress
      modifies this
      ensures Valid()
      ensures screen == ScreenFor(outcome, stringify)
      ensures State() == Release(old(State()))
      ensures history == old(history) + [Completed]
    {
      CompletionStep(history);
      match outcome {
        case Answered(v) =>
          var html := Render(Str(ExtractText(v, stringify)), x => "");
          screen := Rendered(html);
        case Threw(m) =>
          screen := ErrorScreen(ClassifyError(m));
      }
      isRequestInProgress := false;
      history := history + [Completed];
    }
  }

  /** The countdown of the wait notice: starting from `waitTime`, each tick
      takes one off and shows the result, and the ticks stop once it is zero
      or less. Returns the numbers shown, one per tick. */
  method Countdown(waitTime: int) returns (shown: seq<int>)
    ensures |shown| == if waitTime >= 1 then waitTime else 1
    ensures forall k :: 0 <= k < |shown| ==> shown[k] == waitTime - 1 - k
    ensures shown[|shown| - 1] <= 0
  {
    var remaining := waitTime - 1;
    shown := [remaining];
    while remaining > 0
      invariant |shown| >= 1 && remaining == waitTime - |shown|
      invariant forall k :: 0 <= k < |shown| ==> shown[k] == waitTime - 1 - k
      invariant remaining > 0 ==> |shown| < waitTime
      invariant remaining <= 0 ==> |shown| == if waitTime >= 1 then waitTime else 1
      decreases remaining
    {
      remaining := remaining - 1;
      shown := shown + [remaining];
    }
  }

  // Proof steps used by the lemmas above.

  lemma RunPrefix(es: seq<Event>, e: Event)
    ensures (es + [e])[..|es + [e]| - 1] == es && (es + [e])[|es + [e]| - 1] == e
  {
  }
}
