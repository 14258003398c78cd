/**
 The Ansible callback plugin that reports provisioning progress to the bridge
 server. Task names are classified into the five steps by keyword; the plugin
 remembers the step of the last recognised task and reports task start, success,
 failure and unreachable hosts against it. Sending a report is modelled as
 producing the payload that would be posted.
 */
module BridgeCallback {
  import opened Options
  import opened Seqs
  import opened Decimal
  import Models

  // ---------------------------------------------------------------------------
  // Classification of task names

  /** One entry of the step mapping: a step and the keywords that select it. */
  datatype Entry = Entry(step: string, keywords: seq<string>)

  /** The mapping in its declaration order, which is the order keywords are tried in. */
  const StepMapping: seq<Entry> := [
    Entry("route53", ["route53", "dns"]),
    Entry("load_balancer", ["lb", "load_balancer", "alb", "elb"]),
    Entry("k8s_service", ["service", "k8s_service", "kubernetes_service"]),
    Entry("ingress", ["ingress", "k8s_ingress"]),
    Entry("domain_mapping", ["domain", "mapping", "dns_mapping"])
  ]

  lemma MappingCoversStepNames()
    ensures |StepMapping| == |Models.StepNames|
    ensures forall k :: 0 <= k < |StepMapping| ==> StepMapping[k].step == Models.StepNames[k]
  {
  }

  function LowerChar(c: char): char {
    if 'A' <= c <= 'Z' then (c as int + 32) as char else c
  }

  /** `str.lower` on ASCII letters. */
  function Lower(s: string): (r: string)
    ensures |r| == |s|
    ensures forall i :: 0 <= i < |s| ==> r[i] == LowerChar(s[i])
  {
    seq(|s|, i requires 0 <= i < |s| => LowerChar(s[i]))
  }

  /** Python's `kw in text` on strings: `kw` occurs in `text` as a contiguous piece. */
  predicate Contains(text: string, kw: string)
    decreases |text|
  {
    kw <= text || (|text| > 0 && Contains(text[1..], kw))
  }

  lemma {:induction false} ContainsAt(text: string, kw: string)
    ensures Contains(text, kw) <==> exists i :: 0 <= i <= |text| && kw <= text[i..]
    decreases |text|
  {
    assert text[0..] == text;
    if |text| > 0 {
      ContainsAt(text[1..], kw);
      forall i | 1 <= i <= |text| ensures text[1..][i - 1..] == text[i..] { }
    }
  }

  /** A text containing `a + b` contains `a`. */
  lemma ContainsPrefixOfKeyword(text: string, a: string, b: string)
    requires Contains(text, a + b)
    ensures Contains(text, a)
  {
    ContainsAt(text, a + b);
    ContainsAt(text, a);
    var i :| 0 <= i <= |text| && a + b <= text[i..];
    assert a <= text[i..];
  }

  /** Some keyword of `keywords` occurs in `text`. */
  predicate MentionsAny(text: string, keywords: seq<string>)
    decreases |keywords|
  {
    |keywords| > 0 && (Contains(text, keywords[0]) || MentionsAny(text, keywords[1..]))
  }

  lemma {:induction false} MentionsAnyExists(text: string, keywords: seq<string>)
    ensures MentionsAny(text, keywords) <==> exists j :: 0 <= j < |keywords| && Contains(text, keywords[j])
    decreases |keywords|
  {
    if |keywords| > 0 {
      MentionsAnyExists(text, keywords[1..]);
      if exists j :: 0 <= j < |keywords| && Contains(text, keywords[j]) {
        var j :| 0 <= j < |keywords| && Contains(text, keywords[j]);
        if j > 0 {
          assert keywords[1..][j - 1] == keywords[j];
        }
      }
    }
  }

  /** `_get_step_from_task_name`: the first step, in mapping order, one of whose keywords occurs in the lower-cased name. */
  function Classify(taskName: string): (r: Option<string>)
    ensures r.None? <==> forall k :: 0 <= k < |StepMapping| ==> !MentionsAny(Lower(taskName), StepMapping[k].keywords)
    ensures r.Some? ==> r.value in Models.StepNames
    ensures r.Some? ==>
      exists k :: 0 <= k < |StepMapping| && r.value == StepMapping[k].step &&
        MentionsAny(Lower(taskName), StepMapping[k].keywords) &&
        forall j :: 0 <= j < k ==> !MentionsAny(Lower(taskName), StepMapping[j].keywords)
  {
    var lowered := Lower(taskName);
    match FirstIndex(StepMapping, (e: Entry) => MentionsAny(lowered, e.keywords))
    case None => None
    case Some(k) => Some(StepMapping[k].step)
  }

  lemma LowerIdempotent(s: string)
    ensures Lower(Lower(s)) == Lower(s)
  {
    assert forall i :: 0 <= i < |s| ==> LowerChar(LowerChar(s[i])) == LowerChar(s[i]);
  }

  /** Classification ignores letter case: a lower-cased name classifies the same. */
  lemma ClassifyIgnoresCase(taskName: string)
    ensures Classify(Lower(taskName)) == Classify(taskName)
  {
    LowerIdempotent(taskName);
  }

  /** Any name mentioning "dns" is route53, so the keyword "dns_mapping" can never select domain_mapping. */
  lemma DnsSelectsRoute53(taskName: string)
    requires Contains(Lower(taskName), "dns")
    ensures Classify(taskName) == Some("route53")
  {
    assert MentionsAny(Lower(taskName), StepMapping[0].keywords);
  }

  lemma DnsMappingKeywordIsShadowed(taskName: string)
    requires Contains(Lower(taskName), "dns_mapping")
    ensures Classify(taskName) == Some("route53")
  {
    assert "dns_mapping" == "dns" + "_mapping";
    ContainsPrefixOfKeyword(Lower(taskName), "dns", "_mapping");
    DnsSelectsRoute53(taskName);
  }

  /** Conversely, the first entry, in mapping order, with a keyword in the name is the step returned. */
  lemma ClassifyFirstMentioned(taskName: string, k: nat)
    requires k < |StepMapping| && MentionsAny(Lower(taskName), StepMapping[k].keywords)
    requires forall j :: 0 <= j < k ==> !MentionsAny(Lower(taskName), StepMapping[j].keywords)
    ensures Classify(taskName) == Some(StepMapping[k].step)
  {
    var r := Classify(taskName);
    var i :| 0 <= i < |StepMapping| && r.value == StepMapping[i].step &&
      MentionsAny(Lower(taskName), StepMapping[i].keywords) &&
      forall j :: 0 <= j < i ==> !MentionsAny(Lower(taskName), StepMapping[j].keywords);
    assert i == k;
  }

  /**
   Because "service" is tried before "ingress", a name mentioning both is the
   k8s_service step unless it also mentions a route53 or load balancer keyword.
   */
  lemma ServiceBeforeIngress(taskName: string)
    requires Contains(Lower(taskName), "service") && Contains(Lower(taskName), "ingress")
    requires !MentionsAny(Lower(taskName), StepMapping[0].keywords)
    requires !MentionsAny(Lower(taskName), StepMapping[1].keywords)
    ensures Classify(taskName) == Some("k8s_service")
  {
    assert MentionsAny(Lower(taskName), StepMapping[2].keywords);
    ClassifyFirstMentioned(taskName, 2);
  }

  // ---------------------------------------------------------------------------
  // Reading DEPLOYMENT_ID with Python's int()

  /** ASCII whitespace as `int()` skips it around the numeral: space, tab, LF, VT, FF, CR. */
  predicate IsSpace(c: char) {
    c == ' ' || 9 <= c as int <= 13
  }

  predicate AllSpaces(w: string) {
    forall i :: 0 <= i < |w| ==> IsSpace(w[i])
  }

  function TrimStart(s: string): (r: string)
    ensures |r| <= |s|
    ensures |r| > 0 ==> !IsSpace(r[0])
    decreases |s|
  {
    if |s| > 0 && IsSpace(s[0]) then TrimStart(s[1..]) else s
  }

  function TrimEnd(s: string): (r: string)
    ensures |r| <= |s|
    ensures |r| > 0 ==> !IsSpace(r[|r| - 1])
    decreases |s|
  {
    if |s| > 0 && IsSpace(s[|s| - 1]) then TrimEnd(s[..|s| - 1]) else s
  }

  function Strip(s: string): string {
    TrimEnd(TrimStart(s))
  }

  lemma {:induction false} TrimStartSpaces(w: string, t: string)
    requires AllSpaces(w) && |t| > 0 && !IsSpace(t[0])
    ensures TrimStart(w + t) == t
    decreases |w|
  {
    if |w| == 0 {
      assert w + t == t;
    } else {
      assert (w + t)[1..] == w[1..] + t;
      TrimStartSpaces(w[1..], t);
    }
  }

  lemma {:induction false} TrimEndSpaces(t: string, w: string)
    requires AllSpaces(w) && |t| > 0 && !IsSpace(t[|t| - 1])
    ensures TrimEnd(t + w) == t
    decreases |w|
  {
    if |w| == 0 {
      assert t + w == t;
    } else {
      assert (t + w)[..|t + w| - 1] == t + w[..|w| - 1];
      TrimEndSpaces(t, w[..|w| - 1]);
    }
  }

  /** Stripping removes exactly the whitespace around a text that neither starts nor ends with it. */
  lemma StripSurrounded(w1: string, t: string, w2: string)
    requires AllSpaces(w1) && AllSpaces(w2)
    requires |t| > 0 && !IsSpace(t[0]) && !IsSpace(t[|t| - 1])
    ensures Strip(w1 + t + w2) == t
  {
    assert w1 + t + w2 == w1 + (t + w2);
    TrimStartSpaces(w1, t + w2);
    TrimEndSpaces(t, w2);
  }

  lemma StripUnspaced(t: string)
    requires |t| > 0 && !IsSpace(t[0]) && !IsSpace(t[|t| - 1])
    ensures Strip(t) == t
  {
    StripSurrounded([], t, []);
    assert [] + t + [] == t;
  }

  predicate DigitsOrUnderscores(b: string) {
    forall i :: 0 <= i < |b| ==> IsDigit(b[i]) || b[i] == '_'
  }

  /** Every underscore is followed by a digit. */
  predicate NoStrayUnderscore(b: string)
    decreases |b|
  {
    |b| == 0 || ((b[0] != '_' || (|b| > 1 && IsDigit(b[1]))) && NoStrayUnderscore(b[1..]))
  }

  lemma {:induction false} DigitsHaveNoStrayUnderscore(s: string)
    requires AllDigits(s)
    ensures NoStrayUnderscore(s)
  {
    if |s| > 0 {
      DigitsHaveNoStrayUnderscore(s[1..]);
    }
  }

  /** A numeral never ends in an underscore. */
  lemma {:induction false} NoStrayUnderscoreAtEnd(b: string)
    requires |b| > 0 && NoStrayUnderscore(b)
    ensures b[|b| - 1] != '_'
    decreases |b|
  {
    if |b| > 1 {
      NoStrayUnderscoreAtEnd(b[1..]);
    }
  }

  /** An underscore followed by anything but a digit is stray. */
  lemma {:induction false} StrayUnderscoreAt(b: string, i: nat)
    requires i + 1 < |b| && b[i] == '_' && !IsDigit(b[i + 1])
    ensures !NoStrayUnderscore(b)
    decreases i
  {
    if i > 0 {
      StrayUnderscoreAt(b[1..], i - 1);
    }
  }

  /** Digits, with single underscores allowed between two digits. */
  predicate Grouped(b: string) {
    |b| > 0 && IsDigit(b[0]) && DigitsOrUnderscores(b) && NoStrayUnderscore(b)
  }

  /** The digits of a grouped numeral, underscores removed. */
  function DropUnderscores(b: string): (r: string)
    requires DigitsOrUnderscores(b)
    ensures AllDigits(r)
    ensures |r| <= |b|
  {
    if |b| == 0 then []
    else (if b[0] == '_' then [] else [b[0]]) + DropUnderscores(b[1..])
  }

  lemma {:induction false} DropUnderscoresOfDigits(s: string)
    requires AllDigits(s)
    ensures DropUnderscores(s) == s
  {
    if |s| > 0 {
      DropUnderscoresOfDigits(s[1..]);
      assert s == [s[0]] + s[1..];
    }
  }

  lemma DigitsAreGrouped(s: string)
    requires |s| > 0 && AllDigits(s)
    ensures Grouped(s) && DropUnderscores(s) == s
  {
    DigitsHaveNoStrayUnderscore(s);
    DropUnderscoresOfDigits(s);
  }

  /** The interpreter's default limit on the digits of a numeral `int()` converts (`sys.get_int_max_str_digits()`). */
  const MaxStrDigits: nat := 4300

  /** The grouped numeral's value, or None when it has more digits than the limit allows. */
  function ReadGrouped(b: string): Option<nat>
    requires Grouped(b)
  {
    var digits := DropUnderscores(b);
    if |digits| <= MaxStrDigits then Some(Value(digits)) else None
  }

  /**
   `int(s)` in base 10: surrounding whitespace, an optional sign, grouped digits, at
   most `MaxStrDigits` of them; None where Python raises ValueError.
   */
  function PyInt(s: string): (r: Option<int>)
    ensures Strip(s) == "" ==> r.None?
    ensures r.Some? && r.value < 0 ==> Strip(s)[0] == '-'
    // exactly the grouped numerals within the limit, signed or not, are integers
    ensures r.Some? <==>
      var t := Strip(s);
      || (Grouped(t) && |DropUnderscores(t)| <= MaxStrDigits)
      || (|t| > 0 && (t[0] == '+' || t[0] == '-') && Grouped(t[1..]) && |DropUnderscores(t[1..])| <= MaxStrDigits)
  {
    var t := Strip(s);
    if |t| > 0 && (t[0] == '+' || t[0] == '-') then
      var body := t[1..];
      if Grouped(body) then
        match ReadGrouped(body)
        case None => None
        case Some(magnitude) => Some(if t[0] == '-' then -(magnitude as int) else magnitude)
      else None
    else if Grouped(t) then
      match ReadGrouped(t)
      case None => None
      case Some(v) => Some(v)
    else None
  }

  /** A grouped numeral within the digit limit reads as the value of its digits. */
  lemma PyIntOfGrouped(b: string)
    requires Grouped(b) && |DropUnderscores(b)| <= MaxStrDigits
    ensures PyInt(b) == Some(Value(DropUnderscores(b)))
  {
    NoStrayUnderscoreAtEnd(b);
    StripUnspaced(b);
  }

  /** A sign in front of such a numeral is read as the sign of the result. */
  lemma PyIntSigned(sign: char, b: string)
    requires sign == '+' || sign == '-'
    requires Grouped(b) && |DropUnderscores(b)| <= MaxStrDigits
    ensures var v := Value(DropUnderscores(b));
      PyInt([sign] + b) == Some(if sign == '-' then -(v as int) else v)
  {
    NoStrayUnderscoreAtEnd(b);
    StripUnspaced([sign] + b);
    assert ([sign] + b)[1..] == b;
  }

  /** Whitespace around the numeral is immaterial. */
  lemma PyIntSurrounded(w1: string, t: string, w2: string)
    requires AllSpaces(w1) && AllSpaces(w2)
    requires |t| > 0 && !IsSpace(t[0]) && !IsSpace(t[|t| - 1])
    ensures PyInt(w1 + t + w2) == PyInt(t)
  {
    StripSurrounded(w1, t, w2);
    StripUnspaced(t);
  }

  /** Leading zeros, after an optional plus sign, are accepted and do not change the value. */
  lemma PyIntLeadingZeros(z: string, n: nat)
    requires forall i :: 0 <= i < |z| ==> z[i] == '0'
    requires |z| + |Format(n)| <= MaxStrDigits
    ensures PyInt(z + Format(n)) == Some(n)
    ensures PyInt("+" + z + Format(n)) == Some(n)
  {
    var b := z + Format(n);
    LeadingZeros(z, Format(n));
    DigitsAreGrouped(b);
    PyIntOfGrouped(b);
    PyIntSigned('+', b);
    assert "+" + z + Format(n) == ['+'] + b;
  }

  /** More digits than the limit allows make `int()` raise, whatever their value. */
  lemma PyIntRefusesLongNumerals(b: string)
    requires Grouped(b) && |DropUnderscores(b)| > MaxStrDigits
    ensures PyInt(b) == None
    ensures PyInt("-" + b) == None
  {
    NoStrayUnderscoreAtEnd(b);
    StripUnspaced(b);
    StripUnspaced("-" + b);
    assert ("-" + b)[1..] == b;
  }

  /** Doubled underscores are refused, signed or not. */
  lemma PyIntRefusesDoubleUnderscore(b: string, i: nat)
    requires |b| > 0 && !IsSpace(b[0]) && !IsSpace(b[|b| - 1])
    requires i + 1 < |b| && b[i] == '_' && b[i + 1] == '_'
    ensures PyInt(b) == None
  {
    StripUnspaced(b);
    if b[0] == '+' || b[0] == '-' {
      StrayUnderscoreAt(b[1..], i - 1);
    } else {
      StrayUnderscoreAt(b, i);
    }
  }

  /** Every rendered key of Go's `uint` range (`DEPLOYMENT_ID=%d`) reads back as the same number. */
  lemma PyIntFormat(n: nat)
    requires n <= Models.MaxUint64
    ensures PyInt(Format(n)) == Some(n)
  {
    FormatLength64(n);
    DigitsAreGrouped(Format(n));
    PyIntOfGrouped(Format(n));
  }

  // ---------------------------------------------------------------------------
  // Sending a report

  datatype Payload = Payload(deploymentId: int, stepName: string, status: string, message: string)

  /** What one call of `_send_callback` does. */
  datatype Delivery =
    | NoDeploymentId       // DEPLOYMENT_ID unset or empty: a warning, nothing sent
    | Posted(payload: Payload)
    | Raised               // DEPLOYMENT_ID is not an integer: ValueError leaves the hook

  /** `_send_callback` given the DEPLOYMENT_ID environment value. The transport itself is not modelled. */
  function SendCallback(deploymentIdEnv: Option<string>, stepName: string, status: string, message: string): (r: Delivery)
    ensures r.NoDeploymentId? <==> deploymentIdEnv.None? || deploymentIdEnv.value == ""
    ensures r.Raised? <==> deploymentIdEnv.Some? && deploymentIdEnv.value != "" && PyInt(deploymentIdEnv.value).None?
    ensures r.Posted? ==> r.payload.stepName == stepName && r.payload.status == status && r.payload.message == message
    ensures r.Posted? ==> Some(r.payload.deploymentId) == PyInt(deploymentIdEnv.value)
  {
    match deploymentIdEnv
    case None => NoDeploymentId
    case Some(raw) =>
      if raw == "" then NoDeploymentId
      else
        match PyInt(raw)
        case None => Raised
        case Some(id) => Posted(Payload(id, stepName, status, message))
  }

  /** The runner passes the deployment's key rendered in decimal; the plugin posts that same key. */
  lemma RunnerIdRoundTrip(id: nat, stepName: string, status: string, message: string)
    requires id <= Models.MaxUint64
    ensures SendCallback(Some(Format(id)), stepName, status, message) == Posted(Payload(id, stepName, status, message))
  {
    PyIntFormat(id);
  }

  // ---------------------------------------------------------------------------
  // The hook state machine

  /** The Ansible events the plugin reacts to, with the fields it reads from them. */
  datatype Event =
    | TaskStart(taskName: string)
    | RunnerOk(taskName: string)
    | RunnerFailed(taskName: string, errorMsg: Option<string>, ignoreErrors: bool)
    | RunnerUnreachable(taskName: string)

  /** `current_step`, initially None. */
  datatype PluginState = PluginState(currentStep: Option<string>)

  const Initial: PluginState := PluginState(None)

  /** The arguments of one `_send_callback` call. */
  datatype Request = Request(stepName: string, status: string, message: string)

  datatype Reaction = Reaction(state: PluginState, request: Option<Request>)

  const UnknownError: string := "알 수 없는 오류"

  function StartMessage(taskName: string): string { "태스크 시작: " + taskName }
  function OkMessage(taskName: string): string { "태스크 완료: " + taskName }
  function FailedMessage(taskName: string, error: string): string { "태스크 실패: " + taskName + " - " + error }
  function UnreachableMessage(taskName: string): string { "호스트 접근 불가: " + taskName }

  /** The `v2_*` hooks: the next state and the report the hook asks for, if any. */
  function OnEvent(st: PluginState, ev: Event): (r: Reaction)
    // a recognised task start switches the current step and reports it running
    ensures ev.TaskStart? && Classify(ev.taskName).Some? ==>
      r.state.currentStep == Classify(ev.taskName) &&
      r.request == Some(Request(Classify(ev.taskName).value, Models.Running, StartMessage(ev.taskName)))
    ensures ev.TaskStart? && Classify(ev.taskName).None? ==> r == Reaction(st, None)
    // outcome events never move the current step, and report only while there is one
    ensures !ev.TaskStart? ==> r.state == st
    ensures !ev.TaskStart? ==> (r.request.Some? <==> st.currentStep.Some?)
    ensures ev.RunnerOk? && r.request.Some? ==> r.request.value.status == Models.Completed
    ensures (ev.RunnerFailed? || ev.RunnerUnreachable?) && r.request.Some? ==> r.request.value.status == Models.Failed
    // the report texts; a failure without an error message reports `UnknownError`
    ensures ev.RunnerOk? && st.currentStep.Some? ==>
      r.request == Some(Request(st.currentStep.value, Models.Completed, OkMessage(ev.taskName)))
    ensures ev.RunnerFailed? && st.currentStep.Some? ==>
      r.request == Some(Request(st.currentStep.value, Models.Failed, FailedMessage(ev.taskName, ev.errorMsg.GetOr(UnknownError))))
    ensures ev.RunnerUnreachable? && st.currentStep.Some? ==>
      r.request == Some(Request(st.currentStep.value, Models.Failed, UnreachableMessage(ev.taskName)))
    // every report names the step current after the event
    ensures r.request.Some? ==> r.state.currentStep == Some(r.request.value.stepName)
  {
    match ev
    case TaskStart(name) =>
      (match Classify(name)
       case None => Reaction(st, None)
       case Some(step) => Reaction(PluginState(Some(step)), Some(Request(step, Models.Running, StartMessage(name)))))
    case RunnerOk(name) =>
      if st.currentStep.None? then Reaction(st, None)
      else Reaction(st, Some(Request(st.currentStep.value, Models.Completed, OkMessage(name))))
    case RunnerFailed(name, errorMsg, _) =>
      if st.currentStep.None? then Reaction(st, None)
      else Reaction(st, Some(Request(st.currentStep.value, Models.Failed, FailedMessage(name, errorMsg.GetOr(UnknownError)))))
    case RunnerUnreachable(name) =>
      if st.currentStep.None? then Reaction(st, None)
      else Reaction(st, Some(Request(st.currentStep.value, Models.Failed, UnreachableMessage(name))))
  }

  /** `ignore_errors` does not matter: an ignored failure is still reported as failed. */
  lemma IgnoreErrorsIsIgnored(st: PluginState, taskName: string, errorMsg: Option<string>)
    ensures OnEvent(st, RunnerFailed(taskName, errorMsg, true)) == OnEvent(st, RunnerFailed(taskName, errorMsg, false))
  {
  }

  /** What the plugin posts over a sequence of events, and where it ends. */
  datatype RunResult = RunResult(state: PluginState, posted: seq<Payload>)

  function Posts(deploymentIdEnv: Option<string>, request: Option<Request>): seq<Payload> {
    match request
    case None => []
    case Some(q) =>
      match SendCallback(deploymentIdEnv, q.stepName, q.status, q.message)
      case Posted(p) => [p]
      case _ => []
  }

  /** The hooks applied to the events in order, each report sent as it is requested. */
  function Run(deploymentIdEnv: Option<string>, st: PluginState, events: seq<Event>): (r: RunResult)
    // at most one report per event
    ensures |r.posted| <= |events|
    // without DEPLOYMENT_ID nothing is ever posted
    ensures deploymentIdEnv.None? || deploymentIdEnv.value == "" ==> r.posted == []
    decreases |events|
  {
    if |events| == 0 then RunResult(st, [])
    else
      var r := OnEvent(st, events[0]);
      var rest := Run(deploymentIdEnv, r.state, events[1..]);
      RunResult(rest.state, Posts(deploymentIdEnv, r.request) + rest.posted)
  }

  /** The current step is always one of the five steps, or None. */
  predicate KnownState(st: PluginState) {
    st.currentStep.None? || st.currentStep.value in Models.StepNames
  }

  /** Every posted report names one of the five steps and one of running, completed, failed. */
  lemma {:induction false} RunPostsKnownSteps(env: Option<string>, st: PluginState, events: seq<Event>)
    requires KnownState(st)
    ensures KnownState(Run(env, st, events).state)
    ensures forall p :: p in Run(env, st, events).posted ==>
      p.stepName in Models.StepNames && p.status in {Models.Running, Models.Completed, Models.Failed}
    decreases |events|
  {
    if |events| > 0 {
      var r := OnEvent(st, events[0]);
      RunPostsKnownSteps(env, r.state, events[1..]);
    }
  }

  /** Until a task with a recognised name starts, the plugin stays without a step and posts nothing. */
  lemma {:induction false} QuietUntilRecognisedStart(env: Option<string>, events: seq<Event>)
    requires forall i :: 0 <= i < |events| && events[i].TaskStart? ==> Classify(events[i].taskName).None?
    ensures Run(env, Initial, events) == RunResult(Initial, [])
    decreases |events|
  {
    if |events| > 0 {
      assert OnEvent(Initial, events[0]) == Reaction(Initial, None);
      QuietUntilRecognisedStart(env, events[1..]);
    }
  }

  /** With DEPLOYMENT_ID set by the runner, every requested report is posted under that id. */
  lemma PostsWithRunnerId(id: nat, q: Request)
    requires id <= Models.MaxUint64
    ensures Posts(Some(Format(id)), Some(q)) == [Payload(id, q.stepName, q.status, q.message)]
  {
    RunnerIdRoundTrip(id, q.stepName, q.status, q.message);
  }

  lemma RunSnoc(env: Option<string>, st: PluginState, ev: Event, rest: seq<Event>)
    ensures Run(env, st, [ev] + rest) ==
      var r := OnEvent(st, ev);
      var tail := Run(env, r.state, rest);
      RunResult(tail.state, Posts(env, r.request) + tail.posted)
  {
    assert ([ev] + rest)[1..] == rest;
  }

  lemma StaleStepReactions(recognised: string, other: string, error: Option<string>, ignoreErrors: bool)
    requires Classify(recognised).Some? && Classify(other).None?
    ensures var step := Classify(recognised).value;
      var s1 := PluginState(Some(step));
      && OnEvent(Initial, TaskStart(recognised)) == Reaction(s1, Some(Request(step, Models.Running, StartMessage(recognised))))
      && OnEvent(s1, RunnerOk(recognised)) == Reaction(s1, Some(Request(step, Models.Completed, OkMessage(recognised))))
      && OnEvent(s1, TaskStart(other)) == Reaction(s1, None)
      && OnEvent(s1, RunnerFailed(other, error, ignoreErrors)) ==
           Reaction(s1, Some(Request(step, Models.Failed, FailedMessage(other, error.GetOr(UnknownError)))))
  {
  }

  /** After a recognised start: an unrecognised start, then a failure. */
  lemma StaleStepLastTwo(env: Option<string>, step: string, other: string, error: Option<string>, ignoreErrors: bool)
    requires OnEvent(PluginState(Some(step)), TaskStart(other)) == Reaction(PluginState(Some(step)), None)
    ensures Run(env, PluginState(Some(step)), [TaskStart(other), RunnerFailed(other, error, ignoreErrors)]) ==
      RunResult(PluginState(Some(step)),
        Posts(env, Some(Request(step, Models.Failed, FailedMessage(other, error.GetOr(UnknownError))))))
  {
    var s1 := PluginState(Some(step));
    var e3, e4 := TaskStart(other), RunnerFailed(other, error, ignoreErrors);
    RunSnoc(env, s1, e4, []);
    assert [e4] + [] == [e4];
    RunSnoc(env, s1, e3, [e4]);
    assert [e3] + [e4] == [e3, e4];
  }

  /** After a recognised start: success, an unrecognised start, a failure. */
  lemma StaleStepTail(env: Option<string>, step: string, recognised: string, other: string, error: Option<string>, ignoreErrors: bool)
    requires OnEvent(PluginState(Some(step)), TaskStart(other)) == Reaction(PluginState(Some(step)), None)
    ensures Run(env, PluginState(Some(step)), [RunnerOk(recognised), TaskStart(other), RunnerFailed(other, error, ignoreErrors)]) ==
      RunResult(PluginState(Some(step)),
        Posts(env, Some(Request(step, Models.Completed, OkMessage(recognised)))) +
        Posts(env, Some(Request(step, Models.Failed, FailedMessage(other, error.GetOr(UnknownError))))))
  {
    var s1 := PluginState(Some(step));
    var e2, e3, e4 := RunnerOk(recognised), TaskStart(other), RunnerFailed(other, error, ignoreErrors);
    StaleStepLastTwo(env, step, other, error, ignoreErrors);
    RunSnoc(env, s1, e2, [e3, e4]);
    assert [e2] + [e3, e4] == [e2, e3, e4];
  }

  /**
   The step is not cleared when an unrecognised task starts: a later failure of that
   task is reported against the last recognised step, even after it completed.
   */
  lemma StaleStepReceivesLaterFailure(env: Option<string>, recognised: string, other: string, error: Option<string>, ignoreErrors: bool)
    requires Classify(recognised).Some? && Classify(other).None?
    ensures var step := Classify(recognised).value;
      Run(env, Initial,
        [TaskStart(recognised), RunnerOk(recognised), TaskStart(other), RunnerFailed(other, error, ignoreErrors)]) ==
      RunResult(PluginState(Some(step)),
        Posts(env, Some(Request(step, Models.Running, StartMessage(recognised)))) +
        Posts(env, Some(Request(step, Models.Completed, OkMessage(recognised)))) +
        Posts(env, Some(Request(step, Models.Failed, FailedMessage(other, error.GetOr(UnknownError))))))
  {
    var step := Classify(recognised).value;
    StaleStepReactions(recognised, other, error, ignoreErrors);
    StaleStepTail(env, step, recognised, other, error, ignoreErrors);
    RunSnoc(env, Initial, TaskStart(recognised), [RunnerOk(recognised), TaskStart(other), RunnerFailed(other, error, ignoreErrors)]);
  }

  /** The same run as launched by the runner: three reports, all against the recognised step, under the deployment's id. */
  lemma StaleStepUnderRunnerId(id: nat, recognised: string, other: string, error: Option<string>, ignoreErrors: bool)
    requires id <= Models.MaxUint64
    requires Classify(recognised).Some? && Classify(other).None?
    ensures var step := Classify(recognised).value;
      Run(Some(Format(id)), Initial,
        [TaskStart(recognised), RunnerOk(recognised), TaskStart(other), RunnerFailed(other, error, ignoreErrors)]).posted ==
      [Payload(id, step, Models.Running, StartMessage(recognised)),
       Payload(id, step, Models.Completed, OkMessage(recognised)),
       Payload(id, step, Models.Failed, FailedMessage(other, error.GetOr(UnknownError)))]
  {
    var step := Classify(recognised).value;
    StaleStepReceivesLaterFailure(Some(Format(id)), recognised, other, error, ignoreErrors);
    ThreePostsWithRunnerId(id,
      Request(step, Models.Running, StartMessage(recognised)),
      Request(step, Models.Completed, OkMessage(recognised)),
      Request(step, Models.Failed, FailedMessage(other, error.GetOr(UnknownError))));
  }

  lemma ThreePostsWithRunnerId(id: nat, q1: Request, q2: Request, q3: Request)
    requires id <= Models.MaxUint64
    ensures var env := Some(Format(id));
      Posts(env, Some(q1)) + Posts(env, Some(q2)) + Posts(env, Some(q3)) ==
      [Payload(id, q1.stepName, q1.status, q1.message),
       Payload(id, q2.stepName, q2.status, q2.message),
       Payload(id, q3.stepName, q3.status, q3.message)]
  {
    PostsWithRunnerId(id, q1);
    PostsWithRunnerId(id, q2);
    PostsWithRunnerId(id, q3);
  }

}
