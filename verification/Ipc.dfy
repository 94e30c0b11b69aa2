/** The kernel's request dispatch, and why its status report always fits one frame. */
module Ipc {
  import opened Common
  import opened RiskGate
  import opened Kernel

  const IPC_PROTOCOL_VERSION := 1
  const MAX_FRAME_BYTES := 16384

  type Byte = x: int | 0 <= x < 256
  type Word32 = x: int | 0 <= x < 0x1_0000_0000

  datatype Opcode = EvaluateProposal | GetStatus | AttemptRecovery | Heartbeat

  datatype Payload = EvaluateRequest(portfolio: Portfolio, proposal: Proposal) | RecoveryRequest(proofValid: bool) | Unreadable

  /** A parsed envelope; the payload is what its text parses to for the opcode. */
  datatype Envelope = Envelope(version: Word32, opcode: Opcode, payload: Payload)

  datatype IpcError = FrameSizeExceeded | MalformedEnvelope | MalformedPayload | VersionMismatch(actual: Word32)

  datatype Response =
    | EvaluateResponse(verdict: Verdict, state: State)
    | StatusResponse(text: string)
    | RecoveryResponse(success: bool)
    | HeartbeatResponse(version: nat)

  datatype Result = Ok(response: Response) | Err(error: IpcError)

  // ----- the status text -----

  function Digits(n: nat): (s: string)
    ensures s != []
  {
    if n < 10 then ["0123456789"[n]] else Digits(n / 10) + ["0123456789"[n % 10]]
  }

  function Name(s: State): string {
    match s
    case Normal => "Normal"
    case SoftDeleveraging => "SoftDeleveraging"
    case EmergencyHalt => "EmergencyHalt"
    case AutonomousRecovery => "AutonomousRecovery"
  }

  function EdgeText(e: Edge): string {
    Bracketed(Quoted(Name(e.frm)) + "," + Quoted(Name(e.to)))
  }

  function HistoryText(h: seq<Edge>): string {
    if h == [] then ""
    else if |h| == 1 then EdgeText(h[0])
    else HistoryText(h[..|h| - 1]) + "," + EdgeText(h[|h| - 1])
  }

  function Field(name: string, value: string): (t: string)
    ensures |t| == |name| + |value| + 3
  {
    "\"" + name + "\":" + value
  }

  function Object(a: string, b: string, c: string, d: string, e: string): (t: string)
    ensures |t| == |a| + |b| + |c| + |d| + |e| + 6
  {
    "{" + a + "," + b + "," + c + "," + d + "," + e + "}"
  }

  function Quoted(x: string): (t: string)
    ensures |t| == |x| + 2
  {
    "\"" + x + "\""
  }

  function Bracketed(x: string): (t: string)
    ensures |t| == |x| + 2
  {
    "[" + x + "]"
  }

  /** The compact JSON object of GetStatus, keys in serde_json's sorted order. */
  function StatusText(k: Value, history: seq<Edge>): string {
    Object(
      Field("emergencies", Digits(k.emergencies)),
      Field("proposals_seen", Digits(k.proposals)),
      Field("state_history", Bracketed(HistoryText(history))),
      Field("system_state", Quoted(Name(k.state))),
      Field("transitions", Digits(k.transitions)))
  }

  function Pow10(n: nat): nat {
    if n == 0 then 1 else 10 * Pow10(n - 1)
  }

  lemma {:induction false} DigitsLength(n: nat, k: nat)
    requires 1 <= k && n < Pow10(k)
    ensures |Digits(n)| <= k
    decreases k
  {
    if n >= 10 {
      assert Pow10(1) == 10 * Pow10(0);
      DigitsLength(n / 10, k - 1);
    }
  }

  lemma {:induction false} U64HasTwentyDigits()
    ensures U64_MAX < Pow10(20)
  {
    assert Pow10(5) == 100_000 by {
      assert Pow10(2) == 10 * Pow10(1) && Pow10(1) == 10 * Pow10(0);
      assert Pow10(4) == 10 * Pow10(3) && Pow10(3) == 10 * Pow10(2);
    }
    assert Pow10(10) == 10_000_000_000 by {
      assert Pow10(7) == 10 * Pow10(6) && Pow10(6) == 10 * Pow10(5);
      assert Pow10(9) == 10 * Pow10(8) && Pow10(8) == 10 * Pow10(7);
    }
    assert Pow10(15) == 1_000_000_000_000_000 by {
      assert Pow10(12) == 10 * Pow10(11) && Pow10(11) == 10 * Pow10(10);
      assert Pow10(14) == 10 * Pow10(13) && Pow10(13) == 10 * Pow10(12);
    }
    assert Pow10(17) == 10 * Pow10(16) && Pow10(16) == 10 * Pow10(15);
    assert Pow10(19) == 10 * Pow10(18) && Pow10(18) == 10 * Pow10(17);
  }

  lemma {:induction false} CounterLength(n: nat)
    requires n <= U64_MAX
    ensures |Digits(n)| <= 20
  {
    U64HasTwentyDigits();
    DigitsLength(n, 20);
  }

  lemma {:induction false} EdgeTextLength(e: Edge)
    ensures |EdgeText(e)| <= 43
  {
    NameLength(e.frm);
    NameLength(e.to);
  }

  lemma {:induction false} NameLength(s: State)
    ensures |Name(s)| <= 18
  {}

  lemma {:induction false} HistoryLength(h: seq<Edge>)
    ensures |HistoryText(h)| <= 44 * |h|
  {
    if h != [] {
      HistoryLength(h[..|h| - 1]);
      EdgeTextLength(h[|h| - 1]);
    }
  }

  ghost predicate CountersFit(k: Value) {
    k.proposals <= U64_MAX && k.emergencies <= U64_MAX && k.transitions <= U64_MAX
  }

  lemma {:induction false} RunCountersFit(k: Value, cs: seq<Call>, rp: RiskParameters)
    requires CountersFit(k)
    ensures CountersFit(Run(k, cs, rp))
    decreases |cs|
  {
    if cs != [] {
      RunCountersFit(Step(k, cs[0], rp).0, cs[1..], rp);
    }
  }

  /** However long the kernel has run, its status text fits one frame, with the room to spare
      that the 64-entry journal bound buys: at most 164 bytes plus 44 per journal entry. */
  lemma {:induction false} StatusFits(cs: seq<Call>, rp: RiskParameters)
    ensures var k := Run(INITIAL, cs, rp); var h := LastN(k.trace, MAX_TRANSITION_HISTORY);
      1 <= |StatusText(k, h)| <= 164 + 44 * |h| <= MAX_FRAME_BYTES
  {
    RunCountersFit(INITIAL, cs, rp);
    var k := Run(INITIAL, cs, rp);
    StatusLength(k, LastN(k.trace, MAX_TRANSITION_HISTORY));
  }

  lemma {:induction false} StatusLength(k: Value, h: seq<Edge>)
    requires CountersFit(k)
    ensures 1 <= |StatusText(k, h)| <= 164 + 44 * |h|
  {
    CounterLength(k.emergencies);
    CounterLength(k.proposals);
    CounterLength(k.transitions);
    NameLength(k.state);
    HistoryLength(h);
    assert |"emergencies"| == 11 && |"proposals_seen"| == 14 && |"state_history"| == 13;
    assert |"system_state"| == 12 && |"transitions"| == 11;
  }

  // ----- every other reply -----

  function ReasonName(v: Violation): string {
    match v
    case MaxDrawdownBreached => "MaxDrawdownBreached"
    case GlobalLeverageCapExceeded => "GlobalLeverageCapExceeded"
    case AssetConcentrationLimitExceeded => "AssetConcentrationLimitExceeded"
    case InvalidNumericalState => "InvalidNumericalState"
  }

  function Single(field: string): (t: string)
    ensures |t| == |field| + 2
  {
    "{" + field + "}"
  }

  function Pair(a: string, b: string): (t: string)
    ensures |t| == |a| + |b| + 3
  {
    "{" + a + "," + b + "}"
  }

  /** serde's externally tagged enum; number prints a float. */
  function VerdictText(v: Verdict, number: real -> string): string {
    match v
    case Approved(notional) => Single(Field("Approved", Single(Field("adjusted_notional", number(notional)))))
    case Rejected(reason) => Single(Field("Rejected", Single(Field("reason_code", Quoted(ReasonName(reason))))))
    case EmergencyLiquidationAll => Quoted("EmergencyLiquidationAll")
  }

  /** The error's derived debug text. */
  function ErrorText(e: IpcError): string {
    match e
    case FrameSizeExceeded => "FrameSizeExceeded"
    case MalformedEnvelope => "MalformedEnvelope"
    case MalformedPayload => "MalformedPayload"
    case VersionMismatch(actual) => Mismatch(Digits(IPC_PROTOCOL_VERSION), Digits(actual))
  }

  function Mismatch(expected: string, actual: string): (t: string)
    ensures |t| == |expected| + |actual| + 40
  {
    "VersionMismatch { expected: " + expected + ", actual: " + actual + " }"
  }

  function BoolText(b: bool): string {
    if b then "true" else "false"
  }

  /** What the connection writes for a result. */
  function ReplyText(r: Result, number: real -> string): string {
    match r
    case Ok(EvaluateResponse(verdict, state)) =>
      Pair(Field("verdict", VerdictText(verdict, number)), Field("system_state", Quoted(Name(state))))
    case Ok(StatusResponse(text)) => text
    case Ok(RecoveryResponse(success)) => Single(Field("recovery_success", BoolText(success)))
    case Ok(HeartbeatResponse(version)) => Pair(Field("alive", BoolText(true)), Field("protocol_version", Digits(version)))
    case Err(e) => Single(Field("error", Quoted(ErrorText(e))))
  }

  /** A float prints in at most 24 characters. */
  ghost predicate ShortNumbers(number: real -> string) {
    forall x: real :: |number(x)| <= 24
  }

  lemma {:induction false} VersionLength(n: Word32)
    ensures |Digits(n)| <= 10
  {
    assert Pow10(5) == 100_000 by {
      assert Pow10(2) == 10 * Pow10(1) && Pow10(1) == 10 * Pow10(0);
      assert Pow10(4) == 10 * Pow10(3) && Pow10(3) == 10 * Pow10(2);
    }
    assert Pow10(7) == 10 * Pow10(6) && Pow10(6) == 10 * Pow10(5);
    assert Pow10(9) == 10 * Pow10(8) && Pow10(8) == 10 * Pow10(7);
    DigitsLength(n, 10);
  }

  lemma {:induction false} VerdictLength(v: Verdict, number: real -> string)
    requires ShortNumbers(number)
    ensures |VerdictText(v, number)| <= 70
  {
    assert |"Approved"| == 8 && |"adjusted_notional"| == 17 && |"Rejected"| == 8 && |"reason_code"| == 11;
    assert |"AssetConcentrationLimitExceeded"| == 31 && |"EmergencyLiquidationAll"| == 23;
    assert |"MaxDrawdownBreached"| == 19 && |"GlobalLeverageCapExceeded"| == 25 && |"InvalidNumericalState"| == 21;
  }

  lemma {:induction false} ErrorLength(e: IpcError)
    ensures |ErrorText(e)| <= 51
  {
    if e.VersionMismatch? {
      VersionLength(e.actual);
      VersionLength(IPC_PROTOCOL_VERSION);
      assert |Digits(IPC_PROTOCOL_VERSION)| == 1;
    }
  }

  /** Only the status report grows with the journal; every other reply is a short text. */
  lemma {:induction false} ReplyLength(r: Result, number: real -> string)
    requires ShortNumbers(number) && (r.Ok? && r.response.HeartbeatResponse? ==> r.response.version == IPC_PROTOCOL_VERSION)
    ensures !(r.Ok? && r.response.StatusResponse?) ==> 1 <= |ReplyText(r, number)| <= 150
  {
    match r
    case Ok(EvaluateResponse(verdict, state)) =>
      VerdictLength(verdict, number);
      NameLength(state);
      assert |"verdict"| == 7 && |"system_state"| == 12;
    case Ok(StatusResponse(text)) =>
    case Ok(RecoveryResponse(success)) =>
      assert |"recovery_success"| == 16 && |BoolText(success)| <= 5;
    case Ok(HeartbeatResponse(version)) =>
      VersionLength(IPC_PROTOCOL_VERSION);
      assert |"alive"| == 5 && |"protocol_version"| == 16 && |BoolText(true)| == 4;
    case Err(e) =>
      ErrorLength(e);
      assert |"error"| == 5;
  }

  /** The value of a decimal text. */
  function Number(s: string): nat {
    if s == "" then 0 else Number(s[..|s| - 1]) * 10 + DigitValue(s[|s| - 1])
  }

  function DigitValue(c: char): nat {
    if '0' <= c <= '9' then c as int - '0' as int else 0
  }

  /** Counters read back. */
  lemma {:induction false} DigitsRoundTrip(n: nat)
    ensures Number(Digits(n)) == n
  {
    var d, last := "0123456789", "0123456789"[n % 10];
    assert DigitValue(last) == n % 10;
    if n < 10 {
      assert Digits(n) == [last] && [last][..0] == "";
      assert Number([last]) == Number("") * 10 + DigitValue(last);
    } else {
      DigitsRoundTrip(n / 10);
      assert Digits(n) == Digits(n / 10) + [last];
      assert Digits(n)[..|Digits(n)| - 1] == Digits(n / 10);
    }
  }

  /** The text t stands somewhere in text. */
  predicate At(text: string, t: string, i: nat) {
    i + |t| <= |text| && text[i..][..|t|] == t
  }

  ghost predicate Holds(text: string, t: string) {
    exists i: nat :: At(text, t, i)
  }

  /** The JSON text has a member of this name with this value's text. */
  ghost predicate Shows(text: string, name: string, value: string) {
    Holds(text, "\"" + name + "\":" + value)
  }

  lemma {:induction false} HeldBetween(pre: string, text: string, post: string, t: string)
    requires Holds(text, t)
    ensures Holds(pre + text + post, t)
  {
    var i: nat :| At(text, t, i);
    var whole := pre + text + post;
    assert whole[|pre| + i..] == text[i..] + post;
    assert (text[i..] + post)[..|t|] == text[i..][..|t|];
    assert At(whole, t, |pre| + i);
  }

  lemma {:induction false} HoldsItself(t: string)
    ensures Holds(t, t)
  {
    assert t[0..] == t && t[..|t|] == t;
    assert At(t, t, 0);
  }

  lemma {:induction false} SingleHolds(field: string, t: string)
    requires Holds(field, t)
    ensures Holds(Single(field), t)
  {
    HeldBetween("{", field, "}", t);
  }

  lemma {:induction false} PairHolds(a: string, b: string)
    ensures Holds(Pair(a, b), a) && Holds(Pair(a, b), b)
  {
    HoldsItself(a);
    HoldsItself(b);
    assert Pair(a, b) == "{" + a + ("," + b + "}");
    HeldBetween("{", a, "," + b + "}", a);
    HeldBetween("{" + a + ",", b, "}", b);
  }

  lemma {:induction false} Regroup(a: string, b: string, c: string)
    ensures a + b + c == a + (b + c)
  {
  }

  /** What a text holds it still holds with more behind it. */
  lemma {:induction false} HeldInFront(text: string, post: string, t: string)
    requires Holds(text, t)
    ensures Holds(text + post, t)
  {
    HeldBetween("", text, post, t);
    assert "" + text == text;
  }

  lemma {:induction false} HeldLast(pre: string, t: string)
    ensures Holds(pre + t, t)
  {
    HoldsItself(t);
    HeldBetween(pre, t, "", t);
    assert pre + t + "" == pre + t;
  }

  /** One more member of an object, and those before it. */
  lemma {:induction false} MemberHolds(text: string, x: string, t: string)
    ensures Holds(text + "," + x, x)
    ensures Holds(text, t) ==> Holds(text + "," + x, t)
  {
    HeldLast(text + ",", x);
    if Holds(text, t) {
      HeldInFront(text, "," + x, t);
      Regroup(text, ",", x);
    }
  }

  lemma {:induction false} ObjectHolds(a: string, b: string, c: string, d: string, e: string, t: string)
    requires t == a || t == b || t == c || t == d || t == e
    ensures Holds(Object(a, b, c, d, e), t)
  {
    HeldLast("{", a);
    var s1, s2, s3 := "{" + a, "{" + a + "," + b, "{" + a + "," + b + "," + c;
    MemberHolds(s1, b, t);
    MemberHolds(s2, c, t);
    MemberHolds(s3, d, t);
    MemberHolds(s3 + "," + d, e, t);
    HeldInFront(s3 + "," + d + "," + e, "}", t);
  }

  /** The status report gives each counter, the state and the journal under its own key. */
  lemma {:induction false} StatusShows(k: Value, history: seq<Edge>)
    ensures var text := StatusText(k, history);
      Shows(text, "emergencies", Digits(k.emergencies)) && Shows(text, "proposals_seen", Digits(k.proposals))
      && Shows(text, "transitions", Digits(k.transitions)) && Shows(text, "system_state", Quoted(Name(k.state)))
      && Shows(text, "state_history", "[" + HistoryText(history) + "]")
  {
    var (a, b, c, d, e) := (Field("emergencies", Digits(k.emergencies)), Field("proposals_seen", Digits(k.proposals)),
      Field("state_history", Bracketed(HistoryText(history))), Field("system_state", Quoted(Name(k.state))),
      Field("transitions", Digits(k.transitions)));
    ObjectHolds(a, b, c, d, e, a);
    ObjectHolds(a, b, c, d, e, b);
    ObjectHolds(a, b, c, d, e, c);
    ObjectHolds(a, b, c, d, e, d);
    ObjectHolds(a, b, c, d, e, e);
  }

  /** An entry gives the state left before the comma and the state entered after it. */
  lemma {:induction false} EdgeReads(e: Edge)
    ensures Holds(EdgeText(e), Quoted(Name(e.frm)) + ",") && Holds(EdgeText(e), "," + Quoted(Name(e.to)))
  {
    var from, to := Quoted(Name(e.frm)), Quoted(Name(e.to));
    Regroup(from, ",", to);
    HoldsItself(from + ",");
    HeldInFront(from + ",", to, from + ",");
    HeldLast(from, "," + to);
    HeldBetween("[", from + "," + to, "]", from + ",");
    HeldBetween("[", from + "," + to, "]", "," + to);
  }

  /** The journal's text gives every entry. */
  lemma {:induction false} HistoryShows(h: seq<Edge>, i: nat)
    requires i < |h|
    ensures Holds(HistoryText(h), EdgeText(h[i]))
  {
    var last := EdgeText(h[|h| - 1]);
    if i == |h| - 1 {
      HoldsItself(last);
      if |h| > 1 {
        MemberHolds(HistoryText(h[..|h| - 1]), last, last);
      }
    } else {
      HistoryShows(h[..|h| - 1], i);
      MemberHolds(HistoryText(h[..|h| - 1]), last, EdgeText(h[i]));
    }
  }

  /** The reply to a proposal names the verdict, what it carries and the state. */
  lemma {:induction false} EvaluationShows(verdict: Verdict, state: State, number: real -> string)
    ensures var text := ReplyText(Ok(EvaluateResponse(verdict, state)), number);
      Shows(text, "system_state", Quoted(Name(state))) && Shows(text, "verdict", VerdictText(verdict, number))
    ensures verdict.Approved? ==> Shows(VerdictText(verdict, number), "adjusted_notional", number(verdict.amount))
    ensures verdict.Rejected? ==> Shows(VerdictText(verdict, number), "reason_code", Quoted(ReasonName(verdict.reason)))
  {
    PairHolds(Field("verdict", VerdictText(verdict, number)), Field("system_state", Quoted(Name(state))));
    match verdict
    case Approved(amount) => VerdictHolds("Approved", Field("adjusted_notional", number(amount)));
    case Rejected(reason) => VerdictHolds("Rejected", Field("reason_code", Quoted(ReasonName(reason))));
    case EmergencyLiquidationAll =>
  }

  /** Every other reply names what it reports. */
  lemma {:induction false} RepliesShow(success: bool, e: IpcError, number: real -> string)
    ensures Shows(ReplyText(Ok(RecoveryResponse(success)), number), "recovery_success", if success then "true" else "false")
    ensures Shows(ReplyText(Ok(HeartbeatResponse(IPC_PROTOCOL_VERSION)), number), "protocol_version", "1")
    ensures Shows(ReplyText(Err(e), number), "error", Quoted(ErrorText(e)))
  {
    var done, failed := Field("recovery_success", BoolText(success)), Field("error", Quoted(ErrorText(e)));
    HoldsItself(done);
    SingleHolds(done, done);
    HoldsItself(failed);
    SingleHolds(failed, failed);
    assert Digits(1) == "1";
    PairHolds(Field("alive", BoolText(true)), Field("protocol_version", Digits(1)));
  }

  lemma {:induction false} VerdictHolds(tag: string, field: string)
    ensures Holds(Single(Field(tag, Single(field))), field)
  {
    HoldsItself(field);
    SingleHolds(field, field);
    assert "\"" + tag + "\":" + Single(field) + "" == Field(tag, Single(field));
    HeldBetween("\"" + tag + "\":", Single(field), "", field);
    SingleHolds(Field(tag, Single(field)), field);
  }

  /** The names tell the states, and the reasons, apart. */
  lemma {:induction false} NamesDiffer(s: State, t: State, v: Violation, w: Violation)
    ensures Name(s) == Name(t) <==> s == t
    ensures ReasonName(v) == ReasonName(w) <==> v == w
  {
    assert |"Normal"| == 6 && |"SoftDeleveraging"| == 16 && |"EmergencyHalt"| == 13 && |"AutonomousRecovery"| == 18;
    assert |"MaxDrawdownBreached"| == 19 && |"GlobalLeverageCapExceeded"| == 25;
    assert |"AssetConcentrationLimitExceeded"| == 31 && |"InvalidNumericalState"| == 21;
  }

  /** Every reply is text in ASCII, one byte a character. */
  function Ascii(text: string): (bytes: seq<Byte>)
    ensures |bytes| == |text|
  {
    if text == "" then [] else Ascii(text[..|text| - 1]) + [text[|text| - 1] as int % 0x100]
  }

  function Rendering(number: real -> string): Result -> seq<Byte> {
    (r: Result) => Ascii(ReplyText(r, number))
  }

  // ----- dispatch -----

  function Dispatch(k: Value, history: seq<Edge>, size: nat, envelope: Option<Envelope>, rp: RiskParameters): (Value,
                    Result)
  {
    if size > MAX_FRAME_BYTES then (k, Err(FrameSizeExceeded))
    else if envelope.None? then (k, Err(MalformedEnvelope))
    else
      var e := envelope.value;
      if e.version != IPC_PROTOCOL_VERSION then (k, Err(VersionMismatch(e.version)))
      else match e.opcode
        case EvaluateProposal =>
          if !e.payload.EvaluateRequest? then (k, Err(MalformedPayload))
          else
            var (n, v) := Process(k, e.payload.portfolio, e.payload.proposal, rp);
            (n, Ok(EvaluateResponse(v, n.state)))
        case GetStatus => (k, Ok(StatusResponse(StatusText(k, history))))
        case AttemptRecovery =>
          if !e.payload.RecoveryRequest? then (k, Err(MalformedPayload))
          else var (n, ok) := Recover(k, e.payload.proofValid); (n, Ok(RecoveryResponse(ok)))
        case Heartbeat => (k, Ok(HeartbeatResponse(IPC_PROTOCOL_VERSION)))
  }

  /** The kernel call that a frame amounts to, if any. */
  function CallOf(size: nat, envelope: Option<Envelope>): Option<Call> {
    if size > MAX_FRAME_BYTES || envelope.None? || envelope.value.version != IPC_PROTOCOL_VERSION then None
    else match envelope.value.payload
      case EvaluateRequest(s, p) => if envelope.value.opcode == EvaluateProposal then Some(Propose(s, p)) else None
      case RecoveryRequest(valid) => if envelope.value.opcode == AttemptRecovery then Some(Attempt(valid)) else None
      case Unreadable => None
  }

  lemma {:induction false} StepCountersFit(k: Value, c: Call, rp: RiskParameters)
    requires CountersFit(k)
    ensures CountersFit(Step(k, c, rp).0)
  {}

  /** Handling keeps the counters in range. */
  lemma {:induction false} DispatchCountersFit(k: Value, h: seq<Edge>, size: nat, envelope: Option<Envelope>,
                                               rp: RiskParameters)
    requires CountersFit(k)
    ensures CountersFit(Dispatch(k, h, size, envelope, rp).0)
  {
    FrameIsOneCallOrNone(k, h, size, envelope, rp);
    var call := CallOf(size, envelope);
    if call.Some? {
      StepCountersFit(k, call.value, rp);
    }
  }

  /** A status report that is sent fits one frame. */
  lemma {:induction false} StatusReportFits(k: Value, h: seq<Edge>, size: nat, envelope: Option<Envelope>,
                                            rp: RiskParameters)
    requires CountersFit(k) && |h| <= MAX_TRANSITION_HISTORY
    requires var r := Dispatch(k, h, size, envelope, rp).1; r.Ok? && r.response.StatusResponse?
    ensures 1 <= |Dispatch(k, h, size, envelope, rp).1.response.text| <= MAX_FRAME_BYTES
  {
    StatusLength(k, h);
    assert envelope.value.opcode == GetStatus;
  }

  /** Every frame, however malformed, acts on the kernel as exactly one call or none, and a
      frame answered with an error changes nothing: wire traffic reaches no state that
      direct calls do not. */
  lemma {:induction false} FrameIsOneCallOrNone(k: Value, history: seq<Edge>, size: nat, envelope: Option<Envelope>,
                                                rp: RiskParameters)
    ensures var (n, r) := Dispatch(k, history, size, envelope, rp); var call := CallOf(size, envelope);
      && n == (if call.Some? then Step(k, call.value, rp).0 else k)
      && (r.Err? ==> call.None?)
      && (call.Some? ==> r == Ok(match Step(k, call.value, rp).1
          case Judged(v) => EvaluateResponse(v, n.state)
          case Recovered(ok) => RecoveryResponse(ok)))
  {}

  /** What each frame is answered: the first of five faults that applies, or the reply to its
      opcode. */
  lemma {:induction false} DispatchIs(k: Value, history: seq<Edge>, size: nat, envelope: Option<Envelope>, rp: RiskParameters)
    ensures var (n, r) := Dispatch(k, history, size, envelope, rp);
      if size > 16384 then r == Err(FrameSizeExceeded)
      else if envelope == None then r == Err(MalformedEnvelope)
      else
        var e := envelope.value;
        if e.version != 1 then r == Err(VersionMismatch(e.version))
        else match e.opcode
          case EvaluateProposal =>
            if e.payload.EvaluateRequest? then
              r == Ok(EvaluateResponse(Process(k, e.payload.portfolio, e.payload.proposal, rp).1, n.state))
            else r == Err(MalformedPayload)
          case GetStatus => r == Ok(StatusResponse(StatusText(k, history)))
          case AttemptRecovery =>
            if e.payload.RecoveryRequest? then
              r == Ok(RecoveryResponse(e.payload.proofValid && (k.state == EmergencyHalt || k.state == AutonomousRecovery)))
            else r == Err(MalformedPayload)
          case Heartbeat => r == Ok(HeartbeatResponse(1))
  {}

  class IpcServer {
    const kernel: ConstitutionKernel
    /** Parsing an envelope, payload included, is not modelled. */
    const parse: seq<Byte> -> Option<Envelope>

    constructor (kernel: ConstitutionKernel, parse: seq<Byte> -> Option<Envelope>)
      ensures this.kernel == kernel && this.parse == parse
    {
      this.kernel := kernel;
      this.parse := parse;
    }

    method HandleFrame(raw: seq<Byte>) returns (r: Result)
      requires kernel.Valid()
      modifies kernel
      ensures kernel.Valid()
      ensures (kernel.AsValue(), r) ==
        Dispatch(old(kernel.AsValue()), old(kernel.history), |raw|, parse(raw), kernel.params)
    {
      if |raw| > MAX_FRAME_BYTES {
        return Err(FrameSizeExceeded);
      }
      var envelope := parse(raw);
      if envelope.None? {
        return Err(MalformedEnvelope);
      }
      var e := envelope.value;
      if e.version != IPC_PROTOCOL_VERSION {
        return Err(VersionMismatch(e.version));
      }
      match e.opcode {
        case EvaluateProposal =>
          if !e.payload.EvaluateRequest? {
            return Err(MalformedPayload);
          }
          var v := kernel.ProcessProposal(e.payload.portfolio, e.payload.proposal);
          return Ok(EvaluateResponse(v, kernel.state));
        case GetStatus =>
          var now := Value(kernel.state, kernel.proposalCount, kernel.emergencyCount, kernel.transitionCount, []);
          return Ok(StatusResponse(StatusText(now, kernel.history)));
        case AttemptRecovery =>
          if !e.payload.RecoveryRequest? {
            return Err(MalformedPayload);
          }
          var ok := kernel.AttemptRecovery(e.payload.proofValid);
          return Ok(RecoveryResponse(ok));
        case Heartbeat =>
          return Ok(HeartbeatResponse(IPC_PROTOCOL_VERSION));
      }
    }
  }
}
