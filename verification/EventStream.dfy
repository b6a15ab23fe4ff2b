/** consumeResponsesStream: the one-pass reader of a server-sent-event response, and the same reading stated over the
    whole list of lines. What surrounds the loop comes in as an environment: the decoder, the callback's answers, the
    polls of the context and the way the scanner ends. */
module EventStream {
  import opened Base
  import opened Text

  // ---------- decoded events ----------

  datatype Response = Response(status: string, error: Option<string>, incompleteReason: Option<string>)

  /** What decoding a payload yields; absent fields are empty strings or None. */
  datatype ApiEvent = ApiEvent(kind: string, delta: string, message: string, error: Option<string>,
      response: Option<Response>)

  datatype Failure =
    | Cancelled
    | TooLarge
    | Undecodable
    | Reported(message: string)
    | CallbackFailed
    | ReadFailed
    | EndedEarly

  datatype Outcome = Completed(finishReason: string) | Failed(failure: Failure)

  datatype Kind = DeltaKind | CompletionKind | FailureKind | RefusalKind | OtherKind

  function KindOf(kind: string): Kind {
    if kind == "response.output_text.delta" || kind == "output_text.delta" then DeltaKind
    else if kind == "response.completed" || kind == "response.done" then CompletionKind
    else if kind == "response.failed" || kind == "response.incomplete" || kind == "response.error" || kind == "error" then
      FailureKind
    else if kind == "response.refusal.delta" || kind == "response.refusal.done" then RefusalKind
    else OtherKind
  }

  const NO_MESSAGE := "AI streaming response failed"
  const REFUSED := "AI response was refused"
  const DEFAULT_REASON := "completed"
  const DONE_MARK := "[DONE]"

  /** responsesStreamFailureMessage */
  function FailureMessage(event: ApiEvent): string {
    var fromError := if event.response.Some? then TrimmedField(event.response.value.error) else "";
    var fromDetails := if event.response.Some? then TrimmedField(event.response.value.incompleteReason) else "";
    if fromError != "" then fromError
    else if fromDetails != "" then fromDetails
    else if TrimmedField(event.error) != "" then TrimmedField(event.error)
    else if Trim(event.message) != "" then Trim(event.message)
    else NO_MESSAGE
  }

  function TrimmedField(field: Option<string>): string {
    if field.Some? then Trim(field.value) else ""
  }

  /** The texts that may serve as the message, in the order in which they are tried. */
  function Offers(event: ApiEvent): seq<string> {
    [if event.response.Some? && event.response.value.error.Some? then Trim(event.response.value.error.value) else "",
     if event.response.Some? && event.response.value.incompleteReason.Some? then
       Trim(event.response.value.incompleteReason.value) else "",
     if event.error.Some? then Trim(event.error.value) else "",
     Trim(event.message)]
  }

  /** A failure always carries a message, without white space around it: the first offer that is not blank, or the default
      when all are. */
  lemma FailureMessageSaysSomething(event: ApiEvent)
    ensures FailureMessage(event) != "" && Trimmed(FailureMessage(event))
    ensures (forall i | 0 <= i < 4 :: Offers(event)[i] == "") ==> FailureMessage(event) == NO_MESSAGE
    ensures forall i | 0 <= i < 4 && Offers(event)[i] != "" && (forall k | 0 <= k < i :: Offers(event)[k] == "") ::
              FailureMessage(event) == Offers(event)[i]
  {
    hide Trim;
    var offers := Offers(event);
    assert forall k | 0 <= k < 4 :: offers[k] == [offers[0], offers[1], offers[2], offers[3]][k];
  }

  // ---------- the environment ----------

  datatype Environment = Environment(
    decode: string -> Option<ApiEvent>,  // None: the payload is not an event
    listening: bool,                     // whether there is a callback
    refuses: nat -> bool,                // whether its n-th call fails
    cancelled: nat -> bool,              // whether the context is done when the n-th line is polled
    scanFails: bool,                     // whether the scanner ends with an error
    cancelledAtEnd: bool)                // whether the context is done by then

  // ---------- lines ----------

  const MAX_RESPONSE_BYTES := 0x20_0000

  function Utf8Width(c: char): nat {
    if c < '\U{0080}' then 1 else if c < '\U{0800}' then 2 else if c < '\U{10000}' then 3 else 4
  }

  function ByteLength(s: string): nat {
    if s == "" then 0 else ByteLength(s[..|s| - 1]) + Utf8Width(s[|s| - 1])
  }

  function TotalBytes(lines: seq<string>): nat {
    if lines == [] then 0 else TotalBytes(lines[..|lines| - 1]) + ByteLength(lines[|lines| - 1]) + 1
  }

  function ColonAt(line: string, k: nat): (n: nat)
    requires k <= |line|
    ensures k <= n <= |line|
    ensures forall i | k <= i < n :: line[i] != ':'
    ensures n < |line| ==> line[n] == ':'
    decreases |line| - k
  {
    if k < |line| && line[k] != ':' then ColonAt(line, k + 1) else k
  }

  /** The value of a `data` field; None for a comment, for another field and for a line without a colon. */
  function DataValue(line: string): Option<string> {
    var colon := ColonAt(line, 0);
    if colon == |line| || line[..colon] != "data" then None
    else
      var value := line[colon + 1..];
      Some(if value != "" && value[0] == ' ' then value[1..] else value)
  }

  // ---------- blocks ----------

  /** The blocks that a blank line ends. */
  function Blocks(lines: seq<string>): seq<seq<string>> {
    if lines == [] then []
    else
      var front, last := lines[..|lines| - 1], lines[|lines| - 1];
      if last == "" then Blocks(front) + [Pending(front)] else Blocks(front)
  }

  /** The lines after the last blank line. */
  function Pending(lines: seq<string>): seq<string> {
    if lines == [] then []
    else
      var front, last := lines[..|lines| - 1], lines[|lines| - 1];
      if last == "" then [] else Pending(front) + [last]
  }

  function DataOf(block: seq<string>): seq<string> {
    if block == [] then []
    else
      var front, last := block[..|block| - 1], block[|block| - 1];
      DataOf(front) + (if DataValue(last).Some? then [DataValue(last).value] else [])
  }

  function Join(values: seq<string>): string {
    if values == [] then ""
    else if |values| == 1 then values[0]
    else Join(values[..|values| - 1]) + "\n" + values[|values| - 1]
  }

  // ---------- signals ----------

  datatype Signal = Nothing | Spoken(delta: string) | Completion(finishReason: string) | Fatal(failure: Failure)

  function FinishReason(event: ApiEvent): string {
    if event.response.Some? && Trim(event.response.value.status) != "" then event.response.value.status else DEFAULT_REASON
  }

  function RefusalMessage(event: ApiEvent): string {
    if Trim(event.delta) == "" then REFUSED else Trim(event.delta)
  }

  function PayloadSignal(payload: string, env: Environment): Signal {
    if Trim(payload) == DONE_MARK then Nothing
    else if env.decode(payload).None? then Fatal(Undecodable)
    else
      var event := env.decode(payload).value;
      match KindOf(event.kind)
      case DeltaKind => if event.delta != "" && env.listening then Spoken(event.delta) else Nothing
      case CompletionKind => Completion(FinishReason(event))
      case FailureKind => Fatal(Reported(FailureMessage(event)))
      case RefusalKind => Fatal(Reported(RefusalMessage(event)))
      case OtherKind => Nothing
  }

  function BlockSignal(data: seq<string>, env: Environment): Signal {
    if data == [] then Nothing else PayloadSignal(Join(data), env)
  }

  function Signals(blocks: seq<seq<string>>, env: Environment): (signals: seq<Signal>)
    ensures |signals| == |blocks|
    ensures forall i | 0 <= i < |blocks| :: signals[i] == BlockSignal(DataOf(blocks[i]), env)
  {
    seq(|blocks|, i requires 0 <= i < |blocks| => BlockSignal(DataOf(blocks[i]), env))
  }

  function Deltas(signals: seq<Signal>): seq<string> {
    if signals == [] then []
    else
      var front, last := signals[..|signals| - 1], signals[|signals| - 1];
      Deltas(front) + (if last.Spoken? then [last.delta] else [])
  }

  /** Whether reading ends at signal i, if it gets there: a completion, a failure, or a delta the callback refuses. */
  predicate Stops(signals: seq<Signal>, i: nat, env: Environment)
    requires i < |signals|
  {
    signals[i].Completion? || signals[i].Fatal? || (signals[i].Spoken? && env.refuses(|Deltas(signals[..i])|))
  }

  predicate NoStop(signals: seq<Signal>, env: Environment) {
    forall i: nat | i < |signals| :: !Stops(signals, i, env)
  }

  function FirstStop(signals: seq<Signal>, env: Environment, from: nat): (n: nat)
    requires from <= |signals|
    ensures from <= n <= |signals|
    ensures forall i: nat | from <= i < n :: !Stops(signals, i, env)
    ensures n < |signals| ==> Stops(signals, n, env)
    decreases |signals| - from
  {
    if from < |signals| && !Stops(signals, from, env) then FirstStop(signals, env, from + 1) else from
  }

  // ---------- the reading of a list of lines ----------

  /** Whether the loop returns at line i before it handles it. */
  predicate Halts(lines: seq<string>, i: nat, env: Environment)
    requires i < |lines|
  {
    env.cancelled(i) || TotalBytes(lines[..i + 1]) > MAX_RESPONSE_BYTES
  }

  /** How many lines the loop handles, if nothing in them ends it. */
  function Handled(lines: seq<string>, env: Environment, from: nat): (n: nat)
    requires from <= |lines|
    ensures from <= n <= |lines|
    ensures forall i: nat | from <= i < n :: !Halts(lines, i, env)
    ensures n < |lines| ==> Halts(lines, n, env)
    decreases |lines| - from
  {
    if from < |lines| && !Halts(lines, from, env) then Handled(lines, env, from + 1) else from
  }

  /** The blocks that are dispatched: those that a blank line ends and, at a clean end of the stream, what is pending. */
  function Dispatched(lines: seq<string>, env: Environment): seq<seq<string>> {
    var n := Handled(lines, env, 0);
    if n == |lines| && !env.scanFails then Blocks(lines) + [Pending(lines)] else Blocks(lines[..n])
  }

  /** How the stream ends when no dispatched block ends it. */
  function Ending(lines: seq<string>, env: Environment): Failure {
    var n := Handled(lines, env, 0);
    if n < |lines| then (if env.cancelled(n) then Cancelled else TooLarge)
    else if env.scanFails then (if env.cancelledAtEnd then Cancelled else ReadFailed)
    else EndedEarly
  }

  function StopOutcome(signal: Signal): Outcome {
    match signal
    case Completion(reason) => Completed(reason)
    case Fatal(failure) => Failed(failure)
    case _ => Failed(CallbackFailed)
  }

  /** What the callback receives, and the result. */
  function Reading(lines: seq<string>, env: Environment): (seq<string>, Outcome) {
    Judged(Signals(Dispatched(lines, env), env), Ending(lines, env), env)
  }

  function Judged(signals: seq<Signal>, ending: Failure, env: Environment): (seq<string>, Outcome) {
    var n := FirstStop(signals, env, 0);
    if n < |signals| then (Deltas(signals[..n + 1]), StopOutcome(signals[n]))
    else (Deltas(signals), Failed(ending))
  }

  /** The closure `dispatch`: None when the stream goes on. */
  method Dispatch(dataLines: seq<string>, delivered: seq<string>, env: Environment)
    returns (delivered': seq<string>, outcome: Option<Outcome>)
    ensures var signal := BlockSignal(dataLines, env);
            delivered' == delivered + (if signal.Spoken? then [signal.delta] else [])
    ensures var signal := BlockSignal(dataLines, env);
            outcome == (if signal.Completion? || signal.Fatal? || (signal.Spoken? && env.refuses(|delivered|))
                        then Some(StopOutcome(signal)) else None)
  {
    hide Trim, KindOf, Join;
    delivered' := delivered;
    if |dataLines| == 0 {
      return delivered', None;
    }
    var data := Join(dataLines);
    if Trim(data) == DONE_MARK {
      return delivered', None;
    }
    var decoded := env.decode(data);
    if decoded.None? {
      return delivered', Some(Failed(Undecodable));
    }
    var event := decoded.value;
    outcome := None;
    match KindOf(event.kind) {
      case DeltaKind =>
        if event.delta != "" && env.listening {
          delivered' := delivered + [event.delta];
          if env.refuses(|delivered|) {
            outcome := Some(Failed(CallbackFailed));
          }
        }
      case CompletionKind =>
        var reason := DEFAULT_REASON;
        if event.response.Some? && Trim(event.response.value.status) != "" {
          reason := event.response.value.status;
        }
        outcome := Some(Completed(reason));
      case FailureKind =>
        outcome := Some(Failed(Reported(FailureMessage(event))));
      case RefusalKind =>
        var message := Trim(event.delta);
        if message == "" {
          message := REFUSED;
        }
        outcome := Some(Failed(Reported(message)));
      case OtherKind =>
    }
  }

  /** Reading goes on after these blocks, and this is what the callback has received. */
  predicate Quiet(blocks: seq<seq<string>>, delivered: seq<string>, env: Environment) {
    NoStop(Signals(blocks, env), env) && delivered == Deltas(Signals(blocks, env))
  }

  /** Reading ends at the last of these blocks, with this result. */
  predicate Stopped(blocks: seq<seq<string>>, delivered: seq<string>, outcome: Outcome, env: Environment) {
    var signals := Signals(blocks, env);
    && blocks != []
    && Stops(signals, |blocks| - 1, env)
    && (forall i: nat | i < |blocks| - 1 :: !Stops(signals, i, env))
    && delivered == Deltas(signals) && outcome == StopOutcome(signals[|blocks| - 1])
  }

  lemma DeltasSnoc(signals: seq<Signal>, signal: Signal)
    ensures Deltas(signals + [signal]) == Deltas(signals) + (if signal.Spoken? then [signal.delta] else [])
  {
    assert (signals + [signal])[..|signals|] == signals;
  }

  lemma StopsInPrefix(signals: seq<Signal>, all: seq<Signal>, i: nat, env: Environment)
    requires signals <= all && i < |signals|
    ensures Stops(signals, i, env) == Stops(all, i, env)
  {
    assert signals[..i] == all[..i];
  }

  lemma BlockDispatched(blocks: seq<seq<string>>, block: seq<string>, delivered: seq<string>, env: Environment)
    requires Quiet(blocks, delivered, env)
    ensures var signal := BlockSignal(DataOf(block), env);
            var delivered' := delivered + (if signal.Spoken? then [signal.delta] else []);
            if signal.Completion? || signal.Fatal? || (signal.Spoken? && env.refuses(|delivered|)) then
              Stopped(blocks + [block], delivered', StopOutcome(signal), env)
            else
              Quiet(blocks + [block], delivered', env)
  {
    hide BlockSignal, DataOf;
    var signal := BlockSignal(DataOf(block), env);
    var signals := Signals(blocks, env);
    var signals' := Signals(blocks + [block], env);
    assert signals' == signals + [signal];
    assert signals'[..|blocks|] == signals;
    DeltasSnoc(signals, signal);
    forall i: nat | i < |blocks| ensures !Stops(signals', i, env) {
      StopsInPrefix(signals, signals', i, env);
    }
  }

  lemma JudgedQuiet(blocks: seq<seq<string>>, delivered: seq<string>, ending: Failure, env: Environment)
    requires Quiet(blocks, delivered, env)
    ensures Judged(Signals(blocks, env), ending, env) == (delivered, Failed(ending))
  {
    hide BlockSignal, Stops, Deltas;
  }

  lemma JudgedStopped(blocks: seq<seq<string>>, all: seq<seq<string>>, delivered: seq<string>, outcome: Outcome,
                      ending: Failure, env: Environment)
    requires Stopped(blocks, delivered, outcome, env) && blocks <= all
    ensures Judged(Signals(all, env), ending, env) == (delivered, outcome)
  {
    hide BlockSignal, Deltas;
    var signals, signals' := Signals(blocks, env), Signals(all, env);
    assert signals'[..|blocks|] == signals;
    forall i: nat | i < |blocks| ensures Stops(signals', i, env) == Stops(signals, i, env) {
      StopsInPrefix(signals, signals', i, env);
    }
    hide Stops;
    assert FirstStop(signals', env, 0) == |blocks| - 1;
  }

  lemma LinesSnoc(lines: seq<string>, i: nat)
    requires i < |lines|
    ensures TotalBytes(lines[..i + 1]) == TotalBytes(lines[..i]) + ByteLength(lines[i]) + 1
    ensures Blocks(lines[..i + 1]) ==
            if lines[i] == "" then Blocks(lines[..i]) + [Pending(lines[..i])] else Blocks(lines[..i])
    ensures Pending(lines[..i + 1]) == if lines[i] == "" then [] else Pending(lines[..i]) + [lines[i]]
    ensures DataOf(Pending(lines[..i + 1])) ==
            if lines[i] == "" then []
            else DataOf(Pending(lines[..i])) + (if DataValue(lines[i]).Some? then [DataValue(lines[i]).value] else [])
  {
    hide DataValue, ByteLength;
    assert lines[..i + 1][..i] == lines[..i];
    var pending := Pending(lines[..i]);
    assert (pending + [lines[i]])[..|pending|] == pending;
  }

  lemma {:induction false} BlocksPrefix(lines: seq<string>, n: nat)
    requires n <= |lines|
    ensures Blocks(lines[..n]) <= Blocks(lines)
    decreases |lines| - n
  {
    hide Blocks;
    if n == |lines| {
      assert lines[..n] == lines;
    } else {
      LinesSnoc(lines, n);
      BlocksPrefix(lines, n + 1);
    }
  }

  lemma HaltedReading(lines: seq<string>, i: nat, delivered: seq<string>, env: Environment)
    requires i < |lines| && Halts(lines, i, env) && forall k: nat | k < i :: !Halts(lines, k, env)
    requires Quiet(Blocks(lines[..i]), delivered, env)
    ensures Reading(lines, env) == (delivered, Failed(if env.cancelled(i) then Cancelled else TooLarge))
  {
    hide Quiet, Judged, Halts, Blocks, Signals;
    assert Handled(lines, env, 0) == i;
    JudgedQuiet(Blocks(lines[..i]), delivered, Ending(lines, env), env);
  }

  lemma StoppedReading(lines: seq<string>, n: nat, delivered: seq<string>, outcome: Outcome, env: Environment)
    requires n <= |lines| && forall k: nat | k < n :: !Halts(lines, k, env)
    requires Stopped(Blocks(lines[..n]), delivered, outcome, env)
    ensures Reading(lines, env) == (delivered, outcome)
  {
    hide Stopped, Judged, Halts, Blocks, Signals;
    var m := Handled(lines, env, 0);
    BlocksPrefix(lines[..m], n);
    assert lines[..m][..n] == lines[..n];
    assert lines[..|lines|] == lines;
    JudgedStopped(Blocks(lines[..n]), Dispatched(lines, env), delivered, outcome, Ending(lines, env), env);
  }

  lemma EndedReading(lines: seq<string>, delivered: seq<string>, env: Environment)
    requires env.scanFails && forall k: nat | k < |lines| :: !Halts(lines, k, env)
    requires Quiet(Blocks(lines), delivered, env)
    ensures Reading(lines, env) == (delivered, Failed(if env.cancelledAtEnd then Cancelled else ReadFailed))
  {
    hide Quiet, Judged, Halts, Blocks, Signals;
    assert lines[..|lines|] == lines;
    JudgedQuiet(Blocks(lines), delivered, Ending(lines, env), env);
  }

  lemma LastReading(lines: seq<string>, delivered: seq<string>, outcome: Option<Outcome>, env: Environment)
    requires !env.scanFails && forall k: nat | k < |lines| :: !Halts(lines, k, env)
    requires if outcome.Some? then Stopped(Blocks(lines) + [Pending(lines)], delivered, outcome.value, env)
             else Quiet(Blocks(lines) + [Pending(lines)], delivered, env)
    ensures Reading(lines, env) == (delivered, if outcome.Some? then outcome.value else Failed(EndedEarly))
  {
    hide Quiet, Stopped, Judged, Halts, Blocks, Signals;
    var all := Blocks(lines) + [Pending(lines)];
    if outcome.Some? {
      JudgedStopped(all, all, delivered, outcome.value, Ending(lines, env), env);
    } else {
      JudgedQuiet(all, delivered, Ending(lines, env), env);
    }
  }

  lemma CommentLine(line: string)
    ensures line != "" && line[0] == ':' ==> DataValue(line) == None
  {}

  lemma NothingRead(env: Environment)
    ensures TotalBytes([]) == 0 && DataOf(Pending([])) == [] && Quiet(Blocks([]), [], env)
  {}

  // ---------- the loop ----------

  /** The one-pass loop computes the reading of the whole list. */
  method ConsumeResponsesStream(lines: seq<string>, env: Environment) returns (delivered: seq<string>, outcome: Outcome)
    ensures Reading(lines, env) == (delivered, outcome)
  {
    hide Reading, BlockSignal, ByteLength, Join, Quiet, Stopped, Blocks, Pending, DataOf, TotalBytes;
    delivered := [];
    var dataLines: seq<string> := [];
    var totalBytes := 0;
    NothingRead(env);
    assert lines[..0] == [];
    for i := 0 to |lines|
      invariant forall k: nat | k < i :: !Halts(lines, k, env)
      invariant totalBytes == TotalBytes(lines[..i])
      invariant dataLines == DataOf(Pending(lines[..i]))
      invariant Quiet(Blocks(lines[..i]), delivered, env)
    {
      var line := lines[i];
      LinesSnoc(lines, i);
      CommentLine(line);
      if env.cancelled(i) {
        HaltedReading(lines, i, delivered, env);
        return delivered, Failed(Cancelled);
      }
      totalBytes := totalBytes + ByteLength(line) + 1;
      if totalBytes > MAX_RESPONSE_BYTES {
        HaltedReading(lines, i, delivered, env);
        return delivered, Failed(TooLarge);
      }
      if line == "" {
        var block := Pending(lines[..i]);
        var result;
        ghost var before := delivered;
        delivered, result := Dispatch(dataLines, delivered, env);
        BlockDispatched(Blocks(lines[..i]), block, before, env);
        if result.Some? {
          StoppedReading(lines, i + 1, delivered, result.value, env);
          return delivered, result.value;
        }
        dataLines := [];
      } else if line[0] != ':' {
        var colon := ColonAt(line, 0);
        if colon < |line| && line[..colon] == "data" {
          var value := line[colon + 1..];
          dataLines := dataLines + [if value != "" && value[0] == ' ' then value[1..] else value];
        }
      }
    }
    assert lines[..|lines|] == lines;
    if env.scanFails {
      EndedReading(lines, delivered, env);
      return delivered, Failed(if env.cancelledAtEnd then Cancelled else ReadFailed);
    }
    var result;
    ghost var before := delivered;
    delivered, result := Dispatch(dataLines, delivered, env);
    BlockDispatched(Blocks(lines), Pending(lines), before, env);
    LastReading(lines, delivered, result, env);
    if result.Some? {
      return delivered, result.value;
    }
    return delivered, Failed(EndedEarly);
  }
}
