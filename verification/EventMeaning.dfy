/** The reading of an event stream once more, over the decoded events themselves: which block ends it, with what result, and
    what the callback has received by then. */
module EventMeaning {
  import opened Base
  import opened Text
  import opened EventStream
  import opened EventFraming

  // ---------- one block ----------

  /** The event that a block with data decodes to; None for a block without data, for the closing mark and for data that is
      no event. */
  function EventOf(block: seq<string>, env: Environment): Option<ApiEvent> {
    if Ignored(block) then None else env.decode(Join(DataOf(block)))
  }

  predicate Ignored(block: seq<string>) {
    DataOf(block) == [] || Trim(Join(DataOf(block))) == "[DONE]"
  }

  predicate Garbled(block: seq<string>, env: Environment) {
    !Ignored(block) && EventOf(block, env).None?
  }

  predicate Completes(block: seq<string>, env: Environment) {
    var event := EventOf(block, env);
    event.Some? && (event.value.kind == "response.completed" || event.value.kind == "response.done")
  }

  predicate Fails(block: seq<string>, env: Environment) {
    var event := EventOf(block, env);
    event.Some? &&
    (event.value.kind == "response.failed" || event.value.kind == "response.incomplete" ||
     event.value.kind == "response.error" || event.value.kind == "error")
  }

  predicate Refuses(block: seq<string>, env: Environment) {
    var event := EventOf(block, env);
    event.Some? && (event.value.kind == "response.refusal.delta" || event.value.kind == "response.refusal.done")
  }

  /** A delta event with text, when somebody listens. */
  predicate Speaks(block: seq<string>, env: Environment) {
    var event := EventOf(block, env);
    env.listening && event.Some? && event.value.delta != "" &&
    (event.value.kind == "response.output_text.delta" || event.value.kind == "output_text.delta")
  }

  /** The texts of the delta events, in order. */
  function Texts(blocks: seq<seq<string>>, env: Environment): seq<string> {
    if blocks == [] then []
    else
      var front, last := blocks[..|blocks| - 1], blocks[|blocks| - 1];
      Texts(front, env) + (if Speaks(last, env) then [EventOf(last, env).value.delta] else [])
  }

  /** A text that the callback refuses, in view of how many it had before. */
  predicate Unwelcome(blocks: seq<seq<string>>, i: nat, env: Environment)
    requires i < |blocks|
  {
    Speaks(blocks[i], env) && env.refuses(|Texts(blocks[..i], env)|)
  }

  predicate EndsAt(blocks: seq<seq<string>>, i: nat, env: Environment)
    requires i < |blocks|
  {
    Completes(blocks[i], env) || Fails(blocks[i], env) || Refuses(blocks[i], env) || Garbled(blocks[i], env) ||
    Unwelcome(blocks, i, env)
  }

  predicate EndsFirstAt(blocks: seq<seq<string>>, n: nat, env: Environment) {
    n < |blocks| && EndsAt(blocks, n, env) && forall i: nat | i < n :: !EndsAt(blocks, i, env)
  }

  // ---------- signals mean what the events say ----------

  lemma KindMeaning(kind: string)
    ensures KindOf(kind) == CompletionKind <==> kind == "response.completed" || kind == "response.done"
    ensures KindOf(kind) == FailureKind <==>
              kind == "response.failed" || kind == "response.incomplete" || kind == "response.error" || kind == "error"
    ensures KindOf(kind) == RefusalKind <==> kind == "response.refusal.delta" || kind == "response.refusal.done"
    ensures KindOf(kind) == DeltaKind <==> kind == "response.output_text.delta" || kind == "output_text.delta"
  {}

  lemma WithoutEvent(block: seq<string>, env: Environment)
    requires EventOf(block, env).None?
    ensures BlockSignal(DataOf(block), env) == if Garbled(block, env) then Fatal(Undecodable) else Nothing
  {
    hide Trim, Join, DataOf, KindOf;
  }

  lemma WithEvent(block: seq<string>, env: Environment)
    requires EventOf(block, env).Some?
    ensures var event := EventOf(block, env).value;
            BlockSignal(DataOf(block), env) ==
            match KindOf(event.kind)
            case DeltaKind => if event.delta != "" && env.listening then Spoken(event.delta) else Nothing
            case CompletionKind => Completion(FinishReason(event))
            case FailureKind => Fatal(Reported(FailureMessage(event)))
            case RefusalKind => Fatal(Reported(RefusalMessage(event)))
            case OtherKind => Nothing
    ensures !Garbled(block, env)
  {
    hide Trim, Join, DataOf, KindOf, FinishReason, RefusalMessage, FailureMessage;
  }

  lemma Wording(event: ApiEvent)
    ensures FinishReason(event) == Reason(event) && RefusalMessage(event) == Refusal(event)
  {
    if event.response.Some? {
      TrimEmpty(event.response.value.status);
    }
    TrimEmpty(event.delta);
    hide Trim, Blank;
  }

  lemma SignalMeaning(block: seq<string>, env: Environment)
    ensures var signal := BlockSignal(DataOf(block), env); var event := EventOf(block, env);
            && (signal.Completion? <==> Completes(block, env))
            && (signal.Completion? ==> signal.finishReason == Reason(event.value))
            && (signal == Fatal(Undecodable) <==> Garbled(block, env))
            && (Fails(block, env) ==> signal == Fatal(Reported(FailureMessage(event.value))))
            && (Refuses(block, env) ==> signal == Fatal(Reported(Refusal(event.value))))
            && (signal.Fatal? <==> Garbled(block, env) || Fails(block, env) || Refuses(block, env))
            && (signal.Spoken? <==> Speaks(block, env))
            && (signal.Spoken? ==> signal.delta == event.value.delta)
  {
    if EventOf(block, env).Some? {
      KindMeaning(EventOf(block, env).value.kind);
      Wording(EventOf(block, env).value);
      WithEvent(block, env);
    } else {
      WithoutEvent(block, env);
    }
    hide BlockSignal, EventOf, Garbled, KindOf, FailureMessage, FinishReason, RefusalMessage, Reason, Refusal;
  }

  /** The reason of a completion: the reported status, unless it is only white space. */
  function Reason(event: ApiEvent): string {
    match event.response
    case Some(response) => if Blank(response.status) then "completed" else response.status
    case None => "completed"
  }

  /** The message of a refusal: its text without the white space around it, unless nothing is left. */
  function Refusal(event: ApiEvent): string {
    if Blank(event.delta) then "AI response was refused" else Trim(event.delta)
  }

  lemma {:induction false} TextsAreDeltas(blocks: seq<seq<string>>, env: Environment)
    ensures Deltas(Signals(blocks, env)) == Texts(blocks, env)
  {
    hide BlockSignal, Speaks, EventOf;
    if blocks != [] {
      var front, last := blocks[..|blocks| - 1], blocks[|blocks| - 1];
      TextsAreDeltas(front, env);
      assert Signals(blocks, env)[..|front|] == Signals(front, env);
      LastText(last, env);
    }
  }

  lemma LastText(block: seq<string>, env: Environment)
    ensures var signal := BlockSignal(DataOf(block), env);
            (if signal.Spoken? then [signal.delta] else []) ==
            (if Speaks(block, env) then [EventOf(block, env).value.delta] else [])
  {
    SignalMeaning(block, env);
    hide *;
  }

  lemma StopsMeanEnds(blocks: seq<seq<string>>, i: nat, env: Environment)
    requires i < |blocks|
    ensures Stops(Signals(blocks, env), i, env) <==> EndsAt(blocks, i, env)
  {
    SignalMeaning(blocks[i], env);
    TextsAreDeltas(blocks[..i], env);
    assert Signals(blocks, env)[..i] == Signals(blocks[..i], env);
    hide BlockSignal, Speaks, Completes, Fails, Refuses, Garbled, EventOf, Deltas, Texts;
  }

  // ---------- what a reading gives ----------

  /** The results that the block which ends the reading may give, each with its reason. */
  predicate Results(blocks: seq<seq<string>>, n: nat, outcome: Outcome, env: Environment)
    requires n < |blocks|
  {
    var block := blocks[n];
    var event := EventOf(block, env);
    && (Completes(block, env) ==> outcome == Completed(Reason(event.value)))
    && (Fails(block, env) ==> outcome == Failed(Reported(FailureMessage(event.value))))
    && (Refuses(block, env) ==> outcome == Failed(Reported(Refusal(event.value))))
    && (Garbled(block, env) ==> outcome == Failed(Undecodable))
    && (Unwelcome(blocks, n, env) ==> outcome == Failed(CallbackFailed))
  }

  /** The first block that ends the reading decides it: by its event, or by having none, or by the callback. The callback
      has received the texts of all delta events up to there. */
  lemma FirstEndDecides(lines: seq<string>, n: nat, env: Environment)
    requires EndsFirstAt(Dispatched(lines, env), n, env)
    ensures var blocks := Dispatched(lines, env);
            var (delivered, outcome) := Reading(lines, env);
            delivered == Texts(blocks[..n + 1], env) && Results(blocks, n, outcome, env)
  {
    var blocks := Dispatched(lines, env);
    var signals := Signals(blocks, env);
    hide Dispatched, EndsAt, Stops, Results, BlockSignal;
    forall i: nat | i <= n ensures Stops(signals, i, env) <==> EndsAt(blocks, i, env) {
      StopsMeanEnds(blocks, i, env);
    }
    assert FirstStop(signals, env, 0) == n;
    assert signals[..n + 1] == Signals(blocks[..n + 1], env);
    TextsAreDeltas(blocks[..n + 1], env);
    EndGivesResult(blocks, n, env);
  }

  lemma EndGivesResult(blocks: seq<seq<string>>, n: nat, env: Environment)
    requires n < |blocks|
    ensures Results(blocks, n, StopOutcome(Signals(blocks, env)[n]), env)
  {
    SignalMeaning(blocks[n], env);
    KindsExclude(blocks[n], env);
    hide BlockSignal, Speaks, Completes, Fails, Refuses, Garbled, EventOf, Texts, FailureMessage, Refusal, Reason;
  }

  lemma KindsExclude(block: seq<string>, env: Environment)
    ensures Speaks(block, env) ==> !Completes(block, env) && !Fails(block, env) && !Refuses(block, env)
    ensures Speaks(block, env) || Completes(block, env) || Fails(block, env) || Refuses(block, env) ==> !Garbled(block, env)
  {
    hide Ignored;
  }

  /** When no block ends it, the callback receives every text, and the reading fails with the cause that cut it short:
      the context, the size limit or the connection. Without one the stream ended before its completion. */
  lemma NoEndFails(lines: seq<string>, n: nat, env: Environment)
    requires forall i: nat | i < |Dispatched(lines, env)| :: !EndsAt(Dispatched(lines, env), i, env)
    requires CutAt(lines, n, env)
    ensures var (delivered, outcome) := Reading(lines, env);
            && delivered == Texts(Dispatched(lines, env), env)
            && outcome.Failed?
            && (outcome.failure == Cancelled <==>
                  (n < |lines| && env.cancelled(n)) || (n == |lines| && env.scanFails && env.cancelledAtEnd))
            && (outcome.failure == TooLarge <==> n < |lines| && !env.cancelled(n))
            && (outcome.failure == ReadFailed <==> n == |lines| && env.scanFails && !env.cancelledAtEnd)
            && (outcome.failure == EndedEarly <==> n == |lines| && !env.scanFails)
  {
    var blocks := Dispatched(lines, env);
    CutIsHandled(lines, n, env);
    hide Dispatched, EndsAt, Stops, BlockSignal;
    forall i: nat | i < |blocks| ensures !Stops(Signals(blocks, env), i, env) {
      StopsMeanEnds(blocks, i, env);
    }
    TextsAreDeltas(blocks, env);
  }

  /** Reading succeeds exactly when a completion event comes before anything else that ends it. */
  lemma CompletedIff(lines: seq<string>, env: Environment)
    ensures var blocks := Dispatched(lines, env);
            Reading(lines, env).1.Completed? <==>
            exists n: nat :: EndsFirstAt(blocks, n, env) && Completes(blocks[n], env)
  {
    var blocks := Dispatched(lines, env);
    var signals := Signals(blocks, env);
    hide Dispatched, EndsAt, Completes, Stops, BlockSignal, Results;
    var k := FirstStop(signals, env, 0);
    forall i: nat | i < |blocks| ensures Stops(signals, i, env) <==> EndsAt(blocks, i, env) {
      StopsMeanEnds(blocks, i, env);
    }
    forall n: nat | EndsFirstAt(blocks, n, env) ensures n == k {}
    if k < |blocks| {
      SignalMeaning(blocks[k], env);
      assert EndsFirstAt(blocks, k, env);
      assert StopOutcome(signals[k]).Completed? <==> signals[k].Completion?;
    }
  }

  // ---------- which lines are read, and as which blocks ----------

  /** The first line at which the loop returns without handling it: the context is done, or this line takes the response
      over the limit. The end of the lines when there is none. */
  predicate CutAt(lines: seq<string>, n: nat, env: Environment) {
    && n <= |lines|
    && (n < |lines| ==> env.cancelled(n) || Oversized(lines[..n + 1]))
    && forall i: nat | i < n :: !env.cancelled(i) && !Oversized(lines[..i + 1])
  }

  /** More than two mebibytes with the line ends. */
  predicate Oversized(lines: seq<string>) {
    ByteLength(Unlines(lines)) > 2 * 1024 * 1024
  }

  lemma BytesAppend(s: string, more: string)
    ensures ByteLength(s + more) == ByteLength(s) + ByteLength(more)
  {
    if more == "" {
      assert s + more == s;
    } else {
      var front := more[..|more| - 1];
      BytesAppend(s, front);
      assert (s + more)[..|s + more| - 1] == s + front;
    }
  }

  lemma {:induction false} UnlinesSnoc(lines: seq<string>, line: string)
    ensures Unlines(lines + [line]) == Unlines(lines) + line + "\n"
  {
    if lines == [] {
      assert Unlines([line]) == line + "\n" + Unlines([]);
      assert Unlines([]) + line == line;
    } else {
      UnlinesSnoc(lines[1..], line);
      assert (lines + [line])[1..] == lines[1..] + [line];
    }
  }

  lemma {:induction false} BytesOfLines(lines: seq<string>)
    ensures TotalBytes(lines) == ByteLength(Unlines(lines))
  {
    if lines != [] {
      var front, last := lines[..|lines| - 1], lines[|lines| - 1];
      assert lines == front + [last];
      BytesOfLines(front);
      UnlinesSnoc(front, last);
      BytesAppend(Unlines(front) + last, "\n");
      BytesAppend(Unlines(front), last);
      assert ByteLength("\n") == 1;
    }
  }

  lemma CutIsHandled(lines: seq<string>, n: nat, env: Environment)
    requires CutAt(lines, n, env)
    ensures Handled(lines, env, 0) == n
  {
    hide TotalBytes, ByteLength, Unlines;
    forall i: nat | i < |lines| ensures Halts(lines, i, env) <==> env.cancelled(i) || Oversized(lines[..i + 1]) {
      BytesOfLines(lines[..i + 1]);
    }
  }

  /** The dispatched blocks are the lines before the cut, split at the blank ones; the last lines count as a block only at
      a clean end. */
  lemma DispatchedSplit(lines: seq<string>, n: nat, env: Environment) returns (rest: seq<string>)
    requires CutAt(lines, n, env)
    ensures var blocks := Dispatched(lines, env);
            if n == |lines| && !env.scanFails then
              |blocks| > 0 && NoBlankLine(blocks, []) && Unsplit(blocks[..|blocks| - 1], blocks[|blocks| - 1]) == lines
            else
              NoBlankLine(blocks, rest) && Unsplit(blocks, rest) == lines[..n]
  {
    CutIsHandled(lines, n, env);
    hide CutAt, Handled, Blocks, Pending, Unsplit;
    rest := Pending(lines[..n]);
    SplitIsExact(lines[..n]);
    assert lines[..|lines|] == lines;
    if n == |lines| && !env.scanFails {
      assert Dispatched(lines, env)[..|Blocks(lines)|] == Blocks(lines);
    }
  }

  /** A line carries data exactly when it starts with the field name and a colon; one space after them is not part of the
      value. */
  lemma DataLine(line: string)
    ensures DataValue(line).Some? <==> "data:" <= line
    ensures "data: " <= line ==> DataValue(line) == Some(line[6..])
    ensures "data:" <= line && !("data: " <= line) ==> DataValue(line) == Some(line[5..])
  {
    if "data:" <= line {
      assert line[4] == ':' && line[..4] == "data" && ColonAt(line, 0) == 4;
    }
    var colon := ColonAt(line, 0);
    if colon < |line| && line[..colon] == "data" {
      assert line[..5] == "data:";
    }
  }
}
