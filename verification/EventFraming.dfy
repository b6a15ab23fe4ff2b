/** What the event-stream reader guarantees: when it succeeds, that framing a payload as data lines is undone by reading
    it, and where it differs from section 9.2.6 of the WHATWG HTML Living Standard. */
module EventFraming {
  import opened Base
  import opened Text
  import opened EventStream

  // ---------- when reading succeeds ----------

  /** A completion comes before anything else that ends the reading. */
  predicate CompletesAt(signals: seq<Signal>, n: nat, env: Environment) {
    n < |signals| && signals[n].Completion? && forall i: nat | i < n :: !Stops(signals, i, env)
  }

  /** Reading succeeds exactly when a completion comes first among the dispatched blocks. The callback has then received
      exactly the deltas before it, and in every case a prefix of all deltas. */
  lemma SucceedsIff(lines: seq<string>, env: Environment)
    ensures var signals := Signals(Dispatched(lines, env), env);
            var (delivered, outcome) := Reading(lines, env);
            && (outcome.Completed? <==> exists n: nat :: CompletesAt(signals, n, env))
            && (forall n: nat | CompletesAt(signals, n, env) ::
                  delivered == Deltas(signals[..n]) && outcome == Completed(signals[n].finishReason))
            && delivered <= Deltas(signals)
  {
    hide Signals, Dispatched, Judged;
    JudgedIff(Signals(Dispatched(lines, env), env), EventStream.Ending(lines, env), env);
  }

  lemma JudgedIff(signals: seq<Signal>, ending: Failure, env: Environment)
    ensures var (delivered, outcome) := Judged(signals, ending, env);
            && (outcome.Completed? <==> exists n: nat :: CompletesAt(signals, n, env))
            && (forall n: nat | CompletesAt(signals, n, env) ::
                  delivered == Deltas(signals[..n]) && outcome == Completed(signals[n].finishReason))
            && delivered <= Deltas(signals)
  {
    hide Stops, Deltas, CompletesAt;
    var k := FirstStop(signals, env, 0);
    forall n: nat | CompletesAt(signals, n, env) ensures n == k && k < |signals| && signals[k].Completion? {
      CompletesOnlyAtFirst(signals, n, env);
    }
    if k < |signals| {
      CompletionStops(signals, k, env);
      DeliveredThrough(signals, k);
      FirstCompletes(signals, env);
    }
  }

  lemma CompletesOnlyAtFirst(signals: seq<Signal>, n: nat, env: Environment)
    requires CompletesAt(signals, n, env)
    ensures n == FirstStop(signals, env, 0) && n < |signals| && signals[n].Completion?
  {
    CompletionStops(signals, n, env);
    hide Stops;
  }

  lemma FirstCompletes(signals: seq<Signal>, env: Environment)
    ensures var k := FirstStop(signals, env, 0);
            k < |signals| && signals[k].Completion? ==> CompletesAt(signals, k, env)
  {
    hide Stops;
  }

  lemma DeliveredThrough(signals: seq<Signal>, k: nat)
    requires k < |signals|
    ensures signals[k].Completion? ==> Deltas(signals[..k + 1]) == Deltas(signals[..k])
    ensures Deltas(signals[..k + 1]) <= Deltas(signals)
  {
    hide Deltas;
    DeltasPrefix(signals, k + 1);
    assert signals[..k + 1] == signals[..k] + [signals[k]];
    DeltasSnoc(signals[..k], signals[k]);
    assert Deltas(signals[..k]) + [] == Deltas(signals[..k]);
  }

  lemma CompletionStops(signals: seq<Signal>, i: nat, env: Environment)
    requires i < |signals|
    ensures signals[i].Completion? ==> Stops(signals, i, env)
    ensures Stops(signals, i, env) && !signals[i].Completion? ==> StopOutcome(signals[i]).Failed?
  {}

  lemma {:induction false} DeltasPrefix(signals: seq<Signal>, n: nat)
    requires n <= |signals|
    ensures Deltas(signals[..n]) <= Deltas(signals)
    decreases |signals| - n
  {
    if n == |signals| {
      assert signals[..n] == signals;
    } else {
      assert signals[..n + 1] == signals[..n] + [signals[n]];
      DeltasSnoc(signals[..n], signals[n]);
      DeltasPrefix(signals, n + 1);
    }
  }

  // ---------- splitting at blank lines ----------

  function Unsplit(blocks: seq<seq<string>>, pending: seq<string>): seq<string> {
    if blocks == [] then pending else blocks[0] + [""] + Unsplit(blocks[1..], pending)
  }

  predicate NoBlankLine(blocks: seq<seq<string>>, pending: seq<string>) {
    "" !in pending && forall i | 0 <= i < |blocks| :: "" !in blocks[i]
  }

  /** The split at blank lines is the only one there is: it loses no line, and any way to write the lines as blocks
      without blank lines, each followed by one, is this one. */
  lemma SplitIsUnique(lines: seq<string>, blocks: seq<seq<string>>, pending: seq<string>)
    ensures NoBlankLine(Blocks(lines), Pending(lines)) && Unsplit(Blocks(lines), Pending(lines)) == lines
    ensures NoBlankLine(blocks, pending) && Unsplit(blocks, pending) == lines ==>
              blocks == Blocks(lines) && pending == Pending(lines)
  {
    SplitIsExact(lines);
    if NoBlankLine(blocks, pending) {
      UnsplitIsSplit(blocks, pending);
    }
  }

  lemma {:induction false} UnsplitSnoc(blocks: seq<seq<string>>, block: seq<string>, pending: seq<string>)
    ensures Unsplit(blocks + [block], pending) == Unsplit(blocks, block + [""] + pending)
  {
    if blocks == [] {
      assert Unsplit([block], pending) == block + [""] + Unsplit([], pending);
    } else {
      assert (blocks + [block])[1..] == blocks[1..] + [block];
      UnsplitSnoc(blocks[1..], block, pending);
    }
  }

  lemma {:induction false} UnsplitLine(blocks: seq<seq<string>>, pending: seq<string>, line: string)
    ensures Unsplit(blocks, pending + [line]) == Unsplit(blocks, pending) + [line]
  {
    if blocks != [] {
      UnsplitLine(blocks[1..], pending, line);
    }
  }

  lemma {:induction false} SplitIsExact(lines: seq<string>)
    ensures NoBlankLine(Blocks(lines), Pending(lines)) && Unsplit(Blocks(lines), Pending(lines)) == lines
  {
    if lines != [] {
      var front, last := lines[..|lines| - 1], lines[|lines| - 1];
      SplitIsExact(front);
      UnsplitLine(Blocks(front), Pending(front), last);
      if last == "" {
        UnsplitSnoc(Blocks(front), Pending(front), []);
        assert Pending(front) + [""] + [] == Pending(front) + [""];
      }
    }
  }

  lemma SplitSnoc(lines: seq<string>, line: string)
    ensures Blocks(lines + [line]) == if line == "" then Blocks(lines) + [Pending(lines)] else Blocks(lines)
    ensures Pending(lines + [line]) == if line == "" then [] else Pending(lines) + [line]
  {
    assert (lines + [line])[..|lines|] == lines;
  }

  lemma {:induction false} SplitAppend(lines: seq<string>, more: seq<string>)
    requires "" !in more
    ensures Blocks(lines + more) == Blocks(lines) && Pending(lines + more) == Pending(lines) + more
  {
    hide Blocks, Pending;
    if more == [] {
      assert lines + more == lines && Pending(lines) + more == Pending(lines);
    } else {
      var front, last := more[..|more| - 1], more[|more| - 1];
      SplitAppend(lines, front);
      SplitSnoc(lines + front, last);
      assert lines + more == lines + front + [last];
      assert Pending(lines) + more == Pending(lines) + front + [last];
    }
  }

  lemma {:induction false} UnsplitIsSplit(blocks: seq<seq<string>>, pending: seq<string>)
    requires NoBlankLine(blocks, pending)
    ensures Blocks(Unsplit(blocks, pending)) == blocks && Pending(Unsplit(blocks, pending)) == pending
  {
    SplitAppend(Unsplit(blocks, []), pending);
    UnsplitEnd(blocks, pending);
    ClosedIsSplit(blocks);
  }

  lemma {:induction false} UnsplitEnd(blocks: seq<seq<string>>, pending: seq<string>)
    ensures Unsplit(blocks, pending) == Unsplit(blocks, []) + pending
  {
    if blocks != [] {
      UnsplitEnd(blocks[1..], pending);
    }
  }

  lemma CloseBlock(before: seq<string>, block: seq<string>)
    requires Pending(before) == [] && "" !in block
    ensures Blocks(before + block + [""]) == Blocks(before) + [block] && Pending(before + block + [""]) == []
  {
    hide Blocks, Pending;
    SplitAppend(before, block);
    SplitSnoc(before + block, "");
    assert [] + block == block;
  }

  lemma UnsplitClosed(blocks: seq<seq<string>>, block: seq<string>)
    ensures Unsplit(blocks + [block], []) == Unsplit(blocks, []) + block + [""]
  {
    UnsplitSnoc(blocks, block, []);
    UnsplitEnd(blocks, block + [""] + []);
    hide Unsplit;
    assert Unsplit(blocks, []) + (block + [""] + []) == Unsplit(blocks, []) + block + [""];
  }

  lemma {:induction false} ClosedIsSplit(blocks: seq<seq<string>>)
    requires forall i | 0 <= i < |blocks| :: "" !in blocks[i]
    ensures Blocks(Unsplit(blocks, [])) == blocks && Pending(Unsplit(blocks, [])) == []
  {
    if blocks != [] {
      hide Blocks, Pending, Unsplit;
      var front, last := blocks[..|blocks| - 1], blocks[|blocks| - 1];
      assert blocks == front + [last];
      ClosedIsSplit(front);
      UnsplitClosed(front, last);
      CloseBlock(Unsplit(front, []), last);
    }
  }

  // ---------- framing ----------

  /** The pieces between newlines. */
  function Pieces(payload: string): (pieces: seq<string>)
    ensures pieces != []
    ensures forall i | 0 <= i < |pieces| :: '\n' !in pieces[i]
  {
    if payload == "" then [""]
    else
      var front, last := payload[..|payload| - 1], payload[|payload| - 1];
      var pieces := Pieces(front);
      if last == '\n' then pieces + [""]
      else pieces[..|pieces| - 1] + [pieces[|pieces| - 1] + [last]]
  }

  lemma JoinSnoc(values: seq<string>, value: string)
    ensures Join(values + [value]) == if values == [] then value else Join(values) + "\n" + value
  {
    assert (values + [value])[..|values|] == values;
  }

  lemma JoinLonger(init: seq<string>, end: string, c: char)
    ensures Join(init + [end + [c]]) == Join(init + [end]) + [c]
  {
    hide Join;
    JoinSnoc(init, end);
    JoinSnoc(init, end + [c]);
    if init != [] {
      assert Join(init) + "\n" + (end + [c]) == Join(init) + "\n" + end + [c];
    }
  }

  /** Joining the pieces of a payload gives it back. */
  lemma {:induction false} JoinPieces(payload: string)
    ensures Join(Pieces(payload)) == payload
  {
    if payload != "" {
      var front, last := payload[..|payload| - 1], payload[|payload| - 1];
      var pieces := Pieces(front);
      JoinPieces(front);
      hide Join;
      assert payload == front + [last];
      if last == '\n' {
        JoinSnoc(pieces, "");
      } else {
        var init, end := pieces[..|pieces| - 1], pieces[|pieces| - 1];
        assert pieces == init + [end];
        JoinLonger(init, end, last);
      }
    }
  }

  /** A payload as data lines. */
  function Frame(payload: string): (lines: seq<string>)
    ensures |lines| == |Pieces(payload)|
    ensures forall i | 0 <= i < |lines| :: lines[i] == "data: " + Pieces(payload)[i]
  {
    seq(|Pieces(payload)|, i requires 0 <= i < |Pieces(payload)| => "data: " + Pieces(payload)[i])
  }

  function Frames(payloads: seq<string>): (blocks: seq<seq<string>>)
    ensures |blocks| == |payloads|
    ensures forall i | 0 <= i < |blocks| :: blocks[i] == Frame(payloads[i])
  {
    seq(|payloads|, i requires 0 <= i < |payloads| => Frame(payloads[i]))
  }

  lemma FramedValue(piece: string)
    ensures DataValue("data: " + piece) == Some(piece)
  {
    var line := "data: " + piece;
    assert line[4] == ':' && line[..4] == "data" && line[5] == ' ';
    assert ColonAt(line, 0) == 4;
    assert line[5..][1..] == piece;
  }

  lemma {:induction false} DataOfPrefix(payload: string, n: nat)
    requires n <= |Pieces(payload)|
    ensures DataOf(Frame(payload)[..n]) == Pieces(payload)[..n]
  {
    if n > 0 {
      var lines := Frame(payload);
      DataOfPrefix(payload, n - 1);
      assert lines[..n][..n - 1] == lines[..n - 1];
      FramedValue(Pieces(payload)[n - 1]);
      hide DataValue, Pieces, Frame;
      assert lines[..n] == lines[..n - 1] + [lines[n - 1]];
    }
  }

  /** Reading a framed payload gives it back. */
  lemma FrameRoundTrip(payload: string)
    ensures DataOf(Frame(payload)) != [] && Join(DataOf(Frame(payload))) == payload
  {
    DataOfPrefix(payload, |Pieces(payload)|);
    JoinPieces(payload);
    assert Frame(payload)[..|Pieces(payload)|] == Frame(payload);
    assert Pieces(payload)[..|Pieces(payload)|] == Pieces(payload);
  }

  /** A stream of framed payloads splits into exactly these frames. */
  lemma FramesRoundTrip(payloads: seq<string>)
    ensures var lines := Unsplit(Frames(payloads), []);
            && Blocks(lines) == Frames(payloads) && Pending(lines) == []
            && forall i | 0 <= i < |payloads| :: DataOf(Blocks(lines)[i]) != [] &&
                Join(DataOf(Blocks(lines)[i])) == payloads[i]
  {
    hide Frame, DataOf, Join;
    forall i | 0 <= i < |payloads| ensures "" !in Frames(payloads)[i] {
      assert forall k | 0 <= k < |Frame(payloads[i])| :: |Frame(payloads[i])[k]| >= 6;
    }
    UnsplitIsSplit(Frames(payloads), []);
    forall i | 0 <= i < |payloads| ensures DataOf(Frames(payloads)[i]) != [] &&
        Join(DataOf(Frames(payloads)[i])) == payloads[i] {
      FrameRoundTrip(payloads[i]);
    }
  }

  // ---------- text and lines ----------

  function NewlineAt(text: string, k: nat): (n: nat)
    requires k <= |text|
    ensures k <= n <= |text|
    ensures forall i | k <= i < n :: text[i] != '\n'
    ensures n < |text| ==> text[n] == '\n'
    decreases |text| - k
  {
    if k < |text| && text[k] != '\n' then NewlineAt(text, k + 1) else k
  }

  function DropReturn(line: string): string {
    if line != "" && line[|line| - 1] == '\r' then line[..|line| - 1] else line
  }

  /** bufio.ScanLines: lines end at a newline, with one carriage return before it dropped; a last line may lack its
      newline. */
  function ScanLines(text: string): seq<string>
    decreases |text|
  {
    if text == "" then []
    else
      var n := NewlineAt(text, 0);
      [DropReturn(text[..n])] + (if n == |text| then [] else ScanLines(text[n + 1..]))
  }

  function Unlines(lines: seq<string>): string {
    if lines == [] then "" else lines[0] + "\n" + Unlines(lines[1..])
  }

  predicate Plain(line: string) {
    '\n' !in line && DropReturn(line) == line
  }

  lemma ScanFirst(line: string, rest: string)
    requires '\n' !in line
    ensures ScanLines(line + "\n" + rest) == [DropReturn(line)] + ScanLines(rest)
  {
    var text := line + "\n" + rest;
    assert text[|line|] == '\n';
    assert forall i | 0 <= i < |line| :: text[i] == line[i];
    assert NewlineAt(text, 0) == |line|;
    assert text[..|line|] == line && text[|line| + 1..] == rest;
  }

  lemma {:induction false} ScannedHaveNoNewline(text: string)
    ensures forall i | 0 <= i < |ScanLines(text)| :: '\n' !in ScanLines(text)[i]
    decreases |text|
  {
    if text != "" {
      var n := NewlineAt(text, 0);
      if n < |text| {
        ScannedHaveNoNewline(text[n + 1..]);
      }
    }
  }

  /** Writing lines and scanning them again gives them back exactly when no line holds a newline or ends with a
      carriage return. */
  lemma {:induction false} ScanRoundTripIff(lines: seq<string>)
    ensures ScanLines(Unlines(lines)) == lines <==> forall i | 0 <= i < |lines| :: Plain(lines[i])
  {
    if lines != [] {
      if '\n' in lines[0] {
        ScannedHaveNoNewline(Unlines(lines));
        assert !Plain(lines[0]);
      } else {
        hide Plain, ScanLines;
        ScanRoundTripIff(lines[1..]);
        ScanFirst(lines[0], Unlines(lines[1..]));
        PlainTail(lines);
        var scanned := [DropReturn(lines[0])] + ScanLines(Unlines(lines[1..]));
        assert scanned[0] == DropReturn(lines[0]) && scanned[1..] == ScanLines(Unlines(lines[1..]));
        assert lines == [lines[0]] + lines[1..];
        assert '\n' !in lines[0] ==> (Plain(lines[0]) <==> DropReturn(lines[0]) == lines[0]) by { PlainLine(lines[0]); }
      }
    }
  }

  lemma PlainLine(line: string)
    ensures '\n' !in line ==> (Plain(line) <==> DropReturn(line) == line)
  {}

  lemma PlainTail(lines: seq<string>)
    requires lines != []
    ensures (forall i | 0 <= i < |lines| :: Plain(lines[i])) <==>
            Plain(lines[0]) && forall i | 0 <= i < |lines| - 1 :: Plain(lines[1..][i])
  {
    hide Plain;
    assert forall i | 0 < i < |lines| :: lines[i] == lines[1..][i - 1];
  }

  // ---------- from payloads to deltas ----------

  function PayloadSignals(payloads: seq<string>, env: Environment): (signals: seq<Signal>)
    ensures |signals| == |payloads|
    ensures forall i | 0 <= i < |signals| :: signals[i] == PayloadSignal(payloads[i], env)
  {
    seq(|payloads|, i requires 0 <= i < |payloads| => PayloadSignal(payloads[i], env))
  }

  predicate PlainPayload(payload: string) {
    forall i | 0 <= i < |Pieces(payload)| :: Plain(Pieces(payload)[i])
  }

  predicate AllPlain(lines: seq<string>) {
    forall i | 0 <= i < |lines| :: Plain(lines[i])
  }

  /** The text of a stream of framed payloads reads as these payloads, one signal each: nothing is lost, merged or
      added between the server's payloads and the callback. */
  lemma FramedTextReads(payloads: seq<string>, env: Environment)
    requires forall i | 0 <= i < |payloads| :: PlainPayload(payloads[i])
    requires !env.scanFails
    requires forall i: nat | i < |Unsplit(Frames(payloads), [])| :: !Halts(Unsplit(Frames(payloads), []), i, env)
    ensures Reading(ScanLines(Unlines(Unsplit(Frames(payloads), []))), env) ==
            Judged(PayloadSignals(payloads, env), EndedEarly, env)
  {
    hide Frames, ScanLines, Unlines, Judged, PayloadSignals, PlainPayload, Halts, Unsplit;
    var lines := Unsplit(Frames(payloads), []);
    forall i | 0 <= i < |payloads| ensures AllPlain(Frames(payloads)[i]) {
      FramePlain(payloads[i]);
    }
    UnsplitPlain(Frames(payloads));
    ScanRoundTripIff(lines);
    FramesRoundTrip(payloads);
    FrameSignals(payloads, env);
    TrailingNothing(PayloadSignals(payloads, env), EndedEarly, env);
  }

  lemma FramePlain(payload: string)
    requires PlainPayload(payload)
    ensures AllPlain(Frame(payload))
  {
    hide Pieces;
    forall i | 0 <= i < |Frame(payload)| ensures Plain(Frame(payload)[i]) {
      PlainFramed(Pieces(payload)[i]);
    }
  }

  lemma PlainFramed(piece: string)
    requires Plain(piece)
    ensures Plain("data: " + piece)
  {
    var line := "data: " + piece;
    assert line[|line| - 1] == if piece == "" then ' ' else piece[|piece| - 1];
  }

  lemma {:induction false} UnsplitPlain(blocks: seq<seq<string>>)
    requires forall i | 0 <= i < |blocks| :: AllPlain(blocks[i])
    ensures AllPlain(Unsplit(blocks, []))
  {
    if blocks != [] {
      assert Plain("");
      hide Plain;
      UnsplitPlain(blocks[1..]);
    }
  }

  lemma FrameSignals(payloads: seq<string>, env: Environment)
    ensures Signals(Frames(payloads) + [[]], env) == PayloadSignals(payloads, env) + [Nothing]
  {
    hide Frame, DataOf, Join, PayloadSignal;
    forall i | 0 <= i < |payloads|
      ensures BlockSignal(DataOf(Frames(payloads)[i]), env) == PayloadSignal(payloads[i], env)
    {
      FrameRoundTrip(payloads[i]);
    }
    NoData();
  }

  lemma NoData()
    ensures DataOf([]) == []
  {}

  lemma TrailingNothing(signals: seq<Signal>, ending: Failure, env: Environment)
    ensures Judged(signals + [Nothing], ending, env) == Judged(signals, ending, env)
  {
    TrailingStop(signals, env);
    DeltasSnoc(signals, Nothing);
    hide Stops, Deltas, FirstStop;
    var all := signals + [Nothing];
    assert Deltas(signals) + [] == Deltas(signals);
    var k := FirstStop(signals, env, 0);
    if k < |signals| {
      assert all[..k + 1] == signals[..k + 1];
    }
  }

  lemma TrailingStop(signals: seq<Signal>, env: Environment)
    ensures var k := FirstStop(signals, env, 0);
            FirstStop(signals + [Nothing], env, 0) == if k < |signals| then k else |signals| + 1
  {
    var all := signals + [Nothing];
    assert !Stops(all, |signals|, env);
    hide Stops;
    forall i: nat | i < |signals| ensures Stops(all, i, env) == Stops(signals, i, env) {
      StopsInPrefix(signals, all, i, env);
    }
  }

  // ---------- comparison with the standard ----------

  /** Section 9.2.6 of the WHATWG HTML Living Standard: a line that is only the field name has the empty value. */
  function StandardValue(line: string): Option<string> {
    if line == "data" then Some("") else DataValue(line)
  }

  function StandardDataOf(block: seq<string>): seq<string> {
    if block == [] then []
    else
      var front, last := block[..|block| - 1], block[|block| - 1];
      StandardDataOf(front) + (if StandardValue(last).Some? then [StandardValue(last).value] else [])
  }

  /** The payloads of the blocks that have data. */
  function Payloads(data: seq<seq<string>>): seq<string> {
    if data == [] then []
    else (if data[0] == [] then [] else [Join(data[0])]) + Payloads(data[1..])
  }

  function DataOfAll(blocks: seq<seq<string>>): (data: seq<seq<string>>)
    ensures |data| == |blocks| && forall i | 0 <= i < |data| :: data[i] == DataOf(blocks[i])
  {
    seq(|blocks|, i requires 0 <= i < |blocks| => DataOf(blocks[i]))
  }

  function StandardDataOfAll(blocks: seq<seq<string>>): (data: seq<seq<string>>)
    ensures |data| == |blocks| && forall i | 0 <= i < |data| :: data[i] == StandardDataOf(blocks[i])
  {
    seq(|blocks|, i requires 0 <= i < |blocks| => StandardDataOf(blocks[i]))
  }

  /** What the code dispatches at a clean end: it takes the pending block too. */
  function CodePayloads(lines: seq<string>): seq<string> {
    Payloads(DataOfAll(Blocks(lines)) + [DataOf(Pending(lines))])
  }

  /** What the standard dispatches: a block that no blank line ends is discarded. */
  function StandardPayloads(lines: seq<string>): seq<string> {
    Payloads(StandardDataOfAll(Blocks(lines)))
  }

  predicate OneLine(data: seq<string>) {
    forall i | 0 <= i < |data| :: '\n' !in data[i]
  }

  function Blanks(n: nat): seq<string> {
    seq(n, _ => "")
  }

  /** How many lines are just "data". */
  function BareIn(block: seq<string>): nat {
    if block == [] then 0 else BareIn(block[..|block| - 1]) + (if block[|block| - 1] == "data" then 1 else 0)
  }

  function Bare(blocks: seq<seq<string>>): nat {
    if blocks == [] then 0 else Bare(blocks[..|blocks| - 1]) + BareIn(blocks[|blocks| - 1])
  }

  /** The block at i, with n bare lines in the blocks before it, does not tell the code from the standard: it has no
      bare line and comes before any, or has no data at all, or its values are as many empty ones as there were bare lines. */
  predicate Hides(block: seq<string>, n: nat) {
    BareIn(block) > 0 || (n > 0 && DataOf(block) != []) ==> DataOf(block) == Blanks(n)
  }

  /** Every difference is made up for by the next block with data, and the last one by the pending data. */
  predicate DifferencesCancel(blocks: seq<seq<string>>, pending: seq<string>) {
    && (forall i | 0 <= i < |blocks| :: Hides(blocks[i], Bare(blocks[..i])))
    && DataOf(pending) == Blanks(Bare(blocks))
  }

  /** The code agrees with the standard exactly when the differences cancel. So without a line that is just "data" it
      agrees exactly when no data is left pending, and with nothing left pending exactly when there is no such line. */
  lemma AgreesWithStandardIff(lines: seq<string>)
    requires OneLine(lines)
    ensures CodePayloads(lines) == StandardPayloads(lines) <==> DifferencesCancel(Blocks(lines), Pending(lines))
    ensures Bare(Blocks(lines)) == 0 ==> (CodePayloads(lines) == StandardPayloads(lines) <==> DataOf(Pending(lines)) == [])
    ensures DataOf(Pending(lines)) == [] ==> (CodePayloads(lines) == StandardPayloads(lines) <==> Bare(Blocks(lines)) == 0)
  {
    var blocks, pending := Blocks(lines), Pending(lines);
    SplitIsExact(lines);
    LinesOfBlocks(blocks, pending);
    Behind(0, blocks, pending);
    CancelFrom(blocks, pending);
    if Bare(blocks) == 0 {
      NothingBare(blocks);
    }
  }

  /** Both may agree although they differ: here the code reads the pending line where the standard reads the bare one. */
  lemma DifferencesMayCancel()
    ensures var lines := ["data", "", "data:"];
            && CodePayloads(lines) == StandardPayloads(lines) && Bare(Blocks(lines)) == 1 && DataOf(Pending(lines)) == [""]
  {
    var lines := ["data", "", "data:"];
    SplitExample();
    OneLineData("data");
    OneLineData("data:");
    BareHasNoValue();
    EmptyValue();
    OneBare();
    hide DataValue, DataOf, BareIn, Bare, Blocks, Pending, CodePayloads, StandardPayloads;
    assert [["data"]][..0] == [];
    assert Blanks(0) == [] && Blanks(1) == [""];
    AgreesWithStandardIff(lines);
  }

  lemma SplitExample()
    ensures Blocks(["data", "", "data:"]) == [["data"]] && Pending(["data", "", "data:"]) == ["data:"]
  {
    hide Blocks, Pending;
    UnsplitIsSplit([["data"]], ["data:"]);
    assert [["data"]][1..] == [] && Unsplit([], ["data:"]) == ["data:"];
    assert Unsplit([["data"]], ["data:"]) == ["data"] + [""] + ["data:"] == ["data", "", "data:"];
  }

  lemma OneLineData(line: string)
    ensures DataOf([line]) == if DataValue(line).Some? then [DataValue(line).value] else []
  {
    hide DataValue;
    assert [line][..0] == [] && DataOf([]) == [];
  }

  lemma OneBare()
    ensures Bare([]) == 0 && BareIn(["data"]) == 1 && Bare([["data"]]) == 1
  {
    assert ["data"][..0] == [] && [["data"]][..0] == [] && BareIn([]) == 0;
  }

  lemma EmptyValue()
    ensures DataValue("data:") == Some("")
  {
    var line := "data:";
    assert line[4] == ':' && line[..4] == "data";
    assert ColonAt(line, 0) == 4;
    assert line[5..] == "";
  }

  lemma BareHasNoValue()
    ensures DataValue("data") == None
  {
    var line := "data";
    assert ColonAt(line, 0) == |line| by {
      assert forall i | 0 <= i < |line| :: line[i] != ':';
    }
  }

  // ---------- data lists ----------

  lemma {:induction false} PiecesOfJoin(data: seq<string>)
    requires data != [] && OneLine(data)
    ensures Pieces(Join(data)) == data
  {
    var front, last := data[..|data| - 1], data[|data| - 1];
    assert data == front + [last];
    if front == [] {
      PiecesAppend("", last);
      assert Join(data) == "" + last && [""][..0] + ["" + last] == data;
    } else {
      PiecesOfJoin(front);
      JoinSnoc(front, last);
      var ended := Join(front) + "\n";
      assert ended[..|ended| - 1] == Join(front) && ended[|ended| - 1] == '\n';
      assert Pieces(ended) == front + [""];
      PiecesAppend(ended, last);
      assert (front + [""])[..|front|] == front && "" + last == last;
    }
  }

  lemma {:induction false} PiecesAppend(s: string, more: string)
    requires '\n' !in more
    ensures Pieces(s + more) == Longer(Pieces(s), more)
  {
    PiecesLast(s + more);
    LongerTwice(Pieces(s), more);
    hide Pieces, Longer;
    if more == "" {
      assert s + more == s;
    } else {
      var front, c := more[..|more| - 1], more[|more| - 1];
      var all := s + more;
      PiecesAppend(s, front);
      assert all[..|all| - 1] == s + front && all[|all| - 1] == c;
    }
  }

  /** The last piece grows. */
  function Longer(pieces: seq<string>, more: string): seq<string>
    requires pieces != []
  {
    pieces[..|pieces| - 1] + [pieces[|pieces| - 1] + more]
  }

  lemma LongerTwice(pieces: seq<string>, more: string)
    requires pieces != []
    ensures Longer(pieces, "") == pieces
    ensures more != "" ==> Longer(Longer(pieces, more[..|more| - 1]), [more[|more| - 1]]) == Longer(pieces, more)
  {
    var last := pieces[|pieces| - 1];
    assert last + "" == last && pieces == pieces[..|pieces| - 1] + [last];
    if more != "" {
      assert last + more[..|more| - 1] + [more[|more| - 1]] == last + more;
    }
  }

  lemma PiecesLast(s: string)
    ensures s != "" ==>
              var pieces := Pieces(s[..|s| - 1]);
              Pieces(s) == if s[|s| - 1] == '\n' then pieces + [""]
                           else Longer(pieces, [s[|s| - 1]])
  {}

  lemma JoinIsInjective(a: seq<string>, b: seq<string>)
    requires a != [] && b != [] && OneLine(a) && OneLine(b)
    ensures Join(a) == Join(b) <==> a == b
  {
    hide Pieces, Join;
    PiecesOfJoin(a);
    PiecesOfJoin(b);
  }

  lemma {:induction false} BlockData(block: seq<string>)
    ensures |StandardDataOf(block)| == |DataOf(block)| + BareIn(block)
    ensures BareIn(block) == 0 ==> StandardDataOf(block) == DataOf(block)
    ensures DataOf(block) == Blanks(|DataOf(block)|) ==> StandardDataOf(block) == Blanks(|StandardDataOf(block)|)
  {
    if block != [] {
      var front, last := block[..|block| - 1], block[|block| - 1];
      BlockData(front);
      BareHasNoValue();
      hide DataValue;
      if DataOf(block) == Blanks(|DataOf(block)|) {
        assert forall i | 0 <= i < |DataOf(front)| :: DataOf(block)[i] == DataOf(front)[i];
        assert DataOf(front) == Blanks(|DataOf(front)|);
        if StandardValue(last).Some? {
          assert last != "data" ==> DataOf(block)[|DataOf(front)|] == StandardValue(last).value;
        }
      }
    }
  }

  lemma {:induction false} ValuesOneLine(block: seq<string>)
    requires OneLine(block)
    ensures OneLine(StandardDataOf(block)) && OneLine(DataOf(block))
  {
    if block != [] {
      ValuesOneLine(block[..|block| - 1]);
    }
  }

  lemma {:induction false} LinesOfBlocks(blocks: seq<seq<string>>, pending: seq<string>)
    requires OneLine(Unsplit(blocks, pending))
    ensures OneLine(pending) && forall i | 0 <= i < |blocks| :: OneLine(blocks[i])
  {
    if blocks != [] {
      var all, rest := Unsplit(blocks, pending), Unsplit(blocks[1..], pending);
      assert forall k | 0 <= k < |blocks[0]| :: blocks[0][k] == all[k];
      assert forall k | 0 <= k < |rest| :: rest[k] == all[|blocks[0]| + 1 + k];
      LinesOfBlocks(blocks[1..], pending);
      assert forall i | 0 < i < |blocks| :: blocks[i] == blocks[1..][i - 1];
    }
  }

  // ---------- the two readings side by side ----------

  /** What the standard has dispatched and the code has not, after n bare lines. */
  function Owed(n: nat): seq<string> {
    if n == 0 then [] else [Join(Blanks(n))]
  }

  predicate Cancel(n: nat, blocks: seq<seq<string>>, pending: seq<string>)
    decreases |blocks|
  {
    if blocks == [] then DataOf(pending) == Blanks(n)
    else Hides(blocks[0], n) && Cancel(n + BareIn(blocks[0]), blocks[1..], pending)
  }

  function CodeRest(blocks: seq<seq<string>>, pending: seq<string>): seq<string> {
    Payloads(DataOfAll(blocks) + [DataOf(pending)])
  }

  function Payload(data: seq<string>): seq<string> {
    if data == [] then [] else [Join(data)]
  }

  lemma CodeFirst(blocks: seq<seq<string>>, pending: seq<string>)
    ensures blocks == [] ==> CodeRest(blocks, pending) == Payload(DataOf(pending))
    ensures blocks != [] ==> CodeRest(blocks, pending) == Payload(DataOf(blocks[0])) + CodeRest(blocks[1..], pending)
  {
    hide DataOf, Join;
    var data := DataOfAll(blocks) + [DataOf(pending)];
    if blocks == [] {
      assert data == [DataOf(pending)] && data[1..] == [];
      assert Payloads([]) == [];
    } else {
      assert data[1..] == DataOfAll(blocks[1..]) + [DataOf(pending)];
    }
  }

  lemma StandardFirst(blocks: seq<seq<string>>)
    requires blocks != []
    ensures Payloads(StandardDataOfAll(blocks)) ==
            Payload(StandardDataOf(blocks[0])) + Payloads(StandardDataOfAll(blocks[1..]))
  {
    hide StandardDataOf, Join;
    assert StandardDataOfAll(blocks)[1..] == StandardDataOfAll(blocks[1..]);
  }

  lemma {:induction false} StandardHasNoFewer(blocks: seq<seq<string>>, pending: seq<string>)
    ensures |CodeRest(blocks, pending)| <= |Payloads(StandardDataOfAll(blocks))| + 1
  {
    CodeFirst(blocks, pending);
    if blocks != [] {
      StandardFirst(blocks);
      BlockData(blocks[0]);
      hide DataOf, StandardDataOf, CodeRest, Payloads;
      StandardHasNoFewer(blocks[1..], pending);
    }
  }

  /** The code, n bare lines behind, catches up with the standard exactly when the rest of the blocks cancel. */
  lemma {:induction false} Behind(n: nat, blocks: seq<seq<string>>, pending: seq<string>)
    requires OneLine(pending) && forall i | 0 <= i < |blocks| :: OneLine(blocks[i])
    ensures Owed(n) + Payloads(StandardDataOfAll(blocks)) == CodeRest(blocks, pending) <==> Cancel(n, blocks, pending)
    decreases |blocks|
  {
    hide DataOf, StandardDataOf, CodeRest, Join, OneLine, Payloads, DataOfAll, StandardDataOfAll;
    CodeFirst(blocks, pending);
    BlanksOneLine(n);
    if blocks == [] {
      NoPayloads();
      ValuesOneLine(pending);
      SamePayload(DataOf(pending), Blanks(n));
    } else {
      StandardFirst(blocks);
      var block, rest := blocks[0], blocks[1..];
      ValuesOneLine(block);
      BlockData(block);
      Behind(n + BareIn(block), rest, pending);
      StandardHasNoFewer(rest, pending);
      OneBlock(n, DataOf(block), StandardDataOf(block), BareIn(block), Payloads(StandardDataOfAll(rest)),
               CodeRest(rest, pending));
    }
  }

  lemma NoPayloads()
    ensures Payloads(StandardDataOfAll([])) == []
  {}

  lemma BlanksOneLine(n: nat)
    ensures OneLine(Blanks(n))
  {}

  lemma SamePayload(a: seq<string>, b: seq<string>)
    requires OneLine(a) && OneLine(b)
    ensures Payload(a) == Payload(b) <==> a == b
  {
    hide Join;
    if a != [] && b != [] {
      JoinIsInjective(a, b);
    }
  }

  lemma OneBlock(n: nat, data: seq<string>, standard: seq<string>, bare: nat, after: seq<string>, codeAfter: seq<string>)
    requires OneLine(data) && OneLine(standard) && |standard| == |data| + bare
    requires bare == 0 ==> standard == data
    requires data == Blanks(|data|) ==> standard == Blanks(|standard|)
    requires |codeAfter| <= |after| + 1
    ensures Owed(n) + (Payload(standard) + after) == Payload(data) + codeAfter <==>
            (bare > 0 || (n > 0 && data != []) ==> data == Blanks(n)) && Owed(n + bare) + after == codeAfter
  {
    hide Join, OneLine;
    BlanksOneLine(n);
    SamePayload(data, standard);
    SamePayload(data, Blanks(n));
    BlankPayload(n);
    BlankPayload(n + bare);
    hide Payload, Blanks, Owed;
    Heads([], Payload(standard) + after, [], Payload(data) + codeAfter);
    NothingFirst(Payload(standard) + after);
    NothingFirst(after);
    NothingFirst(codeAfter);
    if n == 0 || data == [] {
      Heads(Payload(standard), after, Payload(data), codeAfter);
    } else {
      Heads(Owed(n), Payload(standard) + after, Payload(data), codeAfter);
    }
  }

  lemma BlankPayload(n: nat)
    ensures |Blanks(n)| == n && Payload(Blanks(n)) == Owed(n) && |Owed(n)| == (if n == 0 then 0 else 1)
    ensures Blanks(0) == [] && Owed(0) == [] && Payload([]) == []
    ensures forall data: seq<string> :: data != [] ==> |Payload(data)| == 1
  {
    hide Join;
  }

  lemma NothingFirst(s: seq<string>)
    ensures [] + s == s
  {}

  /** Two lists agree when their first elements do and the rest does. */
  lemma Heads(x: seq<string>, a: seq<string>, y: seq<string>, b: seq<string>)
    ensures |x| == |y| ==> (x + a == y + b <==> x == y && a == b)
  {
    if |x| == |y| && x + a == y + b {
      assert (x + a)[..|x|] == x && (y + b)[..|y|] == y;
      assert (x + a)[|x|..] == a && (y + b)[|y|..] == b;
    }
  }

  predicate HideFrom(blocks: seq<seq<string>>, k: nat) {
    forall i | k <= i < |blocks| :: Hides(blocks[i], Bare(blocks[..i]))
  }

  lemma CancelFrom(blocks: seq<seq<string>>, pending: seq<string>)
    ensures Cancel(0, blocks, pending) <==> DifferencesCancel(blocks, pending)
  {
    hide Hides, DataOf, BareIn;
    CancelRest(blocks, 0, pending);
    assert blocks[0..] == blocks && blocks[..0] == [];
  }

  lemma {:induction false} CancelRest(blocks: seq<seq<string>>, k: nat, pending: seq<string>)
    requires k <= |blocks|
    ensures Cancel(Bare(blocks[..k]), blocks[k..], pending) <==>
            HideFrom(blocks, k) && DataOf(pending) == Blanks(Bare(blocks))
    decreases |blocks| - k
  {
    hide Hides, DataOf, BareIn, HideFrom, Bare, Blanks;
    if k == |blocks| {
      assert blocks[..k] == blocks;
      assert HideFrom(blocks, k) by { HideFromEnd(blocks); }
    } else {
      CancelRest(blocks, k + 1, pending);
      BareNext(blocks, k);
      HideFromNext(blocks, k);
      assert blocks[k..][1..] == blocks[k + 1..] && blocks[k..][0] == blocks[k];
    }
  }

  lemma HideFromEnd(blocks: seq<seq<string>>)
    ensures HideFrom(blocks, |blocks|)
  {}

  lemma HideFromNext(blocks: seq<seq<string>>, k: nat)
    requires k < |blocks|
    ensures HideFrom(blocks, k) <==> Hides(blocks[k], Bare(blocks[..k])) && HideFrom(blocks, k + 1)
  {
    hide Hides, Bare;
  }

  lemma BareNext(blocks: seq<seq<string>>, k: nat)
    requires k < |blocks|
    ensures Bare(blocks[..k + 1]) == Bare(blocks[..k]) + BareIn(blocks[k])
  {
    hide BareIn;
    assert blocks[..k + 1][..k] == blocks[..k];
  }

  lemma {:induction false} NothingBare(blocks: seq<seq<string>>)
    requires Bare(blocks) == 0
    ensures forall i | 0 <= i < |blocks| :: Hides(blocks[i], Bare(blocks[..i]))
  {
    hide DataOf, BareIn;
    if blocks != [] {
      var front := blocks[..|blocks| - 1];
      NothingBare(front);
      assert Hides(blocks[|front|], 0);
      hide Hides, Bare;
      forall i | 0 <= i < |front| ensures Hides(blocks[i], Bare(blocks[..i])) {
        assert front[..i] == blocks[..i] && front[i] == blocks[i];
      }
    }
  }
}
