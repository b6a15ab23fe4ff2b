/** runStream and the goroutine that feeds it: two processes, a reader, three channels and two contexts, interleaved
    step by step. */
module ChatStream {
  import opened Base

  /** A stream event; an error event carries no further detail here. */
  datatype Event = Meta | Delta(content: string) | Ping | Done(finishReason: string) | Failure

  /** What Chat.Stream returned. */
  datatype Final = Finished(reason: string) | Broken

  /** Where runStream stands. The three last phases are its deferred calls, in the order they run. */
  datatype Main =
    | SendingMeta
    | Selecting
    | SendingDelta(content: string)
    | SendingPing
    | SendingDone(reason: string)
    | SendingFailure
    | Cancelling
    | Releasing
    | Closing
    | Returned

  /** Where the goroutine stands; an offered delta waits in the callback's select. */
  datatype Producer = NotStarted | Streaming | Offering(delta: string) | Ended

  const CAPACITY := 16

  datatype Cleanup = Cancelled | Released | Closed

  /** `produced` remembers the deltas the callback accepted, `sent` the events the events channel accepted, `dropped` a
      delta that was taken from the channel but not sent, and `cleanup` the deferred calls, in order. */
  datatype State = State(
    main: Main, producer: Producer, deltas: seq<string>, result: Option<Final>,
    unread: nat, requestDone: bool, streamDone: bool,
    produced: seq<string>, sent: seq<Event>, dropped: seq<string>, cleanup: seq<Cleanup>)

  datatype Action =
    | Send                      // a pending send of runStream succeeds
    | GiveUp                    // or its context is done
    | TakeDelta                 // the branches of the main select
    | TakeResult
    | TakeTick
    | TakeStreamDone
    | RunDeferred               // the next deferred call
    | Offer(delta: string)      // the upstream delivers a delta to the callback
    | Accept                    // the callback's select: the channel takes it
    | Reject                    // or the stream context is done
    | Finish(final: Final)      // Chat.Stream returns and its result is stored
    | Read                      // the handler reads one event
    | CancelRequest             // the request's context ends, and the stream's with it
    | Timeout                   // the stream's context ends

  function PendingEvent(main: Main): Option<Event> {
    match main
    case SendingMeta => Some(Meta)
    case SendingDelta(content) => Some(Delta(content))
    case SendingPing => Some(Ping)
    case SendingDone(reason) => Some(Done(reason))
    case SendingFailure => Some(Failure)
    case _ => None
  }

  /** After a send that succeeded: only meta, deltas and pings go on to another select. */
  function AfterSend(main: Main): Main {
    if main.SendingMeta? || main.SendingDelta? || main.SendingPing? then Selecting else Cancelling
  }

  /** The context that a send also waits for: errors are sent under the request's context. */
  predicate SendMayGiveUp(s: State) {
    if s.main.SendingFailure? then s.requestDone else s.streamDone
  }

  function Apply(s: State, a: Action): State {
    match a
    case Send =>
      if PendingEvent(s.main).Some? && s.unread < CAPACITY then
        s.(main := AfterSend(s.main), sent := s.sent + [PendingEvent(s.main).value], unread := s.unread + 1,
           producer := if s.main.SendingMeta? then Streaming else s.producer)
      else s
    case GiveUp =>
      if PendingEvent(s.main).Some? && SendMayGiveUp(s) then
        s.(main := Cancelling, dropped := if s.main.SendingDelta? then s.dropped + [s.main.content] else s.dropped)
      else s
    case TakeDelta =>
      if s.main.Selecting? && s.deltas != [] then
        s.(main := SendingDelta(s.deltas[0]), deltas := s.deltas[1..])
      else s
    case TakeResult =>
      if s.main.Selecting? && s.result.Some? then
        s.(main := if s.result.value.Broken? then SendingFailure else SendingDone(s.result.value.reason), result := None)
      else s
    case TakeTick =>
      if s.main.Selecting? then s.(main := SendingPing) else s
    case TakeStreamDone =>
      if s.main.Selecting? && s.streamDone then s.(main := SendingFailure) else s
    case RunDeferred =>
      (match s.main
       case Cancelling => s.(main := Releasing, streamDone := true, cleanup := s.cleanup + [Cancelled])
       case Releasing => s.(main := Closing, cleanup := s.cleanup + [Released])
       case Closing => s.(main := Returned, cleanup := s.cleanup + [Closed])
       case _ => s)
    case Offer(delta) =>
      if s.producer.Streaming? then s.(producer := Offering(delta)) else s
    case Accept =>
      if s.producer.Offering? && |s.deltas| < CAPACITY then
        s.(producer := Streaming, deltas := s.deltas + [s.producer.delta], produced := s.produced + [s.producer.delta])
      else s
    case Reject =>
      if s.producer.Offering? && s.streamDone then s.(producer := Ended, result := Some(Broken)) else s
    case Finish(final) =>
      if s.producer.Streaming? then s.(producer := Ended, result := Some(final)) else s
    case Read =>
      if s.unread > 0 then s.(unread := s.unread - 1) else s
    case CancelRequest =>
      s.(requestDone := true, streamDone := true)
    case Timeout =>
      s.(streamDone := true)
  }

  const INIT := State(SendingMeta, NotStarted, [], None, 0, false, false, [], [], [], [])

  function Exec(s: State, actions: seq<Action>): State
    decreases |actions|
  {
    if actions == [] then s else Exec(Apply(s, actions[0]), actions[1..])
  }

  ghost predicate Reachable(s: State) {
    exists actions :: s == Exec(INIT, actions)
  }

  // ---------- the language of event sequences ----------

  predicate IsBody(events: seq<Event>) {
    forall i | 0 <= i < |events| :: events[i].Delta? || events[i].Ping?
  }

  /** meta (delta | ping)* */
  predicate IsOpen(events: seq<Event>) {
    events != [] && events[0] == Meta && IsBody(events[1..])
  }

  /** Nothing, or meta (delta | ping)* (done | error)? */
  predicate IsConversation(events: seq<Event>) {
    events == [] || IsOpen(events) ||
    (IsOpen(events[..|events| - 1]) && (events[|events| - 1].Done? || events[|events| - 1].Failure?))
  }

  function Contents(events: seq<Event>): seq<string> {
    if events == [] then []
    else
      var last := events[|events| - 1];
      Contents(events[..|events| - 1]) + (if last.Delta? then [last.content] else [])
  }

  predicate IsTerminated(events: seq<Event>) {
    events != [] && (events[|events| - 1].Done? || events[|events| - 1].Failure?)
  }

  // ---------- invariant ----------

  predicate LanguageOk(main: Main, sent: seq<Event>) {
    if main.SendingMeta? then sent == []
    else if Ending(main) then IsConversation(sent)
    else IsOpen(sent)
  }

  predicate CleanupOk(s: State) {
    match s.main
    case Releasing => s.cleanup == [Cancelled] && s.streamDone
    case Closing => s.cleanup == [Cancelled, Released] && s.streamDone
    case Returned => s.cleanup == [Cancelled, Released, Closed] && s.streamDone
    case _ => s.cleanup == []
  }

  function InFlight(s: State): seq<string> {
    if s.main.SendingDelta? then [s.main.content] else []
  }

  predicate Ending(main: Main) {
    main.Cancelling? || main.Releasing? || main.Closing? || main.Returned?
  }

  /** Nothing is lost, reordered or invented: what was produced is what was sent, at most one delta that was taken but not
      sent, and what the channel still holds. Only a stream that has ended drops anything. */
  predicate DeltasOk(s: State) {
    && s.produced == Contents(s.sent) + s.dropped + InFlight(s) + s.deltas
    && |s.dropped| <= 1
    && (s.dropped != [] ==> Ending(s.main) && s.streamDone && !IsTerminated(s.sent))
    && |s.deltas| <= CAPACITY
  }

  /** A result exists, or has been taken, only after the goroutine has ended. */
  predicate ResultOk(s: State) {
    && (s.result.Some? || s.main.SendingDone? || (s.sent != [] && s.sent[|s.sent| - 1].Done?) ==> s.producer.Ended?)
    && (s.main.SendingMeta? ==> s.producer.NotStarted?)
  }

  predicate Sound(s: State) {
    LanguageOk(s.main, s.sent) && CleanupOk(s) && DeltasOk(s) && ResultOk(s) && (s.requestDone ==> s.streamDone)
  }

  lemma MetaOpens()
    ensures IsOpen([Meta])
  {}

  lemma OpenIsConversation(events: seq<Event>)
    ensures IsOpen(events) || events == [] ==> IsConversation(events)
  {}

  lemma OpenGrows(events: seq<Event>, event: Event)
    requires IsOpen(events) && (event.Delta? || event.Ping?)
    ensures IsOpen(events + [event])
  {
    assert (events + [event])[1..] == events[1..] + [event];
  }

  lemma OpenEnds(events: seq<Event>, event: Event)
    requires IsOpen(events) && (event.Done? || event.Failure?)
    ensures IsConversation(events + [event])
  {
    assert (events + [event])[..|events|] == events;
  }

  lemma ContentsGrow(events: seq<Event>, event: Event)
    ensures Contents(events + [event]) == Contents(events) + (if event.Delta? then [event.content] else [])
  {
    assert (events + [event])[..|events|] == events;
  }

  lemma SendKeepsLanguage(main: Main, sent: seq<Event>)
    requires LanguageOk(main, sent) && PendingEvent(main).Some?
    ensures LanguageOk(AfterSend(main), sent + [PendingEvent(main).value])
  {
    hide IsOpen, IsConversation;
    var event := PendingEvent(main).value;
    if main.SendingMeta? {
      MetaOpens();
      assert sent + [event] == [Meta];
    } else if main.SendingDelta? || main.SendingPing? {
      OpenGrows(sent, event);
    } else {
      OpenEnds(sent, event);
    }
  }

  lemma StepKeepsLanguage(s: State, a: Action)
    requires LanguageOk(s.main, s.sent)
    ensures LanguageOk(Apply(s, a).main, Apply(s, a).sent)
  {
    hide IsOpen, IsConversation;
    OpenIsConversation(s.sent);
    if a.Send? && PendingEvent(s.main).Some? && s.unread < CAPACITY {
      SendKeepsLanguage(s.main, s.sent);
    }
  }

  lemma StepKeepsCleanup(s: State, a: Action)
    requires CleanupOk(s)
    ensures CleanupOk(Apply(s, a))
  {}

  lemma OpenIsNotTerminated(events: seq<Event>)
    requires IsOpen(events)
    ensures !IsTerminated(events)
  {
    var last := events[|events| - 1];
    assert |events| > 1 ==> last == events[1..][|events| - 2];
  }

  lemma SendKeepsDeltas(s: State)
    requires LanguageOk(s.main, s.sent) && DeltasOk(s)
    ensures DeltasOk(Apply(s, Send))
  {
    hide IsOpen, IsConversation, Contents, IsTerminated;
    if PendingEvent(s.main).Some? && s.unread < CAPACITY {
      ContentsGrow(s.sent, PendingEvent(s.main).value);
      assert s.dropped == [];
    }
  }

  lemma GiveUpKeepsDeltas(s: State)
    requires LanguageOk(s.main, s.sent) && DeltasOk(s)
    ensures DeltasOk(Apply(s, GiveUp))
  {
    hide IsOpen, IsConversation, Contents, IsTerminated;
    if s.main.SendingDelta? {
      OpenIsNotTerminated(s.sent);
    }
  }

  lemma StepKeepsDeltas(s: State, a: Action)
    requires LanguageOk(s.main, s.sent) && DeltasOk(s)
    ensures DeltasOk(Apply(s, a))
  {
    hide IsOpen, IsConversation, Contents, IsTerminated;
    if a.Send? {
      SendKeepsDeltas(s);
    } else if a.GiveUp? {
      GiveUpKeepsDeltas(s);
    }
  }

  lemma StepKeepsResult(s: State, a: Action)
    requires ResultOk(s)
    ensures ResultOk(Apply(s, a))
  {}

  lemma StepKeepsSound(s: State, a: Action)
    requires Sound(s)
    ensures Sound(Apply(s, a))
  {
    StepKeepsLanguage(s, a);
    StepKeepsCleanup(s, a);
    StepKeepsDeltas(s, a);
    StepKeepsResult(s, a);
    hide LanguageOk, CleanupOk, DeltasOk, ResultOk;
  }

  lemma {:induction false} RunKeepsSound(s: State, actions: seq<Action>)
    requires Sound(s)
    ensures Sound(Exec(s, actions))
    decreases |actions|
  {
    hide Sound, Apply;
    if actions != [] {
      StepKeepsSound(s, actions[0]);
      RunKeepsSound(Apply(s, actions[0]), actions[1..]);
    }
  }

  lemma ReachableIsSound(s: State)
    requires Reachable(s)
    ensures Sound(s)
  {
    var actions :| s == Exec(INIT, actions);
    RunKeepsSound(INIT, actions);
  }

  // ---------- main results ----------

  /** The client sees nothing, or meta (delta | ping)* (done | error)?; the deltas it sees are an in-order prefix of those
      the upstream delivered. */
  lemma ClientSeesAConversation(s: State)
    requires Reachable(s)
    ensures IsConversation(s.sent)
    ensures Contents(s.sent) <= s.produced
  {
    ReachableIsSound(s);
    hide Contents;
  }

  /** Cancel precedes release, which precedes close, each once; and nothing is sent after the first of them. */
  lemma CleanupInOrder(s: State, a: Action)
    requires Reachable(s)
    ensures s.cleanup <= [Cancelled, Released, Closed]
    ensures s.main.Returned? <==> s.cleanup == [Cancelled, Released, Closed]
    ensures s.cleanup != [] ==> s.streamDone && Apply(s, a).sent == s.sent
  {
    ReachableIsSound(s);
    hide IsOpen, IsConversation, Contents, DeltasOk, ResultOk;
  }

  predicate EndsDone(events: seq<Event>) {
    events != [] && events[|events| - 1].Done?
  }

  /** The select takes a final result that is no error. */
  predicate TakesFinished(s: State, a: Action) {
    a.TakeResult? && s.main.Selecting? && s.result.Some? && s.result.value.Finished?
  }

  /** From the taken result on: the upstream has ended, and nothing more is taken from the deltas channel. */
  predicate Finishing(s: State) {
    Sound(s) && s.producer.Ended? && (s.main.SendingDone? || Ending(s.main))
  }

  lemma FinishingStep(s: State, a: Action)
    requires Finishing(s)
    ensures var s' := Apply(s, a);
            Finishing(s') && s'.deltas == s.deltas && s'.produced == s.produced && Contents(s'.sent) == Contents(s.sent)
  {
    hide Sound, Contents;
    StepKeepsSound(s, a);
    if a.Send? && PendingEvent(s.main).Some? {
      ContentsGrow(s.sent, PendingEvent(s.main).value);
      assert Contents(s.sent) + [] == Contents(s.sent);
    }
  }

  lemma {:induction false} FinishingRun(s: State, actions: seq<Action>)
    requires Finishing(s)
    ensures var s' := Exec(s, actions);
            Finishing(s') && s'.deltas == s.deltas && s'.produced == s.produced && Contents(s'.sent) == Contents(s.sent)
    decreases |actions|
  {
    hide Finishing, Apply, Contents;
    if actions != [] {
      FinishingStep(s, actions[0]);
      FinishingRun(Apply(s, actions[0]), actions[1..]);
    }
  }

  /** When the select takes the result, it decides what the client misses: if the stream then ends with done, all
      deltas were delivered exactly when the deltas channel was empty at that moment, and otherwise exactly those in the
      channel are lost. */
  lemma DoneDeliversEverythingIff(s: State, actions: seq<Action>)
    requires Reachable(s) && TakesFinished(s, TakeResult)
    ensures var s' := Exec(Apply(s, TakeResult), actions);
            EndsDone(s'.sent) ==>
              && (Contents(s'.sent) == s'.produced <==> s.deltas == [])
              && s'.produced == Contents(s'.sent) + s.deltas && |s.deltas| <= CAPACITY
  {
    ReachableIsSound(s);
    var taken := Apply(s, TakeResult);
    StepKeepsSound(s, TakeResult);
    FinishingRun(taken, actions);
    hide Contents, Exec, IsOpen, IsConversation;
  }

  /** The stream is sending this done, or it is the last event sent. */
  predicate Announces(s: State, reason: string) {
    s.main == SendingDone(reason) || (s.sent != [] && s.sent[|s.sent| - 1] == Done(reason))
  }

  /** Every done came about this way, with the reason that the upstream gave. */
  lemma {:induction false} DoneWasTaken(actions: seq<Action>, reason: string)
    requires Announces(Exec(INIT, actions), reason)
    ensures exists i: nat ::
              && i < |actions| && TakesFinished(Exec(INIT, actions[..i]), actions[i])
              && Exec(INIT, actions[..i]).result == Some(Finished(reason))
    ensures Finish(Finished(reason)) in actions
    decreases |actions|
  {
    assert actions != [];
    var front, last := actions[..|actions| - 1], actions[|actions| - 1];
    var s := Exec(INIT, front);
    assert actions == front + [last];
    ExecAppend(INIT, front, last);
    if Announces(s, reason) {
      DoneWasTaken(front, reason);
      var i: nat :| i < |front| && TakesFinished(Exec(INIT, front[..i]), front[i]) &&
                    Exec(INIT, front[..i]).result == Some(Finished(reason));
      assert actions[..i] == front[..i] && actions[i] == front[i];
    } else {
      DoneOrigin(s, last, reason);
      ResultWasReturned(front, reason);
      assert TakesFinished(Exec(INIT, actions[..|front|]), actions[|front|]);
    }
  }

  lemma DoneOrigin(s: State, a: Action, reason: string)
    requires !Announces(s, reason) && Announces(Apply(s, a), reason)
    ensures TakesFinished(s, a) && s.result == Some(Finished(reason))
  {}

  lemma {:induction false} ResultWasReturned(actions: seq<Action>, reason: string)
    requires Exec(INIT, actions).result == Some(Finished(reason))
    ensures Finish(Finished(reason)) in actions
    decreases |actions|
  {
    assert actions != [];
    var front, last := actions[..|actions| - 1], actions[|actions| - 1];
    assert actions == front + [last];
    ExecAppend(INIT, front, last);
    if Exec(INIT, front).result == Some(Finished(reason)) {
      ResultWasReturned(front, reason);
    } else {
      ResultOrigin(Exec(INIT, front), last, reason);
    }
  }

  lemma ResultOrigin(s: State, a: Action, reason: string)
    requires s.result != Some(Finished(reason)) && Apply(s, a).result == Some(Finished(reason))
    ensures a == Finish(Finished(reason))
  {}

  // ---------- errors reach the client ----------

  predicate EndsFailure(events: seq<Event>) {
    events != [] && events[|events| - 1].Failure?
  }

  /** The error is being sent or was sent last, unless the request has ended. */
  predicate Telling(s: State) {
    s.main.SendingFailure? || s.requestDone || (Ending(s.main) && EndsFailure(s.sent))
  }

  lemma TellingStep(s: State, a: Action)
    requires Telling(s)
    ensures Telling(Apply(s, a))
  {}

  lemma {:induction false} TellingRun(s: State, actions: seq<Action>)
    requires Telling(s)
    ensures Telling(Exec(s, actions))
    decreases |actions|
  {
    hide Telling, Apply;
    if actions != [] {
      TellingStep(s, actions[0]);
      TellingRun(Apply(s, actions[0]), actions[1..]);
    }
  }

  /** Once the select has taken an upstream error, or the end of the stream's context, nothing but an error event can be
      sent, and the stream does not end without it while the request lives. */
  lemma ErrorsAreTold(s: State, actions: seq<Action>)
    requires s.main.Selecting?
    ensures s.result == Some(Broken) ==> Telling(Exec(Apply(s, TakeResult), actions))
    ensures s.streamDone ==> Telling(Exec(Apply(s, TakeStreamDone), actions))
  {
    if s.result == Some(Broken) {
      TellingRun(Apply(s, TakeResult), actions);
    }
    if s.streamDone {
      TellingRun(Apply(s, TakeStreamDone), actions);
    }
  }

  /** Before any context has ended. */
  predicate Undisturbed(s: State) {
    && !s.requestDone
    && (s.streamDone ==> s.main.Releasing? || s.main.Closing? || s.main.Returned?)
    && (Ending(s.main) ==> IsTerminated(s.sent))
  }

  lemma UndisturbedStep(s: State, a: Action)
    requires Undisturbed(s) && !a.Timeout? && !a.CancelRequest?
    ensures Undisturbed(Apply(s, a))
  {}

  lemma {:induction false} UndisturbedRun(s: State, actions: seq<Action>)
    requires Undisturbed(s) && forall a <- actions :: !a.Timeout? && !a.CancelRequest?
    ensures Undisturbed(Exec(s, actions))
    decreases |actions|
  {
    hide Undisturbed, Apply;
    if actions != [] {
      assert actions[0] in actions;
      UndisturbedStep(s, actions[0]);
      UndisturbedRun(Apply(s, actions[0]), actions[1..]);
    }
  }

  /** A stream that ends without done or error does so because its request or its time has ended. */
  lemma EndsSilentlyOnlyAfterContext(actions: seq<Action>)
    requires Ending(Exec(INIT, actions).main) && !IsTerminated(Exec(INIT, actions).sent)
    ensures exists a <- actions :: a.Timeout? || a.CancelRequest?
  {
    if forall a <- actions :: !a.Timeout? && !a.CancelRequest? {
      UndisturbedRun(INIT, actions);
    }
  }

  // ---------- where the deltas come from ----------

  /** What the upstream hands to the callback in a run. */
  function Offered(s: State, actions: seq<Action>): seq<string>
    decreases |actions|
  {
    if actions == [] then []
    else
      (if actions[0].Offer? && s.producer.Streaming? then [actions[0].delta] else []) +
      Offered(Apply(s, actions[0]), actions[1..])
  }

  function Handed(s: State): seq<string> {
    s.produced + (if s.producer.Offering? then [s.producer.delta] else [])
  }

  lemma {:induction false} NothingAfterTheEnd(s: State, actions: seq<Action>)
    requires s.producer.Ended? && !s.main.SendingMeta?
    ensures Offered(s, actions) == [] && Exec(s, actions).produced == s.produced
    decreases |actions|
  {
    if actions != [] {
      NothingAfterTheEnd(Apply(s, actions[0]), actions[1..]);
    }
  }

  lemma {:induction false} ProducedWasOffered(s: State, actions: seq<Action>)
    requires s.main.SendingMeta? ==> s.producer.NotStarted?
    ensures Exec(s, actions).produced <= Handed(s) + Offered(s, actions)
    decreases |actions|
  {
    if actions != [] {
      var a, s' := actions[0], Apply(s, actions[0]);
      if s'.producer.Ended? {
        NothingAfterTheEnd(s', actions[1..]);
      } else {
        HandedStep(s, a, Offered(s', actions[1..]));
        hide Apply, Handed;
        ProducedWasOffered(s', actions[1..]);
      }
    }
  }

  lemma HandedStep(s: State, a: Action, rest: seq<string>)
    requires (s.main.SendingMeta? ==> s.producer.NotStarted?) && !Apply(s, a).producer.Ended?
    ensures var s' := Apply(s, a);
            && (s'.main.SendingMeta? ==> s'.producer.NotStarted?)
            && Handed(s') + rest == Handed(s) + ((if a.Offer? && s.producer.Streaming? then [a.delta] else []) + rest)
  {}

  /** The deltas that count as produced, and so all that the client sees, are those the upstream offered, in order. */
  lemma DeltasWereOffered(actions: seq<Action>)
    ensures Exec(INIT, actions).produced <= Offered(INIT, actions)
    ensures Contents(Exec(INIT, actions).sent) <= Offered(INIT, actions)
  {
    ProducedWasOffered(INIT, actions);
    assert Handed(INIT) + Offered(INIT, actions) == Offered(INIT, actions);
    ClientSeesAConversation(Exec(INIT, actions));
  }

  lemma {:induction false} ExecAppend(s: State, actions: seq<Action>, a: Action)
    ensures Exec(s, actions + [a]) == Apply(Exec(s, actions), a)
    decreases |actions|
  {
    hide Apply;
    if actions == [] {
      assert Exec(s, [a]) == Exec(Apply(s, a), []);
    } else {
      assert (actions + [a])[1..] == actions[1..] + [a];
      ExecAppend(Apply(s, actions[0]), actions[1..], a);
    }
  }

  lemma StepIsReachable(s: State, a: Action)
    requires Reachable(s)
    ensures Reachable(Apply(s, a))
  {
    hide Apply;
    var actions :| s == Exec(INIT, actions);
    ExecAppend(INIT, actions, a);
  }

  /** Such a run exists: the result and a delta are both ready, and the select takes the result. */
  lemma DoneMayLoseADelta(delta: string, reason: string) returns (s: State)
    ensures Reachable(s) && s.sent == [Meta, Done(reason)] && s.produced == [delta]
    ensures Contents(s.sent) != s.produced
  {
    s := INIT;
    assert Exec(INIT, []) == s;
    StepIsReachable(s, Send);
    s := Apply(s, Send);
    StepIsReachable(s, Offer(delta));
    s := Apply(s, Offer(delta));
    StepIsReachable(s, Accept);
    s := Apply(s, Accept);
    StepIsReachable(s, Finish(Finished(reason)));
    s := Apply(s, Finish(Finished(reason)));
    var before := s;
    StepIsReachable(s, TakeResult);
    s := Apply(s, TakeResult);
    StepIsReachable(s, Send);
    s := Apply(s, Send);
    DoneDeliversEverythingIff(before, [Send]);
    assert Exec(Apply(before, TakeResult), [Send]) == Exec(s, []);
  }

  /** A stream that ends otherwise loses at most the delta it was sending and one full channel. */
  lemma LossIsBounded(s: State)
    requires Reachable(s) && Ending(s.main)
    ensures |Contents(s.sent)| <= |s.produced| <= |Contents(s.sent)| + 1 + CAPACITY
  {
    ReachableIsSound(s);
    hide IsOpen, IsConversation, Contents;
  }

  /** A step that someone outside runStream must take. */
  predicate Outside(a: Action) {
    a.Read? || a.CancelRequest?
  }

  predicate StuckOnError(s: State) {
    s.main.SendingFailure? && s.unread >= CAPACITY && !s.requestDone
  }

  lemma {:induction false} StaysStuck(s: State, actions: seq<Action>)
    requires StuckOnError(s) && forall a <- actions :: !Outside(a)
    ensures StuckOnError(Exec(s, actions))
    decreases |actions|
  {
    if actions != [] {
      assert actions[0] in actions;
      StaysStuck(Apply(s, actions[0]), actions[1..]);
    }
  }

  predicate OwnSteps(actions: seq<Action>) {
    forall a <- actions :: !Outside(a)
  }

  /** Where a stream whose context is done can still get stuck: before a select, or stuck already. */
  predicate MayStick(s: State) {
    !s.requestDone &&
    (s.main.Selecting? || StuckOnError(s) ||
     ((s.main.SendingMeta? || s.main.SendingDelta? || s.main.SendingPing?) && s.unread < CAPACITY))
  }

  lemma StaysUnstuck(s: State, a: Action)
    requires s.streamDone && !MayStick(s) && !Outside(a)
    ensures Apply(s, a).streamDone && !MayStick(Apply(s, a))
  {}

  lemma {:induction false} NeverSticks(s: State, actions: seq<Action>)
    requires s.streamDone && !MayStick(s) && OwnSteps(actions)
    ensures !StuckOnError(Exec(s, actions))
    decreases |actions|
  {
    hide Apply;
    if actions != [] {
      assert actions[0] in actions;
      StaysUnstuck(s, actions[0]);
      NeverSticks(Apply(s, actions[0]), actions[1..]);
    }
  }

  /** Pings fill the channel of a reader that has stopped, and then the select finds its context done. */
  lemma {:induction false} SelectingSticks(s: State) returns (actions: seq<Action>)
    requires s.streamDone && !s.requestDone && s.main.Selecting?
    ensures OwnSteps(actions) && StuckOnError(Exec(s, actions))
    decreases CAPACITY - s.unread
  {
    if s.unread >= CAPACITY {
      actions := [TakeStreamDone];
      assert Exec(s, actions) == Exec(Apply(s, TakeStreamDone), []);
    } else {
      var ticked := Apply(s, TakeTick);
      var sent := Apply(ticked, Send);
      var rest := SelectingSticks(sent);
      actions := [TakeTick] + ([Send] + rest);
      ExecPrepend(ticked, Send, rest);
      ExecPrepend(s, TakeTick, [Send] + rest);
    }
  }

  lemma ExecPrepend(s: State, a: Action, rest: seq<Action>)
    ensures Exec(s, [a] + rest) == Exec(Apply(s, a), rest)
  {
    hide Apply;
    assert ([a] + rest)[1..] == rest;
  }

  /** Once its context is done, a stream can still end up waiting for its reader forever, whatever the timeout says,
      exactly when the request lives and the stream has another select before it, or waits already: its last send, of an
      error event, is made under the request's context. */
  lemma SticksIff(s: State)
    requires s.streamDone
    ensures (exists actions :: OwnSteps(actions) && StuckOnError(Exec(s, actions))) <==> MayStick(s)
  {
    if MayStick(s) {
      var none: seq<Action> := [];
      if StuckOnError(s) {
        assert OwnSteps(none) && StuckOnError(Exec(s, none));
      } else if s.main.Selecting? {
        var actions := SelectingSticks(s);
      } else {
        var rest := SelectingSticks(Apply(s, Send));
        ExecPrepend(s, Send, rest);
        assert OwnSteps([Send] + rest);
      }
    } else {
      forall actions | OwnSteps(actions) ensures !StuckOnError(Exec(s, actions)) {
        NeverSticks(s, actions);
      }
    }
  }

  /** With its context done, the stream cannot move on by itself exactly when it is stuck or has returned; no tick,
      delta or result is needed. */
  lemma MovesOnIff(s: State)
    requires s.streamDone
    ensures (exists a <- [Send, GiveUp, TakeStreamDone, RunDeferred] :: Apply(s, a).main != s.main) <==>
            !StuckOnError(s) && !s.main.Returned?
  {
    var own := [Send, GiveUp, TakeStreamDone, RunDeferred];
    assert own[0] == Send && own[1] == GiveUp && own[2] == TakeStreamDone && own[3] == RunDeferred;
    if !StuckOnError(s) && !s.main.Returned? {
      if s.main.Selecting? {
        assert Apply(s, own[2]).main != s.main;
      } else if Ending(s.main) {
        assert Apply(s, own[3]).main != s.main;
      } else if SendMayGiveUp(s) {
        assert Apply(s, own[1]).main != s.main;
      } else {
        assert Apply(s, own[0]).main != s.main;
      }
    }
  }

  /** The moves left: one out of the send, three deferred calls. */
  function MovesLeft(main: Main): nat {
    match main
    case Cancelling => 3
    case Releasing => 2
    case Closing => 1
    case Returned => 0
    case _ => 4
  }

  function MovesMade(s: State, actions: seq<Action>): nat
    decreases |actions|
  {
    if actions == [] then 0
    else
      var s' := Apply(s, actions[0]);
      (if s'.main != s.main then 1 else 0) + MovesMade(s', actions[1..])
  }

  /** A stream that cannot stick any more, while the request lives, returns with its next four moves at the latest. */
  lemma {:induction false} ReturnsSoon(s: State, actions: seq<Action>)
    requires s.streamDone && !s.requestDone && !MayStick(s) && OwnSteps(actions)
    ensures MovesMade(s, actions) + MovesLeft(Exec(s, actions).main) == MovesLeft(s.main)
    decreases |actions|
  {
    if actions != [] {
      var a, s' := actions[0], Apply(s, actions[0]);
      assert a in actions;
      StaysUnstuck(s, a);
      OneMove(s, a);
      hide Apply, MayStick;
      ReturnsSoon(s', actions[1..]);
    }
  }

  lemma OneMove(s: State, a: Action)
    requires s.streamDone && !s.requestDone && !MayStick(s) && !Outside(a)
    ensures var s' := Apply(s, a);
            && !s'.requestDone
            && (if s'.main != s.main then 1 else 0) + MovesLeft(s'.main) == MovesLeft(s.main)
  {}

  function FreeSlots(s: State): nat {
    if s.unread < CAPACITY then CAPACITY - s.unread else 0
  }

  /** An upper bound on the moves left: each time around the select takes two and a slot of the channel. */
  function Potential(s: State): nat {
    match s.main
    case Selecting => 2 * FreeSlots(s) + 5
    case SendingMeta => 2 * FreeSlots(s) + 4
    case SendingDelta(_) => 2 * FreeSlots(s) + 4
    case SendingPing => 2 * FreeSlots(s) + 4
    case _ => MovesLeft(s.main)
  }

  lemma PotentialFalls(s: State, a: Action)
    requires s.streamDone && !Outside(a)
    ensures var s' := Apply(s, a);
            && s'.streamDone && s'.requestDone == s.requestDone
            && (if s'.main != s.main then 1 else 0) + Potential(s') <= Potential(s)
  {}

  lemma {:induction false} MovesBounded(s: State, actions: seq<Action>)
    requires s.streamDone && OwnSteps(actions)
    ensures var end := Exec(s, actions);
            && end.streamDone && end.requestDone == s.requestDone
            && MovesMade(s, actions) + Potential(end) <= Potential(s)
    decreases |actions|
  {
    hide Potential, Apply;
    if actions != [] {
      assert actions[0] in actions;
      PotentialFalls(s, actions[0]);
      MovesBounded(Apply(s, actions[0]), actions[1..]);
    }
  }

  /** Without its reader's help a stream whose context is done makes at most 2 * CAPACITY + 5 more moves. Where it cannot
      move any more it has returned, or it is stuck; and it has returned if the request has ended. */
  lemma ReturnsOrSticks(s: State, actions: seq<Action>)
    requires s.streamDone && OwnSteps(actions)
    ensures MovesMade(s, actions) <= 2 * CAPACITY + 5
    ensures var end := Exec(s, actions);
            (forall a <- [Send, GiveUp, TakeStreamDone, RunDeferred] :: Apply(end, a).main == end.main) ==>
              (end.main.Returned? || StuckOnError(end)) && (s.requestDone ==> end.main.Returned?)
  {
    hide Exec, MovesMade;
    MovesBounded(s, actions);
    MovesOnIff(Exec(s, actions));
    hide Apply;
  }
}
