/** Normalisation of AI answers and of edited parse results, and the decoder that turns a stored task list into
    a project's first tasks. JSON is an abstract round trip: a stored list is either one that some encoder wrote,
    null, or bytes that do not decode. */
module Normalize {
  import opened Base
  import opened Text
  import opened Sequences

  // ---------- string lists ----------

  function TrimAll(values: seq<string>): (r: seq<string>)
    ensures |r| == |values| && forall i | 0 <= i < |r| :: r[i] == Trim(values[i])
  {
    seq(|values|, i requires 0 <= i < |values| => Trim(values[i]))
  }

  /** Each value where it first occurs. */
  function FirstOccurrences(values: seq<string>): seq<string> {
    if values == [] then []
    else
      var front, last := values[..|values| - 1], values[|values| - 1];
      FirstOccurrences(front) + (if last in front then [] else [last])
  }

  predicate Acceptable(values: seq<string>, maxItems: nat, maxRunes: nat) {
    |values| <= maxItems && forall i | 0 <= i < |values| :: Trim(values[i]) != "" && |Trim(values[i])| <= maxRunes
  }

  /** normalizeStrings of pkg/ai/parser.go and internal/logic/parseresult/service.go; None is a nil slice. */
  method NormalizeStrings(values: Option<seq<string>>, maxItems: nat, maxRunes: nat) returns (r: Result<seq<string>>)
    ensures r.Ok? <==> values.Some? && Acceptable(values.value, maxItems, maxRunes)
    ensures r.Ok? ==> r.value == FirstOccurrences(TrimAll(values.value))
  {
    hide Trim, FirstOccurrences, TrimAll;
    if values.None? || |values.value| > maxItems {
      return Err(InvalidInput);
    }
    var input := values.value;
    ghost var trimmed := TrimAll(input);
    var seen: set<string> := {};
    var normalized: seq<string> := [];
    NoRepeatsIsFixed([]);
    for n := 0 to |input|
      invariant forall i | 0 <= i < n :: trimmed[i] != "" && |trimmed[i]| <= maxRunes
      invariant forall x :: x in seen <==> x in trimmed[..n]
      invariant normalized == FirstOccurrences(trimmed[..n])
    {
      var value := Trim(input[n]);
      if value == "" || |value| > maxRunes {
        return Err(InvalidInput);
      }
      assert trimmed[..n + 1] == trimmed[..n] + [value];
      FirstOccurrencesSnoc(trimmed[..n], value);
      if value !in seen {
        seen := seen + {value};
        normalized := normalized + [value];
      }
    }
    assert trimmed[..|input|] == trimmed;
    return Ok(normalized);
  }

  lemma FirstOccurrencesSnoc(front: seq<string>, last: string)
    ensures FirstOccurrences(front + [last]) == FirstOccurrences(front) + (if last in front then [] else [last])
  {
    assert (front + [last])[..|front|] == front;
  }

  function FirstIndex(values: seq<string>, x: string): (i: nat)
    requires x in values
    ensures i < |values| && values[i] == x && forall k | 0 <= k < i :: values[k] != x
  {
    if values[0] == x then 0 else FirstIndex(values[1..], x) + 1
  }

  /** r lists values of the list, ordered by where they first occur there; so it has no duplicates. */
  ghost predicate InOrder(values: seq<string>, r: seq<string>) {
    && (forall i | 0 <= i < |r| :: r[i] in values)
    && (forall i, j | 0 <= i < j < |r| :: FirstIndex(values, r[i]) < FirstIndex(values, r[j]))
  }

  /** The normal form has no duplicates, keeps exactly the values given, and orders them by first occurrence. */
  lemma {:induction false} FirstOccurrencesKeepOrder(values: seq<string>)
    ensures NoRepeats(FirstOccurrences(values))
    ensures forall x :: x in FirstOccurrences(values) <==> x in values
    ensures InOrder(values, FirstOccurrences(values))
  {
    if values != [] {
      var front, last := values[..|values| - 1], values[|values| - 1];
      FirstOccurrencesKeepOrder(front);
      assert values == front + [last];
      OrderExtends(front, last, FirstOccurrences(front));
    }
  }

  lemma OrderExtends(front: seq<string>, last: string, r: seq<string>)
    requires InOrder(front, r)
    ensures InOrder(front + [last], r)
    ensures last !in front ==> InOrder(front + [last], r + [last])
  {
    forall i | 0 <= i < |r| ensures r[i] in front + [last] && FirstIndex(front + [last], r[i]) == FirstIndex(front, r[i]) {
      SameFirstIndex(front, last, r[i]);
    }
    if last !in front {
      assert FirstIndex(front + [last], last) == |front|;
    }
  }

  lemma SameFirstIndex(front: seq<string>, last: string, x: string)
    requires x in front
    ensures FirstIndex(front + [last], x) == FirstIndex(front, x)
  {
    var i, k := FirstIndex(front, x), FirstIndex(front + [last], x);
    assert (front + [last])[i] == x;
    assert k <= i && front[k] == x;
  }

  lemma {:induction false} NoRepeatsIsFixed(values: seq<string>)
    requires NoRepeats(values)
    ensures FirstOccurrences(values) == values
  {
    if values != [] {
      NoRepeatsIsFixed(values[..|values| - 1]);
      assert values == values[..|values| - 1] + [values[|values| - 1]];
    }
  }

  /** Normalising a normalised list changes nothing and cannot fail. */
  lemma NormalizeStringsIdempotent(values: seq<string>, maxItems: nat, maxRunes: nat)
    requires Acceptable(values, maxItems, maxRunes)
    ensures var r := FirstOccurrences(TrimAll(values));
            Acceptable(r, maxItems, maxRunes) && FirstOccurrences(TrimAll(r)) == r
  {
    var trimmed := TrimAll(values);
    var r := FirstOccurrences(trimmed);
    FirstOccurrencesKeepOrder(trimmed);
    FirstOccurrencesShorter(trimmed);
    forall i | 0 <= i < |r| ensures Trim(r[i]) == r[i] && r[i] != "" && |r[i]| <= maxRunes {
      assert r[i] in trimmed;
      var k :| 0 <= k < |values| && trimmed[k] == r[i];
      TrimFixpoint(values[k]);
    }
    assert TrimAll(r) == r;
    NoRepeatsIsFixed(r);
  }

  lemma FirstOccurrencesShorter(values: seq<string>)
    ensures |FirstOccurrences(values)| <= |values|
  {
  }

  // ---------- generated tasks ----------

  datatype GeneratedTask = GeneratedTask(title: string, description: Option<string>, priority: string,
      deadline: Option<int>)

  const MAX_TASKS := 100
  const MAX_TITLE := 255
  const MAX_TASK_DESCRIPTION := 2000

  predicate FitsText(s: string, max: nat) {
    Trim(s) != "" && |Trim(s)| <= max
  }

  predicate KnownPriority(priority: string) {
    priority == "low" || priority == "medium" || priority == "high"
  }

  predicate AcceptableTask(t: GeneratedTask, blankIsMedium: bool) {
    && FitsText(t.title, MAX_TITLE)
    && (t.description.Some? ==> FitsText(t.description.value, MAX_TASK_DESCRIPTION))
    && (KnownPriority(t.priority) || (blankIsMedium && t.priority == ""))
  }

  function NormalizedTask(t: GeneratedTask): GeneratedTask {
    GeneratedTask(Trim(t.title), if t.description.Some? then Some(Trim(t.description.value)) else None,
                  if t.priority == "" then "medium" else t.priority, t.deadline)
  }

  /** The form every stored task has: both texts trimmed, not empty and within bounds, a known priority. */
  predicate NormalTask(t: GeneratedTask) {
    && t.title != "" && Trimmed(t.title) && |t.title| <= MAX_TITLE
    && (t.description.Some? ==>
        t.description.value != "" && Trimmed(t.description.value) && |t.description.value| <= MAX_TASK_DESCRIPTION)
    && KnownPriority(t.priority)
  }

  predicate NormalTasks(tasks: seq<GeneratedTask>) {
    |tasks| <= MAX_TASKS && forall i | 0 <= i < |tasks| :: NormalTask(tasks[i])
  }

  predicate AcceptableTasks(tasks: Option<seq<GeneratedTask>>, blankIsMedium: bool) {
    tasks.Some? && |tasks.value| <= MAX_TASKS &&
        forall i | 0 <= i < |tasks.value| :: AcceptableTask(tasks.value[i], blankIsMedium)
  }

  function NormalizedTasks(tasks: seq<GeneratedTask>): (r: seq<GeneratedTask>)
    ensures |r| == |tasks| && forall i | 0 <= i < |r| :: r[i] == NormalizedTask(tasks[i])
  {
    seq(|tasks|, i requires 0 <= i < |tasks| => NormalizedTask(tasks[i]))
  }

  /** Both texts without the white space around them, an empty priority as medium, and nothing else changed. */
  predicate Tidied(t: GeneratedTask, given: GeneratedTask) {
    && t.title == Trim(given.title)
    && (if given.description.Some? then t.description == Some(Trim(given.description.value)) else t.description == None)
    && t.priority == (if given.priority == "" then "medium" else given.priority)
    && t.deadline == given.deadline
  }

  /** The loop over tasks that normalizeAndValidate, normalizeUpdate and decodeGeneratedTasks share;
      only normalizeAndValidate does not default an empty priority. */
  method NormalizeTasks(tasks: Option<seq<GeneratedTask>>, blankIsMedium: bool) returns (r: Result<seq<GeneratedTask>>)
    ensures r.Ok? <==> AcceptableTasks(tasks, blankIsMedium)
    ensures r.Ok? ==> |r.value| == |tasks.value| && forall i | 0 <= i < |r.value| :: Tidied(r.value[i], tasks.value[i])
    ensures r.Ok? ==> r.value == NormalizedTasks(tasks.value)
  {
    hide Trim;
    if tasks.None? || |tasks.value| > MAX_TASKS {
      return Err(InvalidInput);
    }
    var input := tasks.value;
    var normalized: seq<GeneratedTask> := [];
    for n := 0 to |input|
      invariant |normalized| == n
      invariant forall i | 0 <= i < n ::
          AcceptableTask(input[i], blankIsMedium) && normalized[i] == NormalizedTask(input[i])
    {
      var task := input[n];
      task := task.(title := Trim(task.title));
      if task.title == "" || |task.title| > MAX_TITLE {
        return Err(InvalidInput);
      }
      if task.description.Some? {
        var description := Trim(task.description.value);
        if description == "" || |description| > MAX_TASK_DESCRIPTION {
          return Err(InvalidInput);
        }
        task := task.(description := Some(description));
      }
      if task.priority == "" && blankIsMedium {
        task := task.(priority := "medium");
      }
      if !KnownPriority(task.priority) {
        return Err(InvalidInput);
      }
      normalized := normalized + [task];
    }
    return Ok(normalized);
  }

  /** Normalising yields the normal form, and the normal form is exactly what normalising leaves alone. */
  lemma NormalFormIsFixpoint(t: GeneratedTask, blankIsMedium: bool)
    ensures AcceptableTask(t, blankIsMedium) ==> NormalTask(NormalizedTask(t))
    ensures NormalTask(t) <==> AcceptableTask(t, false) && NormalizedTask(t) == t
  {
    TrimFixpoint(t.title);
    if t.description.Some? {
      TrimFixpoint(t.description.value);
    }
  }

  /** The generated_tasks column. */
  datatype StoredTasks = Malformed | Null | Stored(tasks: seq<GeneratedTask>)

  /** json.Marshal of a non-nil slice. */
  function Encode(tasks: seq<GeneratedTask>): StoredTasks {
    Stored(tasks)
  }

  function Decoded(raw: StoredTasks): Option<seq<GeneratedTask>> {
    if raw.Stored? then Some(raw.tasks) else None
  }

  function DecodedTasks(raw: StoredTasks): Result<seq<GeneratedTask>> {
    if AcceptableTasks(Decoded(raw), true) then Ok(NormalizedTasks(raw.tasks)) else Err(InvalidState)
  }

  method DecodeGeneratedTasks(raw: StoredTasks) returns (r: Result<seq<GeneratedTask>>)
    ensures r == DecodedTasks(raw)
  {
    var normalized := NormalizeTasks(Decoded(raw), true);
    return if normalized.Ok? then normalized else Err(InvalidState);
  }

  /** What the decoder accepts, it gives back in normal form; and it gives a list back unchanged exactly when
      the list is in normal form already. */
  lemma DecodeIsIdentityOnNormal(tasks: seq<GeneratedTask>)
    ensures DecodedTasks(Encode(tasks)).Ok? ==> NormalTasks(DecodedTasks(Encode(tasks)).value)
    ensures DecodedTasks(Encode(tasks)) == Ok(tasks) <==> NormalTasks(tasks)
  {
    var r := NormalizedTasks(tasks);
    forall i | 0 <= i < |tasks|
      ensures AcceptableTask(tasks[i], true) ==> NormalTask(r[i])
      ensures NormalTask(tasks[i]) <==> AcceptableTask(tasks[i], false) && r[i] == tasks[i]
      ensures NormalTask(tasks[i]) <==> AcceptableTask(tasks[i], true) && r[i] == tasks[i]
    {
      NormalFormIsFixpoint(tasks[i], true);
    }
    if NormalTasks(tasks) {
      assert r == tasks;
    }
  }

  // ---------- documents ----------

  datatype Content = Content(
    title: string, summary: string, deadline: Option<int>,
    deliverables: seq<string>, keyRequirements: seq<string>, riskWarnings: seq<string>, tasks: seq<GeneratedTask>)

  const MAX_SUMMARY := 5000

  predicate NormalStrings(values: seq<string>, maxItems: nat, maxRunes: nat) {
    && Acceptable(values, maxItems, maxRunes)
    && (forall i | 0 <= i < |values| :: Trimmed(values[i]))
    && NoRepeats(values)
  }

  /** The form of every parse result in the database. */
  predicate NormalContent(content: Content) {
    && content.title != "" && Trimmed(content.title) && |content.title| <= MAX_TITLE
    && content.summary != "" && Trimmed(content.summary) && |content.summary| <= MAX_SUMMARY
    && NormalStrings(content.deliverables, 50, 1000)
    && NormalStrings(content.keyRequirements, 100, 1000)
    && NormalStrings(content.riskWarnings, 50, 1000)
    && NormalTasks(content.tasks)
  }

  /** A structured answer or an edit request as decoded from JSON: lists may be nil, texts untrimmed. */
  datatype Draft = Draft(
    title: string, summary: string, deadline: Option<int>,
    deliverables: Option<seq<string>>, keyRequirements: Option<seq<string>>, riskWarnings: Option<seq<string>>,
    tasks: Option<seq<GeneratedTask>>)

  predicate AcceptableStrings(values: Option<seq<string>>, maxItems: nat, maxRunes: nat) {
    values.Some? && Acceptable(values.value, maxItems, maxRunes)
  }

  predicate AcceptableDraft(draft: Draft, blankIsMedium: bool) {
    && FitsText(draft.title, MAX_TITLE) && FitsText(draft.summary, MAX_SUMMARY)
    && AcceptableStrings(draft.deliverables, 50, 1000)
    && AcceptableStrings(draft.keyRequirements, 100, 1000)
    && AcceptableStrings(draft.riskWarnings, 50, 1000)
    && AcceptableTasks(draft.tasks, blankIsMedium)
  }

  function NormalizedContent(draft: Draft, blankIsMedium: bool): Content
    requires AcceptableDraft(draft, blankIsMedium)
  {
    Content(Trim(draft.title), Trim(draft.summary), draft.deadline,
            FirstOccurrences(TrimAll(draft.deliverables.value)),
            FirstOccurrences(TrimAll(draft.keyRequirements.value)),
            FirstOccurrences(TrimAll(draft.riskWarnings.value)),
            NormalizedTasks(draft.tasks.value))
  }

  function AsDraft(content: Content): Draft {
    Draft(content.title, content.summary, content.deadline, Some(content.deliverables),
          Some(content.keyRequirements), Some(content.riskWarnings), Some(content.tasks))
  }

  lemma StringsBecomeNormal(values: seq<string>, maxItems: nat, maxRunes: nat)
    requires Acceptable(values, maxItems, maxRunes)
    ensures NormalStrings(FirstOccurrences(TrimAll(values)), maxItems, maxRunes)
  {
    var r := FirstOccurrences(TrimAll(values));
    NormalizeStringsIdempotent(values, maxItems, maxRunes);
    FirstOccurrencesKeepOrder(TrimAll(values));
    forall i | 0 <= i < |r| ensures Trimmed(r[i]) {
      assert r[i] in TrimAll(values);
    }
  }

  lemma NormalStringsAreFixed(values: seq<string>, maxItems: nat, maxRunes: nat)
    requires NormalStrings(values, maxItems, maxRunes)
    ensures FirstOccurrences(TrimAll(values)) == values
  {
    forall i | 0 <= i < |values| ensures Trim(values[i]) == values[i] {
      TrimFixpoint(values[i]);
    }
    assert TrimAll(values) == values;
    NoRepeatsIsFixed(values);
  }

  /** Both normalisers write normal rows, and a normal row passes either of them unchanged, so an edit that
      changes nothing is accepted and stores what was there. */
  lemma NormalizersAgree(draft: Draft, blankIsMedium: bool)
    ensures AcceptableDraft(draft, blankIsMedium) ==>
              && NormalContent(NormalizedContent(draft, blankIsMedium))
              && DecodedTasks(Encode(NormalizedContent(draft, blankIsMedium).tasks)) ==
                  Ok(NormalizedContent(draft, blankIsMedium).tasks)
  {
    if AcceptableDraft(draft, blankIsMedium) {
      hide Trim, FirstOccurrences, TrimAll, Acceptable, NormalStrings;
      StringsBecomeNormal(draft.deliverables.value, 50, 1000);
      StringsBecomeNormal(draft.keyRequirements.value, 100, 1000);
      StringsBecomeNormal(draft.riskWarnings.value, 50, 1000);
      var tasks := NormalizedTasks(draft.tasks.value);
      forall i | 0 <= i < |tasks| ensures NormalTask(tasks[i]) {
        NormalFormIsFixpoint(draft.tasks.value[i], blankIsMedium);
      }
      DecodeIsIdentityOnNormal(tasks);
    }
  }

  lemma NormalContentPasses(content: Content, blankIsMedium: bool)
    requires NormalContent(content)
    ensures AcceptableDraft(AsDraft(content), blankIsMedium) &&
        NormalizedContent(AsDraft(content), blankIsMedium) == content
  {
    hide Trim, FirstOccurrences, TrimAll, Acceptable;
    TrimFixpoint(content.title);
    TrimFixpoint(content.summary);
    NormalStringsAreFixed(content.deliverables, 50, 1000);
    NormalStringsAreFixed(content.keyRequirements, 100, 1000);
    NormalStringsAreFixed(content.riskWarnings, 50, 1000);
    forall i | 0 <= i < |content.tasks|
      ensures AcceptableTask(content.tasks[i], blankIsMedium) && NormalizedTask(content.tasks[i]) == content.tasks[i]
    {
      NormalFormIsFixpoint(content.tasks[i], false);
    }
    assert NormalizedTasks(content.tasks) == content.tasks;
  }

  /** ai.ParsedDocument, which normalizeAndValidate rewrites in place, field by field, until a check fails. */
  class ParsedDocument {
    var title: string
    var summary: string
    var deadline: Option<int>
    var deliverables: Option<seq<string>>
    var keyRequirements: Option<seq<string>>
    var riskWarnings: Option<seq<string>>
    var tasks: Option<seq<GeneratedTask>>

    constructor (draft: Draft)
      ensures View() == draft
    {
      title, summary, deadline := draft.title, draft.summary, draft.deadline;
      deliverables, keyRequirements, riskWarnings, tasks := draft.deliverables, draft.keyRequirements,
          draft.riskWarnings, draft.tasks;
    }

    function View(): Draft
      reads this
    {
      Draft(title, summary, deadline, deliverables, keyRequirements, riskWarnings, tasks)
    }

    method NormalizeAndValidate() returns (ok: bool)
      modifies this
      ensures ok <==> AcceptableDraft(old(View()), false)
      ensures ok ==> View() == AsDraft(NormalizedContent(old(View()), false))
      ensures ok ==> NormalContent(NormalizedContent(old(View()), false))
      ensures ok ==>
                && title == Trim(old(title)) && summary == Trim(old(summary)) && deadline == old(deadline)
                && deliverables == Some(FirstOccurrences(TrimAll(old(deliverables).value)))
                && keyRequirements == Some(FirstOccurrences(TrimAll(old(keyRequirements).value)))
                && riskWarnings == Some(FirstOccurrences(TrimAll(old(riskWarnings).value)))
                && tasks.Some? && |tasks.value| == |old(tasks).value|
                && forall i | 0 <= i < |tasks.value| :: Tidied(tasks.value[i], old(tasks).value[i])
    {
      hide Trim, FirstOccurrences, TrimAll, Acceptable, AcceptableTask, NormalizedTask;
      NormalizersAgree(View(), false);
      title := Trim(title);
      summary := Trim(summary);
      if title == "" || |title| > MAX_TITLE {
        return false;
      }
      if summary == "" || |summary| > MAX_SUMMARY {
        return false;
      }
      var values := NormalizeStrings(deliverables, 50, 1000);
      if values.Err? {
        return false;
      }
      deliverables := Some(values.value);
      values := NormalizeStrings(keyRequirements, 100, 1000);
      if values.Err? {
        return false;
      }
      keyRequirements := Some(values.value);
      values := NormalizeStrings(riskWarnings, 50, 1000);
      if values.Err? {
        return false;
      }
      riskWarnings := Some(values.value);
      var normalized := NormalizeTasks(tasks, false);
      if normalized.Err? {
        return false;
      }
      tasks := Some(normalized.value);
      return true;
    }
  }

  function NormalizedUpdate(version: int, draft: Option<Draft>): Result<Content> {
    if version >= 1 && draft.Some? && AcceptableDraft(draft.value, true) then Ok(NormalizedContent(draft.value, true))
    else Err(InvalidInput)
  }

  /** normalizeUpdate works on a copy of the request. */
  method NormalizeUpdate(version: int, draft: Option<Draft>) returns (r: Result<Content>)
    ensures r == NormalizedUpdate(version, draft)
  {
    hide Trim, FirstOccurrences, TrimAll, Acceptable, AcceptableTask, NormalizedTask;
    if version < 1 || draft.None? {
      return Err(InvalidInput);
    }
    var request := draft.value;
    var title, summary := Trim(request.title), Trim(request.summary);
    if title == "" || |title| > MAX_TITLE || summary == "" || |summary| > MAX_SUMMARY {
      return Err(InvalidInput);
    }
    var deliverables := NormalizeStrings(request.deliverables, 50, 1000);
    if deliverables.Err? {
      return Err(InvalidInput);
    }
    var keyRequirements := NormalizeStrings(request.keyRequirements, 100, 1000);
    if keyRequirements.Err? {
      return Err(InvalidInput);
    }
    var riskWarnings := NormalizeStrings(request.riskWarnings, 50, 1000);
    if riskWarnings.Err? {
      return Err(InvalidInput);
    }
    var tasks := NormalizeTasks(request.tasks, true);
    if tasks.Err? {
      return Err(InvalidInput);
    }
    return Ok(Content(title, summary, request.deadline, deliverables.value, keyRequirements.value,
        riskWarnings.value, tasks.value));
  }
}
