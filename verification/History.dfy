/** The chat history that normalizeMessages sends on: checked, trimmed and cut to the size limit. */
module History {
  import opened Base
  import opened Text

  /** The role strings "user" and "assistant", and any other string. */
  datatype Role = User | Assistant | Other(name: string)

  datatype Message = Message(role: Role, content: string)

  const MAX_MESSAGES := 16
  const MAX_QUESTION_CHARS := 2000
  const MAX_HISTORY_CHARS := 12000

  function ExpectedRole(index: nat): Role {
    if index % 2 == 1 then Assistant else User
  }

  /** What a request must look like: user and assistant take turns, the user asks first and last, nothing is blank,
      and the question itself is short. */
  predicate ValidHistory(input: seq<Message>) {
    && 0 < |input| <= MAX_MESSAGES
    && input[|input| - 1].role == User
    && (forall i | 0 <= i < |input| :: input[i].role == ExpectedRole(i) && Trim(input[i].content) != "")
    && |Trim(input[|input| - 1].content)| <= MAX_QUESTION_CHARS
  }

  function TrimMessages(input: seq<Message>): (r: seq<Message>)
    ensures |r| == |input| && forall i | 0 <= i < |r| :: r[i] == Message(input[i].role, Trim(input[i].content))
  {
    seq(|input|, i requires 0 <= i < |input| => Message(input[i].role, Trim(input[i].content)))
  }

  function Chars(messages: seq<Message>): nat {
    if messages == [] then 0 else |messages[0].content| + Chars(messages[1..])
  }

  lemma {:induction false} CharsOfConcat(a: seq<Message>, b: seq<Message>)
    ensures Chars(a + b) == Chars(a) + Chars(b)
  {
    if a == [] {
      assert a + b == b;
    } else {
      assert (a + b)[1..] == a[1..] + b;
      CharsOfConcat(a[1..], b);
    }
  }

  function Suffix(messages: seq<Message>, n: nat): (r: seq<Message>)
    requires n <= |messages|
  {
    messages[|messages| - n..]
  }

  /** kept is the longest suffix of odd length that stays within the limit. */
  predicate LongestOddSuffix(messages: seq<Message>, kept: seq<Message>) {
    && |kept| <= |messages| && kept == Suffix(messages, |kept|)
    && |kept| % 2 == 1
    && Chars(kept) <= MAX_HISTORY_CHARS
    && (forall n | |kept| < n <= |messages| && n % 2 == 1 :: Chars(Suffix(messages, n)) > MAX_HISTORY_CHARS)
  }

  lemma LongestOddSuffixIsUnique(messages: seq<Message>, a: seq<Message>, b: seq<Message>)
    requires LongestOddSuffix(messages, a) && LongestOddSuffix(messages, b)
    ensures a == b
  {
    assert |a| >= |b| && |b| >= |a|;
  }

  /** Both guards at the end of normalizeMessages are idle: a valid request is never refused for its size, since the
      question alone fits, and pairs are removed from an odd number of messages, so two are never left. */
  method NormalizeMessages(input: seq<Message>) returns (r: Result<seq<Message>>)
    ensures r.Ok? <==> ValidHistory(input)
    ensures r.Ok? ==> LongestOddSuffix(TrimMessages(input), r.value)
  {
    hide Trim, Chars;
    if |input| == 0 || |input| > MAX_MESSAGES || input[|input| - 1].role != User {
      return Err(InvalidInput);
    }
    ghost var trimmed := TrimMessages(input);
    var messages: seq<Message> := [];
    var totalChars := 0;
    NoChars();
    for index := 0 to |input|
      invariant messages == trimmed[..index] && totalChars == Chars(messages)
      invariant forall i | 0 <= i < index :: input[i].role == ExpectedRole(i) && trimmed[i].content != ""
      invariant index == |input| ==> |trimmed[|input| - 1].content| <= MAX_QUESTION_CHARS
    {
      var content := Trim(input[index].content);
      var role := input[index].role;
      if content == "" || (role != User && role != Assistant) {
        return Err(InvalidInput);
      }
      if role != ExpectedRole(index) {
        return Err(InvalidInput);
      }
      if index == |input| - 1 && |content| > MAX_QUESTION_CHARS {
        return Err(InvalidInput);
      }
      totalChars := totalChars + |content|;
      messages := messages + [Message(role, content)];
      CharsOfConcat(trimmed[..index], [trimmed[index]]);
      OneMessage(trimmed[index]);
    }
    assert messages == trimmed;
    OddLength(input);
    r := CutHistory(messages, totalChars);
  }

  lemma OddLength(input: seq<Message>)
    requires ValidHistory(input)
    ensures |input| % 2 == 1
  {
    assert input[|input| - 1].role == ExpectedRole(|input| - 1);
  }

  /** The loop of normalizeMessages that removes the oldest exchanges, and its final size check. */
  method CutHistory(trimmed: seq<Message>, total: nat) returns (r: Result<seq<Message>>)
    requires |trimmed| % 2 == 1 && total == Chars(trimmed)
    requires |trimmed[|trimmed| - 1].content| <= MAX_QUESTION_CHARS
    ensures r.Ok? && LongestOddSuffix(trimmed, r.value)
  {
    hide Chars;
    var messages, totalChars := trimmed, total;
    ghost var k := 0;
    while totalChars > MAX_HISTORY_CHARS && |messages| > 1
      invariant k <= |trimmed| && messages == trimmed[k..] && |messages| % 2 == 1 && totalChars == Chars(messages)
      invariant forall n | |messages| < n <= |trimmed| && n % 2 == 1 :: Chars(Suffix(trimmed, n)) > MAX_HISTORY_CHARS
      decreases |messages|
    {
      var removeCount := if |messages| == 2 then 1 else 2;
      totalChars := totalChars - |messages[0].content| - (if removeCount == 2 then |messages[1].content| else 0);
      DropTwo(messages);
      messages := messages[removeCount..];
      k := k + 2;
    }
    QuestionFits(trimmed);
    assert messages == Suffix(trimmed, |messages|);
    r := if totalChars > MAX_HISTORY_CHARS then Err(InvalidInput) else Ok(messages);
  }

  lemma NoChars()
    ensures Chars([]) == 0
  {
  }

  lemma OneMessage(m: Message)
    ensures Chars([m]) == |m.content|
  {
  }

  lemma DropTwo(messages: seq<Message>)
    ensures |messages| >= 2 ==> Chars(messages) == |messages[0].content| + |messages[1].content| + Chars(messages[2..])
  {
    if |messages| >= 2 {
      assert messages[1..][1..] == messages[2..];
    }
  }

  lemma QuestionFits(messages: seq<Message>)
    requires |messages| > 0
    ensures Chars(messages[|messages| - 1..]) == |messages[|messages| - 1].content|
  {
    assert messages[|messages| - 1..] == [messages[|messages| - 1]];
  }

  /** What goes on to the model still alternates, and starts and ends with the user. */
  lemma KeptHistoryAlternates(input: seq<Message>, kept: seq<Message>)
    requires ValidHistory(input) && LongestOddSuffix(TrimMessages(input), kept)
    ensures forall i | 0 <= i < |kept| :: kept[i].role == ExpectedRole(i)
    ensures kept[0].role == User && kept[|kept| - 1].role == User
    ensures kept[|kept| - 1] == Message(User, Trim(input[|input| - 1].content))
  {
    hide Trim, Chars, ExpectedRole;
    OddLength(input);
    var n := EvenCut(input, kept);
    EvenSuffixAlternates(input, n);
  }

  lemma EvenCut(input: seq<Message>, kept: seq<Message>) returns (n: nat)
    requires LongestOddSuffix(TrimMessages(input), kept) && |input| % 2 == 1
    ensures n % 2 == 0 && n + |kept| == |input| && kept == TrimMessages(input)[n..] && |kept| > 0
  {
    hide Trim, Chars;
    n := |input| - |kept|;
  }

  lemma EvenSuffixAlternates(input: seq<Message>, n: nat)
    requires ValidHistory(input) && n % 2 == 0 && n < |input|
    ensures var kept := TrimMessages(input)[n..];
            && (forall i | 0 <= i < |kept| :: kept[i].role == ExpectedRole(i))
            && kept[0].role == User
            && kept[|kept| - 1] == Message(User, Trim(input[|input| - 1].content))
  {
    hide Trim;
    var kept := TrimMessages(input)[n..];
    forall i | 0 <= i < |kept| ensures kept[i].role == ExpectedRole(i) {
      assert kept[i] == TrimMessages(input)[n + i];
      SameParity(n, i);
    }
  }

  lemma SameParity(n: nat, i: nat)
    requires n % 2 == 0
    ensures ExpectedRole(n + i) == ExpectedRole(i)
  {
  }
}
