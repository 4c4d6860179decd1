/** context_window.py: the prompt of a retrieval chat, cut to the token budget. */
module ContextWindows {
  import opened Options
  import opened Tokens
  import Decimal
  import opened Texts

  const CUT_MARKER := "\n\n[上下文过长，已截断]"
  const CONTEXT_TITLE := "【参考文档】：\n"
  const QUESTION_TITLE := "\n\n【问题】："

  datatype Window = Window(encoder: Encoder, maxTokens: int, tailWindow: int, maxHistoryMessages: int)

  // ---------- The newest messages within a budget ----------

  /** Oldest messages dropped until the rest is within the budget. */
  function Tail(encoder: Encoder, messages: seq<Message>, budget: int): seq<Message> {
    if messages == [] || Cost(encoder, messages) <= budget then messages else Tail(encoder, messages[1..], budget)
  }

  /** The longest suffix within a budget starts at `at`. */
  ghost predicate LongestFrom(encoder: Encoder, messages: seq<Message>, budget: int, at: int) {
    && 0 <= at <= |messages|
    && (at == |messages| || Cost(encoder, messages[at..]) <= budget)
    && forall j :: 0 <= j < at ==> Cost(encoder, messages[j..]) > budget
  }

  lemma CostFrom(encoder: Encoder, messages: seq<Message>, i: nat)
    requires i < |messages|
    ensures Cost(encoder, messages[i..]) == MessageCost(encoder, messages[i]) + Cost(encoder, messages[i + 1..])
  {
    CostOfOne(encoder, messages[i]);
    CostOfJoin(encoder, [messages[i]], messages[i + 1..]);
    assert [messages[i]] + messages[i + 1..] == messages[i..];
  }

  lemma {:induction false} LongerCostsMore(encoder: Encoder, messages: seq<Message>, i: nat, j: nat)
    requires i <= j <= |messages|
    ensures Cost(encoder, messages[i..]) >= Cost(encoder, messages[j..])
    decreases j - i
  {
    if i < j {
      CostFrom(encoder, messages, i);
      LongerCostsMore(encoder, messages, i + 1, j);
    }
  }

  /** The longest suffix within the budget is the tail, and it is the only one. */
  lemma {:induction false} LongestSuffixIsTail(encoder: Encoder, messages: seq<Message>, budget: int, at: int)
    requires LongestFrom(encoder, messages, budget, at)
    ensures messages[at..] == Tail(encoder, messages, budget)
  {
    assert messages[0..] == messages;
    if at > 0 {
      forall j | 0 <= j < at - 1 ensures Cost(encoder, messages[1..][j..]) > budget {
        assert messages[1..][j..] == messages[j + 1..];
      }
      assert messages[1..][at - 1..] == messages[at..];
      LongestSuffixIsTail(encoder, messages[1..], budget, at - 1);
    }
  }

  method FitTail(encoder: Encoder, messages: seq<Message>, budget: int) returns (result: seq<Message>)
    ensures exists at :: LongestFrom(encoder, messages, budget, at) && result == messages[at..]
    ensures result == Tail(encoder, messages, budget)
  {
    var used, at := 0, |messages|;
    result := [];
    while at > 0
      invariant 0 <= at <= |messages|
      invariant |result| == |messages| - at
      invariant forall i :: 0 <= i < |result| ==> result[i] == messages[|messages| - 1 - i]
      invariant used == Cost(encoder, messages[at..])
      invariant at == |messages| || used <= budget
    {
      var cost := MessageCost(encoder, messages[at - 1]);
      CostFrom(encoder, messages, at - 1);
      if used + cost > budget {
        break;
      }
      result := result + [messages[at - 1]];
      used := used + cost;
      at := at - 1;
    }
    result := seq(|result|, i requires 0 <= i < |result| => result[|result| - 1 - i]);
    forall j | 0 <= j < at ensures Cost(encoder, messages[j..]) > budget {
      LongerCostsMore(encoder, messages, j, at - 1);
    }
    assert LongestFrom(encoder, messages, budget, at);
    LongestSuffixIsTail(encoder, messages, budget, at);
  }

  predicate IsSuffix<T(==)>(s: seq<T>, of: seq<T>) {
    |s| <= |of| && s == of[|of| - |s|..]
  }

  lemma SuffixesChain<T>(s: seq<T>, t: seq<T>, of: seq<T>)
    requires IsSuffix(s, t) && IsSuffix(t, of)
    ensures IsSuffix(s, of)
  {
  }

  lemma {:induction false} TailBound(encoder: Encoder, messages: seq<Message>, budget: int)
    ensures Cost(encoder, Tail(encoder, messages, budget)) <= if budget > 0 then budget else 0
    ensures IsSuffix(Tail(encoder, messages, budget), messages)
  {
    if messages != [] && Cost(encoder, messages) > budget {
      TailBound(encoder, messages[1..], budget);
      SuffixesChain(Tail(encoder, messages, budget), messages[1..], messages);
    }
  }

  // ---------- Compressing the older messages ----------

  /** The characters Python strips. */
  predicate IsSpace(c: char) {
    var u := c as int;
    || 0x09 <= u <= 0x0D || 0x1C <= u <= 0x20 || u == 0x85 || u == 0xA0 || u == 0x1680
    || 0x2000 <= u <= 0x200A || u == 0x2028 || u == 0x2029 || u == 0x202F || u == 0x205F || u == 0x3000
  }

  function Stripped(s: string): (r: string)
    ensures r == "" <==> forall i :: 0 <= i < |s| ==> IsSpace(s[i])
  {
    if s == "" then ""
    else if IsSpace(s[0]) then Stripped(s[1..])
    else if IsSpace(s[|s| - 1]) then Stripped(s[..|s| - 1])
    else s
  }

  ghost predicate AllSpaces(s: string) {
    forall i :: 0 <= i < |s| ==> IsSpace(s[i])
  }

  /** Stripping takes spaces from both ends, and all of them. */
  lemma {:induction false} StrippedMeaning(s: string) returns (before: string, after: string)
    ensures s == before + Stripped(s) + after && AllSpaces(before) && AllSpaces(after)
    ensures var r := Stripped(s); r != "" ==> !IsSpace(r[0]) && !IsSpace(r[|r| - 1])
  {
    hide IsSpace;
    before, after := "", "";
    if s != "" && IsSpace(s[0]) {
      before, after := StrippedMeaning(s[1..]);
      OneMoreInFront(s, before, Stripped(s[1..]), after);
      before := [s[0]] + before;
    } else if s != "" && IsSpace(s[|s| - 1]) {
      before, after := StrippedMeaning(s[..|s| - 1]);
      OneMoreBehind(s, before, Stripped(s[..|s| - 1]), after);
      after := after + [s[|s| - 1]];
    }
  }

  lemma OneMoreInFront(s: string, a: string, b: string, c: string)
    requires s != "" && s[1..] == a + b + c
    ensures s == [s[0]] + a + b + c
  {
    assert s == [s[0]] + s[1..];
  }

  lemma OneMoreBehind(s: string, a: string, b: string, c: string)
    requires s != "" && s[..|s| - 1] == a + b + c
    ensures s == a + b + (c + [s[|s| - 1]])
  {
    assert s == s[..|s| - 1] + [s[|s| - 1]];
  }

  function Flat(s: string): string {
    seq(|s|, i requires 0 <= i < |s| => if s[i] == '\n' then ' ' else s[i])
  }

  /** At most n characters on one line, and an ellipsis after a cut. */
  function Short(s: string, n: nat): (r: string)
    ensures |r| <= n + 3
  {
    Flat(UpTo(s, n)) + if |s| > n then "..." else ""
  }

  datatype Exchange = Exchange(question: string, answer: string)

  /** The exchanges found so far and the question waiting for an answer; none is waiting when it is empty. */
  datatype Scan = Scan(exchanges: seq<Exchange>, question: string)

  function Scanned(messages: seq<Message>): Scan {
    if messages == [] then
      Scan([], "")
    else
      ScanStep(Scanned(messages[..|messages| - 1]), messages[|messages| - 1])
  }

  function ScanStep(s: Scan, m: Message): Scan {
    var content := Stripped(m.content);
    if content == "" then
      s
    else
      match m.role
      case User => s.(question := content)
      case Assistant => if s.question == "" then s else Scan(s.exchanges + [Exchange(s.question, content)], "")
      case System => s.(exchanges := s.exchanges + [Exchange("[System]", content)])
      case Other(_) => s
  }

  predicate Asks(m: Message) {
    m.role == User && Stripped(m.content) != ""
  }

  predicate Answers(m: Message) {
    m.role == Assistant && Stripped(m.content) != ""
  }

  /** The j-th message answers the i-th: a question, an answer, and neither in between. */
  ghost predicate AnswersTo(messages: seq<Message>, i: int, j: nat)
    requires j < |messages|
  {
    && 0 <= i < j && Asks(messages[i]) && Answers(messages[j])
    && forall k :: i < k < j ==> !Asks(messages[k]) && !Answers(messages[k])
  }

  /** The i-th message is a question still waiting after the first n. */
  ghost predicate Waits(messages: seq<Message>, n: nat, i: int)
    requires n <= |messages|
  {
    && 0 <= i < n && Asks(messages[i])
    && forall k :: i < k < n ==> !Asks(messages[k]) && !Answers(messages[k])
  }

  /** What the j-th message adds: an exchange, if it answers a question or is a note of the system. */
  ghost predicate Adds(messages: seq<Message>, j: nat, e: Exchange)
    requires j < |messages|
  {
    var said := Stripped(messages[j].content);
    || (messages[j].role == System && said != "" && e == Exchange("[System]", said))
    || exists i :: 0 <= i < j && AnswersTo(messages, i, j) && e == Exchange(Stripped(messages[i].content), said)
  }

  ghost predicate IsScan(messages: seq<Message>, n: nat, s: Scan)
    requires n <= |messages|
  {
    && (s.question != "" ==>
          exists i :: 0 <= i < n && Waits(messages, n, i) && s.question == Stripped(messages[i].content))
    && (s.question == "" ==> forall i :: !Waits(messages, n, i))
  }

  lemma OneWaits(messages: seq<Message>, n: nat, i: int, j: int)
    requires n <= |messages| && Waits(messages, n, i) && Waits(messages, n, j)
    ensures i == j
  {
  }

  lemma WaitingStep(messages: seq<Message>, n: nat, i: int)
    requires n < |messages|
    ensures Waits(messages, n + 1, i) <==>
            if i == n then Asks(messages[n]) else Waits(messages, n, i) && !Asks(messages[n]) && !Answers(messages[n])
    ensures AnswersTo(messages, i, n) <==> Waits(messages, n, i) && Answers(messages[n])
  {
    hide Asks, Answers;
  }

  lemma ScanFollows(messages: seq<Message>, n: nat, s: Scan)
    requires n < |messages| && IsScan(messages, n, s)
    ensures IsScan(messages, n + 1, ScanStep(s, messages[n]))
  {
    hide Stripped, Waits, AnswersTo;
    var m, s' := messages[n], ScanStep(s, messages[n]);
    if Asks(m) {
      WaitingStep(messages, n, n);
    } else if s'.question != "" {
      var i :| 0 <= i < n && Waits(messages, n, i) && s.question == Stripped(messages[i].content);
      WaitingStep(messages, n, i);
    } else {
      var next := n + 1;
      forall i ensures !Waits(messages, next, i) {
        WaitingStep(messages, n, i);
      }
    }
  }

  /** A message adds an exchange exactly when it is a note of the system, or an answer while a question waits. */
  lemma StepAdds(messages: seq<Message>, n: nat, s: Scan)
    requires n < |messages| && IsScan(messages, n, s)
    ensures var s' := ScanStep(s, messages[n]);
            && s.exchanges <= s'.exchanges && |s'.exchanges| <= |s.exchanges| + 1
            && (forall e :: Adds(messages, n, e) <==> s'.exchanges == s.exchanges + [e])
  {
    hide Stripped, Waits, AnswersTo;
    var m, s' := messages[n], ScanStep(s, messages[n]);
    forall i ensures AnswersTo(messages, i, n) <==> Waits(messages, n, i) && Answers(m) {
      WaitingStep(messages, n, i);
    }
    if Answers(m) && s.question != "" {
      var i :| 0 <= i < n && Waits(messages, n, i) && s.question == Stripped(messages[i].content);
      forall j | Waits(messages, n, j) ensures j == i {
        OneWaits(messages, n, i, j);
      }
      assert AnswersTo(messages, i, n);
      OnlyAdded(s.exchanges, s'.exchanges, Exchange(s.question, Stripped(m.content)));
    } else if m.role == System && Stripped(m.content) != "" {
      assert !Answers(m);
      OnlyAdded(s.exchanges, s'.exchanges, Exchange("[System]", Stripped(m.content)));
    } else {
      assert s'.exchanges == s.exchanges;
      forall i ensures !AnswersTo(messages, i, n) {
      }
    }
  }

  lemma OnlyAdded<T>(s: seq<T>, s': seq<T>, x: T)
    requires s' == s + [x]
    ensures forall y :: s' == s + [y] <==> y == x
  {
    forall y | s' == s + [y] ensures y == x {
      assert (s + [y])[|s|] == y && s'[|s|] == x;
    }
  }

  /** The scan pairs every answer with the question waiting for it, that is the latest one if no answer came since, and
      keeps the notes of the system: one more message adds exactly the exchange it completes. */
  lemma {:induction false} ScanMeaning(messages: seq<Message>, n: nat)
    requires n <= |messages|
    ensures IsScan(messages, n, Scanned(messages[..n]))
    ensures n < |messages| ==>
              && Scanned(messages[..n]).exchanges <= Scanned(messages[..n + 1]).exchanges
              && |Scanned(messages[..n + 1]).exchanges| <= |Scanned(messages[..n]).exchanges| + 1
              && forall e :: Adds(messages, n, e) <==>
                   Scanned(messages[..n + 1]).exchanges == Scanned(messages[..n]).exchanges + [e]
  {
    hide IsScan, Adds, ScanStep;
    if n == 0 {
      NothingScanned(messages);
    } else {
      ScanMeaning(messages, n - 1);
      assert messages[..n][..n - 1] == messages[..n - 1];
      ScanFollows(messages, n - 1, Scanned(messages[..n - 1]));
    }
    if n < |messages| {
      assert messages[..n + 1][..n] == messages[..n];
      StepAdds(messages, n, Scanned(messages[..n]));
    }
  }

  lemma NothingScanned(messages: seq<Message>)
    ensures IsScan(messages, 0, Scanned(messages[..0]))
  {
  }

  function Topics(messages: seq<Message>): seq<string> {
    if messages == [] then
      []
    else
      var content := Stripped(messages[|messages| - 1].content);
      var before := Topics(messages[..|messages| - 1]);
      if content == "" then before else before + [Short(content, 40)]
  }

  function TopicSummary(count: nat, topics: seq<string>): string {
    "[Earlier conversation: " + Decimal.OfNat(count) + " messages. Topics: " + Joined(UpTo(topics, 5), "; ") + "]"
  }

  function ExchangeText(e: Exchange): string {
    "Q: " + Short(e.question, 60) + "\nA: " + Short(e.answer, 80)
  }

  function ExchangeTexts(exchanges: seq<Exchange>): (r: seq<string>)
    ensures |r| == |exchanges|
  {
    if exchanges == [] then
      []
    else
      ExchangeTexts(exchanges[..|exchanges| - 1]) + [ExchangeText(exchanges[|exchanges| - 1])]
  }

  function ExchangeSummary(exchanges: seq<Exchange>): string {
    var more := if |exchanges| > 8 then ["... and " + Decimal.OfNat(|exchanges| - 8) + " more exchanges"] else [];
    "[Conversation History]\n" + Joined(ExchangeTexts(UpTo(exchanges, 8)) + more, "\n---\n")
  }

  /** A text of one line that is short enough is shown as it is. */
  predicate Plain(s: string, n: nat) {
    |s| <= n && Lacks(s, '\n')
  }

  lemma PlainIsShown(s: string, n: nat)
    requires Plain(s, n)
    ensures Short(s, n) == s
  {
    assert Flat(s) == s;
  }

  lemma {:induction false} ExchangeTextAt(exchanges: seq<Exchange>, k: nat)
    requires k < |exchanges|
    ensures ExchangeTexts(exchanges)[k] == ExchangeText(exchanges[k])
  {
    if k < |exchanges| - 1 {
      ExchangeTextAt(exchanges[..|exchanges| - 1], k);
    }
  }

  lemma ExchangeTextHolds(e: Exchange)
    ensures Plain(e.question, 60) ==> Contains(ExchangeText(e), "Q: " + e.question)
    ensures Plain(e.answer, 80) ==> Contains(ExchangeText(e), "A: " + e.answer)
  {
    if Plain(e.question, 60) {
      PlainIsShown(e.question, 60);
      ContainsInside(ExchangeText(e), "Q: " + e.question, "", "\nA: " + Short(e.answer, 80));
    }
    if Plain(e.answer, 80) {
      PlainIsShown(e.answer, 80);
      assert ExchangeText(e) == ("Q: " + Short(e.question, 60) + "\n") + ("A: " + e.answer) + "";
      ContainsInside(ExchangeText(e), "A: " + e.answer, "Q: " + Short(e.question, 60) + "\n", "");
    }
  }

  /** The summary of a conversation quotes each of its first eight exchanges: in full where question and answer are
      plain and no longer than 60 and 80 characters. */
  lemma SummaryHoldsExchanges(exchanges: seq<Exchange>, k: nat)
    requires k < |exchanges| && k < 8
    ensures Plain(exchanges[k].question, 60) ==> Contains(ExchangeSummary(exchanges), "Q: " + exchanges[k].question)
    ensures Plain(exchanges[k].answer, 80) ==> Contains(ExchangeSummary(exchanges), "A: " + exchanges[k].answer)
  {
    hide ExchangeText, Joined, Contains, Plain;
    var more := if |exchanges| > 8 then ["... and " + Decimal.OfNat(|exchanges| - 8) + " more exchanges"] else [];
    var texts := ExchangeTexts(UpTo(exchanges, 8)) + more;
    var all, title := Joined(texts, "\n---\n"), "[Conversation History]\n";
    ExchangeTextAt(UpTo(exchanges, 8), k);
    JoinedContains(texts, "\n---\n", k);
    ContainsInside(title + all, all, title, "");
    ContainsTransitive(title + all, all, texts[k]);
    ExchangeTextHolds(exchanges[k]);
    if Plain(exchanges[k].question, 60) {
      ContainsTransitive(title + all, texts[k], "Q: " + exchanges[k].question);
    }
    if Plain(exchanges[k].answer, 80) {
      ContainsTransitive(title + all, texts[k], "A: " + exchanges[k].answer);
    }
  }

  function CompressedOld(messages: seq<Message>): Option<Message> {
    var exchanges := Scanned(messages).exchanges;
    if exchanges != [] then
      Some(Message(System, ExchangeSummary(exchanges)))
    else if Topics(messages) != [] then
      Some(Message(System, TopicSummary(|messages|, Topics(messages))))
    else
      None
  }

  method CompressOld(messages: seq<Message>) returns (r: Option<Message>)
    ensures r == CompressedOld(messages)
  {
    if messages == [] {
      return None;
    }
    var exchanges: seq<Exchange>, question := [], "";
    for i := 0 to |messages|
      invariant Scan(exchanges, question) == Scanned(messages[..i])
    {
      assert messages[..i + 1][..i] == messages[..i];
      var role, content := messages[i].role, Stripped(messages[i].content);
      if content == "" {
        continue;
      }
      if role == User {
        question := content;
      } else if role == Assistant && question != "" {
        exchanges := exchanges + [Exchange(question, content)];
        question := "";
      } else if role == System {
        exchanges := exchanges + [Exchange("[System]", content)];
      }
    }
    assert messages[..|messages|] == messages;
    if exchanges == [] {
      var topics := CollectTopics(messages);
      if topics == [] {
        return None;
      }
      return Some(Message(System, TopicSummary(|messages|, topics)));
    }
    r := Some(Message(System, ExchangeSummary(exchanges)));
  }

  method CollectTopics(messages: seq<Message>) returns (topics: seq<string>)
    ensures topics == Topics(messages)
  {
    topics := [];
    for i := 0 to |messages|
      invariant topics == Topics(messages[..i])
    {
      assert messages[..i + 1][..i] == messages[..i];
      var content := Stripped(messages[i].content);
      if content != "" {
        topics := topics + [Short(content, 40)];
      }
    }
    assert messages[..|messages|] == messages;
  }

  ghost predicate AllBlank(messages: seq<Message>) {
    forall i :: 0 <= i < |messages| ==> Stripped(messages[i].content) == ""
  }

  lemma {:induction false} BlankMessages(messages: seq<Message>)
    ensures |Topics(messages)| == 0 <==> AllBlank(messages)
    ensures AllBlank(messages) ==> Scanned(messages) == Scan([], "")
  {
    if messages != [] {
      var front, last := messages[..|messages| - 1], messages[|messages| - 1];
      BlankMessages(front);
      assert AllBlank(messages) <==> AllBlank(front) && Stripped(last.content) == "";
    }
  }

  /** There is no summary exactly when nothing but blanks was said. */
  lemma NoSummaryIff(messages: seq<Message>)
    ensures CompressedOld(messages).None? <==> AllBlank(messages)
  {
    BlankMessages(messages);
  }

  lemma {:induction false} TopicOf(messages: seq<Message>, i: nat) returns (k: nat)
    requires i < |messages| && Stripped(messages[i].content) != ""
    ensures k < |Topics(messages)| && k <= i && Topics(messages)[k] == Short(Stripped(messages[i].content), 40)
  {
    var n := |messages| - 1;
    TopicsCount(messages);
    if i == n {
      k := |Topics(messages)| - 1;
    } else {
      k := TopicOf(messages[..n], i);
    }
  }

  lemma {:induction false} TopicsCount(messages: seq<Message>)
    ensures |Topics(messages)| <= |messages|
  {
    if messages != [] {
      TopicsCount(messages[..|messages| - 1]);
    }
  }

  /** Where nothing was answered the summary names the first five topics, the beginnings of what was said. */
  lemma {:induction false} SummaryHoldsTopics(messages: seq<Message>, i: nat)
    requires Scanned(messages).exchanges == [] && i < 5 && i < |messages|
    requires Stripped(messages[i].content) != "" && Plain(Stripped(messages[i].content), 40)
    ensures CompressedOld(messages).Some? && CompressedOld(messages).value.role == System
    ensures Contains(CompressedOld(messages).value.content, Stripped(messages[i].content))
  {
    hide Scanned, Topics, Joined, Contains, Plain;
    var k := TopicOf(messages, i);
    var topics := Topics(messages);
    PlainIsShown(Stripped(messages[i].content), 40);
    JoinedContains(UpTo(topics, 5), "; ", k);
    var front := "[Earlier conversation: " + Decimal.OfNat(|messages|) + " messages. Topics: ";
    var all := Joined(UpTo(topics, 5), "; ");
    ContainsInside(front + all + "]", all, front, "]");
    ContainsTransitive(front + all + "]", all, topics[k]);
  }

  // ---------- How long a summary can be ----------

  lemma OneMore(n: nat, each: nat)
    ensures (n + 1) * each == n * each + each
  {
  }

  lemma {:induction false} JoinedLength(parts: seq<string>, separator: string, each: nat)
    requires forall p :: p in parts ==> |p| + |separator| <= each
    ensures |Joined(parts, separator)| <= |parts| * each
  {
    if parts != [] {
      assert parts[0] in parts;
      JoinedLength(parts[1..], separator, each);
      OneMore(|parts[1..]|, each);
    }
  }

  lemma {:induction false} ExchangeTextsLength(exchanges: seq<Exchange>)
    ensures forall p :: p in ExchangeTexts(exchanges) ==> |p| <= 153
  {
    if exchanges != [] {
      ExchangeTextsLength(exchanges[..|exchanges| - 1]);
    }
  }

  lemma {:induction false} TopicsLength(messages: seq<Message>)
    ensures forall p :: p in Topics(messages) ==> |p| <= 43
  {
    if messages != [] {
      TopicsLength(messages[..|messages| - 1]);
    }
  }

  lemma {:induction false} ExchangesCount(messages: seq<Message>)
    ensures |Scanned(messages).exchanges| <= |messages|
  {
    if messages != [] {
      ExchangesCount(messages[..|messages| - 1]);
    }
  }

  lemma ShortNumber(n: nat)
    requires n < 100
    ensures |Decimal.OfNat(n)| <= 2
  {
    assert n >= 10 ==> |Decimal.OfNat(n / 10)| == 1;
  }

  lemma ExchangeSummaryLength(exchanges: seq<Exchange>)
    requires |exchanges| < 100
    ensures |ExchangeSummary(exchanges)| <= 1445
  {
    var more := if |exchanges| > 8 then ["... and " + Decimal.OfNat(|exchanges| - 8) + " more exchanges"] else [];
    if |exchanges| > 8 {
      ShortNumber(|exchanges| - 8);
    }
    var parts := ExchangeTexts(UpTo(exchanges, 8)) + more;
    ExchangeTextsLength(UpTo(exchanges, 8));
    JoinedLength(parts, "\n---\n", 158);
    assert |parts| <= 9;
  }

  lemma TopicSummaryLength(count: nat, topics: seq<string>)
    requires count < 100 && forall p :: p in topics ==> |p| <= 43
    ensures |TopicSummary(count, topics)| <= 300
  {
    ShortNumber(count);
    JoinedLength(UpTo(topics, 5), "; ", 45);
    assert |UpTo(topics, 5)| <= 5;
  }

  /** Under the length estimate the summary of fewer than a hundred messages costs at most 582 tokens. */
  lemma SummaryCost(messages: seq<Message>)
    requires |messages| < 100
    ensures CompressedOld(messages).Some? ==> MessageCost(None, CompressedOld(messages).value) <= 582
  {
    hide ExchangeSummary, TopicSummary, Scanned, Topics;
    ExchangesCount(messages);
    ExchangeSummaryLength(Scanned(messages).exchanges);
    TopicsLength(messages);
    TopicSummaryLength(|messages|, Topics(messages));
  }

  // ---------- Fitting the history ----------

  function RemainingBudget(w: Window, systemPrompt: string, context: string, query: string): int {
    var left := w.maxTokens - (EstimateTokens(w.encoder, systemPrompt) + 8)
      - (EstimateTokens(w.encoder, query) + EstimateTokens(w.encoder, context) + 4);
    if left < 200 then 200 else left
  }

  /** The summary in front of the recent messages, if the history is long enough to have one. */
  function Lead(w: Window, history: seq<Message>): Option<Message> {
    var capped := From(history, -w.maxHistoryMessages);
    if |capped| <= w.tailWindow then None else CompressedOld(UpTo(capped, -w.tailWindow))
  }

  function Recent(w: Window, history: seq<Message>): seq<Message> {
    var capped := From(history, -w.maxHistoryMessages);
    if |capped| <= w.tailWindow then capped else From(capped, -w.tailWindow)
  }

  /** Of a long history only the last messages count; the newest of them stay, and the others are summarised. */
  lemma LongHistory(w: Window, history: seq<Message>)
    requires 1 <= w.tailWindow < w.maxHistoryMessages && w.tailWindow < |history|
    ensures var n := |history|; var first := if n > w.maxHistoryMessages then n - w.maxHistoryMessages else 0;
            && Lead(w, history) == CompressedOld(history[first..n - w.tailWindow])
            && Recent(w, history) == history[n - w.tailWindow..]
  {
    hide CompressedOld, From, UpTo;
    var n := |history|;
    var first := if n > w.maxHistoryMessages then n - w.maxHistoryMessages else 0;
    CutFromEnd(history, w.maxHistoryMessages);
    var capped := history[first..];
    CutFromEnd(capped, w.tailWindow);
    assert capped[..|capped| - w.tailWindow] == history[first..n - w.tailWindow];
    assert capped[|capped| - w.tailWindow..] == history[n - w.tailWindow..];
  }

  lemma CutFromEnd<T>(s: seq<T>, k: int)
    requires k >= 1
    ensures From(s, -k) == s[if |s| > k then |s| - k else 0..]
    ensures UpTo(s, -k) == s[..if |s| > k then |s| - k else 0]
  {
  }

  function LeadCost(encoder: Encoder, lead: Option<Message>): nat {
    if lead.Some? then MessageCost(encoder, lead.value) else 0
  }

  function LeadMessages(lead: Option<Message>): seq<Message> {
    if lead.Some? then [lead.value] else []
  }

  /** A summary, if any, and as many of the recent messages as it leaves room for. */
  function Arranged(encoder: Encoder, lead: Option<Message>, recent: seq<Message>, budget: int): seq<Message> {
    LeadMessages(lead) + Tail(encoder, recent, budget - LeadCost(encoder, lead))
  }

  function FittedHistory(w: Window, history: seq<Message>, budget: int): seq<Message> {
    Arranged(w.encoder, Lead(w, history), Recent(w, history), budget)
  }

  method Arrange(encoder: Encoder, lead: Option<Message>, recent: seq<Message>, budget: int)
    returns (fitted: seq<Message>)
    ensures fitted == Arranged(encoder, lead, recent, budget)
  {
    var leadTokens := if lead.Some? then MessageCost(encoder, lead.value) else 0;
    var fittedRecent := FitTail(encoder, recent, budget - leadTokens);
    fitted := if lead.Some? then [lead.value] else [];
    fitted := fitted + fittedRecent;
  }

  method FitMessages(w: Window, systemPrompt: string, context: string, history: seq<Message>, query: string)
    returns (fitted: seq<Message>)
    ensures fitted == FittedHistory(w, history, RemainingBudget(w, systemPrompt, context, query))
  {
    hide CompressedOld, Arranged, EstimateTokens;
    var systemTokens := EstimateTokens(w.encoder, systemPrompt) + 8;
    var queryTokens := EstimateTokens(w.encoder, query) + EstimateTokens(w.encoder, context) + 4;
    var remaining := w.maxTokens - systemTokens - queryTokens;
    if remaining < 200 {
      remaining := 200;
    }
    var capped := From(history, -w.maxHistoryMessages);
    if |capped| <= w.tailWindow {
      fitted := Arrange(w.encoder, None, capped, remaining);
    } else {
      var compressed := CompressOld(UpTo(capped, -w.tailWindow));
      fitted := Arrange(w.encoder, compressed, From(capped, -w.tailWindow), remaining);
    }
  }

  lemma ArrangedVerbatim(encoder: Encoder, lead: Option<Message>, recent: seq<Message>, budget: int,
                         history: seq<Message>)
    requires IsSuffix(recent, history)
    ensures LeadMessages(lead) <= Arranged(encoder, lead, recent, budget)
    ensures IsSuffix(Arranged(encoder, lead, recent, budget)[|LeadMessages(lead)|..], history)
  {
    var tail := Tail(encoder, recent, budget - LeadCost(encoder, lead));
    TailBound(encoder, recent, budget - LeadCost(encoder, lead));
    SuffixesChain(tail, recent, history);
    assert Arranged(encoder, lead, recent, budget)[|LeadMessages(lead)|..] == tail;
  }

  lemma ArrangedBound(encoder: Encoder, lead: Option<Message>, recent: seq<Message>, budget: int)
    requires budget >= 0
    ensures var least := LeadCost(encoder, lead);
            Cost(encoder, Arranged(encoder, lead, recent, budget)) <= if budget > least then budget else least
  {
    var tail := Tail(encoder, recent, budget - LeadCost(encoder, lead));
    TailBound(encoder, recent, budget - LeadCost(encoder, lead));
    CostOfJoin(encoder, LeadMessages(lead), tail);
    if lead.Some? {
      CostOfOne(encoder, lead.value);
    }
  }

  lemma RecentIsSuffix(w: Window, history: seq<Message>)
    ensures IsSuffix(Recent(w, history), history)
  {
    var capped := From(history, -w.maxHistoryMessages);
    SuffixesChain(Recent(w, history), capped, history);
  }

  /** The fitted history is the summary, if any, and an unchanged suffix of the history, */
  lemma HistoryIsVerbatim(w: Window, history: seq<Message>, budget: int)
    ensures var lead := LeadMessages(Lead(w, history));
            var fitted := FittedHistory(w, history, budget);
            lead <= fitted && IsSuffix(fitted[|lead|..], history)
  {
    RecentIsSuffix(w, history);
    ArrangedVerbatim(w.encoder, Lead(w, history), Recent(w, history), budget, history);
  }

  /** and it costs at most the budget, or the summary where that is more. */
  lemma HistoryBound(w: Window, history: seq<Message>, budget: int)
    requires budget >= 0
    ensures var lead := LeadCost(w.encoder, Lead(w, history));
            Cost(w.encoder, FittedHistory(w, history, budget)) <= if budget > lead then budget else lead
  {
    ArrangedBound(w.encoder, Lead(w, history), Recent(w, history), budget);
  }

  // ---------- The whole prompt ----------

  function ContextBudget(encoder: Encoder, systemPrompt: string, query: string, maxTokens: int): int {
    var left := maxTokens - EstimateTokens(encoder, systemPrompt) - EstimateTokens(encoder, query) - 600;
    if left > 400 then left else 400
  }

  /** A context over its budget is cut in proportion, the quotient taken exactly. */
  function CutContext(encoder: Encoder, context: string, budget: int): string
    requires budget >= 400
  {
    var tokens := EstimateTokens(encoder, context);
    if tokens > budget then
      var cut := |context| * budget / tokens;
      UpTo(context, if cut > 1 then cut else 1) + CUT_MARKER
    else
      context
  }

  lemma Scale(a: nat, b: nat, c: nat)
    requires a <= b
    ensures a * c <= b * c
  {
  }

  lemma DivideBack(a: nat, b: nat)
    requires b > 0
    ensures (a / b) * b <= a
  {
  }

  lemma ProportionalCut(n: nat, budget: nat, tokens: nat)
    requires tokens > budget && 2 * n <= 5 * tokens + 4
    ensures 2 * (n * budget / tokens) <= 5 * budget + 3
  {
    var cut, product := n * budget / tokens, budget * tokens;
    DivideBack(n * budget, tokens);
    Scale(2 * n, 5 * tokens + 4, budget);
    assert 2 * (cut * tokens) <= 5 * product + 4 * budget;
    if 2 * cut >= 5 * budget + 4 {
      Scale(5 * budget + 4, 2 * cut, tokens);
      assert false;
    }
  }

  lemma CutContextShape(encoder: Encoder, context: string, budget: int)
    requires budget >= 400
    ensures var r := CutContext(encoder, context, budget);
            if EstimateTokens(encoder, context) <= budget then
              r == context
            else
              CUT_MARKER <= r[|r| - |CUT_MARKER|..] && r[..|r| - |CUT_MARKER|] <= context
  {
    var tokens := EstimateTokens(encoder, context);
    if tokens > budget {
      var cut := |context| * budget / tokens;
      var kept := UpTo(context, if cut > 1 then cut else 1);
      assert (kept + CUT_MARKER)[..|kept|] == kept;
    }
  }

  lemma DivideAtLeast(a: nat, c: nat, d: nat)
    requires d > 0 && c * d <= a
    ensures a / d >= c
  {
    assert a < (a / d + 1) * d;
    if a / d + 1 <= c {
      Scale(a / d + 1, c, d);
    }
  }

  lemma ProportionalCutAtLeast(n: nat, budget: nat, tokens: nat)
    requires tokens > budget && 2 * n >= 5 * tokens
    ensures 2 * (n * budget / tokens) >= 5 * budget - 1
  {
    var least := 5 * budget / 2;
    Scale(2 * least, 5 * budget, tokens);
    Scale(5 * tokens, 2 * n, budget);
    DivideAtLeast(n * budget, least, tokens);
  }

  /** Under the length estimate every cut context exceeds its budget by exactly five tokens: the cut itself reaches the
      budget to within half a character, and the marker adds thirteen. */
  lemma CutIsExactlyFiveOver(context: string, budget: int)
    requires budget >= 400
    ensures EstimateTokens(None, CutContext(None, context, budget))
         == if EstimateTokens(None, context) <= budget then EstimateTokens(None, context) else budget + 5
  {
    var tokens := EstimateTokens(None, context);
    if tokens > budget {
      ProportionalCut(|context|, budget, tokens);
      ProportionalCutAtLeast(|context|, budget, tokens);
    }
  }

  /** So what is passed on keeps to the budget exactly when nothing is cut. */
  lemma ContextFitsIff(context: string, budget: int)
    requires budget >= 400
    ensures EstimateTokens(None, CutContext(None, context, budget)) <= budget
       <==> EstimateTokens(None, context) <= budget
  {
    CutIsExactlyFiveOver(context, budget);
  }

  function RagMessages(encoder: Encoder, systemPrompt: string, context: string, history: seq<Message>,
                       query: string, maxTokens: int): seq<Message>
  {
    var kept := CutContext(encoder, context, ContextBudget(encoder, systemPrompt, query, maxTokens));
    Prompt(systemPrompt, kept, query, HistoryFor(encoder, systemPrompt, kept, history, query, maxTokens))
  }

  function Prompt(systemPrompt: string, context: string, query: string, fitted: seq<Message>): seq<Message> {
    [Message(System, systemPrompt)] + fitted + [Message(User, CONTEXT_TITLE + context + QUESTION_TITLE + query)]
  }

  function HistoryFor(encoder: Encoder, systemPrompt: string, context: string, history: seq<Message>,
                      query: string, maxTokens: int): seq<Message>
  {
    var w := Window(encoder, maxTokens, 6, 20);
    FittedHistory(w, history, RemainingBudget(w, systemPrompt, context, query))
  }

  method BuildRagMessages(encoder: Encoder, systemPrompt: string, context: string, history: seq<Message>,
                          query: string, maxTokens: int) returns (messages: seq<Message>)
    ensures messages == RagMessages(encoder, systemPrompt, context, history, query, maxTokens)
  {
    hide FittedHistory, EstimateTokens;
    var budget := maxTokens - EstimateTokens(encoder, systemPrompt) - EstimateTokens(encoder, query) - 600;
    if budget < 400 {
      budget := 400;
    }
    var tokens, kept := EstimateTokens(encoder, context), context;
    if tokens > budget {
      var cut := |context| * budget / tokens;
      kept := UpTo(context, if cut > 1 then cut else 1) + CUT_MARKER;
    }
    var w := Window(encoder, maxTokens, 6, 20);
    var fitted := FitMessages(w, systemPrompt, kept, history, query);
    messages := [Message(System, systemPrompt)];
    messages := messages + fitted;
    messages := messages + [Message(User, CONTEXT_TITLE + kept + QUESTION_TITLE + query)];
  }

  /** The system prompt comes first, the fitted history next, and last, under a title each, what is left of the context
      and the question. */
  lemma PromptShape(encoder: Encoder, systemPrompt: string, context: string, history: seq<Message>, query: string,
                    maxTokens: int) returns (kept: string)
    ensures var r := RagMessages(encoder, systemPrompt, context, history, query, maxTokens);
            && |r| >= 2 && r[0] == Message(System, systemPrompt)
            && r[|r| - 1] == Message(User, "【参考文档】：\n" + kept + "\n\n【问题】：" + query)
            && r[1..|r| - 1] == HistoryFor(encoder, systemPrompt, kept, history, query, maxTokens)
    ensures kept == context || exists cut :: cut <= context && kept == cut + CUT_MARKER
  {
    hide HistoryFor, EstimateTokens;
    var budget := ContextBudget(encoder, systemPrompt, query, maxTokens);
    kept := CutContext(encoder, context, budget);
    CutContextIs(encoder, context, budget);
  }

  lemma CutContextIs(encoder: Encoder, context: string, budget: int)
    requires budget >= 400
    ensures var r := CutContext(encoder, context, budget);
            r == context || exists cut :: cut <= context && r == cut + CUT_MARKER
  {
    hide UpTo;
    var tokens := EstimateTokens(encoder, context);
    if tokens > budget {
      var cut := |context| * budget / tokens;
      var front := UpTo(context, if cut > 1 then cut else 1);
      FrontOf(context, if cut > 1 then cut else 1);
      assert front <= context && CutContext(encoder, context, budget) == front + CUT_MARKER;
    }
  }

  lemma FrontOf(s: string, n: nat)
    ensures UpTo(s, n) <= s
  {
  }

  /** Where everything fits, everything is there: the context and a history of up to six messages, word for word. */
  lemma EverythingFits(encoder: Encoder, systemPrompt: string, context: string, history: seq<Message>, query: string,
                       maxTokens: int)
    requires var left := maxTokens - EstimateTokens(encoder, systemPrompt) - EstimateTokens(encoder, query);
             && (EstimateTokens(encoder, context) <= 400 || EstimateTokens(encoder, context) <= left - 600)
             && (Cost(encoder, history) <= 200
                 || Cost(encoder, history) <= left - EstimateTokens(encoder, context) - 12)
    requires |history| <= 6
    ensures RagMessages(encoder, systemPrompt, context, history, query, maxTokens)
         == [Message(System, systemPrompt)] + history
            + [Message(User, "【参考文档】：\n" + context + "\n\n【问题】：" + query)]
  {
    hide EstimateTokens, CompressedOld;
    assert CutContext(encoder, context, ContextBudget(encoder, systemPrompt, query, maxTokens)) == context;
    var w := Window(encoder, maxTokens, 6, 20);
    assert Lead(w, history) == None && Recent(w, history) == history;
    assert [] + history == history;
  }

  lemma QuestionCost(context: string, query: string)
    ensures EstimateTokens(None, CONTEXT_TITLE + context + QUESTION_TITLE + query)
         <= EstimateTokens(None, context) + EstimateTokens(None, query) + 7
  {
  }

  lemma LeadIsCheap(w: Window, history: seq<Message>)
    requires w.encoder.None? && w.maxHistoryMessages == 20
    ensures LeadCost(None, Lead(w, history)) <= 582
  {
    var capped := From(history, -w.maxHistoryMessages);
    assert |capped| <= 20;
    if |capped| > w.tailWindow {
      SummaryCost(UpTo(capped, -w.tailWindow));
    }
  }

  lemma PromptCost(systemPrompt: string, context: string, query: string, fitted: seq<Message>)
    ensures Cost(None, Prompt(systemPrompt, context, query, fitted))
         <= EstimateTokens(None, systemPrompt) + Cost(None, fitted)
            + EstimateTokens(None, context) + EstimateTokens(None, query) + 15
  {
    var first := Message(System, systemPrompt);
    QuestionCost(context, query);
    CostOfOne(None, first);
    CostOfJoin(None, [first], fitted);
    CostOfOneMore(None, [first] + fitted, Message(User, CONTEXT_TITLE + context + QUESTION_TITLE + query));
  }

  lemma HistoryForBound(systemPrompt: string, context: string, history: seq<Message>, query: string, maxTokens: int)
    ensures var budget := RemainingBudget(Window(None, maxTokens, 6, 20), systemPrompt, context, query);
            Cost(None, HistoryFor(None, systemPrompt, context, history, query, maxTokens))
            <= if budget > 582 then budget else 582
  {
    var w := Window(None, maxTokens, 6, 20);
    LeadIsCheap(w, history);
    HistoryBound(w, history, RemainingBudget(w, systemPrompt, context, query));
  }

  /** Under the length estimate the whole prompt costs at most three tokens more than allowed, or, where the system
      prompt and the question leave less than a thousand, 1002 more than those two. */
  lemma PromptBound(systemPrompt: string, context: string, history: seq<Message>, query: string, maxTokens: int)
    ensures var pinned := EstimateTokens(None, systemPrompt) + EstimateTokens(None, query);
            Cost(None, RagMessages(None, systemPrompt, context, history, query, maxTokens))
            <= if maxTokens + 3 > pinned + 1002 then maxTokens + 3 else pinned + 1002
  {
    var budget := ContextBudget(None, systemPrompt, query, maxTokens);
    var kept := CutContext(None, context, budget);
    CutIsExactlyFiveOver(context, budget);
    HistoryForBound(systemPrompt, kept, history, query, maxTokens);
    PromptCost(systemPrompt, kept, query, HistoryFor(None, systemPrompt, kept, history, query, maxTokens));
  }
}
