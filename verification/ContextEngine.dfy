/** context.py: fitting a conversation into a token budget. */
module ContextEngines {
  import opened Options
  import opened Texts
  import opened Tokens

  const MARKER := "...[truncated]"
  const HEADER := "[Earlier conversation]\n"
  const SUMMARY_HEADER := "[Conversation summary]\n"

  datatype Engine = Engine(encoder: Encoder, maxContextTokens: int, tailWindow: int)

  /** What compresses the older messages: concatenation, or a model whose reply is empty when it failed. */
  datatype Compressor = Concatenation | Model(reply: string)

  // ---------- Estimating ----------

  method EstimateMessagesTokens(encoder: Encoder, messages: seq<Message>) returns (total: nat)
    ensures total == Cost(encoder, messages)
  {
    total := 0;
    for i := 0 to |messages|
      invariant total == CostOfFirst(encoder, messages, i)
    {
      total := total + MessageCost(encoder, messages[i]);
    }
  }

  // ---------- Truncating ----------

  /** The shrinking loop: four fifths of the characters at a time, until the text fits or one is left. */
  function Shrunk(encoder: Encoder, content: string, keep: nat, remaining: int): string
    requires keep >= 1
    decreases keep
  {
    if EstimateTokens(encoder, content) > remaining && keep > 1 then
      Shrunk(encoder, UpTo(content, keep * 4 / 5) + MARKER, keep * 4 / 5, remaining)
    else
      content
  }

  /** The content a message is given when `remaining` tokens are left, if any content fits. */
  function FittedContent(encoder: Encoder, content: string, remaining: int): (r: Option<string>)
    requires remaining > 0
    ensures r.Some? ==> EstimateTokens(encoder, r.value) <= remaining
    ensures EstimateTokens(encoder, content) <= remaining ==> r == Some(content)
  {
    if EstimateTokens(encoder, content) <= remaining then
      Some(content)
    else
      var keep := remaining * 5 / 2;
      var cut := Shrunk(encoder, UpTo(content, keep) + MARKER, keep, remaining);
      if EstimateTokens(encoder, cut) > remaining then None else Some(cut)
  }

  function FittedMessage(encoder: Encoder, m: Message, remaining: int): (r: Option<Message>)
    requires remaining > 0
  {
    match FittedContent(encoder, m.content, remaining)
    case None => None
    case Some(content) => Some(m.(content := content))
  }

  /** The messages kept so far and what they cost. */
  datatype Kept = Kept(messages: seq<Message>, used: nat)

  /** The first n messages: each in turn gets what the kept ones before it left of the budget. */
  function KeptOfFirst(encoder: Encoder, messages: seq<Message>, n: nat, budget: int): Kept
    requires n <= |messages|
  {
    if n == 0 then
      Kept([], 0)
    else
      Extended(encoder, KeptOfFirst(encoder, messages, n - 1, budget), messages[n - 1], budget)
  }

  function Extended(encoder: Encoder, kept: Kept, m: Message, budget: int): Kept {
    if budget - kept.used <= 0 then
      kept
    else
      match FittedMessage(encoder, m, budget - kept.used)
      case None => kept
      case Some(shortened) => Kept(kept.messages + [shortened], kept.used + MessageCost(encoder, shortened))
  }

  function Truncated(encoder: Encoder, messages: seq<Message>, budget: int): seq<Message> {
    KeptOfFirst(encoder, messages, |messages|, budget).messages
  }

  method FitMessage(encoder: Encoder, m: Message, remaining: int) returns (r: Option<Message>)
    requires remaining > 0
    ensures r == FittedMessage(encoder, m, remaining)
  {
    var content := m.content;
    if EstimateTokens(encoder, content) > remaining {
      var keep: nat := remaining * 5 / 2;
      content := UpTo(content, keep) + MARKER;
      while EstimateTokens(encoder, content) > remaining && keep > 1
        invariant keep >= 1
        invariant Shrunk(encoder, content, keep, remaining)
               == Shrunk(encoder, UpTo(m.content, remaining * 5 / 2) + MARKER, remaining * 5 / 2, remaining)
        decreases keep
      {
        keep := keep * 4 / 5;
        content := UpTo(content, keep) + MARKER;
      }
      if EstimateTokens(encoder, content) > remaining {
        return None;
      }
    }
    r := Some(m.(content := content));
  }

  /** Once nothing is left, the remaining messages change nothing. */
  lemma {:induction false} NothingLeft(encoder: Encoder, messages: seq<Message>, i: nat, n: nat, budget: int)
    requires i <= n <= |messages| && budget <= KeptOfFirst(encoder, messages, i, budget).used
    ensures KeptOfFirst(encoder, messages, n, budget) == KeptOfFirst(encoder, messages, i, budget)
  {
    hide FittedMessage;
    if i < n {
      NothingLeft(encoder, messages, i, n - 1, budget);
    }
  }

  method TruncateMessages(encoder: Encoder, messages: seq<Message>, budget: int) returns (result: seq<Message>)
    ensures result == Truncated(encoder, messages, budget)
  {
    hide FittedMessage;
    result := [];
    var used: nat, i: nat := 0, 0;
    while i < |messages|
      invariant 0 <= i <= |messages|
      invariant Kept(result, used) == KeptOfFirst(encoder, messages, i, budget)
    {
      var remaining := budget - used;
      if remaining <= 0 {
        NothingLeft(encoder, messages, i, |messages|, budget);
        i := |messages|;
        break;
      }
      var m := FitMessage(encoder, messages[i], remaining);
      if m.Some? {
        result := result + [m.value];
        used := used + MessageCost(encoder, m.value);
      }
      i := i + 1;
    }
  }

  lemma {:induction false} KeptFacts(encoder: Encoder, messages: seq<Message>, n: nat, budget: int)
    requires n <= |messages|
    ensures KeptOfFirst(encoder, messages, n, budget).used <= if budget > 0 then budget + 4 else 0
  {
    hide FittedContent;
    if n > 0 {
      KeptFacts(encoder, messages, n - 1, budget);
    }
  }

  lemma {:induction false} UsedIsCost(encoder: Encoder, messages: seq<Message>, n: nat, budget: int)
    requires n <= |messages|
    ensures var kept := KeptOfFirst(encoder, messages, n, budget); kept.used == Cost(encoder, kept.messages)
  {
    hide FittedMessage;
    if n > 0 {
      var kept := KeptOfFirst(encoder, messages, n - 1, budget);
      UsedIsCost(encoder, messages, n - 1, budget);
      ExtendedCost(encoder, kept, messages[n - 1], budget);
    }
  }

  lemma ExtendedCost(encoder: Encoder, kept: Kept, m: Message, budget: int)
    requires kept.used == Cost(encoder, kept.messages)
    ensures var next := Extended(encoder, kept, m, budget); next.used == Cost(encoder, next.messages)
  {
    hide FittedMessage;
    var next := Extended(encoder, kept, m, budget);
    if next != kept {
      CostOfOneMore(encoder, kept.messages, next.messages[|kept.messages|]);
    }
  }

  /** The truncated list overshoots its budget by at most four tokens, the role of its last message. */
  lemma TruncationBound(encoder: Encoder, messages: seq<Message>, budget: int)
    ensures Cost(encoder, Truncated(encoder, messages, budget)) <= if budget > 0 then budget + 4 else 0
  {
    KeptFacts(encoder, messages, |messages|, budget);
    UsedIsCost(encoder, messages, |messages|, budget);
  }

  /** As long as something is left, each message's content fits what is left: nothing has to be cut. */
  ghost predicate NeedsNoCut(encoder: Encoder, messages: seq<Message>, budget: int) {
    forall n :: 0 <= n < |messages| && CostOfFirst(encoder, messages, n) < budget ==>
      EstimateTokens(encoder, messages[n].content) <= budget - CostOfFirst(encoder, messages, n)
  }

  /** Some prefix of the messages costs one to four tokens more than the budget. */
  ghost predicate PrefixJustOver(encoder: Encoder, messages: seq<Message>, budget: int) {
    exists n :: 0 <= n <= |messages| && budget < CostOfFirst(encoder, messages, n) <= budget + 4
  }

  lemma {:induction false} CostGrows(encoder: Encoder, messages: seq<Message>, m: nat, n: nat)
    requires m < n <= |messages|
    ensures CostOfFirst(encoder, messages, m) + 5 <= CostOfFirst(encoder, messages, n)
  {
    if m < n - 1 {
      CostGrows(encoder, messages, m, n - 1);
    }
  }

  lemma ExtendedUncut(encoder: Encoder, kept: Kept, m: Message, budget: int)
    requires kept.used < budget ==> EstimateTokens(encoder, m.content) <= budget - kept.used
    ensures Extended(encoder, kept, m, budget).used
         == kept.used + if kept.used < budget then MessageCost(encoder, m) else 0
  {
    hide EstimateTokens;
  }

  /** Without cuts, the shortest prefix that uses up the budget is kept, or everything. */
  lemma {:induction false} KeptWithoutCuts(encoder: Encoder, messages: seq<Message>, n: nat, budget: int)
    returns (k: nat)
    requires n <= |messages| && NeedsNoCut(encoder, messages, budget)
    ensures k <= n && KeptOfFirst(encoder, messages, n, budget).used == CostOfFirst(encoder, messages, k)
    ensures KeptOfFirst(encoder, messages, n, budget).used < budget ==> k == n
  {
    hide Extended, MessageCost;
    k := n;
    if n > 0 {
      k := KeptWithoutCuts(encoder, messages, n - 1, budget);
      var kept := KeptOfFirst(encoder, messages, n - 1, budget);
      ExtendedUncut(encoder, kept, messages[n - 1], budget);
      if kept.used < budget {
        k := n;
      }
    }
  }

  lemma PrefixesApart(encoder: Encoder, messages: seq<Message>, budget: int, k: nat, n: nat)
    requires k <= |messages| && n <= |messages| && (CostOfFirst(encoder, messages, k) < budget ==> k == |messages|)
    requires budget < CostOfFirst(encoder, messages, n) <= budget + 4
    ensures CostOfFirst(encoder, messages, k) > budget
  {
    hide CostOfFirst;
    if k < n {
      CostGrows(encoder, messages, k, n);
    } else if n < k {
      CostGrows(encoder, messages, n, k);
    }
  }

  /** A list in which nothing has to be cut exceeds the budget exactly when one of its prefixes costs one to four
      tokens more. */
  lemma OvershootsIff(encoder: Encoder, messages: seq<Message>, budget: int)
    requires budget > 0 && NeedsNoCut(encoder, messages, budget)
    ensures Cost(encoder, Truncated(encoder, messages, budget)) > budget <==> PrefixJustOver(encoder, messages, budget)
  {
    hide KeptOfFirst, CostOfFirst, NeedsNoCut;
    var k := KeptWithoutCuts(encoder, messages, |messages|, budget);
    KeptFacts(encoder, messages, |messages|, budget);
    UsedIsCost(encoder, messages, |messages|, budget);
    if PrefixJustOver(encoder, messages, budget) {
      var n :| 0 <= n <= |messages| && budget < CostOfFirst(encoder, messages, n) <= budget + 4;
      PrefixesApart(encoder, messages, budget, k, n);
    }
  }

  lemma {:induction false} PrefixCost(encoder: Encoder, messages: seq<Message>, n: nat)
    requires n < |messages|
    ensures CostOfFirst(encoder, messages, n) + EstimateTokens(encoder, messages[n].content) <= Cost(encoder, messages)
  {
    if n + 1 < |messages| {
      CostGrows(encoder, messages, n + 1, |messages|);
    }
  }

  lemma ExtendedWhole(encoder: Encoder, kept: Kept, m: Message, budget: int)
    requires EstimateTokens(encoder, m.content) <= budget - kept.used
    ensures Extended(encoder, kept, m, budget) == Kept(kept.messages + [m], kept.used + MessageCost(encoder, m))
  {
    hide EstimateTokens;
    assert m.(content := m.content) == m;
  }

  /** Truncating a list that fits changes nothing. */
  lemma {:induction false} TruncationKeepsWhatFits(encoder: Encoder, messages: seq<Message>, n: nat, budget: int)
    requires n <= |messages| && Cost(encoder, messages) <= budget
    ensures KeptOfFirst(encoder, messages, n, budget) == Kept(messages[..n], CostOfFirst(encoder, messages, n))
    ensures Truncated(encoder, messages, budget) == messages || n < |messages|
  {
    hide Extended, EstimateTokens;
    if n > 0 {
      TruncationKeepsWhatFits(encoder, messages, n - 1, budget);
      PrefixCost(encoder, messages, n - 1);
      ExtendedWhole(encoder, Kept(messages[..n - 1], CostOfFirst(encoder, messages, n - 1)), messages[n - 1], budget);
      assert messages[..n] == messages[..n - 1] + [messages[n - 1]];
    }
    assert messages[..|messages|] == messages;
  }

  // ---------- What truncation does to a content ----------

  /** A cut of the original followed by the marker, or the whole original with or without something after it. */
  ghost predicate Shortened(original: string, content: string) {
    original <= content || exists k :: CutAt(original, content, k)
  }

  predicate CutAt(original: string, content: string, k: int) {
    1 <= k <= |original| && content == original[..k] + MARKER
  }

  lemma {:induction false} ShrunkShape(encoder: Encoder, original: string, content: string, keep: nat, remaining: int)
    requires keep >= 1
    requires if |original| <= keep then original <= content else CutAt(original, content, keep)
    ensures Shortened(original, Shrunk(encoder, content, keep, remaining))
    decreases keep
  {
    if EstimateTokens(encoder, content) > remaining && keep > 1 {
      var k := keep * 4 / 5;
      var next := UpTo(content, k) + MARKER;
      if |original| <= k {
        assert original <= next;
      } else {
        assert content[..k] == original[..k];
        assert CutAt(original, next, k);
      }
      ShrunkShape(encoder, original, next, k, remaining);
    }
  }

  lemma FittedShape(encoder: Encoder, content: string, remaining: int)
    requires remaining > 0
    ensures var r := FittedContent(encoder, content, remaining); r.Some? ==> Shortened(content, r.value)
  {
    var keep := remaining * 5 / 2;
    ShrunkShape(encoder, content, UpTo(content, keep) + MARKER, keep, remaining);
  }

  /** The first k messages of `out` come from the first n of `messages`, in order, with their roles and shortened
      contents. */
  ghost predicate Thinned(out: seq<Message>, k: nat, messages: seq<Message>, n: nat)
    requires k <= |out| && n <= |messages|
    decreases n
  {
    if n == 0 then
      k == 0
    else
      || Thinned(out, k, messages, n - 1)
      || (k > 0 && Keeps(messages[n - 1], out[k - 1]) && Thinned(out, k - 1, messages, n - 1))
  }

  ghost predicate Keeps(m: Message, out: Message) {
    out.role == m.role && Shortened(m.content, out.content)
  }

  lemma {:induction false} ThinnedLonger(out: seq<Message>, more: seq<Message>, k: nat, messages: seq<Message>, n: nat)
    requires k <= |out| && n <= |messages| && Thinned(out, k, messages, n) && out <= more
    ensures Thinned(more, k, messages, n)
    decreases n
  {
    if n > 0 {
      if Thinned(out, k, messages, n - 1) {
        ThinnedLonger(out, more, k, messages, n - 1);
      } else {
        ThinnedLonger(out, more, k - 1, messages, n - 1);
      }
    }
  }

  lemma {:induction false} TruncationThinsFirst(encoder: Encoder, messages: seq<Message>, n: nat, budget: int)
    requires n <= |messages|
    ensures var out := KeptOfFirst(encoder, messages, n, budget).messages; Thinned(out, |out|, messages, n)
  {
    hide FittedMessage;
    if n > 0 {
      var kept := KeptOfFirst(encoder, messages, n - 1, budget);
      TruncationThinsFirst(encoder, messages, n - 1, budget);
      ExtensionKeeps(encoder, kept, messages[n - 1], budget);
      ThinnedLonger(kept.messages, Extended(encoder, kept, messages[n - 1], budget).messages, |kept.messages|,
                    messages, n - 1);
    }
  }

  lemma ExtensionKeeps(encoder: Encoder, kept: Kept, m: Message, budget: int)
    ensures var out := Extended(encoder, kept, m, budget).messages;
            && kept.messages <= out
            && (out == kept.messages || (|out| == |kept.messages| + 1 && Keeps(m, out[|kept.messages|])))
  {
    if budget - kept.used > 0 {
      FittedShape(encoder, m.content, budget - kept.used);
    }
  }

  /** Truncation only drops messages and shortens contents. */
  lemma TruncationThins(encoder: Encoder, messages: seq<Message>, budget: int)
    ensures var out := Truncated(encoder, messages, budget); Thinned(out, |out|, messages, |messages|)
  {
    TruncationThinsFirst(encoder, messages, |messages|, budget);
  }

  lemma {:induction false} ShrunkTooLong(content: string, keep: nat, remaining: int)
    requires 1 <= keep == |content| - |MARKER|
    ensures EstimateTokens(None, Shrunk(None, content, keep, remaining)) > remaining <==> remaining < 6
    decreases keep
  {
    if EstimateTokens(None, content) > remaining && keep > 1 {
      ShrunkTooLong(UpTo(content, keep * 4 / 5) + MARKER, keep * 4 / 5, remaining);
    }
  }

  /** Under the length estimate a message is dropped exactly when it is too long and fewer than six tokens are left. */
  lemma DroppedIff(content: string, remaining: int)
    requires remaining > 0
    ensures FittedContent(None, content, remaining).None?
       <==> EstimateTokens(None, content) > remaining && remaining < 6
  {
    if EstimateTokens(None, content) > remaining {
      var keep := remaining * 5 / 2;
      ShrunkTooLong(UpTo(content, keep) + MARKER, keep, remaining);
    }
  }

  /** The marked cut of a content to k characters. */
  function MarkedCut(content: string, k: nat): string {
    UpTo(content, k) + MARKER
  }

  /** The cut to k characters was reached from the one to keep characters, a fifth off at a time, each of them too long
      but perhaps the last. */
  ghost predicate ReachedBy(content: string, keep: nat, k: nat, remaining: int)
    requires keep >= 1
    decreases keep
  {
    k == keep || (keep > 1 && EstimateTokens(None, MarkedCut(content, keep)) > remaining
                  && ReachedBy(content, keep * 4 / 5, k, remaining))
  }

  lemma CutAgain(content: string, keep: nat, k: nat)
    requires k <= keep <= |content|
    ensures UpTo(MarkedCut(content, keep), k) + MARKER == MarkedCut(content, k)
  {
    assert MarkedCut(content, keep)[..k] == content[..k];
  }

  lemma {:induction false} ShrunkIsFirstToFit(content: string, keep: nat, remaining: int) returns (k: nat)
    requires 1 <= keep <= |content|
    ensures 1 <= k <= keep && Shrunk(None, MarkedCut(content, keep), keep, remaining) == MarkedCut(content, k)
    ensures ReachedBy(content, keep, k, remaining)
    ensures k == 1 || EstimateTokens(None, MarkedCut(content, k)) <= remaining
    decreases keep
  {
    hide UpTo;
    k := keep;
    if EstimateTokens(None, MarkedCut(content, keep)) > remaining && keep > 1 {
      CutAgain(content, keep, keep * 4 / 5);
      k := ShrunkIsFirstToFit(content, keep * 4 / 5, remaining);
    }
  }

  /** Under the length estimate a content that has to be cut is cut no further than the fifths allow: it keeps the
      first of the lengths 5r/2, four fifths of it, and so on, that fits together with the marker. */
  lemma CutIsGreedy(content: string, remaining: int) returns (k: nat)
    requires remaining >= 6 && EstimateTokens(None, content) > remaining
    ensures 1 <= k <= |content| && FittedContent(None, content, remaining) == Some(MarkedCut(content, k))
    ensures ReachedBy(content, remaining * 5 / 2, k, remaining)
    ensures EstimateTokens(None, MarkedCut(content, k)) <= remaining
  {
    hide Shrunk;
    k := ShrunkIsFirstToFit(content, remaining * 5 / 2, remaining);
    DroppedIff(content, remaining);
  }

  // ---------- Compressing ----------

  function RoleText(role: Role): string {
    match role
    case User => "user"
    case Assistant => "assistant"
    case System => "system"
    case Other(name) => name
  }

  function Part(m: Message): string {
    "[" + RoleText(m.role) + "]: " + Shown(m.content)
  }

  function Shown(content: string): string {
    UpTo(content, 200) + if |content| > 200 then "..." else ""
  }

  function Parts(messages: seq<Message>): seq<string> {
    if messages == [] then
      []
    else if messages[|messages| - 1].content == "" then
      Parts(messages[..|messages| - 1])
    else
      Parts(messages[..|messages| - 1]) + [Part(messages[|messages| - 1])]
  }

  /** Python's int of half a number: towards zero. */
  function Half(n: int): (r: int)
    ensures n >= 0 ==> 2 * r <= n < 2 * r + 2
    ensures n < 0 ==> 2 * r - 2 < n <= 2 * r
  {
    if n >= 0 then n / 2 else -(-n / 2)
  }

  function Summary(messages: seq<Message>, budget: int): string {
    var text := HEADER + Joined(Parts(messages), "\n");
    var maxChars := Half(5 * budget);
    if |text| > maxChars then UpTo(text, maxChars - 20) + MARKER else text
  }

  method CompressMessagesFast(messages: seq<Message>, budget: int) returns (result: seq<Message>)
    ensures result == [Message(System, Summary(messages, budget))]
  {
    var parts: seq<string> := [];
    for i := 0 to |messages|
      invariant parts == Parts(messages[..i])
    {
      assert messages[..i + 1][..i] == messages[..i];
      var content := messages[i].content;
      if content != "" {
        parts := parts + ["[" + RoleText(messages[i].role) + "]: " + Shown(content)];
      }
    }
    assert messages[..|messages|] == messages;
    var text := HEADER + Joined(parts, "\n");
    var maxChars := Half(5 * budget);
    if |text| > maxChars {
      text := UpTo(text, maxChars - 20) + MARKER;
    }
    result := [Message(System, text)];
  }

  /** Under the length estimate a summary keeps to a budget of at least eight tokens. */
  lemma SummaryFits(messages: seq<Message>, budget: int)
    requires budget >= 8
    ensures EstimateTokens(None, Summary(messages, budget)) <= budget
  {
    var text := HEADER + Joined(Parts(messages), "\n");
    assert |Summary(messages, budget)| <= Half(5 * budget);
  }

  lemma {:induction false} PartsHold(messages: seq<Message>, i: nat) returns (k: nat)
    requires i < |messages| && messages[i].content != ""
    ensures k < |Parts(messages)| && Parts(messages)[k] == Part(messages[i])
  {
    var n := |messages| - 1;
    if i == n {
      k := |Parts(messages)| - 1;
    } else {
      k := PartsHold(messages[..n], i);
    }
  }

  /** A summary with room for everything holds every message that is not empty: the whole of a short one, and the first
      200 characters of a longer one. */
  lemma SummaryHoldsAll(messages: seq<Message>, budget: int, i: nat)
    requires i < |messages| && messages[i].content != ""
    requires |HEADER + Joined(Parts(messages), "\n")| <= Half(5 * budget)
    ensures var c := messages[i].content;
            Contains(Summary(messages, budget), if |c| <= 200 then c else c[..200] + "...")
  {
    hide Part, Joined;
    var k := PartsHold(messages, i);
    var all := Joined(Parts(messages), "\n");
    JoinedContains(Parts(messages), "\n", k);
    ContainsInside(HEADER + all, all, HEADER, "");
    ContainsTransitive(HEADER + all, all, Part(messages[i]));
    PartHoldsContent(messages[i]);
    ContainsTransitive(HEADER + all, Part(messages[i]), Shown(messages[i].content));
    ShownIsHead(messages[i].content);
  }

  lemma PartHoldsContent(m: Message)
    ensures Contains(Part(m), Shown(m.content)) && Contains(Part(m), "[" + RoleText(m.role) + "]")
  {
    ContainsInside(Part(m), Shown(m.content), "[" + RoleText(m.role) + "]: ", "");
    ContainsInside(Part(m), "[" + RoleText(m.role) + "]", "", ": " + Shown(m.content));
  }

  lemma ShownIsHead(content: string)
    ensures Shown(content) == if |content| <= 200 then content else content[..200] + "..."
  {
  }

  lemma SummaryCost(messages: seq<Message>, budget: int)
    requires budget >= 8
    ensures Cost(None, [Message(System, Summary(messages, budget))]) <= budget + 4
  {
    SummaryFits(messages, budget);
    var m := Message(System, Summary(messages, budget));
    CostOfOne(None, m);
  }

  // ---------- Fitting ----------

  function SystemCost(encoder: Encoder, systemPrompt: string): nat {
    if systemPrompt == "" then 0 else EstimateTokens(encoder, systemPrompt) + 4
  }

  /** What is left of the budget beside the recent messages, the system prompt and a margin. */
  function Room(e: Engine, recent: seq<Message>, systemPrompt: string): int {
    e.maxContextTokens - Cost(e.encoder, recent) - SystemCost(e.encoder, systemPrompt) - 50
  }

  function Compressed(early: seq<Message>, budget: int, how: Compressor): seq<Message> {
    if how.Model? && early == [] then
      []
    else if how.Model? && |early| >= 4 && how.reply != "" then
      [Message(System, SUMMARY_HEADER + how.reply)]
    else
      [Message(System, Summary(early, budget))]
  }

  function Assembled(e: Engine, messages: seq<Message>, systemPrompt: string, how: Compressor): seq<Message> {
    var recent := From(messages, -e.tailWindow);
    var room := Room(e, recent, systemPrompt);
    Compressed(UpTo(messages, -e.tailWindow), if room > 200 then room else 200, how) + recent
  }

  function Fitted(e: Engine, messages: seq<Message>, systemPrompt: string, how: Compressor): seq<Message> {
    if messages == [] || Cost(e.encoder, messages) + SystemCost(e.encoder, systemPrompt) <= e.maxContextTokens then
      messages
    else if |messages| <= e.tailWindow then
      Truncated(e.encoder, messages, e.maxContextTokens)
    else
      var result := Assembled(e, messages, systemPrompt, how);
      if Cost(e.encoder, result) > e.maxContextTokens then
        Truncated(e.encoder, result, e.maxContextTokens)
      else
        result
  }

  method CompressMessagesAsync(messages: seq<Message>, budget: int, reply: string) returns (result: seq<Message>)
    ensures result == Compressed(messages, budget, Model(reply))
  {
    if messages == [] {
      return [];
    }
    if |messages| >= 4 {
      if reply != "" {
        return [Message(System, SUMMARY_HEADER + reply)];
      }
    }
    result := CompressMessagesFast(messages, budget);
  }

  /** `fit` with Concatenation, `fit_async` with the reply of its model. */
  method Fit(e: Engine, messages: seq<Message>, systemPrompt: string, how: Compressor) returns (result: seq<Message>)
    ensures result == Fitted(e, messages, systemPrompt, how)
  {
    hide Truncated, Summary, EstimateTokens, CostOfFirst;
    if messages == [] {
      return messages;
    }
    var total := EstimateMessagesTokens(e.encoder, messages);
    total := total + SystemCost(e.encoder, systemPrompt);
    if total <= e.maxContextTokens {
      return messages;
    }
    if |messages| <= e.tailWindow {
      result := TruncateMessages(e.encoder, messages, e.maxContextTokens);
      return;
    }
    var early, recent := UpTo(messages, -e.tailWindow), From(messages, -e.tailWindow);
    var recentTokens := EstimateMessagesTokens(e.encoder, recent);
    var room := e.maxContextTokens - recentTokens - SystemCost(e.encoder, systemPrompt) - 50;
    var budgetForOld := if room > 200 then room else 200;
    var compressed: seq<Message>;
    if how.Model? {
      compressed := CompressMessagesAsync(early, budgetForOld, how.reply);
    } else {
      compressed := CompressMessagesFast(early, budgetForOld);
    }
    result := compressed + recent;
    var finalTokens := EstimateMessagesTokens(e.encoder, result);
    if finalTokens > e.maxContextTokens {
      result := TruncateMessages(e.encoder, result, e.maxContextTokens);
    }
  }

  /** A conversation that fits together with its system prompt is left alone. */
  lemma FittingIsKept(e: Engine, messages: seq<Message>, systemPrompt: string, how: Compressor)
    requires Cost(e.encoder, messages) + (if systemPrompt == "" then 0 else EstimateTokens(e.encoder, systemPrompt) + 4)
          <= e.maxContextTokens
    ensures Fitted(e, messages, systemPrompt, how) == messages
  {
  }

  lemma {:induction false} ThinnedAll(messages: seq<Message>, n: nat)
    requires n <= |messages|
    ensures Thinned(messages, n, messages, n)
  {
    if n > 0 {
      ThinnedAll(messages, n - 1);
      assert Keeps(messages[n - 1], messages[n - 1]);
    }
  }

  /** With no more messages than are kept verbatim, some are dropped or shortened at most, and nothing is added. */
  lemma FewAreThinned(e: Engine, messages: seq<Message>, systemPrompt: string, how: Compressor)
    requires |messages| <= e.tailWindow
    ensures var out := Fitted(e, messages, systemPrompt, how); Thinned(out, |out|, messages, |messages|)
  {
    ThinnedAll(messages, |messages|);
    TruncationThins(e.encoder, messages, e.maxContextTokens);
  }

  /** With more of them, and too long a conversation, what stands for the earlier ones comes first: the model's reply
      where it was asked and answered. If that does not fit either it is thinned. */
  lemma ManyAreCompressed(e: Engine, messages: seq<Message>, systemPrompt: string, how: Compressor)
    requires |messages| > e.tailWindow >= 1
    requires Cost(e.encoder, messages) + SystemCost(e.encoder, systemPrompt) > e.maxContextTokens
    ensures var n := |messages| - e.tailWindow;
            var out, whole := Fitted(e, messages, systemPrompt, how), Assembled(e, messages, systemPrompt, how);
            && Thinned(out, |out|, whole, |whole|)
            && (Cost(e.encoder, whole) <= e.maxContextTokens ==> out == whole)
            && |whole| == 1 + e.tailWindow && whole[1..] == messages[n..] && whole[0].role == System
            && (how.Concatenation? || n < 4 || how.reply == "" ==>
                  var left := e.maxContextTokens - Cost(e.encoder, messages[n..]) - SystemCost(e.encoder, systemPrompt);
                  whole[0].content == Summary(messages[..n], if left > 250 then left - 50 else 200))
            && (how.Model? && n >= 4 && how.reply != "" ==> whole[0].content == "[Conversation summary]\n" + how.reply)
  {
    hide Summary, Half, Truncated, Thinned, EstimateTokens, CostOfFirst, SystemCost;
    var whole := Assembled(e, messages, systemPrompt, how);
    ThinnedAll(whole, |whole|);
    TruncationThins(e.encoder, whole, e.maxContextTokens);
  }

  /** Whatever the messages, the encoder, the prompt and the summary, the result exceeds the budget by at most four. */
  lemma FitBound(e: Engine, messages: seq<Message>, systemPrompt: string, how: Compressor)
    ensures Cost(e.encoder, Fitted(e, messages, systemPrompt, how))
         <= if e.maxContextTokens > 0 then e.maxContextTokens + 4 else 0
  {
    TruncationBound(e.encoder, messages, e.maxContextTokens);
    if messages != [] && |messages| > e.tailWindow {
      TruncationBound(e.encoder, Assembled(e, messages, systemPrompt, how), e.maxContextTokens);
    }
  }

  function Filler(n: nat): (s: string)
    ensures |s| == n
  {
    seq(n, _ => 'x')
  }

  /** One message of exactly the budget. */
  function Brimful(budget: nat): seq<Message> {
    [Message(User, Filler((5 * budget + 1) / 2))]
  }

  /** The four tokens are reached at every budget, and whatever the system prompt costs comes on top of them. */
  lemma FitBoundIsTight(e: Engine, systemPrompt: string, how: Compressor)
    requires e.encoder.None? && e.maxContextTokens >= 1 && e.tailWindow >= 1
    ensures Cost(e.encoder, Fitted(e, Brimful(e.maxContextTokens), systemPrompt, how)) == e.maxContextTokens + 4
  {
    var messages := Brimful(e.maxContextTokens);
    var m := messages[0];
    assert EstimateTokens(None, m.content) == e.maxContextTokens;
    CostOfOne(None, m);
    assert KeptOfFirst(e.encoder, messages, 0, e.maxContextTokens) == Kept([], 0);
    assert m.(content := m.content) == m && [] + [m] == messages;
    assert Truncated(e.encoder, messages, e.maxContextTokens) == messages;
  }

  lemma AssembledFits(e: Engine, messages: seq<Message>, systemPrompt: string)
    requires e.encoder.None?
    requires Room(e, From(messages, -e.tailWindow), systemPrompt) >= 200
    ensures var result := Assembled(e, messages, systemPrompt, Concatenation);
            Cost(None, result) + SystemCost(None, systemPrompt) <= e.maxContextTokens
  {
    var recent := From(messages, -e.tailWindow);
    var early, room := UpTo(messages, -e.tailWindow), Room(e, recent, systemPrompt);
    SummaryCost(early, room);
    CostOfJoin(None, [Message(System, Summary(early, room))], recent);
  }

  /** With room for a summary, every recent message survives as it is and all fits, the system prompt included. */
  lemma RecentMessagesSurvive(e: Engine, messages: seq<Message>, systemPrompt: string)
    requires e.encoder.None? && |messages| > e.tailWindow
    requires Cost(None, messages) + SystemCost(None, systemPrompt) > e.maxContextTokens
    requires Room(e, From(messages, -e.tailWindow), systemPrompt) >= 200
    ensures var recent := From(messages, -e.tailWindow);
            var result := Fitted(e, messages, systemPrompt, Concatenation);
            && result == Compressed(UpTo(messages, -e.tailWindow), Room(e, recent, systemPrompt),
                                    Concatenation) + recent
            && Cost(None, result) + SystemCost(None, systemPrompt) <= e.maxContextTokens
  {
    AssembledFits(e, messages, systemPrompt);
    CutJoins(messages, -e.tailWindow);
    CostOfJoin(None, UpTo(messages, -e.tailWindow), From(messages, -e.tailWindow));
  }
}
