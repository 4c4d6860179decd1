/** Messages, their token estimates and Python's slices: what context.py and context_window.py share. */
module Tokens {
  import opened Options

  /** The roles the two files look for; any other is Other. */
  datatype Role = User | Assistant | System | Other(name: string)

  datatype Message = Message(role: Role, content: string)

  /** The encoder's token count, when the encoder could be loaded. */
  type Encoder = Option<string -> nat>

  /** At least one token; without an encoder, two for every five characters. */
  function EstimateTokens(encoder: Encoder, text: string): (n: nat)
    ensures n >= 1
  {
    var n := if encoder.Some? then encoder.value(text) else 2 * |text| / 5;
    if n >= 1 then n else 1
  }

  /** A message costs its content and four tokens for its role. */
  function MessageCost(encoder: Encoder, m: Message): (n: nat) {
    EstimateTokens(encoder, m.content) + 4
  }

  /** The cost of the first n messages. */
  function CostOfFirst(encoder: Encoder, messages: seq<Message>, n: nat): (c: nat)
    requires n <= |messages|
  {
    if n == 0 then 0 else CostOfFirst(encoder, messages, n - 1) + MessageCost(encoder, messages[n - 1])
  }

  function Cost(encoder: Encoder, messages: seq<Message>): nat {
    CostOfFirst(encoder, messages, |messages|)
  }

  lemma {:induction false} CostOfJoinedFirst(encoder: Encoder, a: seq<Message>, b: seq<Message>, n: nat)
    requires n <= |a| + |b|
    ensures CostOfFirst(encoder, a + b, n)
         == if n <= |a| then CostOfFirst(encoder, a, n) else Cost(encoder, a) + CostOfFirst(encoder, b, n - |a|)
  {
    if n > 0 {
      CostOfJoinedFirst(encoder, a, b, n - 1);
    }
  }

  lemma CostOfJoin(encoder: Encoder, a: seq<Message>, b: seq<Message>)
    ensures Cost(encoder, a + b) == Cost(encoder, a) + Cost(encoder, b)
  {
    CostOfJoinedFirst(encoder, a, b, |a| + |b|);
  }

  lemma CostOfOne(encoder: Encoder, m: Message)
    ensures Cost(encoder, [m]) == MessageCost(encoder, m)
  {
    assert CostOfFirst(encoder, [m], 0) == 0;
  }

  lemma CostOfOneMore(encoder: Encoder, messages: seq<Message>, m: Message)
    ensures Cost(encoder, messages + [m]) == Cost(encoder, messages) + MessageCost(encoder, m)
  {
    CostOfJoin(encoder, messages, [m]);
    CostOfOne(encoder, m);
  }

  // ---------- Slices ----------

  /** Where Python's s[i:] and s[:i] cut: negative counts from the end, out of range is clipped. */
  function CutPoint(n: nat, i: int): (at: nat)
    ensures at <= n
    ensures 0 <= i <= n ==> at == i
    ensures i < 0 <= n + i ==> at == n + i
  {
    if i < 0 then (if n + i < 0 then 0 else n + i) else if i > n then n else i
  }

  function UpTo<T>(s: seq<T>, i: int): seq<T> {
    s[..CutPoint(|s|, i)]
  }

  function From<T>(s: seq<T>, i: int): seq<T> {
    s[CutPoint(|s|, i)..]
  }

  lemma CutJoins<T>(s: seq<T>, i: int)
    ensures UpTo(s, i) + From(s, i) == s
  {
  }
}
