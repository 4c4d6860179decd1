/** cache.py's SemanticCache: embeddings indexed by a quantised score in Redis, next to a store that expires. */
module SemanticCaches {
  import opened Options
  import opened Texts
  import opened Doubles

  type Embedding = seq<real>

  // ---------- Quantised scores ----------

  function Pow2(n: nat): nat {
    if n == 0 then 1 else 2 * Pow2(n - 1)
  }

  function StepOf(e: Embedding): (step: nat)
    ensures step >= 1
  {
    if |e| / 64 >= 1 then |e| / 64 else 1
  }

  /** The signs of every step-th component from position i on. */
  function SignsFrom(e: Embedding, step: nat, i: nat): seq<bool>
    requires step >= 1
    decreases |e| - i
  {
    if i >= |e| then [] else [e[i] > 0.0] + SignsFrom(e, step, i + step)
  }

  function Signs(e: Embedding): seq<bool> {
    SignsFrom(e, StepOf(e), 0)
  }

  lemma {:induction false} SignsFromAt(e: Embedding, step: nat, i: nat, k: nat)
    requires step >= 1 && k < |SignsFrom(e, step, i)|
    ensures i + k * step < |e| && SignsFrom(e, step, i)[k] == (e[i + k * step] > 0.0)
    decreases k
  {
    if k > 0 {
      SignsFromAt(e, step, i + step, k - 1);
      assert i + step + (k - 1) * step == i + k * step;
    }
  }

  lemma {:induction false} SignsFromLength(e: Embedding, step: nat, i: nat)
    requires step >= 1 && i <= |e|
    ensures |SignsFrom(e, step, i)| * step < |e| - i + step
    ensures |e| - i <= |SignsFrom(e, step, i)| * step
    decreases |e| - i
  {
    if i < |e| {
      if i + step <= |e| {
        SignsFromLength(e, step, i + step);
      }
      OneMoreStep(|SignsFrom(e, step, i + step)|, step);
    }
  }

  lemma OneMoreStep(n: nat, step: nat)
    ensures (n + 1) * step == n * step + step
  {
  }

  /** Sign k is that of component k times the step; the signs reach over the whole embedding. */
  lemma SignsMeaning(e: Embedding)
    ensures forall k :: 0 <= k < |Signs(e)| ==>
              k * StepOf(e) < |e| && Signs(e)[k] == (e[k * StepOf(e)] > 0.0)
    ensures |e| <= |Signs(e)| * StepOf(e) < |e| + StepOf(e)
  {
    forall k | 0 <= k < |Signs(e)| ensures k * StepOf(e) < |e| && Signs(e)[k] == (e[k * StepOf(e)] > 0.0) {
      SignsFromAt(e, StepOf(e), 0, k);
    }
    SignsFromLength(e, StepOf(e), 0);
  }

  lemma SameFactor(a: nat, b: nat, step: nat)
    requires step >= 1 && b * step <= a * step < b * step + step
    ensures a == b
  {
    if a > b {
      Times(b + 1, a, step);
      OneMoreStep(b, step);
    } else if a < b {
      Times(a + 1, b, step);
      OneMoreStep(a, step);
    }
  }

  /** An embedding of 64 times m components has exactly 64 signs, those of every m-th component; one of fewer than 64
      has a sign for each. */
  lemma SixtyFourSigns(e: Embedding, m: nat)
    requires m >= 1
    ensures |e| == 64 * m ==>
              |Signs(e)| == 64 && forall k :: 0 <= k < 64 ==> k * m < |e| && Signs(e)[k] == (e[k * m] > 0.0)
    ensures |e| < 64 ==> |Signs(e)| == |e| && forall k :: 0 <= k < |e| ==> Signs(e)[k] == (e[k] > 0.0)
  {
    SignsMeaning(e);
    if |e| == 64 * m {
      assert StepOf(e) == m;
      SameFactor(|Signs(e)|, 64, m);
    }
    if |e| < 64 {
      assert StepOf(e) == 1;
      forall k | 0 <= k < |e| ensures Signs(e)[k] == (e[k] > 0.0) {
        assert k * StepOf(e) == k;
      }
    }
  }

  /** The signs read as a binary number, first component lowest. */
  function Binary(bits: seq<bool>): nat {
    if bits == [] then 0 else (if bits[0] then 1 else 0) + 2 * Binary(bits[1..])
  }

  function Score(e: Embedding): nat {
    Binary(Signs(e))
  }

  /** The loop over every step-th component. Setting a bit above all bits set so far is adding its value. */
  method Quantize(e: Embedding) returns (bits: nat)
    ensures bits == Score(e)
  {
    bits := 0;
    var step := StepOf(e);
    var i, j := 0, 0;
    while i < |e|
      invariant bits < Pow2(j)
      invariant bits + Pow2(j) * Binary(SignsFrom(e, step, i)) == Score(e)
      decreases |e| - i
    {
      ghost var rest := SignsFrom(e, step, i + step);
      assert SignsFrom(e, step, i)[1..] == rest;
      if e[i] > 0.0 {
        BinarySplit(Pow2(j), 1, Binary(rest));
        bits := bits + Pow2(j);
      } else {
        BinarySplit(Pow2(j), 0, Binary(rest));
      }
      i, j := i + step, j + 1;
    }
  }

  lemma BinarySplit(p: nat, low: nat, rest: nat)
    ensures p * (low + 2 * rest) == p * low + 2 * p * rest
  {
  }

  lemma {:induction false} FlipOneSign(bits: seq<bool>, j: nat)
    requires j < |bits|
    ensures Binary(bits[j := true]) == Binary(bits[j := false]) + Pow2(j)
  {
    var up, down := bits[j := true], bits[j := false];
    if j == 0 {
      assert up[1..] == bits[1..] && down[1..] == bits[1..];
    } else {
      assert up[1..] == bits[1..][j - 1 := true] && down[1..] == bits[1..][j - 1 := false];
      FlipOneSign(bits[1..], j - 1);
    }
  }

  // ---------- The window of a lookup ----------

  /** The lower end of the range of scores a lookup asks for. */
  function Low(queryScore: nat): nat {
    if queryScore >= 2 then queryScore - 2 else 0
  }

  /** A stored score is in the range a lookup asks the index for: Redis holds the score and both ends as doubles. */
  predicate InWindow(stored: nat, queryScore: nat) {
    ToDouble(Low(queryScore)) <= stored <= ToDouble(queryScore + 2)
  }

  /** Rounding never narrows the window: what is at most two away is found. */
  lemma NeighboursAreFound(score: nat, queryScore: nat)
    requires Low(queryScore) <= score <= queryScore + 2
    ensures InWindow(ToDouble(score), queryScore)
  {
    ToDoubleMonotone(Low(queryScore), score);
    ToDoubleMonotone(score, queryScore + 2);
  }

  lemma {:induction false} Pow2Small(j: nat)
    ensures Pow2(j) <= 2 <==> j < 2
  {
    if j >= 1 {
      Pow2Small(j - 1);
    }
  }

  /** The stored signs are those of the query but for one. */
  predicate DiffersAt(query: seq<bool>, stored: seq<bool>, j: nat) {
    j < |query| && stored == query[j := !query[j]]
  }

  lemma FlippedScore(query: seq<bool>, stored: seq<bool>, j: nat)
    requires DiffersAt(query, stored, j)
    ensures if query[j] then Binary(stored) + Pow2(j) == Binary(query) else Binary(stored) == Binary(query) + Pow2(j)
  {
    FlipOneSign(query, j);
    assert query[j := query[j]] == query;
  }

  /** The window is one of score values, not of Hamming distance: an entry whose signs differ from the query's in one
      place only is looked at exactly when that place is one of the first two, or the score is so large that a double
      cannot tell it from the end of the window. */
  lemma WindowIff(query: Embedding, stored: Embedding, j: nat)
    requires DiffersAt(Signs(query), Signs(stored), j)
    ensures var end := if Signs(query)[j] then Low(Score(query)) else Score(query) + 2;
            InWindow(ToDouble(Score(stored)), Score(query)) <==> j < 2 || ToDouble(Score(stored)) == ToDouble(end)
  {
    hide ToDouble;
    FlippedScore(Signs(query), Signs(stored), j);
    Pow2Small(j);
    var q, s := Score(query), Score(stored);
    if j < 2 {
      NeighboursAreFound(s, q);
    } else if Signs(query)[j] {
      ToDoubleMonotone(s, Low(q));
      ToDoubleMonotone(s, q + 2);
    } else {
      ToDoubleMonotone(q + 2, s);
      ToDoubleMonotone(Low(q), s);
    }
  }

  /** While scores are exact, up to 2^53, only the first two places count. */
  lemma WindowIsNotHamming(query: Embedding, stored: Embedding, j: nat)
    requires DiffersAt(Signs(query), Signs(stored), j)
    requires Score(query) + 2 <= EXACT && Score(stored) <= EXACT
    ensures InWindow(ToDouble(Score(stored)), Score(query)) <==> j < 2
  {
    hide ToDouble;
    WindowIff(query, stored, j);
    FlippedScore(Signs(query), Signs(stored), j);
    Pow2Small(j);
    ExactIsKept(Score(stored));
    ExactIsKept(Score(query) + 2);
    ExactIsKept(Low(Score(query)));
  }

  lemma {:induction false} BinaryBelow(bits: seq<bool>)
    ensures Binary(bits) < Pow2(|bits|)
  {
    if bits != [] {
      BinaryBelow(bits[1..]);
    }
  }

  function Bit(b: bool): nat {
    if b then 1 else 0
  }

  lemma BinaryFrom(bits: seq<bool>, i: nat)
    requires i < |bits|
    ensures Binary(bits[i..]) == Bit(bits[i]) + 2 * Binary(bits[i + 1..])
  {
    assert bits[i..][1..] == bits[i + 1..];
  }

  lemma LowPart(low: nat, rest: nat)
    requires low < 16
    ensures (low + 16 * rest) % 16 == low
  {
  }

  lemma LowBits(bits: seq<bool>)
    requires |bits| >= 4
    ensures Binary(bits) % 16 == Bit(bits[0]) + 2 * Bit(bits[1]) + 4 * Bit(bits[2]) + 8 * Bit(bits[3])
  {
    hide Binary;
    BinaryFrom(bits, 0);
    BinaryFrom(bits, 1);
    BinaryFrom(bits, 2);
    BinaryFrom(bits, 3);
    assert bits[0..] == bits;
    LowPart(Bit(bits[0]) + 2 * Bit(bits[1]) + 4 * Bit(bits[2]) + 8 * Bit(bits[3]), Binary(bits[4..]));
  }

  lemma LostInWindow(q: nat, s: nat)
    requires q >= 16 * EXACT && SameBlock(q, s) && s % 16 != 0
    ensures InWindow(ToDouble(s), q)
  {
    hide ToDouble;
    var close := if q % 16 == 0 then q + 2 else q;
    if close <= s {
      BlockRoundsAlike(close, s);
    } else {
      BlockRoundsAlike(s, close);
    }
    ToDoubleMonotone(Low(q), close);
    ToDoubleMonotone(close, q + 2);
  }

  /** From 2^57 on, which takes 58 of the 64 signs, rounding lets the third or the fourth place count too. */
  lemma RoundingLetsSignsIn(query: Embedding) returns (j: nat)
    requires Score(query) >= 16 * EXACT
    ensures 2 <= j < 4 && j < |Signs(query)|
    ensures forall stored ::
              DiffersAt(Signs(query), Signs(stored), j) ==> InWindow(ToDouble(Score(stored)), Score(query))
  {
    var bits, q := Signs(query), Score(query);
    BinaryBelow(bits);
    assert |bits| >= 4 by {
      assert Pow2(0) == 1 && Pow2(1) == 2 && Pow2(2) == 4 && Pow2(3) == 8;
    }
    LowBits(bits);
    j := if q % 16 == 4 then 3 else 2;
    forall stored | DiffersAt(bits, Signs(stored), j) ensures InWindow(ToDouble(Score(stored)), q) {
      FlippedScore(bits, Signs(stored), j);
      assert Pow2(2) == 4 && Pow2(3) == 8;
      LostInWindow(q, Score(stored));
    }
  }

  // ---------- Keys ----------

  /** The two key spaces: cached answers, and cached retrieval results. */
  datatype Namespace = Answers | Retrieval

  function Prefix(ns: Namespace): string {
    match ns
    case Answers => "rag:sem:"
    case Retrieval => "rag:sem:retrieval:"
  }

  datatype CacheKey = CacheKey(ns: Namespace, org: int, hash: string)

  function ScanPrefix(ns: Namespace, org: int): string {
    Prefix(ns) + Field("org:", org, ':', "")
  }

  /** The key as Redis sees it. */
  function Render(k: CacheKey): string {
    Prefix(k.ns) + Field("org:", k.org, ':', k.hash)
  }

  /** The ninth character tells the namespaces apart: "o" of "org:" or "r" of "retrieval:". */
  lemma NamespaceShows(k: CacheKey)
    ensures var s := Render(k); |s| > 8 && (s[8] == 'o' <==> k.ns == Answers)
  {
    assert Render(k)[8] == if k.ns == Answers then "org:"[0] else "rag:sem:retrieval:"[8];
  }

  /** Different keys are different strings, so the store can be told by structured keys. */
  lemma RenderInjective(k: CacheKey, l: CacheKey)
    requires Render(k) == Render(l)
    ensures k == l
  {
    NamespaceShows(k);
    NamespaceShows(l);
    DropFront(Prefix(k.ns), Field("org:", k.org, ':', k.hash), Field("org:", l.org, ':', l.hash));
    FieldInjective("org:", k.org, l.org, ':', k.hash, l.hash);
  }

  lemma PrefixAndRest(ns: Namespace, org: int, rest: string)
    ensures ScanPrefix(ns, org) + rest == Render(CacheKey(ns, org, rest))
  {
    FieldPrefix("org:", org, ':', rest);
  }

  /** Scanning for an organisation's prefix finds exactly its keys of that namespace. */
  lemma ScanIsExact(k: CacheKey, ns: Namespace, org: int)
    ensures ScanPrefix(ns, org) <= Render(k) <==> k.ns == ns && k.org == org
  {
    if ScanPrefix(ns, org) <= Render(k) {
      var rest := Render(k)[|ScanPrefix(ns, org)|..];
      PrefixAndRest(ns, org, rest);
      RenderInjective(k, CacheKey(ns, org, rest));
    }
    if k.ns == ns && k.org == org {
      PrefixAndRest(ns, org, k.hash);
    }
  }

  // ---------- The store and the index ----------

  datatype Entry = Entry(query: string, embedding: Embedding, answer: string, sources: seq<string>)

  /** An entry and the time Redis drops it. */
  datatype Stored = Stored(entry: Entry, expiresAt: int)

  /** The name of an index: one sorted set for every namespace and organisation. */
  datatype IndexKey = IndexKey(ns: Namespace, org: int)

  type Entries = map<CacheKey, Stored>

  type Index = map<IndexKey, map<CacheKey, nat>>

  predicate Live(entries: Entries, k: CacheKey, now: int) {
    k in entries && now < entries[k].expiresAt
  }

  predicate Indexed(entries: Entries, index: Index, k: CacheKey)
    requires k in entries
  {
    && IndexKey(k.ns, k.org) in index && k in index[IndexKey(k.ns, k.org)]
    && index[IndexKey(k.ns, k.org)][k] == ToDouble(Score(entries[k].entry.embedding))
  }

  /** Every unexpired entry is indexed under its own namespace and organisation, with the score of its embedding
      as a double, and an index holds keys of its own namespace and organisation only. */
  ghost predicate InStep(entries: Entries, index: Index, now: int) {
    && (forall k {:trigger Indexed(entries, index, k)} :: Live(entries, k, now) ==> Indexed(entries, index, k))
    && forall i, k :: i in index && k in index[i] ==> k.ns == i.ns && k.org == i.org
  }

  /** The Redis server, shared by the two kinds of cache. */
  class Redis {
    var entries: Entries
    var index: Index
    /** The latest time any operation has seen. */
    ghost var clock: int

    ghost predicate Valid()
      reads this
    {
      InStep(entries, index, clock)
    }

    constructor (now: int)
      ensures Valid() && entries == map[] && clock == now
    {
      entries, index, clock := map[], map[], now;
    }
  }

  /** An entry a lookup may return: live, of this namespace and organisation, its score in the window, and similar
      enough. */
  predicate Candidate(entries: Entries, k: CacheKey, q: Query, now: int) {
    && Live(entries, k, now) && k.ns == q.ns && k.org == q.org
    && InWindow(ToDouble(Score(entries[k].entry.embedding)), Score(q.embedding))
    && q.Similarity(entries[k].entry) >= q.threshold
  }

  /** A lookup: where it looks, for what, how similarity is measured, and how much of it is needed. */
  datatype Query = Query(ns: Namespace, org: int, embedding: Embedding, threshold: real,
                         similarity: (Embedding, Embedding) -> real)
  {
    function Similarity(e: Entry): real {
      similarity(embedding, e.embedding)
    }
  }

  class SemanticCache {
    const ns: Namespace
    const threshold: real
    const ttl: nat
    const similarity: (Embedding, Embedding) -> real
    const hash: Embedding -> string
    const redis: Redis

    constructor (ns: Namespace, threshold: real, ttl: nat, similarity: (Embedding, Embedding) -> real,
                 hash: Embedding -> string, redis: Redis)
      ensures this.ns == ns && this.threshold == threshold && this.ttl == ttl
      ensures this.similarity == similarity && this.hash == hash && this.redis == redis
    {
      this.ns, this.threshold, this.ttl := ns, threshold, ttl;
      this.similarity, this.hash, this.redis := similarity, hash, redis;
    }

    function KeyOf(embedding: Embedding, org: int): CacheKey {
      CacheKey(ns, org, hash(embedding))
    }

    function QueryFor(embedding: Embedding, org: int): Query {
      Query(ns, org, embedding, threshold, similarity)
    }

    /** Stores an entry and indexes it; without Redis, or without an embedding, nothing happens. */
    method Set(query: string, embedding: Embedding, answer: string, sources: seq<string>, org: int, now: int, up: bool)
      requires redis.Valid() && now >= redis.clock
      modifies redis
      ensures redis.Valid() && redis.clock == now
      ensures up && embedding != [] ==>
                redis.entries == old(redis.entries)[KeyOf(embedding, org) :=
                                   Stored(Entry(query, embedding, answer, sources), now + ttl)]
      ensures !up || embedding == [] ==> redis.entries == old(redis.entries) && redis.index == old(redis.index)
    {
      redis.clock := now;
      if embedding == [] || !up {
        return;
      }
      var score := Quantize(embedding);
      var key, i := KeyOf(embedding, org), IndexKey(ns, org);
      redis.entries := redis.entries[key := Stored(Entry(query, embedding, answer, sources), now + ttl)];
      var scores := if i in redis.index then redis.index[i] else map[];
      redis.index := redis.index[i := scores[key := ToDouble(score)]];
      SetKeepsInStep(old(redis.entries), old(redis.index), redis.entries, redis.index, key, now, old(redis.clock));
    }

    /** The best candidate, whatever order the index lists them in; index members whose entry is gone are dropped. */
    method Get(embedding: Embedding, org: int, now: int, up: bool) returns (r: Option<Entry>)
      requires redis.Valid() && now >= redis.clock
      modifies redis
      ensures redis.Valid() && redis.clock == now && redis.entries == old(redis.entries)
      ensures r.Some? ==> up && exists k :: Candidate(redis.entries, k, QueryFor(embedding, org), now)
                                         && IsBest(redis.entries, k, QueryFor(embedding, org), now)
                                         && r.value == redis.entries[k].entry
      ensures r.None? && up && embedding != [] ==>
                forall k :: Candidate(redis.entries, k, QueryFor(embedding, org), now) ==>
                  QueryFor(embedding, org).Similarity(redis.entries[k].entry) <= -1.0
    {
      redis.clock := now;
      r := None;
      if embedding == [] || !up {
        return;
      }
      var q, i := QueryFor(embedding, org), IndexKey(ns, org);
      var queryScore := Quantize(embedding);
      if i !in redis.index {
        NoIndexNoCandidate(redis.entries, redis.index, q, now);
        return;
      }
      var scores := redis.index[i];
      var candidates := set k | k in scores && InWindow(scores[k], queryScore);
      var rest := candidates;
      var bestScore := -1.0;
      ghost var bestKey := KeyOf(embedding, org);
      while rest != {}
        invariant redis.Valid() && redis.clock == now && redis.entries == old(redis.entries)
        invariant i in redis.index && rest <= candidates
        invariant bestScore >= -1.0 && (r.None? ==> bestScore == -1.0)
        invariant r.Some? ==> Candidate(redis.entries, bestKey, q, now) && r.value == redis.entries[bestKey].entry
                              && q.Similarity(r.value) == bestScore
        invariant forall k :: k in candidates && k !in rest && Candidate(redis.entries, k, q, now) ==>
                    q.Similarity(redis.entries[k].entry) <= bestScore
        decreases |rest|
      {
        var k :| k in rest;
        rest := rest - {k};
        if !Live(redis.entries, k, now) {
          DropKeepsInStep(redis.entries, redis.index, i, k, now);
          redis.index := Dropped(redis.index, i, k);
        } else {
          var sim := similarity(embedding, redis.entries[k].entry.embedding);
          if sim >= threshold && sim > bestScore {
            KeptCandidate(redis.entries, old(redis.index), k, q, now, old(redis.clock));
            bestScore, bestKey := sim, k;
            r := Some(redis.entries[k].entry);
          }
        }
      }
      AllCandidatesListed(redis.entries, old(redis.index), candidates, q, now, old(redis.clock));
    }

    /** Empties the organisation's part of the own namespace and of the retrieval namespace. */
    method ClearForOrg(org: int, up: bool)
      requires redis.Valid()
      modifies redis
      ensures redis.Valid() && redis.clock == old(redis.clock)
      ensures up ==> forall k :: k in redis.entries <==>
                       k in old(redis.entries) && !(k.org == org && (k.ns == ns || k.ns == Retrieval))
      ensures up ==> IndexKey(ns, org) !in redis.index && IndexKey(Retrieval, org) !in redis.index
      ensures forall k :: k in redis.entries ==> k in old(redis.entries) && redis.entries[k] == old(redis.entries)[k]
      ensures !up ==> redis.entries == old(redis.entries)
    {
      if !up {
        return;
      }
      ClearNamespace(ns, org);
      if ns != Retrieval {
        ClearNamespace(Retrieval, org);
      }
    }

    method ClearNamespace(space: Namespace, org: int)
      requires redis.Valid()
      modifies redis
      ensures redis.Valid() && redis.clock == old(redis.clock)
      ensures redis.entries == Cleared(old(redis.entries), space, org)
      ensures redis.index == old(redis.index) - {IndexKey(space, org)}
    {
      redis.entries := map k | k in redis.entries && !(ScanPrefix(space, org) <= Render(k)) :: redis.entries[k];
      redis.index := redis.index - {IndexKey(space, org)};
      ClearedByScan(old(redis.entries), redis.entries, space, org);
      ClearKeepsInStep(old(redis.entries), old(redis.index), space, org, redis.clock);
    }
  }

  /** An entry is found again by its own embedding, in its own namespace and organisation and until it expires, whatever
      its score; by another embedding where the scores are at most two apart; similar enough it has to be. */
  lemma StoredIsCandidate(entries: Entries, k: CacheKey, q: Query, now: int)
    requires k in entries && now < entries[k].expiresAt && k.ns == q.ns && k.org == q.org
    requires q.similarity(q.embedding, entries[k].entry.embedding) >= q.threshold
    requires var own, asked := Score(entries[k].entry.embedding), Score(q.embedding);
             own <= asked + 2 && asked <= own + 2
    ensures Candidate(entries, k, q, now)
  {
    NeighboursAreFound(Score(entries[k].entry.embedding), Score(q.embedding));
  }

  /** And a candidate is unexpired, of the namespace and organisation asked for, and similar enough. */
  lemma CandidatesAreLive(entries: Entries, k: CacheKey, q: Query, now: int)
    requires Candidate(entries, k, q, now)
    ensures k in entries && now < entries[k].expiresAt && k.ns == q.ns && k.org == q.org
    ensures q.similarity(q.embedding, entries[k].entry.embedding) >= q.threshold
  {
  }

  /** No candidate is more similar. */
  ghost predicate IsBest(entries: Entries, k: CacheKey, q: Query, now: int)
    requires k in entries
  {
    forall l :: Candidate(entries, l, q, now) ==> q.Similarity(entries[l].entry) <= q.Similarity(entries[k].entry)
  }

  function Dropped(index: Index, i: IndexKey, k: CacheKey): Index
    requires i in index
  {
    index[i := index[i] - {k}]
  }

  lemma DropKeepsInStep(entries: Entries, index: Index, i: IndexKey, k: CacheKey, now: int)
    requires InStep(entries, index, now) && i in index && !Live(entries, k, now)
    ensures InStep(entries, Dropped(index, i, k), now)
  {
    forall l | Live(entries, l, now) ensures Indexed(entries, Dropped(index, i, k), l) {
      assert Indexed(entries, index, l);
    }
  }

  lemma NoIndexNoCandidate(entries: Entries, index: Index, q: Query, now: int)
    requires InStep(entries, index, now) && IndexKey(q.ns, q.org) !in index
    ensures forall k :: !Candidate(entries, k, q, now)
  {
    forall k ensures !Candidate(entries, k, q, now) {
      if Live(entries, k, now) {
        assert Indexed(entries, index, k);
      }
    }
  }

  /** A live member of the index whose score is in the window has its embedding's score. */
  lemma KeptCandidate(entries: Entries, index: Index, k: CacheKey, q: Query, now: int, clock: int)
    requires InStep(entries, index, clock) && clock <= now && Live(entries, k, now)
    requires IndexKey(q.ns, q.org) in index && k in index[IndexKey(q.ns, q.org)]
    requires InWindow(index[IndexKey(q.ns, q.org)][k], Score(q.embedding))
    requires q.Similarity(entries[k].entry) >= q.threshold
    ensures Candidate(entries, k, q, now)
  {
    assert Live(entries, k, clock);
    assert Indexed(entries, index, k);
  }

  lemma AllCandidatesListed(entries: Entries, index: Index, listed: set<CacheKey>, q: Query, now: int, clock: int)
    requires InStep(entries, index, clock) && clock <= now && IndexKey(q.ns, q.org) in index
    requires listed == set k | k in index[IndexKey(q.ns, q.org)]
                               && InWindow(index[IndexKey(q.ns, q.org)][k], Score(q.embedding))
    ensures forall k :: Candidate(entries, k, q, now) ==> k in listed
  {
    forall k | Candidate(entries, k, q, now) ensures k in listed {
      assert Live(entries, k, clock);
      assert Indexed(entries, index, k);
    }
  }

  function Cleared(entries: Entries, space: Namespace, org: int): Entries {
    map k | k in entries && !(k.ns == space && k.org == org) :: entries[k]
  }

  lemma ClearedByScan(entries: Entries, after: Entries, space: Namespace, org: int)
    requires after == map k | k in entries && !(ScanPrefix(space, org) <= Render(k)) :: entries[k]
    ensures after == Cleared(entries, space, org)
  {
    forall k | k in entries ensures ScanPrefix(space, org) <= Render(k) <==> k.ns == space && k.org == org {
      ScanIsExact(k, space, org);
    }
  }

  lemma SetKeepsInStep(entries: Entries, index: Index, entries': Entries, index': Index, key: CacheKey,
                       now: int, clock: int)
    requires InStep(entries, index, clock) && now >= clock
    requires key in entries' && entries' == entries[key := entries'[key]]
    requires var i, score := IndexKey(key.ns, key.org), ToDouble(Score(entries'[key].entry.embedding));
             index' == index[i := (if i in index then index[i] else map[])[key := score]]
    ensures InStep(entries', index', now)
  {
    forall k | Live(entries', k, now) ensures Indexed(entries', index', k) {
      if k != key {
        assert Live(entries, k, clock);
        assert Indexed(entries, index, k);
      }
    }
  }

  lemma ClearKeepsInStep(entries: Entries, index: Index, space: Namespace, org: int, clock: int)
    requires InStep(entries, index, clock)
    ensures InStep(Cleared(entries, space, org), index - {IndexKey(space, org)}, clock)
  {
    var entries', index' := Cleared(entries, space, org), index - {IndexKey(space, org)};
    forall k | Live(entries', k, clock) ensures Indexed(entries', index', k) {
      assert Live(entries, k, clock);
      assert Indexed(entries, index, k);
    }
  }
}
