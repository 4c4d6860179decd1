/** pipeline.py: gathering the hits of several sub-queries, merging, reranking and cutting them. */
module Pipelines {
  import opened Options
  import opened Permutations
  import opened Tokens
  import opened Rerankers

  /** What names a hit: the fields are empty when it does not carry them. */
  datatype Hit = Hit(chunkId: string, rawId: string, documentId: string, sourceDocId: string, content: string)

  function OrElse(a: string, b: string): string {
    if a == "" then b else a
  }

  function DedupKey(h: Hit): string {
    OrElse(OrElse(h.chunkId, h.rawId), OrElse(h.documentId, h.sourceDocId))
  }

  // ---------- Retrieval ----------

  /** The first answer among the attempts from `attempt` on; nothing when all fail. */
  function FirstAnswer(attempts: nat -> Option<seq<Hit>>, attempt: nat, retries: nat): seq<Hit>
    requires attempt <= retries + 1
    decreases retries + 1 - attempt
  {
    if attempt == retries + 1 then []
    else if attempts(attempt).Some? then attempts(attempt).value
    else FirstAnswer(attempts, attempt + 1, retries)
  }

  /** A sub-query's hits are those of its first attempt that answers; an attempt is made while none has, retries times
      after the first. */
  lemma {:induction false} FirstAnswerIs(attempts: nat -> Option<seq<Hit>>, attempt: nat, retries: nat, k: nat)
    requires attempt <= k <= retries && forall j :: attempt <= j < k ==> attempts(j).None?
    ensures attempts(k).Some? ==> FirstAnswer(attempts, attempt, retries) == attempts(k).value
    ensures k == retries && attempts(k).None? ==> FirstAnswer(attempts, attempt, retries) == []
    decreases k - attempt
  {
    if attempt < k {
      FirstAnswerIs(attempts, attempt + 1, retries, k);
    }
  }

  /** The answers of the sub-queries one after another. */
  function Gathered(queries: seq<nat -> Option<seq<Hit>>>, retries: nat): seq<Hit> {
    if queries == [] then
      []
    else
      Gathered(queries[..|queries| - 1], retries) + FirstAnswer(queries[|queries| - 1], 0, retries)
  }

  /** The sub-queries' hits come in the order of the sub-queries. */
  lemma {:induction false} GatheredJoin(a: seq<nat -> Option<seq<Hit>>>, b: seq<nat -> Option<seq<Hit>>>, retries: nat)
    ensures Gathered(a + b, retries) == Gathered(a, retries) + Gathered(b, retries)
    ensures |b| == 1 ==> Gathered(b, retries) == FirstAnswer(b[0], 0, retries)
  {
    hide FirstAnswer;
    if b == [] {
      assert a + b == a;
    } else {
      assert (a + b)[..|a + b| - 1] == a + b[..|b| - 1];
      GatheredJoin(a, b[..|b| - 1], retries);
    }
  }

  function Flattened(lists: seq<seq<Hit>>): seq<Hit> {
    if lists == [] then [] else Flattened(lists[..|lists| - 1]) + lists[|lists| - 1]
  }

  method Retrieve(queries: seq<nat -> Option<seq<Hit>>>, retries: nat) returns (all: seq<seq<Hit>>)
    ensures Flattened(all) == Gathered(queries, retries)
    ensures forall i :: 0 <= i < |all| ==> all[i] != []
  {
    all := [];
    for q := 0 to |queries|
      invariant Flattened(all) == Gathered(queries[..q], retries)
      invariant forall i :: 0 <= i < |all| ==> all[i] != []
    {
      assert queries[..q + 1][..q] == queries[..q];
      var result: seq<Hit>, attempt := [], 0;
      while attempt <= retries
        invariant attempt <= retries + 1 && result == []
        invariant FirstAnswer(queries[q], attempt, retries) == FirstAnswer(queries[q], 0, retries)
      {
        var answer := queries[q](attempt);
        if answer.Some? {
          result := answer.value;
          break;
        }
        attempt := attempt + 1;
      }
      if result != [] {
        assert (all + [result])[..|all|] == all;
        all := all + [result];
      }
    }
    assert queries[..|queries|] == queries;
  }

  // ---------- Merging ----------

  /** No earlier hit has the same key; a hit without a key is always first. */
  predicate IsFirst(hits: seq<Hit>, i: nat)
    requires i < |hits|
  {
    DedupKey(hits[i]) == "" || forall j :: 0 <= j < i ==> DedupKey(hits[j]) != DedupKey(hits[i])
  }

  function FirstIndices(hits: seq<Hit>): (r: seq<nat>)
    ensures Indices(r, |hits|)
  {
    if hits == [] then
      []
    else
      var n := |hits| - 1;
      FirstIndices(hits[..n]) + if IsFirst(hits, n) then [n] else []
  }

  /** The merge: exactly the first hit of every key and all hits without one, in their order. */
  function Merged(hits: seq<Hit>): seq<Hit> {
    Pick(hits, FirstIndices(hits))
  }

  lemma FirstOfFront(hits: seq<Hit>, n: nat, i: nat)
    requires i < n <= |hits|
    ensures IsFirst(hits[..n], i) == IsFirst(hits, i)
  {
    hide DedupKey;
    assert forall j :: 0 <= j < n ==> hits[..n][j] == hits[j];
  }

  /** The merge picks exactly the first ones, */
  lemma {:induction false} FirstIndicesMeaning(hits: seq<Hit>, i: nat)
    ensures i in FirstIndices(hits) <==> i < |hits| && IsFirst(hits, i)
  {
    hide IsFirst;
    if hits != [] {
      var n := |hits| - 1;
      FirstIndicesMeaning(hits[..n], i);
      if i < n {
        FirstOfFront(hits, n, i);
      }
    }
  }

  /** in increasing order. */
  lemma {:induction false} FirstIndicesIncrease(hits: seq<Hit>)
    ensures forall i, j :: 0 <= i < j < |FirstIndices(hits)| ==> FirstIndices(hits)[i] < FirstIndices(hits)[j]
  {
    hide IsFirst;
    if hits != [] {
      FirstIndicesIncrease(hits[..|hits| - 1]);
    }
  }

  ghost predicate KeysOf(seen: set<string>, hits: seq<Hit>) {
    forall k :: k in seen <==> k != "" && HasKey(hits, k)
  }

  ghost predicate HasKey(hits: seq<Hit>, k: string) {
    exists i :: 0 <= i < |hits| && DedupKey(hits[i]) == k
  }

  ghost predicate MergedSoFar(hits: seq<Hit>, result: seq<Hit>, seen: set<string>) {
    result == Merged(hits) && KeysOf(seen, hits)
  }

  lemma HasKeyStep(hits: seq<Hit>, h: Hit, k: string)
    ensures HasKey(hits + [h], k) <==> HasKey(hits, k) || k == DedupKey(h)
  {
    assert (hits + [h])[|hits|] == h;
    if HasKey(hits, k) {
      var i :| 0 <= i < |hits| && DedupKey(hits[i]) == k;
      assert (hits + [h])[i] == hits[i];
    }
  }

  lemma MergedStep(hits: seq<Hit>, h: Hit)
    ensures Merged(hits + [h])
         == Merged(hits) + if DedupKey(h) == "" || !HasKey(hits, DedupKey(h)) then [h] else []
  {
    var all := hits + [h];
    assert all[..|hits|] == hits && all[|hits|] == h;
    assert forall j :: 0 <= j < |hits| ==> all[j] == hits[j];
    assert IsFirst(all, |hits|) <==> DedupKey(h) == "" || !HasKey(hits, DedupKey(h));
    assert Pick(all, FirstIndices(hits)) == Pick(hits, FirstIndices(hits));
  }

  lemma MergeStep(hits: seq<Hit>, h: Hit, result: seq<Hit>, seen: set<string>)
    requires MergedSoFar(hits, result, seen)
    ensures var key := DedupKey(h);
            if key != "" && key in seen then
              MergedSoFar(hits + [h], result, seen)
            else
              MergedSoFar(hits + [h], result + [h], if key != "" then seen + {key} else seen)
  {
    MergedStep(hits, h);
    forall k ensures HasKey(hits + [h], k) <==> HasKey(hits, k) || k == DedupKey(h) {
      HasKeyStep(hits, h, k);
    }
  }

  /** The inner loop: one sub-query's hits behind those merged so far. */
  method MergeOne(ghost hits: seq<Hit>, list: seq<Hit>, before: seq<Hit>, seenBefore: set<string>)
    returns (result: seq<Hit>, seen: set<string>)
    requires MergedSoFar(hits, before, seenBefore)
    ensures MergedSoFar(hits + list, result, seen)
  {
    hide MergedSoFar, DedupKey;
    result, seen := before, seenBefore;
    ghost var all := hits;
    for i := 0 to |list|
      invariant all == hits + list[..i] && MergedSoFar(all, result, seen)
    {
      MergeStep(all, list[i], result, seen);
      all := all + [list[i]];
      var key := DedupKey(list[i]);
      if key != "" && key in seen {
        continue;
      }
      if key != "" {
        seen := seen + {key};
      }
      result := result + [list[i]];
    }
    assert list[..|list|] == list;
  }

  method Merge(lists: seq<seq<Hit>>) returns (result: seq<Hit>)
    ensures result == Merged(Flattened(lists))
  {
    result := [];
    var seen: set<string> := {};
    for q := 0 to |lists|
      invariant MergedSoFar(Flattened(lists[..q]), result, seen)
    {
      assert lists[..q + 1][..q] == lists[..q];
      result, seen := MergeOne(Flattened(lists[..q]), lists[q], result, seen);
    }
    assert lists[..|lists|] == lists;
  }

  /** Which name of a hit counts: its chunk id, else its raw id, else its document id, else that of its source
      document. */
  lemma DedupKeyIs(h: Hit)
    ensures h.chunkId != "" ==> DedupKey(h) == h.chunkId
    ensures h.chunkId == "" && h.rawId != "" ==> DedupKey(h) == h.rawId
    ensures h.chunkId == h.rawId == "" && h.documentId != "" ==> DedupKey(h) == h.documentId
    ensures DedupKey(h) == "" <==> h.chunkId == h.rawId == h.documentId == h.sourceDocId == ""
  {
  }

  lemma KeptWhenFirst(hits: seq<Hit>, i: nat)
    requires i < |hits| && IsFirst(hits, i)
    ensures hits[i] in Merged(hits)
  {
    FirstIndicesMeaning(hits, i);
    var k :| 0 <= k < |FirstIndices(hits)| && FirstIndices(hits)[k] == i;
    assert Merged(hits)[k] == hits[i];
  }

  /** Among hits with chunk ids exactly the first of every chunk survives: chunks of one document do not push each other
      out. */
  lemma ChunksSurvive(hits: seq<Hit>, i: nat)
    requires i < |hits| && forall j :: 0 <= j < |hits| ==> hits[j].chunkId != ""
    ensures i in FirstIndices(hits) <==> forall j :: 0 <= j < i ==> hits[j].chunkId != hits[i].chunkId
    ensures (forall j :: 0 <= j < i ==> hits[j].chunkId != hits[i].chunkId) ==> hits[i] in Merged(hits)
  {
    FirstIndicesMeaning(hits, i);
    if IsFirst(hits, i) {
      KeptWhenFirst(hits, i);
    }
  }

  // ---------- No key twice ----------

  ghost predicate NoRepeatedKey(hits: seq<Hit>) {
    forall i, j :: 0 <= i < j < |hits| && DedupKey(hits[i]) != "" ==> DedupKey(hits[i]) != DedupKey(hits[j])
  }

  lemma MergedHasNoRepeats(hits: seq<Hit>)
    ensures NoRepeatedKey(Merged(hits))
  {
    FirstIndicesIncrease(hits);
    var order := FirstIndices(hits);
    forall i, j | 0 <= i < j < |order| && DedupKey(hits[order[i]]) != ""
      ensures DedupKey(hits[order[i]]) != DedupKey(hits[order[j]])
    {
      FirstIndicesMeaning(hits, order[j]);
      assert order[j] in order && IsFirst(hits, order[j]);
    }
  }

  lemma {:induction false} TwoOfTheSame(hits: seq<Hit>, h: Hit) returns (i: nat, j: nat)
    requires multiset(hits)[h] >= 2
    ensures i < j < |hits| && hits[i] == h && hits[j] == h
    decreases |hits|
  {
    var n := |hits| - 1;
    assert hits == hits[..n] + [hits[n]];
    if hits[n] == h {
      assert h in multiset(hits[..n]) && h in hits[..n];
      i :| 0 <= i < n && hits[i] == h;
      j := n;
    } else {
      i, j := TwoOfTheSame(hits[..n], h);
    }
  }

  lemma TwiceThere(hits: seq<Hit>, i: nat, j: nat)
    requires i < j < |hits| && hits[i] == hits[j]
    ensures multiset(hits)[hits[i]] >= 2
  {
    assert hits == hits[..i] + [hits[i]] + hits[i + 1..j] + [hits[j]] + hits[j + 1..];
  }

  /** What has no hit more than a list without repeated keys has none either. */
  lemma PartsDoNotRepeat(part: seq<Hit>, hits: seq<Hit>)
    requires multiset(part) <= multiset(hits) && NoRepeatedKey(hits)
    ensures NoRepeatedKey(part)
  {
    forall i, j | 0 <= i < j < |part| && DedupKey(part[i]) != "" ensures DedupKey(part[i]) != DedupKey(part[j]) {
      if part[i] == part[j] {
        TwiceThere(part, i, j);
        var a, b := TwoOfTheSame(hits, part[i]);
        assert false;
      } else {
        assert part[i] in multiset(part) && part[j] in multiset(part);
        assert part[i] in hits && part[j] in hits;
      }
    }
  }

  // ---------- The retrieval as a whole ----------

  method Search(queries: seq<nat -> Option<seq<Hit>>>, retries: nat, s: Settings, a: Answers, topK: int)
    returns (result: seq<Hit>)
    ensures result == UpTo(Reranked(s, a, Merged(Gathered(queries, retries))), topK)
  {
    var all := Retrieve(queries, retries);
    result := Merge(all);
    if result != [] {
      result := Rerank(s, a, result);
      result := UpTo(result, topK);
    }
  }

  /** Whatever the sub-queries found and however it is reranked, no chunk is among the final hits twice. */
  lemma FinalHitsDoNotRepeat(hits: seq<Hit>, s: Settings, a: Answers, topK: int)
    requires ApiIsFair(s, a, Merged(hits))
    ensures NoRepeatedKey(UpTo(Reranked(s, a, Merged(hits)), topK))
  {
    var reranked := Reranked(s, a, Merged(hits));
    MergedHasNoRepeats(hits);
    RerankNeverAdds(s, a, Merged(hits));
    PartsDoNotRepeat(reranked, Merged(hits));
  }
}
