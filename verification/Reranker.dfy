/** reranker.py: reordering search hits by a local model, an API or a language model. */
module Rerankers {
  import opened Options
  import opened Permutations
  import opened Tokens

  // ---------- By the numbers a language model wrote ----------

  /** The valid one-based numbers, as indices, each where it is first mentioned. */
  function Mentioned(numbers: seq<nat>, n: nat): (r: seq<nat>)
    ensures Indices(r, n) && Distinct(r)
  {
    if numbers == [] then
      []
    else
      var before, last := Mentioned(numbers[..|numbers| - 1], n), numbers[|numbers| - 1];
      if 1 <= last <= n && last - 1 !in before then before + [last - 1] else before
  }

  /** The indices below n that an order lacks, ascending. */
  function Missing(order: seq<nat>, n: nat): (r: seq<nat>)
    ensures Indices(r, n) && Distinct(r)
    ensures forall k: nat :: k in r <==> k < n && k !in order
  {
    if n == 0 then
      []
    else
      var before := Missing(order, n - 1);
      if n - 1 in order then before else before + [n - 1]
  }

  /** What an order lacks comes in its old order. */
  lemma {:induction false} MissingAscends(order: seq<nat>, n: nat)
    ensures forall i, j :: 0 <= i < j < |Missing(order, n)| ==> Missing(order, n)[i] < Missing(order, n)[j]
  {
    if n > 0 {
      MissingAscends(order, n - 1);
    }
  }

  /** What is mentioned is what the model wrote, as far as it names a candidate. */
  lemma {:induction false} MentionedIff(numbers: seq<nat>, n: nat, k: nat)
    ensures k in Mentioned(numbers, n) <==> k < n && k + 1 in numbers
  {
    if numbers != [] {
      var front, last := numbers[..|numbers| - 1], numbers[|numbers| - 1];
      MentionedIff(front, n, k);
      assert k + 1 in numbers <==> k + 1 in front || k + 1 == last;
    }
  }

  /** What was mentioned earlier comes earlier. */
  lemma {:induction false} EarlierMentionsFirst(numbers: seq<nat>, n: nat, k: nat)
    requires k <= |numbers|
    ensures Mentioned(numbers[..k], n) <= Mentioned(numbers, n)
    decreases |numbers|
  {
    if k == |numbers| {
      assert numbers[..k] == numbers;
    } else {
      var front := numbers[..|numbers| - 1];
      assert front[..k] == numbers[..k];
      EarlierMentionsFirst(front, n, k);
    }
  }

  lemma Completed(order: seq<nat>, n: nat)
    requires Indices(order, n) && Distinct(order)
    ensures IsPermutation(order + Missing(order, n), n)
  {
    var all := order + Missing(order, n);
    forall i, j | 0 <= i < j < |all| ensures all[i] != all[j] {
      if i < |order| <= j {
        assert all[i] in order && all[j] in Missing(order, n);
      }
    }
    forall k | 0 <= k < n ensures k in all {
      assert k in order || k in Missing(order, n);
    }
  }

  function LlmOrder(numbers: seq<nat>, n: nat): seq<nat> {
    Mentioned(numbers, n) + Missing(Mentioned(numbers, n), n)
  }

  /** Whatever the model wrote, its order is a permutation of the candidates. */
  lemma LlmOrderPermutes(numbers: seq<nat>, n: nat)
    ensures IsPermutation(LlmOrder(numbers, n), n)
  {
    Completed(Mentioned(numbers, n), n);
  }

  method RerankLlm<T>(candidates: seq<T>, numbers: seq<nat>) returns (ordered: seq<T>)
    ensures Indices(LlmOrder(numbers, |candidates|), |candidates|)
    ensures ordered == Pick(candidates, LlmOrder(numbers, |candidates|))
  {
    var n := |candidates|;
    ghost var order: seq<nat> := [];
    var used: set<int> := {};
    ordered := [];
    for i := 0 to |numbers|
      invariant order == Mentioned(numbers[..i], n) && Indices(order, n) && ordered == Pick(candidates, order)
      invariant Tracks(used, 1, order, n)
    {
      assert numbers[..i + 1][..i] == numbers[..i];
      var number := numbers[i];
      if 1 <= number <= n && number !in used {
        ordered := ordered + [candidates[number - 1]];
        order := order + [number - 1];
        used := used + {number};
      }
    }
    assert numbers[..|numbers|] == numbers;
    LlmOrderPermutes(numbers, n);
    ordered := AppendMissing(candidates, order, used, 1, ordered);
  }

  /** `used` holds the members of `order`, counted from `base`. */
  ghost predicate Tracks(used: set<int>, base: int, order: seq<nat>, n: nat) {
    forall k: nat {:trigger k in order} :: k < n ==> (k in order <==> k + base in used)
  }

  /** The loop both paths end with: every candidate not used yet, in its place. */
  method AppendMissing<T>(candidates: seq<T>, ghost order: seq<nat>, used: set<int>, base: int, start: seq<T>)
    returns (ordered: seq<T>)
    requires Indices(order, |candidates|) && start == Pick(candidates, order)
    requires Tracks(used, base, order, |candidates|)
    ensures Indices(order + Missing(order, |candidates|), |candidates|)
    ensures ordered == Pick(candidates, order + Missing(order, |candidates|))
  {
    ordered := start;
    ghost var all := order;
    for i := 0 to |candidates|
      invariant all == order + Missing(order, i) && Indices(all, |candidates|)
      invariant ordered == Pick(candidates, all)
    {
      MissingStep(order, i);
      if i + base !in used {
        ordered := ordered + [candidates[i]];
        all := all + [i];
      }
    }
  }

  lemma MissingStep(order: seq<nat>, i: nat)
    ensures order + Missing(order, i + 1) == order + Missing(order, i) + if i in order then [] else [i]
  {
  }

  // ---------- By the indices of an API ----------

  function ValidIndices(results: seq<Option<int>>, n: nat): (r: seq<nat>)
    ensures Indices(r, n)
  {
    if results == [] then
      []
    else
      var before, last := ValidIndices(results[..|results| - 1], n), results[|results| - 1];
      if last.Some? && 0 <= last.value < n then before + [last.value] else before
  }

  function ZhipuOrder(results: seq<Option<int>>, n: nat): seq<nat> {
    ValidIndices(results, n) + Missing(ValidIndices(results, n), n)
  }

  method RerankZhipu<T>(candidates: seq<T>, results: seq<Option<int>>) returns (ordered: seq<T>)
    ensures Indices(ZhipuOrder(results, |candidates|), |candidates|)
    ensures ordered == Pick(candidates, ZhipuOrder(results, |candidates|))
  {
    var n := |candidates|;
    ghost var order: seq<nat> := [];
    var used: set<int> := {};
    ordered := [];
    for i := 0 to |results|
      invariant order == ValidIndices(results[..i], n) && ordered == Pick(candidates, order)
      invariant Tracks(used, 0, order, n)
    {
      assert results[..i + 1][..i] == results[..i];
      if results[i].Some? && 0 <= results[i].value < n {
        ordered := ordered + [candidates[results[i].value]];
        order := order + [results[i].value];
        used := used + {results[i].value};
      }
    }
    assert results[..|results|] == results;
    ordered := AppendMissing(candidates, order, used, 0, ordered);
  }

  /** The valid indices of a list of results are those of its parts, one after the other, */
  lemma {:induction false} ValidIndicesJoin(a: seq<Option<int>>, b: seq<Option<int>>, n: nat)
    ensures ValidIndices(a + b, n) == ValidIndices(a, n) + ValidIndices(b, n)
  {
    if b == [] {
      assert a + b == a;
    } else {
      assert (a + b)[..|a + b| - 1] == a + b[..|b| - 1];
      ValidIndicesJoin(a, b[..|b| - 1], n);
    }
  }

  /** and those of a single result are its index, if it is one. */
  lemma OneResult(x: Option<int>, n: nat)
    ensures ValidIndices([x], n) == if x.Some? && 0 <= x.value < n then [x.value] else []
  {
    assert [x][..0] == [];
  }

  ghost function Elements(order: seq<nat>, n: nat): set<nat> {
    set k | 0 <= k < n && k in order
  }

  lemma {:induction false} MissingSize(order: seq<nat>, n: nat)
    ensures |Missing(order, n)| + |Elements(order, n)| == n
  {
    if n == 0 {
      assert Elements(order, n) == {};
    } else {
      MissingSize(order, n - 1);
      assert Elements(order, n) == if n - 1 in order then Elements(order, n - 1) + {n - 1} else Elements(order, n - 1);
    }
  }

  lemma {:induction false} DistinctSize(order: seq<nat>, n: nat)
    requires Indices(order, n)
    ensures |Elements(order, n)| <= |order| && (|Elements(order, n)| == |order| <==> Distinct(order))
  {
    if order == [] {
      assert Elements(order, n) == {};
    } else {
      var front, last := order[..|order| - 1], order[|order| - 1];
      DistinctSize(front, n);
      assert order == front + [last];
      assert Elements(order, n) == Elements(front, n) + {last};
      assert Distinct(order) <==> Distinct(front) && last !in front;
    }
  }

  /** The API's order rearranges the candidates exactly when it repeats no index. */
  lemma ZhipuPermutesIff<T>(candidates: seq<T>, results: seq<Option<int>>)
    ensures Indices(ZhipuOrder(results, |candidates|), |candidates|)
    ensures multiset(Pick(candidates, ZhipuOrder(results, |candidates|))) == multiset(candidates)
       <==> Distinct(ValidIndices(results, |candidates|))
  {
    var n := |candidates|;
    var valid := ValidIndices(results, n);
    MissingSize(valid, n);
    DistinctSize(valid, n);
    if Distinct(valid) {
      Completed(valid, n);
      PickPermutes(candidates, ZhipuOrder(results, n));
    } else {
      assert |multiset(Pick(candidates, ZhipuOrder(results, n)))| > |multiset(candidates)|;
    }
  }

  // ---------- By the scores of a local model ----------

  /** Higher scores first, equal scores in the candidates' order. */
  predicate Outranks(scores: seq<real>, a: nat, b: nat)
    requires a < |scores| && b < |scores|
  {
    scores[a] > scores[b] || (scores[a] == scores[b] && a < b)
  }

  function Insert(order: seq<nat>, scores: seq<real>, x: nat): (r: seq<nat>)
    requires x < |scores| && Indices(order, |scores|)
    ensures Indices(r, |scores|)
  {
    if order == [] || Outranks(scores, x, order[0]) then
      [x] + order
    else
      [order[0]] + Insert(order[1..], scores, x)
  }

  /** Python's sort by score, descending: the indices of the first n scores, best first. */
  function Ranking(scores: seq<real>, n: nat): (r: seq<nat>)
    requires n <= |scores|
    ensures Indices(r, |scores|)
  {
    if n == 0 then [] else Insert(Ranking(scores, n - 1), scores, n - 1)
  }

  predicate Ranked(order: seq<nat>, scores: seq<real>)
    requires Indices(order, |scores|)
  {
    forall i, j :: 0 <= i < j < |order| ==> Outranks(scores, order[i], order[j])
  }

  lemma {:induction false} InsertMember(order: seq<nat>, scores: seq<real>, x: nat, k: nat)
    requires x < |scores| && Indices(order, |scores|)
    ensures k in Insert(order, scores, x) <==> k in order || k == x
  {
    if order != [] && !Outranks(scores, x, order[0]) {
      InsertMember(order[1..], scores, x, k);
      assert k in order <==> k == order[0] || k in order[1..];
    }
  }

  lemma {:induction false} InsertRanked(order: seq<nat>, scores: seq<real>, x: nat)
    requires x < |scores| && Indices(order, |scores|) && Ranked(order, scores) && x !in order
    ensures Ranked(Insert(order, scores, x), scores)
  {
    if order != [] && !Outranks(scores, x, order[0]) {
      var rest := Insert(order[1..], scores, x);
      InsertRanked(order[1..], scores, x);
      forall j | 0 <= j < |rest| ensures Outranks(scores, order[0], rest[j]) {
        InsertMember(order[1..], scores, x, rest[j]);
      }
    }
  }

  lemma {:induction false} RankingMember(scores: seq<real>, n: nat, k: nat)
    requires n <= |scores|
    ensures k in Ranking(scores, n) <==> k < n
  {
    if n > 0 {
      RankingMember(scores, n - 1, k);
      InsertMember(Ranking(scores, n - 1), scores, n - 1, k);
    }
  }

  /** The ranking is in order of rank, */
  lemma {:induction false} RankingIsRanked(scores: seq<real>, n: nat)
    requires n <= |scores|
    ensures Ranked(Ranking(scores, n), scores)
  {
    if n > 0 {
      RankingIsRanked(scores, n - 1);
      RankingMember(scores, n - 1, n - 1);
      InsertRanked(Ranking(scores, n - 1), scores, n - 1);
    }
  }

  /** and holds every candidate once. */
  lemma RankingPermutes(scores: seq<real>, n: nat)
    requires n <= |scores|
    ensures IsPermutation(Ranking(scores, n), n)
  {
    RankingIsRanked(scores, n);
    var r := Ranking(scores, n);
    forall i | 0 <= i < |r| ensures r[i] < n {
      assert r[i] in r;
      RankingMember(scores, n, r[i]);
    }
    forall k | 0 <= k < n ensures k in r {
      RankingMember(scores, n, k);
    }
  }

  /** The hits of a list that do not occur, by value, in another. */
  function Absent<T(==)>(hits: seq<T>, from: seq<T>): (r: seq<T>)
    ensures |r| <= |hits|
  {
    if hits == [] then
      []
    else
      var before, last := Absent(hits[..|hits| - 1], from), hits[|hits| - 1];
      if last in from then before else before + [last]
  }

  function Shorter(a: nat, b: nat): nat {
    if a <= b then a else b
  }

  function Best<T>(candidates: seq<T>, scores: seq<real>, topN: nat): seq<T> {
    var n := Shorter(|candidates|, |scores|);
    UpTo(Pick(candidates, Ranking(scores[..n], n)), topN)
  }

  function LocalOrder<T(==)>(candidates: seq<T>, scores: seq<real>, topN: nat): seq<T> {
    var best := Best(candidates, scores, topN);
    best + Absent(candidates, best)
  }

  lemma {:induction false} AbsentIsPart<T>(hits: seq<T>, from: seq<T>)
    ensures multiset(Absent(hits, from)) <= multiset(hits)
  {
    if hits != [] {
      AbsentIsPart(hits[..|hits| - 1], from);
      assert hits == hits[..|hits| - 1] + [hits[|hits| - 1]];
    }
  }

  lemma MembersOf<T>(hits: seq<T>, h: T)
    requires hits != []
    ensures h in hits <==> h in hits[..|hits| - 1] || h == hits[|hits| - 1]
  {
    assert hits == hits[..|hits| - 1] + [hits[|hits| - 1]];
  }

  lemma {:induction false} AbsentLength<T>(hits: seq<T>, from: seq<T>)
    ensures |Absent(hits, from)| == |hits| <==> forall h :: h in hits ==> h !in from
    ensures |Absent(hits, from)| == |hits| ==> Absent(hits, from) == hits
  {
    if hits != [] {
      var front, last := hits[..|hits| - 1], hits[|hits| - 1];
      AbsentLength(front, from);
      forall h ensures h in hits <==> h in front || h == last {
        MembersOf(hits, h);
      }
      assert hits == front + [last];
    }
  }

  lemma {:induction false} AbsentFromAll<T>(hits: seq<T>, from: seq<T>)
    requires forall h :: h in hits ==> h in from
    ensures Absent(hits, from) == []
  {
    if hits != [] {
      AbsentFromAll(hits[..|hits| - 1], from);
    }
  }

  lemma {:induction false} AbsentOfJoin<T>(a: seq<T>, b: seq<T>, from: seq<T>)
    ensures Absent(a + b, from) == Absent(a, from) + Absent(b, from)
  {
    if b == [] {
      assert a + b == a;
    } else {
      var front := b[..|b| - 1];
      assert (a + b)[..|a + b| - 1] == a + front;
      AbsentOfJoin(a, front, from);
    }
  }

  lemma BestPermutes<T>(candidates: seq<T>, scores: seq<real>, topN: nat)
    requires |candidates| <= topN
    ensures var n := Shorter(|candidates|, |scores|);
            var best := Best(candidates, scores, topN);
            |best| == n && multiset(best) == multiset(candidates[..n])
  {
    var n := Shorter(|candidates|, |scores|);
    var ranking := Ranking(scores[..n], n);
    RankingPermutes(scores[..n], n);
    PickPermutes(candidates[..n], ranking);
    var picked := Pick(candidates, ranking);
    assert picked == Pick(candidates[..n], ranking);
    assert |multiset(picked)| == |multiset(candidates[..n])|;
    assert UpTo(picked, topN) == picked;
  }

  lemma SameMembers<T>(a: seq<T>, b: seq<T>)
    requires multiset(a) == multiset(b)
    ensures forall h :: h in a <==> h in b
  {
    forall h ensures h in a <==> h in b {
      assert h in a <==> h in multiset(a);
      assert h in b <==> h in multiset(b);
    }
  }

  lemma AbsentBehind<T>(front: seq<T>, rest: seq<T>, best: seq<T>)
    requires multiset(best) == multiset(front)
    ensures Absent(front + rest, best) == Absent(rest, front)
  {
    SameMembers(best, front);
    AbsentFromAll(front, best);
    AbsentOfJoin(front, rest, best);
    AbsentFromSame(rest, best, front);
  }

  lemma LocalSplits<T>(candidates: seq<T>, scores: seq<real>, topN: nat)
    requires |candidates| <= topN
    ensures var n := Shorter(|candidates|, |scores|);
            LocalOrder(candidates, scores, topN)
            == Best(candidates, scores, topN) + Absent(candidates[n..], candidates[..n])
  {
    var n := Shorter(|candidates|, |scores|);
    BestPermutes(candidates, scores, topN);
    AbsentBehind(candidates[..n], candidates[n..], Best(candidates, scores, topN));
    assert candidates == candidates[..n] + candidates[n..];
  }

  lemma {:induction false} AbsentFromSame<T>(hits: seq<T>, a: seq<T>, b: seq<T>)
    requires forall h :: h in a <==> h in b
    ensures Absent(hits, a) == Absent(hits, b)
  {
    if hits != [] {
      AbsentFromSame(hits[..|hits| - 1], a, b);
    }
  }

  lemma LocalNeverAdds<T>(candidates: seq<T>, scores: seq<real>, topN: nat)
    requires |candidates| <= topN
    ensures multiset(LocalOrder(candidates, scores, topN)) <= multiset(candidates)
  {
    hide Best, LocalOrder;
    var n := Shorter(|candidates|, |scores|);
    BestPermutes(candidates, scores, topN);
    LocalSplits(candidates, scores, topN);
    AbsentIsPart(candidates[n..], candidates[..n]);
    assert candidates == candidates[..n] + candidates[n..];
  }

  lemma RearrangedIff<T>(front: seq<T>, rest: seq<T>, best: seq<T>, kept: seq<T>)
    requires multiset(best) == multiset(front) && |kept| <= |rest| && (|kept| == |rest| ==> kept == rest)
    ensures multiset(best + kept) == multiset(front + rest) <==> |kept| == |rest|
  {
    assert |multiset(best)| == |best| && |multiset(front)| == |front|;
    assert |multiset(best + kept)| == |best| + |kept| && |multiset(front + rest)| == |front| + |rest|;
  }

  /** The local model's order rearranges the candidates exactly when none left without a score equals one that has a
      score; one score per candidate is enough. */
  lemma LocalPermutesIff<T>(candidates: seq<T>, scores: seq<real>, topN: nat)
    requires |candidates| <= topN
    ensures var n := Shorter(|candidates|, |scores|);
            multiset(LocalOrder(candidates, scores, topN)) == multiset(candidates)
            <==> forall h :: h in candidates[n..] ==> h !in candidates[..n]
  {
    hide Best, LocalOrder, Absent;
    var n := Shorter(|candidates|, |scores|);
    var kept := Absent(candidates[n..], candidates[..n]);
    BestPermutes(candidates, scores, topN);
    LocalSplits(candidates, scores, topN);
    AbsentLength(candidates[n..], candidates[..n]);
    RearrangedIff(candidates[..n], candidates[n..], Best(candidates, scores, topN), kept);
    assert candidates == candidates[..n] + candidates[n..];
  }

  // ---------- Choosing the way ----------

  /** What each way of reranking answers: nothing when it is not configured or failed. */
  datatype Answers = Answers(local: Option<seq<real>>, zhipu: Option<seq<Option<int>>>, llm: Option<seq<nat>>)

  datatype Settings = Settings(enabled: bool, useLocal: bool, topN: int)

  /** The configured number of candidates: zero means twenty, a negative one means one. */
  function TopN(s: Settings): (n: nat)
    ensures n >= 1
  {
    if s.topN == 0 then 20 else if s.topN < 1 then 1 else s.topN
  }

  /** The new order of the candidates, if any way answered. */
  function Ordered<T(==)>(s: Settings, a: Answers, candidates: seq<T>): Option<seq<T>> {
    var n := |candidates|;
    if s.useLocal && a.local.Some? then
      Some(LocalOrder(candidates, a.local.value, TopN(s)))
    else if a.zhipu.Some? then
      ZhipuPermutesIff(candidates, a.zhipu.value);
      Some(Pick(candidates, ZhipuOrder(a.zhipu.value, n)))
    else if a.llm.Some? then
      LlmOrderPermutes(a.llm.value, n);
      Some(Pick(candidates, LlmOrder(a.llm.value, n)))
    else
      None
  }

  function Reranked<T(==)>(s: Settings, a: Answers, hits: seq<T>): seq<T> {
    if hits == [] || !s.enabled then
      hits
    else
      match Ordered(s, a, UpTo(hits, TopN(s)))
      case None => hits
      case Some(ordered) => ordered + From(hits, TopN(s))
  }

  method Rerank<T(==)>(s: Settings, a: Answers, hits: seq<T>) returns (result: seq<T>)
    ensures result == Reranked(s, a, hits)
  {
    if hits == [] || !s.enabled {
      return hits;
    }
    var topN := TopN(s);
    var candidates := UpTo(hits, topN);
    var ordered: Option<seq<T>> := None;
    if s.useLocal {
      ordered := if a.local.Some? then Some(LocalOrder(candidates, a.local.value, topN)) else None;
    }
    if ordered == None && a.zhipu.Some? {
      var o := RerankZhipu(candidates, a.zhipu.value);
      ordered := Some(o);
    }
    if ordered == None && a.llm.Some? {
      var o := RerankLlm(candidates, a.llm.value);
      ordered := Some(o);
    }
    if ordered == None {
      return hits;
    }
    result := ordered.value + From(hits, topN);
  }

  /** The API is not asked, or repeats no index. */
  predicate ApiIsFair<T>(s: Settings, a: Answers, hits: seq<T>) {
    (s.useLocal && a.local.Some?) || a.zhipu.None?
    || Distinct(ValidIndices(a.zhipu.value, |UpTo(hits, TopN(s))|))
  }

  /** The local model is not asked, or scores every candidate. */
  predicate LocalIsComplete<T>(s: Settings, a: Answers, hits: seq<T>) {
    s.useLocal && a.local.Some? ==> |UpTo(hits, TopN(s))| <= |a.local.value|
  }

  lemma OrderedFacts<T>(s: Settings, a: Answers, candidates: seq<T>)
    requires |candidates| <= TopN(s) && ApiIsFair(s, a, candidates)
    ensures var r := Ordered(s, a, candidates);
            r.Some? ==> multiset(r.value) <= multiset(candidates)
                        && (LocalIsComplete(s, a, candidates) ==> multiset(r.value) == multiset(candidates))
  {
    if s.useLocal && a.local.Some? {
      LocalNeverAdds(candidates, a.local.value, TopN(s));
      LocalPermutesIff(candidates, a.local.value, TopN(s));
    } else if a.zhipu.Some? {
      ZhipuPermutesIff(candidates, a.zhipu.value);
    } else if a.llm.Some? {
      LlmOrderPermutes(a.llm.value, |candidates|);
      PickPermutes(candidates, LlmOrder(a.llm.value, |candidates|));
    }
  }

  /** Reranking never invents or repeats a hit, */
  lemma RerankNeverAdds<T>(s: Settings, a: Answers, hits: seq<T>)
    requires ApiIsFair(s, a, hits)
    ensures multiset(Reranked(s, a, hits)) <= multiset(hits)
  {
    var candidates := UpTo(hits, TopN(s));
    OrderedFacts(s, a, candidates);
    CutJoins(hits, TopN(s));
  }

  /** and, given one score per candidate, it is a rearrangement that leaves what lies beyond the first candidates. */
  lemma RerankPermutes<T>(s: Settings, a: Answers, hits: seq<T>)
    requires ApiIsFair(s, a, hits) && LocalIsComplete(s, a, hits)
    ensures multiset(Reranked(s, a, hits)) == multiset(hits)
    ensures From(Reranked(s, a, hits), TopN(s)) == From(hits, TopN(s))
  {
    var candidates := UpTo(hits, TopN(s));
    OrderedFacts(s, a, candidates);
    CutJoins(hits, TopN(s));
    var r := Ordered(s, a, candidates);
    if r.Some? {
      assert |r.value| == |multiset(r.value)| == |multiset(candidates)| == |candidates|;
    }
  }

  /** How many hits are reranked: those among the first topN, twenty where topN is zero, and one where it is negative.
      */
  lemma CandidatesAre<T>(s: Settings, hits: seq<T>)
    ensures var n := if s.topN == 0 then 20 else if s.topN < 0 then 1 else s.topN;
            UpTo(hits, TopN(s)) == if |hits| <= n then hits else hits[..n]
  {
  }

  /** Which way decides: none where reranking is off; the local model where it is asked and answers; else the API
      where it answers; else the language model; and the hits stay as they are where none does. */
  lemma WhichWayDecides<T>(s: Settings, a: Answers, hits: seq<T>)
    requires hits != []
    ensures var candidates, rest := UpTo(hits, TopN(s)), From(hits, TopN(s)); var n := |candidates|;
            var local := s.useLocal && a.local.Some?;
            && Indices(ZhipuOrder(OrElse(a.zhipu, []), n), n) && Indices(LlmOrder(OrElse(a.llm, []), n), n)
            && (!s.enabled || (!local && a.zhipu.None? && a.llm.None?) ==> Reranked(s, a, hits) == hits)
            && (s.enabled && local ==>
                  Reranked(s, a, hits) == LocalOrder(candidates, a.local.value, TopN(s)) + rest)
            && (s.enabled && !local && a.zhipu.Some? ==>
                  Reranked(s, a, hits) == Pick(candidates, ZhipuOrder(OrElse(a.zhipu, []), n)) + rest)
            && (s.enabled && !local && a.zhipu.None? && a.llm.Some? ==>
                  Reranked(s, a, hits) == Pick(candidates, LlmOrder(OrElse(a.llm, []), n)) + rest)
  {
    hide LocalOrder, ZhipuOrder, LlmOrder;
    var candidates := UpTo(hits, TopN(s));
    ZhipuPermutesIff(candidates, OrElse(a.zhipu, []));
    LlmOrderPermutes(OrElse(a.llm, []), |candidates|);
  }

  function OrElse<T>(o: Option<T>, default: T): T {
    if o.Some? then o.value else default
  }

  /** With a score for every candidate, the front of the result is the candidates by descending score, equal scores in
      the order they came. */
  lemma RerankByScore<T>(s: Settings, a: Answers, hits: seq<T>) returns (order: seq<nat>)
    requires s.enabled && s.useLocal && a.local.Some? && hits != []
    requires |UpTo(hits, TopN(s))| <= |a.local.value|
    ensures var candidates, scores := UpTo(hits, TopN(s)), a.local.value; var n := |candidates|;
            && IsPermutation(order, n) && |order| == n
            && (forall i, j :: 0 <= i < j < n ==>
                  scores[order[i]] > scores[order[j]] || (scores[order[i]] == scores[order[j]] && order[i] < order[j]))
            && Reranked(s, a, hits) == Pick(candidates, order) + From(hits, TopN(s))
  {
    hide Ranking, LocalOrder, Best;
    var candidates, scores := UpTo(hits, TopN(s)), a.local.value;
    var n := |candidates|;
    order := Ranking(scores[..n], n);
    RankingPermutes(scores[..n], n);
    RankingIsRanked(scores[..n], n);
    PermutationLength(order, n);
    LocalSplits(candidates, scores, TopN(s));
    BestIsRanked(candidates, scores, TopN(s));
  }

  lemma BestIsRanked<T>(candidates: seq<T>, scores: seq<real>, topN: nat)
    requires |candidates| <= |scores| && |candidates| <= topN
    ensures var n := |candidates|;
            && Indices(Ranking(scores[..n], n), n)
            && Best(candidates, scores, topN) == Pick(candidates, Ranking(scores[..n], n))
  {
    var n := |candidates|;
    RankingPermutes(scores[..n], n);
    PermutationLength(Ranking(scores[..n], n), n);
  }
}
