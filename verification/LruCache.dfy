/** cache.py's BoundedLRUCache: an ordered dictionary of bounded size, least recently used entry first. */
module LruCaches {
  import opened Options

  // ---------- Ordered keys ----------

  function Without(keys: seq<string>, k: string): seq<string> {
    if keys == [] then [] else
    (if keys[0] == k then [] else [keys[0]]) + Without(keys[1..], k)
  }

  predicate StartsWith(s: string, prefix: string) {
    prefix <= s
  }

  function WithoutMatching(keys: seq<string>, prefix: string): seq<string> {
    if keys == [] then [] else
    (if StartsWith(keys[0], prefix) then [] else [keys[0]]) + WithoutMatching(keys[1..], prefix)
  }

  ghost predicate Distinct(keys: seq<string>) {
    keys != [] ==> keys[0] !in keys[1..] && Distinct(keys[1..])
  }

  lemma {:induction false} WithoutFacts(keys: seq<string>, k: string)
    requires Distinct(keys)
    ensures Distinct(Without(keys, k)) && (forall x :: x in Without(keys, k) <==> x in keys && x != k)
    ensures |Without(keys, k)| == |keys| - if k in keys then 1 else 0
  {
    if keys != [] {
      var rest := keys[1..];
      assert keys == [keys[0]] + rest;
      WithoutFacts(rest, k);
      assert ([keys[0]] + Without(rest, k))[1..] == Without(rest, k);
      assert [] + Without(rest, k) == Without(rest, k);
    }
  }

  lemma {:induction false} WithoutAbsent(keys: seq<string>, k: string)
    requires k !in keys
    ensures Without(keys, k) == keys
  {
    if keys != [] {
      assert keys == [keys[0]] + keys[1..];
      WithoutAbsent(keys[1..], k);
    }
  }

  lemma {:induction false} WithoutMatchingFacts(keys: seq<string>, prefix: string)
    requires Distinct(keys)
    ensures Distinct(WithoutMatching(keys, prefix))
    ensures forall x :: x in WithoutMatching(keys, prefix) <==> x in keys && !StartsWith(x, prefix)
    ensures |WithoutMatching(keys, prefix)| <= |keys|
  {
    if keys != [] {
      var rest := keys[1..];
      assert keys == [keys[0]] + rest;
      WithoutMatchingFacts(rest, prefix);
      assert ([keys[0]] + WithoutMatching(rest, prefix))[1..] == WithoutMatching(rest, prefix);
      assert [] + WithoutMatching(rest, prefix) == WithoutMatching(rest, prefix);
    }
  }

  lemma {:induction false} WithoutConcat(a: seq<string>, b: seq<string>, k: string)
    ensures Without(a + b, k) == Without(a, k) + Without(b, k)
  {
    if a == [] {
      assert a + b == b;
    } else {
      assert (a + b)[1..] == a[1..] + b;
      WithoutConcat(a[1..], b, k);
    }
  }

  lemma {:induction false} WithoutMatchingConcat(a: seq<string>, b: seq<string>, prefix: string)
    ensures WithoutMatching(a + b, prefix) == WithoutMatching(a, prefix) + WithoutMatching(b, prefix)
  {
    if a == [] {
      assert a + b == b;
    } else {
      assert (a + b)[1..] == a[1..] + b;
      WithoutMatchingConcat(a[1..], b, prefix);
    }
  }

  // ---------- The cache ----------

  datatype Op<V> = Get(key: string) | Set(key: string, value: V) | Pop(key: string) | ClearMatching(prefix: string)

  /** The operations so far, latest last. */
  datatype Run<V> = Start | Then(before: Run<V>, last: Op<V>)

  /** The keys, least recently used first, and their values. */
  datatype Entries<V> = Entries(keys: seq<string>, data: map<string, V>)

  ghost predicate Proper<V>(e: Entries<V>, size: nat) {
    && Distinct(e.keys) && |e.keys| <= size
    && forall k :: k in e.keys <==> k in e.data
  }

  function TouchKey(keys: seq<string>, k: string): seq<string> {
    Without(keys, k) + [k]
  }

  /** The newest size keys. */
  function Newest(keys: seq<string>, size: nat): seq<string> {
    if |keys| <= size then keys else keys[|keys| - size..]
  }

  function Restrict<V>(data: map<string, V>, keys: seq<string>): map<string, V> {
    map k | k in data && k in keys :: data[k]
  }

  function Step<V>(e: Entries<V>, op: Op<V>, size: nat): Entries<V> {
    match op
    case Get(k) => if k in e.keys then e.(keys := TouchKey(e.keys, k)) else e
    case Set(k, v) =>
      var keys := Newest(TouchKey(e.keys, k), size);
      Entries(keys, Restrict(e.data[k := v], keys))
    case Pop(k) => Entries(Without(e.keys, k), Restrict(e.data, Without(e.keys, k)))
    case ClearMatching(p) => Entries(WithoutMatching(e.keys, p), Restrict(e.data, WithoutMatching(e.keys, p)))
  }

  function After<V>(run: Run<V>, size: nat): Entries<V> {
    match run
    case Start => Entries([], map[])
    case Then(before, op) => Step(After(before, size), op, size)
  }

  lemma {:induction false} DistinctSuffix(a: seq<string>, b: seq<string>)
    requires Distinct(a + b)
    ensures Distinct(a) && Distinct(b) && forall k :: k in a ==> k !in b
  {
    if a == [] {
      assert a + b == b;
    } else {
      assert (a + b)[1..] == a[1..] + b && a == [a[0]] + a[1..];
      DistinctSuffix(a[1..], b);
    }
  }

  lemma {:induction false} DistinctAppend(a: seq<string>, k: string)
    requires Distinct(a) && k !in a
    ensures Distinct(a + [k])
  {
    if a != [] {
      assert (a + [k])[1..] == a[1..] + [k];
      DistinctAppend(a[1..], k);
    } else {
      assert (a + [k])[1..] == [];
    }
  }

  lemma RestrictIsProper<V>(keys: seq<string>, data: map<string, V>, size: nat)
    requires Distinct(keys) && |keys| <= size && forall k :: k in keys ==> k in data
    ensures Proper(Entries(keys, Restrict(data, keys)), size)
  {
  }

  lemma TouchFacts(keys: seq<string>, k: string)
    requires Distinct(keys)
    ensures Distinct(TouchKey(keys, k))
    ensures forall x :: x in TouchKey(keys, k) <==> x in keys || x == k
    ensures |TouchKey(keys, k)| == if k in keys then |keys| else |keys| + 1
  {
    WithoutFacts(keys, k);
    DistinctAppend(Without(keys, k), k);
  }

  lemma NewestFacts(keys: seq<string>, size: nat)
    requires Distinct(keys)
    ensures Distinct(Newest(keys, size)) && |Newest(keys, size)| <= size
    ensures forall k :: k in Newest(keys, size) ==> k in keys
  {
    var newest := Newest(keys, size);
    assert keys == keys[..|keys| - |newest|] + newest;
    DistinctSuffix(keys[..|keys| - |newest|], newest);
  }

  lemma StepIsProper<V>(e: Entries<V>, op: Op<V>, size: nat)
    requires Proper(e, size) && size >= 1
    ensures Proper(Step(e, op, size), size)
  {
    hide Distinct, Without, WithoutMatching, Newest, TouchKey;
    match op
    case Get(k) =>
      TouchFacts(e.keys, k);
    case Set(k, v) =>
      TouchFacts(e.keys, k);
      NewestFacts(TouchKey(e.keys, k), size);
      RestrictIsProper(Newest(TouchKey(e.keys, k), size), e.data[k := v], size);
    case Pop(k) =>
      WithoutFacts(e.keys, k);
      RestrictIsProper(Without(e.keys, k), e.data, size);
    case ClearMatching(p) =>
      WithoutMatchingFacts(e.keys, p);
      RestrictIsProper(WithoutMatching(e.keys, p), e.data, size);
  }

  lemma {:induction false} AfterIsProper<V>(run: Run<V>, size: nat)
    requires size >= 1
    ensures Proper(After(run, size), size)
  {
    if run.Then? {
      AfterIsProper(run.before, size);
      StepIsProper(After(run.before, size), run.last, size);
    }
  }

  /** Dropping the oldest of distinct keys. */
  lemma EvictOne<V>(keys: seq<string>, data: map<string, V>)
    requires Distinct(keys) && keys != []
    ensures Distinct(keys[1..])
    ensures Restrict(data, keys) - {keys[0]} == Restrict(data, keys[1..])
  {
    assert keys == [keys[0]] + keys[1..];
  }

  lemma RestrictWithout<V>(e: Entries<V>, k: string, size: nat)
    requires Proper(e, size)
    ensures Restrict(e.data, Without(e.keys, k)) == e.data - {k}
  {
    WithoutFacts(e.keys, k);
  }

  class BoundedLRUCache<V> {
    const maxSize: nat
    var keys: seq<string>
    var data: map<string, V>
    /** The operations so far. */
    ghost var run: Run<V>

    ghost predicate Valid()
      reads this
    {
      maxSize >= 100 && Entries(keys, data) == After(run, maxSize)
    }

    constructor (maxSize: int)
      ensures Valid() && run == Start && this.maxSize == if maxSize >= 100 then maxSize else 100
    {
      this.maxSize := if maxSize >= 100 then maxSize else 100;
      keys, data, run := [], map[], Start;
    }

    method Get(key: string) returns (r: Option<V>)
      requires Valid()
      modifies this
      ensures Valid() && run == Then(old(run), Op.Get(key)) && data == old(data)
      ensures r == if key in old(data) then Some(old(data)[key]) else None
    {
      AfterIsProper(run, maxSize);
      run := Then(run, Op.Get(key));
      if key in data {
        keys := TouchKey(keys, key);
        r := Some(data[key]);
      } else {
        r := None;
      }
    }

    /** Drops the oldest entries until the size fits. */
    method Evict()
      requires maxSize >= 100 && Distinct(keys) && forall k :: k in keys <==> k in data
      modifies this`keys, this`data
      ensures keys == Newest(old(keys), maxSize) && data == Restrict(old(data), keys)
    {
      hide Distinct;
      while |keys| > maxSize
        invariant |keys| <= |old(keys)| && keys == old(keys)[|old(keys)| - |keys|..]
        invariant if |old(keys)| <= maxSize then keys == old(keys) else |keys| >= maxSize
        invariant Distinct(keys) && data == Restrict(old(data), keys)
      {
        EvictOne(keys, old(data));
        assert old(keys)[|old(keys)| - |keys|..][1..] == old(keys)[|old(keys)| - (|keys| - 1)..];
        data := data - {keys[0]};
        keys := keys[1..];
      }
    }

    method Set(key: string, value: V)
      requires Valid()
      modifies this
      ensures Valid() && run == Then(old(run), Op.Set(key, value))
    {
      AfterIsProper(run, maxSize);
      WithoutFacts(keys, key);
      DistinctAppend(Without(keys, key), key);
      if key in data {
        keys := Without(keys, key) + [key];
      } else {
        WithoutAbsent(keys, key);
        keys := keys + [key];
      }
      data := data[key := value];
      run := Then(run, Op.Set(key, value));
      Evict();
    }

    method Pop(key: string) returns (r: Option<V>)
      requires Valid()
      modifies this
      ensures Valid() && run == Then(old(run), Op.Pop(key)) && data == old(data) - {key}
      ensures r == if key in old(data) then Some(old(data)[key]) else None
    {
      hide Restrict, Distinct, Without;
      AfterIsProper(run, maxSize);
      RestrictWithout(Entries(keys, data), key, maxSize);
      run := Then(run, Op.Pop(key));
      r := if key in data then Some(data[key]) else None;
      keys := Without(keys, key);
      data := data - {key};
    }

    method ClearMatching(prefix: string)
      requires Valid()
      modifies this
      ensures Valid() && run == Then(old(run), Op.ClearMatching(prefix))
      ensures forall k :: k in data <==> k in old(data) && !(prefix <= k)
      ensures forall k :: k in data ==> data[k] == old(data)[k]
    {
      AfterIsProper(run, maxSize);
      WithoutMatchingFacts(keys, prefix);
      run := Then(run, Op.ClearMatching(prefix));
      keys := WithoutMatching(keys, prefix);
      data := Restrict(data, keys);
    }
  }

  // ---------- What the cache holds after any run ----------

  /** A recency list after one more operation: a set, or a get that hits, touches; a removal erases. */
  function Retouch<V>(r: seq<string>, op: Op<V>, hit: bool): seq<string> {
    match op
    case Get(k) => if hit then TouchKey(r, k) else r
    case Set(k, _) => TouchKey(r, k)
    case Pop(k) => Without(r, k)
    case ClearMatching(p) => WithoutMatching(r, p)
  }

  predicate Hits<V>(e: Entries<V>, op: Op<V>) {
    op.Get? && op.key in e.keys
  }

  /** The keys by their latest touch, newest last, however many there are. */
  function Recency<V>(run: Run<V>, size: nat): seq<string> {
    match run
    case Start => []
    case Then(before, op) => Retouch(Recency(before, size), op, Hits(After(before, size), op))
  }

  /** The value a key was last set to. */
  function LastSet<V>(run: Run<V>, k: string): Option<V> {
    match run
    case Start => None
    case Then(before, op) => if op.Set? && op.key == k then Some(op.value) else LastSet(before, k)
  }

  predicate OnlyGetsAndSets<V>(run: Run<V>) {
    run.Then? ==> (run.last.Get? || run.last.Set?) && OnlyGetsAndSets(run.before)
  }

  ghost predicate IsSuffix(s: seq<string>, t: seq<string>) {
    |s| <= |t| && t[|t| - |s|..] == s
  }

  lemma TouchSuffix(s: seq<string>, t: seq<string>, k: string)
    requires IsSuffix(s, t)
    ensures IsSuffix(Without(s, k), Without(t, k)) && IsSuffix(TouchKey(s, k), TouchKey(t, k))
  {
    var front := t[..|t| - |s|];
    assert t == front + s;
    WithoutConcat(front, s, k);
    assert TouchKey(t, k) == Without(front, k) + TouchKey(s, k);
  }

  lemma NewestSuffix(s: seq<string>, t: seq<string>, size: nat)
    requires IsSuffix(s, t)
    ensures IsSuffix(Newest(s, size), t)
  {
    var front := t[..|t| - |s|];
    assert t == front + s;
    assert t[|t| - |Newest(s, size)|..] == Newest(s, size);
  }

  lemma ClearSuffix(s: seq<string>, t: seq<string>, prefix: string)
    requires IsSuffix(s, t)
    ensures IsSuffix(WithoutMatching(s, prefix), WithoutMatching(t, prefix))
  {
    var front := t[..|t| - |s|];
    assert t == front + s;
    WithoutMatchingConcat(front, s, prefix);
  }

  lemma SuffixStep<V>(e: Entries<V>, t: seq<string>, op: Op<V>, size: nat)
    requires IsSuffix(e.keys, t)
    ensures IsSuffix(Step(e, op, size).keys, Retouch(t, op, Hits(e, op)))
  {
    match op
    case Get(k) =>
      TouchSuffix(e.keys, t, k);
    case Set(k, _) =>
      TouchSuffix(e.keys, t, k);
      NewestSuffix(TouchKey(e.keys, k), TouchKey(t, k), size);
    case Pop(k) =>
      TouchSuffix(e.keys, t, k);
    case ClearMatching(p) =>
      ClearSuffix(e.keys, t, p);
  }

  lemma RetouchDistinct<V>(t: seq<string>, op: Op<V>, hit: bool)
    requires Distinct(t)
    ensures Distinct(Retouch(t, op, hit))
    ensures (op.Set? || (op.Get? && hit)) ==> |Retouch(t, op, hit)| == |t| + if op.key in t then 0 else 1
  {
    match op
    case ClearMatching(p) =>
      WithoutMatchingFacts(t, p);
    case _ =>
      WithoutFacts(t, op.key);
      DistinctAppend(Without(t, op.key), op.key);
  }

  /** After any run the cached keys are the newest part of the recency list, at most size of them. */
  lemma {:induction false} HoldsTheNewest<V>(run: Run<V>, size: nat)
    requires size >= 1
    ensures IsSuffix(After(run, size).keys, Recency(run, size)) && |After(run, size).keys| <= size
    ensures Distinct(Recency(run, size))
  {
    AfterIsProper(run, size);
    if run.Then? {
      HoldsTheNewest(run.before, size);
      SuffixStep(After(run.before, size), Recency(run.before, size), run.last, size);
      RetouchDistinct(Recency(run.before, size), run.last, Hits(After(run.before, size), run.last));
    }
  }

  function AtMost(n: nat, size: nat): nat {
    if n <= size then n else size
  }

  lemma {:induction false} LengthStep<V>(e: Entries<V>, t: seq<string>, op: Op<V>, size: nat)
    requires size >= 1 && Distinct(e.keys) && Distinct(t) && IsSuffix(e.keys, t)
    requires (op.Get? || op.Set?) && |e.keys| == AtMost(|t|, size)
    ensures |Step(e, op, size).keys| == AtMost(|Retouch(t, op, Hits(e, op))|, size)
  {
    assert t == t[..|t| - |e.keys|] + e.keys;
    RetouchDistinct(t, op, Hits(e, op));
    WithoutFacts(e.keys, op.key);
    if |t| <= size {
      assert e.keys == t;
    }
  }

  lemma {:induction false} FullUnlessFew<V>(run: Run<V>, size: nat)
    requires size >= 1 && OnlyGetsAndSets(run)
    ensures |After(run, size).keys| == AtMost(|Recency(run, size)|, size)
  {
    if run.Then? {
      FullUnlessFew(run.before, size);
      AfterIsProper(run.before, size);
      HoldsTheNewest(run.before, size);
      LengthStep(After(run.before, size), Recency(run.before, size), run.last, size);
    }
  }

  /** While only gets and sets occur, the cache holds exactly the size most recently touched keys. */
  lemma HoldsExactlyTheNewest<V>(run: Run<V>, size: nat)
    requires size >= 1 && OnlyGetsAndSets(run)
    ensures After(run, size).keys == Newest(Recency(run, size), size)
  {
    hide Distinct, After, Recency;
    HoldsTheNewest(run, size);
    FullUnlessFew(run, size);
    SuffixBySize(After(run, size).keys, Recency(run, size), size);
  }

  lemma SuffixBySize(s: seq<string>, t: seq<string>, size: nat)
    requires IsSuffix(s, t) && |s| == AtMost(|t|, size)
    ensures s == Newest(t, size)
  {
  }

  // ---------- The newest by the times of their touches ----------

  function Length<V>(run: Run<V>): nat {
    if run.Start? then 0 else Length(run.before) + 1
  }

  /** The last operation of the run set the key, or looked it up while it was cached. */
  predicate TouchedLast<V>(run: Run<V>, size: nat, k: string)
    requires run.Then?
  {
    || (run.last.Set? && run.last.key == k)
    || (run.last.Get? && run.last.key == k && k in After(run.before, size).data)
  }

  /** When a key was last touched, counted in operations from one; zero if it never was. */
  function LastTouch<V>(run: Run<V>, size: nat, k: string): (n: nat)
    ensures n <= Length(run)
  {
    if run.Start? then 0
    else if TouchedLast(run, size, k) then Length(run)
    else LastTouch(run.before, size, k)
  }

  ghost predicate ByTouch<V>(keys: seq<string>, run: Run<V>, size: nat) {
    forall i, j :: 0 <= i < j < |keys| ==> LastTouch(run, size, keys[i]) < LastTouch(run, size, keys[j])
  }

  lemma ByTouchTail<V>(keys: seq<string>, run: Run<V>, size: nat)
    requires keys != [] && ByTouch(keys, run, size)
    ensures ByTouch(keys[1..], run, size)
    ensures forall x :: x in keys[1..] ==> LastTouch(run, size, keys[0]) < LastTouch(run, size, x)
  {
    hide LastTouch;
    assert forall i :: 0 <= i < |keys| - 1 ==> keys[1..][i] == keys[i + 1];
  }

  lemma ByTouchJoin<V>(k: string, keys: seq<string>, run: Run<V>, size: nat)
    requires ByTouch(keys, run, size) && forall x :: x in keys ==> LastTouch(run, size, k) < LastTouch(run, size, x)
    ensures ByTouch([k] + keys, run, size)
  {
    hide LastTouch;
  }

  lemma {:induction false} WithoutByTouch<V>(keys: seq<string>, k: string, run: Run<V>, size: nat)
    requires ByTouch(keys, run, size)
    ensures ByTouch(Without(keys, k), run, size) && forall x :: x in Without(keys, k) ==> x in keys && x != k
  {
    hide LastTouch, ByTouch;
    if keys != [] {
      var rest := keys[1..];
      ByTouchTail(keys, run, size);
      WithoutByTouch(rest, k, run, size);
      if keys[0] == k {
        assert [] + Without(rest, k) == Without(rest, k);
      } else {
        ByTouchJoin(keys[0], Without(rest, k), run, size);
      }
    }
  }

  lemma UntouchedStays<V>(keys: seq<string>, run: Run<V>, size: nat)
    requires run.Then? && ByTouch(keys, run.before, size) && forall k :: k in keys ==> !TouchedLast(run, size, k)
    ensures ByTouch(keys, run, size)
  {
    forall i | 0 <= i < |keys| ensures LastTouch(run, size, keys[i]) == LastTouch(run.before, size, keys[i]) {
      assert keys[i] in keys;
    }
  }

  lemma RecencyStep<V>(run: Run<V>, size: nat)
    requires size >= 1 && run.Then? && (run.last.Get? || run.last.Set?)
    ensures var r := Recency(run.before, size);
            Recency(run, size) == if TouchedLast(run, size, run.last.key) then TouchKey(r, run.last.key) else r
  {
    hide After;
    AfterIsProper(run.before, size);
  }

  /** The recency list holds exactly the touched keys, */
  lemma {:induction false} RecencyIsTouched<V>(run: Run<V>, size: nat, x: string)
    requires size >= 1 && OnlyGetsAndSets(run)
    ensures x in Recency(run, size) <==> LastTouch(run, size, x) > 0
  {
    hide After, Recency, Distinct, Without;
    if run.Then? {
      RecencyIsTouched(run.before, size, x);
      RecencyStep(run, size);
      HoldsTheNewest(run.before, size);
      WithoutFacts(Recency(run.before, size), run.last.key);
    } else {
      assert Recency(run, size) == [] by { NoRecency(run, size); }
    }
  }

  lemma NoRecency<V>(run: Run<V>, size: nat)
    requires run.Start?
    ensures Recency(run, size) == []
  {
  }

  /** by the time of their latest touch. */
  lemma {:induction false} RecencyIsByTouch<V>(run: Run<V>, size: nat)
    requires size >= 1 && OnlyGetsAndSets(run)
    ensures ByTouch(Recency(run, size), run, size)
  {
    hide After, Recency, ByTouch, Without, LastTouch;
    if run.Then? {
      var k, r := run.last.key, Recency(run.before, size);
      RecencyIsByTouch(run.before, size);
      RecencyStep(run, size);
      if TouchedLast(run, size, k) {
        WithoutByTouch(r, k, run.before, size);
        UntouchedStays(Without(r, k), run, size);
        TouchedGoesLast(Without(r, k), run, size);
      } else {
        UntouchedStays(r, run, size);
      }
    } else {
      NoRecency(run, size);
      NothingByTouch(run, size);
    }
  }

  lemma NothingByTouch<V>(run: Run<V>, size: nat)
    ensures ByTouch([], run, size)
  {
  }

  lemma TouchedGoesLast<V>(keys: seq<string>, run: Run<V>, size: nat)
    requires run.Then? && (run.last.Get? || run.last.Set?) && TouchedLast(run, size, run.last.key)
    requires ByTouch(keys, run, size) && run.last.key !in keys
    ensures ByTouch(keys + [run.last.key], run, size)
  {
    forall i | 0 <= i < |keys| ensures LastTouch(run, size, keys[i]) < Length(run) {
      assert keys[i] in keys && !TouchedLast(run, size, keys[i]);
    }
  }

  /** While only gets and sets occur, every cached key was touched later than every key that was evicted, and nothing is
      evicted before the cache is full. */
  lemma EvictsTheLeastRecent<V>(run: Run<V>, size: nat, k: string, x: string)
    requires size >= 1 && OnlyGetsAndSets(run)
    ensures k in After(run, size).keys ==> LastTouch(run, size, k) > 0
    ensures k in After(run, size).keys && x !in After(run, size).keys && LastTouch(run, size, x) > 0 ==>
              LastTouch(run, size, x) < LastTouch(run, size, k) && |After(run, size).keys| == size
  {
    hide After, Recency, LastTouch, Distinct;
    var r, keys := Recency(run, size), After(run, size).keys;
    var n := |r| - |keys|;
    HoldsExactlyTheNewest(run, size);
    RecencyIsByTouch(run, size);
    RecencyIsTouched(run, size, k);
    RecencyIsTouched(run, size, x);
    assert forall i :: 0 <= i < |keys| ==> keys[i] == r[n + i];
    forall j | n <= j < |r| ensures r[j] in keys {
      assert r[j] == keys[j - n];
    }
    if k in keys && x in r && x !in keys {
      var i :| 0 <= i < |keys| && keys[i] == k;
      var j :| 0 <= j < |r| && r[j] == x;
      assert j < n + i;
    }
  }

  /** Every cached key has the value it was last set to. */
  lemma {:induction false} HoldsLastValues<V>(run: Run<V>, size: nat, k: string)
    requires size >= 1 && k in After(run, size).data
    ensures LastSet(run, k) == Some(After(run, size).data[k])
  {
    if run.Then? {
      var e := After(run.before, size);
      if k in e.data {
        HoldsLastValues(run.before, size, k);
      }
    }
  }
}
