/** metrics.py: an event log that forgets what is older than a day. */
module RagMetrics {

  const DAY := 86400.0

  datatype Event = Event(time: real, value: real)

  // ---------- Windows over a log ----------

  /** Where a window starts; a window that is not positive starts at time zero. */
  function Cutoff(now: real, window: int): real {
    if window > 0 then now - window as real else 0.0
  }

  function Since(log: seq<Event>, cutoff: real): seq<real> {
    if log == [] then
      []
    else
      var before, last := Since(log[..|log| - 1], cutoff), log[|log| - 1];
      if last.time >= cutoff then before + [last.value] else before
  }

  function Sum(values: seq<real>): real {
    if values == [] then 0.0 else Sum(values[..|values| - 1]) + values[|values| - 1]
  }

  predicate InOrder(log: seq<Event>) {
    forall i, j :: 0 <= i <= j < |log| ==> log[i].time <= log[j].time
  }

  lemma {:induction false} SinceOfJoin(a: seq<Event>, b: seq<Event>, cutoff: real)
    ensures Since(a + b, cutoff) == Since(a, cutoff) + Since(b, cutoff)
  {
    if b == [] {
      assert a + b == a;
    } else {
      assert (a + b)[..|a + b| - 1] == a + b[..|b| - 1];
      SinceOfJoin(a, b[..|b| - 1], cutoff);
    }
  }

  /** A window over events in order takes the values of the last ones, those not before its start. */
  lemma {:induction false} SinceMeaning(log: seq<Event>, cutoff: real, k: nat)
    requires k <= |log| && (forall i :: 0 <= i < k ==> log[i].time < cutoff)
    requires forall i :: k <= i < |log| ==> log[i].time >= cutoff
    ensures |Since(log, cutoff)| == |log| - k
    ensures forall i :: k <= i < |log| ==> Since(log, cutoff)[i - k] == log[i].value
  {
    if k < |log| {
      SinceMeaning(log[..|log| - 1], cutoff, k);
    } else {
      NothingSince(log, cutoff);
    }
  }

  /** Sums add up over parts, and a single value is its own sum. */
  lemma {:induction false} SumOfJoin(a: seq<real>, b: seq<real>)
    ensures Sum(a + b) == Sum(a) + Sum(b)
    ensures |b| == 1 ==> Sum(b) == b[0]
  {
    if b == [] {
      assert a + b == a;
    } else {
      assert (a + b)[..|a + b| - 1] == a + b[..|b| - 1];
      SumOfJoin(a, b[..|b| - 1]);
      assert |b| == 1 ==> b[..0] == [];
    }
  }

  lemma {:induction false} NothingSince(log: seq<Event>, cutoff: real)
    requires forall i :: 0 <= i < |log| ==> log[i].time < cutoff
    ensures Since(log, cutoff) == []
  {
    if log != [] {
      NothingSince(log[..|log| - 1], cutoff);
    }
  }

  // ---------- What pruning leaves ----------

  /** The events from the first on that is not before a time. */
  function Pruned(log: seq<Event>, before: real): seq<Event> {
    if log != [] && log[0].time < before then Pruned(log[1..], before) else log
  }

  /** What the log keeps: a day behind the newest event. */
  function Kept(log: seq<Event>): seq<Event> {
    if log == [] then [] else Pruned(log, log[|log| - 1].time - DAY)
  }

  lemma {:induction false} PrunedFacts(log: seq<Event>, before: real, cutoff: real)
    requires before <= cutoff
    ensures Since(Pruned(log, before), cutoff) == Since(log, cutoff)
  {
    if log != [] && log[0].time < before {
      PrunedFacts(log[1..], before, cutoff);
      SinceOfJoin(log[..1], log[1..], cutoff);
      NothingSince(log[..1], cutoff);
      assert log == log[..1] + log[1..];
    }
  }

  lemma {:induction false} PrunedAgain(log: seq<Event>, e: Event, before: real, later: real)
    requires before <= later <= e.time
    ensures Pruned(Pruned(log, before) + [e], later) == Pruned(log + [e], later)
  {
    if log != [] && log[0].time < before {
      PrunedAgain(log[1..], e, before, later);
      assert (log + [e])[1..] == log[1..] + [e];
    }
  }

  /** Pruning after each event leaves what pruning once, after the last, leaves. */
  lemma KeptStep(log: seq<Event>, e: Event)
    requires InOrder(log + [e])
    ensures Kept(log + [e]) == Pruned(Kept(log) + [e], e.time - DAY)
  {
    if log != [] {
      var last := log[|log| - 1];
      assert (log + [e])[|log| - 1] == last && (log + [e])[|log|] == e;
      PrunedAgain(log, e, last.time - DAY, e.time - DAY);
    }
  }

  /** A window of a day or less sees the same events in the pruned log as in the full one. */
  lemma PrunedLogIsExact(log: seq<Event>, now: real, window: int)
    requires 1 <= window <= 86400
    requires forall i :: 0 <= i < |log| ==> log[i].time <= now
    ensures Since(Kept(log), Cutoff(now, window)) == Since(log, Cutoff(now, window))
  {
    hide Since, Pruned, InOrder;
    if log != [] {
      PrunedFacts(log, log[|log| - 1].time - DAY, Cutoff(now, window));
    }
  }

  ghost predicate AlwaysExact(window: int) {
    forall log: seq<Event>, now: real | InOrder(log) && EarlierThan(log, now)
      :: |Since(Kept(log), Cutoff(now, window))| == |Since(log, Cutoff(now, window))|
  }

  predicate EarlierThan(log: seq<Event>, now: real) {
    forall i :: 0 <= i < |log| ==> 0.0 <= log[i].time <= now
  }

  /** Two events a little over a day apart; the first is forgotten. */
  function DayApart(gap: real): seq<Event> {
    [Event(0.0, 1.0), Event(DAY + gap, 1.0)]
  }

  lemma SinceOne(e: Event, cutoff: real)
    ensures Since([e], cutoff) == if e.time >= cutoff then [e.value] else []
  {
    assert [e][..0] == [];
  }

  lemma ForgottenEvent(gap: real, window: int)
    requires gap > 0.0 && Cutoff(DAY + gap, window) <= 0.0
    ensures |Since(Kept(DayApart(gap)), Cutoff(DAY + gap, window))| == 1
    ensures |Since(DayApart(gap), Cutoff(DAY + gap, window))| == 2
  {
    var first, second := Event(0.0, 1.0), Event(DAY + gap, 1.0);
    var cutoff := Cutoff(DAY + gap, window);
    SinceOne(first, cutoff);
    SinceOne(second, cutoff);
    SinceOfJoin([first], [second], cutoff);
    assert DayApart(gap) == [first] + [second] && DayApart(gap)[1..] == [second];
    assert Pruned([second], gap) == [second];
  }

  /** The windows whose counts pruning never changes are those from one second to one day. */
  lemma ExactWindows(window: int)
    ensures AlwaysExact(window) <==> 1 <= window <= 86400
  {
    if 1 <= window <= 86400 {
      forall log: seq<Event>, now: real | InOrder(log) && EarlierThan(log, now)
        ensures |Since(Kept(log), Cutoff(now, window))| == |Since(log, Cutoff(now, window))|
      {
        PrunedLogIsExact(log, now, window);
      }
    } else {
      var log := DayApart(1.0);
      ForgottenEvent(1.0, window);
      assert InOrder(log) && EarlierThan(log, DAY + 1.0);
    }
  }

  // ---------- Percentiles ----------

  function Inserted(sorted: seq<real>, v: real): (r: seq<real>)
    ensures multiset(r) == multiset(sorted) + multiset{v}
  {
    if sorted == [] || v < sorted[0] then
      [v] + sorted
    else
      assert sorted == [sorted[0]] + sorted[1..];
      [sorted[0]] + Inserted(sorted[1..], v)
  }

  function Sorted(values: seq<real>): (r: seq<real>)
    ensures |r| == |values|
  {
    if values == [] then
      []
    else
      SameSize(Sorted(values[..|values| - 1]), values[|values| - 1]);
      Inserted(Sorted(values[..|values| - 1]), values[|values| - 1])
  }

  lemma SameSize(sorted: seq<real>, v: real)
    ensures |Inserted(sorted, v)| == |sorted| + 1
  {
    assert |multiset(Inserted(sorted, v))| == |multiset(sorted) + multiset{v}|;
  }

  predicate Ascending(s: seq<real>) {
    forall i, j :: 0 <= i <= j < |s| ==> s[i] <= s[j]
  }

  lemma {:induction false} InsertedAscends(sorted: seq<real>, v: real)
    requires Ascending(sorted)
    ensures Ascending(Inserted(sorted, v))
  {
    if sorted != [] && sorted[0] <= v {
      var rest := Inserted(sorted[1..], v);
      InsertedAscends(sorted[1..], v);
      forall j | 0 <= j < |rest| ensures sorted[0] <= rest[j] {
        assert rest[j] in multiset(rest);
        assert rest[j] in sorted[1..] || rest[j] == v;
      }
    }
  }

  lemma NothingAscends()
    ensures Ascending([])
  {
  }

  /** The sorted values are the values, in ascending order. */
  lemma {:induction false} SortedFacts(values: seq<real>)
    ensures Ascending(Sorted(values)) && multiset(Sorted(values)) == multiset(values)
  {
    hide Inserted, Ascending;
    NothingAscends();
    if values != [] {
      var front, last := values[..|values| - 1], values[|values| - 1];
      SortedFacts(front);
      InsertedAscends(Sorted(front), last);
      assert values == front + [last];
    }
  }

  /** Python's int of a float: towards zero. */
  function Truncated(x: real): int {
    if x >= 0.0 then x.Floor else -(-x).Floor
  }

  function Share(n: nat, pct: real): real {
    n as real * pct
  }

  datatype Answer = Nothing | Value(value: real) | IndexError

  function Percentile(values: seq<real>, pct: real): Answer {
    var n := |values|;
    if n == 0 then
      Nothing
    else
      var at := Truncated(Share(n, pct));
      var i := if at < n - 1 then at else n - 1;
      if i >= 0 then Value(Sorted(values)[i]) else if n + i >= 0 then Value(Sorted(values)[n + i]) else IndexError
  }

  /** How many values lie below x, or at x as well. */
  function CountUpTo(values: seq<real>, x: real, including: bool): nat {
    if values == [] then
      0
    else
      var last := values[|values| - 1];
      CountUpTo(values[..|values| - 1], x, including) + if last < x || (including && last == x) then 1 else 0
  }

  lemma {:induction false} CountOfJoin(a: seq<real>, b: seq<real>, x: real, including: bool)
    ensures CountUpTo(a + b, x, including) == CountUpTo(a, x, including) + CountUpTo(b, x, including)
  {
    if b == [] {
      assert a + b == a;
    } else {
      assert (a + b)[..|a + b| - 1] == a + b[..|b| - 1];
      CountOfJoin(a, b[..|b| - 1], x, including);
    }
  }

  lemma CountOfOne(v: real, x: real, including: bool)
    ensures CountUpTo([v], x, including) == if v < x || (including && v == x) then 1 else 0
  {
    assert [v][..0] == [];
  }

  lemma {:induction false} CountOfInserted(sorted: seq<real>, v: real, x: real, including: bool)
    ensures CountUpTo(Inserted(sorted, v), x, including)
         == CountUpTo(sorted, x, including) + CountUpTo([v], x, including)
  {
    if sorted == [] || v < sorted[0] {
      CountOfJoin([v], sorted, x, including);
    } else {
      CountOfInserted(sorted[1..], v, x, including);
      CountOfJoin([sorted[0]], Inserted(sorted[1..], v), x, including);
      CountOfJoin([sorted[0]], sorted[1..], x, including);
      assert sorted == [sorted[0]] + sorted[1..];
    }
  }

  lemma {:induction false} CountOfSorted(values: seq<real>, x: real, including: bool)
    ensures CountUpTo(Sorted(values), x, including) == CountUpTo(values, x, including)
  {
    hide Inserted;
    if values != [] {
      var front, last := values[..|values| - 1], values[|values| - 1];
      CountOfSorted(front, x, including);
      CountOfInserted(Sorted(front), last, x, including);
      CountOfJoin(front, [last], x, including);
      assert values == front + [last];
    }
  }

  lemma {:induction false} CountBetween(values: seq<real>, x: real)
    ensures (forall i :: 0 <= i < |values| ==> values[i] <= x) ==> CountUpTo(values, x, true) == |values|
    ensures (forall i :: 0 <= i < |values| ==> values[i] >= x) ==> CountUpTo(values, x, false) == 0
  {
    if values != [] {
      CountBetween(values[..|values| - 1], x);
    }
  }

  lemma AtOrBelow(sorted: seq<real>, i: nat)
    requires Ascending(sorted) && i < |sorted|
    ensures CountUpTo(sorted, sorted[i], true) >= i + 1
  {
    hide CountUpTo;
    CountBetween(sorted[..i + 1], sorted[i]);
    CountOfJoin(sorted[..i + 1], sorted[i + 1..], sorted[i], true);
    assert sorted == sorted[..i + 1] + sorted[i + 1..];
  }

  lemma Below(sorted: seq<real>, i: nat)
    requires Ascending(sorted) && i < |sorted|
    ensures CountUpTo(sorted, sorted[i], false) <= i
  {
    hide CountUpTo;
    CountBetween(sorted[i..], sorted[i]);
    CountOfJoin(sorted[..i], sorted[i..], sorted[i], false);
    CountAtMost(sorted[..i], sorted[i], false);
    assert sorted == sorted[..i] + sorted[i..];
  }

  lemma {:induction false} CountAtMost(values: seq<real>, x: real, including: bool)
    ensures CountUpTo(values, x, including) <= |values|
  {
    if values != [] {
      CountAtMost(values[..|values| - 1], x, including);
    }
  }

  lemma ShareBelow(n: nat, pct: real)
    requires n > 0 && 0.0 <= pct < 1.0
    ensures 0.0 <= Share(n, pct) < n as real
  {
    var x := n as real;
    assert x * (1.0 - pct) > 0.0;
  }

  lemma FloorBelow(n: nat, x: real)
    requires 0.0 <= x < n as real
    ensures Truncated(x) == x.Floor && 0 <= x.Floor < n
  {
  }

  /** The percentile of a share below one is a recorded value: at most that share of the values, rounded down, lies
      below it, and more than that at or below it. */
  lemma PercentileMeaning(values: seq<real>, pct: real)
    requires values != [] && 0.0 <= pct < 1.0
    ensures var share, answer := Share(|values|, pct).Floor, Percentile(values, pct);
            && answer.Value? && answer.value in values
            && CountUpTo(values, answer.value, false) <= share < CountUpTo(values, answer.value, true)
  {
    hide Truncated, Sorted, CountUpTo, Percentile, Share;
    var share := Share(|values|, pct).Floor;
    PercentileAt(values, pct, share);
    SortedFacts(values);
    AtOrBelow(Sorted(values), share);
    Below(Sorted(values), share);
    CountOfSorted(values, Sorted(values)[share], true);
    CountOfSorted(values, Sorted(values)[share], false);
  }

  lemma PercentileAt(values: seq<real>, pct: real, share: int)
    requires values != [] && 0.0 <= pct < 1.0 && share == Share(|values|, pct).Floor
    ensures 0 <= share < |values| && Percentile(values, pct) == Value(Sorted(values)[share])
    ensures Sorted(values)[share] in values
  {
    hide Truncated, Sorted, Share;
    ShareBelow(|values|, pct);
    FloorBelow(|values|, Share(|values|, pct));
    InSorted(values, share);
  }

  lemma InSorted(values: seq<real>, i: nat)
    requires i < |values|
    ensures Sorted(values)[i] in values
  {
    hide Sorted;
    SortedFacts(values);
    assert Sorted(values)[i] in multiset(Sorted(values));
  }

  // ---------- The collector ----------

  ghost predicate IsKept(kept: seq<Event>, log: seq<Event>, clock: real) {
    InOrder(log) && EarlierThan(log, clock) && kept == Kept(log)
  }

  ghost predicate AllKept(events: map<string, seq<Event>>, log: map<string, seq<Event>>, clock: real) {
    0.0 <= clock && events.Keys == log.Keys && forall key :: key in log.Keys ==> IsKept(events[key], log[key], clock)
  }

  ghost function LogOf(log: map<string, seq<Event>>, key: string): seq<Event> {
    if key in log then log[key] else []
  }

  lemma KeptLonger(kept: seq<Event>, log: seq<Event>, clock: real, e: Event)
    requires IsKept(kept, log, clock) && 0.0 <= clock <= e.time
    ensures IsKept(kept, log, e.time)
    ensures IsKept(Pruned(kept + [e], e.time - DAY), log + [e], e.time)
  {
    KeptStep(log, e);
  }

  lemma AllKeptStep(events: map<string, seq<Event>>, log: map<string, seq<Event>>, clock: real, key: string, e: Event)
    requires AllKept(events, log, clock) && clock <= e.time
    ensures AllKept(events[key := Pruned(LogOf(events, key) + [e], e.time - DAY)],
                    log[key := LogOf(log, key) + [e]], e.time)
  {
    forall k | k in log.Keys ensures IsKept(events[k], log[k], e.time) {
      KeptLonger(events[k], log[k], clock, e);
    }
    KeptLonger(LogOf(events, key), LogOf(log, key), clock, e);
  }

  class RAGMetrics {
    var events: map<string, seq<Event>>
    /** Everything ever recorded, and the time of the latest call. */
    ghost var log: map<string, seq<Event>>
    ghost var clock: real

    ghost predicate Valid()
      reads this
    {
      AllKept(events, log, clock)
    }

    ghost function Log(key: string): seq<Event>
      reads this
    {
      LogOf(log, key)
    }

    constructor ()
      ensures Valid() && log == map[] && clock == 0.0
    {
      events, log, clock := map[], map[], 0.0;
    }

    /** Appending to the kept events, and popping from their front whatever is over a day older. */
    static method Append(kept: seq<Event>, e: Event) returns (arr: seq<Event>)
      ensures arr == Pruned(kept + [e], e.time - DAY)
    {
      arr := kept + [e];
      var cutoff := e.time - 24.0 * 3600.0;
      while arr != [] && arr[0].time < cutoff
        invariant Pruned(arr, cutoff) == Pruned(kept + [e], cutoff)
      {
        arr := arr[1..];
      }
    }

    method RecordEvent(key: string, value: real, now: real)
      requires Valid() && clock <= now
      modifies this
      ensures Valid() && clock == now
      ensures log == old(log)[key := old(Log(key)) + [Event(now, value)]]
    {
      hide AllKept, Kept, Pruned;
      AllKeptStep(events, log, clock, key, Event(now, value));
      var arr := Append(if key in events then events[key] else [], Event(now, value));
      log := log[key := Log(key) + [Event(now, value)]];
      clock := now;
      events := events[key := arr];
    }

    /** The values a window sees. */
    method Window(key: string, window: int, now: real) returns (values: seq<real>)
      requires Valid() && clock <= now
      ensures values == Since(Kept(Log(key)), Cutoff(now, window))
      ensures 1 <= window <= 86400 ==> values == Since(Log(key), Cutoff(now, window))
    {
      var cutoff := if window > 0 then now - window as real else 0.0;
      var arr := if key in events then events[key] else [];
      values := [];
      for i := 0 to |arr|
        invariant values == Since(arr[..i], cutoff)
      {
        assert arr[..i + 1][..i] == arr[..i];
        if arr[i].time >= cutoff {
          values := values + [arr[i].value];
        }
      }
      assert arr[..|arr|] == arr;
      if 1 <= window <= 86400 {
        PrunedLogIsExact(Log(key), now, window);
      }
    }

    method WindowSum(key: string, window: int, now: real) returns (total: real)
      requires Valid() && clock <= now
      ensures total == Sum(Since(Kept(Log(key)), Cutoff(now, window)))
      ensures 1 <= window <= 86400 ==> total == Sum(Since(Log(key), Cutoff(now, window)))
    {
      var values := Window(key, window, now);
      total := 0.0;
      for i := 0 to |values|
        invariant total == Sum(values[..i])
      {
        assert values[..i + 1][..i] == values[..i];
        total := total + values[i];
      }
      assert values[..|values|] == values;
    }

    method WindowCount(key: string, window: int, now: real) returns (count: nat)
      requires Valid() && clock <= now
      ensures count == |Since(Kept(Log(key)), Cutoff(now, window))|
      ensures 1 <= window <= 86400 ==> count == |Since(Log(key), Cutoff(now, window))|
    {
      var values := Window(key, window, now);
      count := |values|;
    }

    method PercentileOf(key: string, pct: real, window: int, now: real) returns (r: Answer)
      requires Valid() && clock <= now
      ensures r == Percentile(Since(Kept(Log(key)), Cutoff(now, window)), pct)
      ensures 1 <= window <= 86400 ==> r == Percentile(Since(Log(key), Cutoff(now, window)), pct)
    {
      var values := Window(key, window, now);
      r := Percentile(values, pct);
    }
  }
}
