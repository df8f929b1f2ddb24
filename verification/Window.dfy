/**
 The sliding-window counter and the count-then-record admission on top of it. Times are nanoseconds
 of a clock that never goes back.
 */
module Window {

  const SECOND := 1_000_000_000
  const MINUTE := 60 * SECOND

  /** How many times lie in (lo, hi]. */
  function CountIn(ts: seq<int>, lo: int, hi: int): nat {
    if ts == [] then 0
    else CountIn(ts[..|ts| - 1], lo, hi) + if lo < ts[|ts| - 1] <= hi then 1 else 0
  }

  predicate Sorted(ts: seq<int>) {
    forall i, j :: 0 <= i <= j < |ts| ==> ts[i] <= ts[j]
  }

  predicate AllUpTo(ts: seq<int>, now: int) {
    forall i :: 0 <= i < |ts| ==> ts[i] <= now
  }

  lemma CountAppend(ts: seq<int>, t: int, lo: int, hi: int)
    ensures CountIn(ts + [t], lo, hi) == CountIn(ts, lo, hi) + if lo < t <= hi then 1 else 0
  {
    assert (ts + [t])[..|ts|] == ts;
  }

  lemma {:induction false} CountConcat(a: seq<int>, b: seq<int>, lo: int, hi: int)
    ensures CountIn(a + b, lo, hi) == CountIn(a, lo, hi) + CountIn(b, lo, hi)
  {
    if b == [] {
      assert a + b == a;
    } else {
      CountConcat(a, b[..|b| - 1], lo, hi);
      assert (a + b)[..|a + b| - 1] == a + b[..|b| - 1];
    }
  }

  lemma {:induction false} CountNone(ts: seq<int>, lo: int, hi: int)
    requires forall i :: 0 <= i < |ts| ==> !(lo < ts[i] <= hi)
    ensures CountIn(ts, lo, hi) == 0
  {
    if ts != [] { CountNone(ts[..|ts| - 1], lo, hi); }
  }

  lemma {:induction false} CountAll(ts: seq<int>, lo: int, hi: int)
    requires forall i :: 0 <= i < |ts| ==> lo < ts[i] <= hi
    ensures CountIn(ts, lo, hi) == |ts|
  {
    if ts != [] { CountAll(ts[..|ts| - 1], lo, hi); }
  }

  /** A wider window counts no less. */
  lemma {:induction false} CountWiden(ts: seq<int>, lo: int, hi: int, lo': int, hi': int)
    requires AllUpTo(ts, hi') && lo' <= lo
    ensures CountIn(ts, lo, hi) <= CountIn(ts, lo', hi')
  {
    if ts != [] { CountWiden(ts[..|ts| - 1], lo, hi, lo', hi'); }
  }

  // ---------- the counter ----------

  function TimesOf(counters: map<string, seq<int>>, key: string): seq<int> {
    if key in counters then counters[key] else []
  }

  /** kept is what is left of whole once some times before the cutoff were cut off the front. */
  ghost predicate Trims(kept: seq<int>, whole: seq<int>, cutoff: int) {
    |kept| <= |whole|
    && kept == whole[|whole| - |kept|..]
    && forall i :: 0 <= i < |whole| - |kept| ==> whole[i] < cutoff
  }

  /** Trimming below lo does not change what is counted above it. */
  lemma TrimmedCountsTheSame(kept: seq<int>, whole: seq<int>, cutoff: int, lo: int, hi: int)
    requires Trims(kept, whole, cutoff) && cutoff <= lo + 1
    ensures CountIn(kept, lo, hi) == CountIn(whole, lo, hi)
  {
    var cut := whole[..|whole| - |kept|];
    assert whole == cut + kept;
    CountConcat(cut, kept, lo, hi);
    CountNone(cut, lo, hi);
  }

  /** What a key's counter owes to its history. */
  ghost predicate Faithful(kept: seq<int>, whole: seq<int>, clock: int) {
    Trims(kept, whole, clock - MINUTE) && Sorted(whole) && AllUpTo(whole, clock)
  }

  lemma StaysFaithful(kept: seq<int>, whole: seq<int>, clock: int, now: int)
    requires Faithful(kept, whole, clock) && clock <= now
    ensures Faithful(kept, whole, now)
  {
  }

  /** Cutting expired times off the front of a counter is not noticed. */
  lemma CutIsFaithful(kept: seq<int>, whole: seq<int>, now: int, i: nat)
    requires Faithful(kept, whole, now) && i <= |kept|
    requires forall j :: 0 <= j < i ==> kept[j] < now - MINUTE
    ensures Faithful(kept[i..], whole, now)
  {
  }

  lemma AppendIsFaithful(kept: seq<int>, whole: seq<int>, now: int)
    requires Faithful(kept, whole, now)
    ensures Faithful(kept + [now], whole + [now], now)
  {
  }

  /** What a recorded counter holds once the expired front is gone: exactly the times of the last minute, ends included. */
  lemma CutCountsTheMinute(kept: seq<int>, whole: seq<int>, now: int, i: nat)
    requires Faithful(kept, whole, now) && i <= |kept|
    requires forall j :: 0 <= j < i ==> kept[j] < now - MINUTE
    requires i < |kept| ==> kept[i] >= now - MINUTE
    ensures CountIn(whole, now - MINUTE - 1, now) == |kept| - i
  {
    CutIsFaithful(kept, whole, now, i);
    TrimmedCountsTheSame(kept[i..], whole, now - MINUTE, now - MINUTE - 1, now);
    CountAll(kept[i..], now - MINUTE - 1, now);
  }

  ghost predicate AllFaithful(counters: map<string, seq<int>>, history: map<string, seq<int>>, clock: int) {
    forall key {:trigger TimesOf(history, key)} {:trigger TimesOf(counters, key)} ::
      Faithful(TimesOf(counters, key), TimesOf(history, key), clock)
  }

  lemma FaithfulAt(counters: map<string, seq<int>>, history: map<string, seq<int>>, clock: int, key: string)
    requires AllFaithful(counters, history, clock)
    ensures Faithful(TimesOf(counters, key), TimesOf(history, key), clock)
  {
  }

  lemma AllStayFaithful(counters: map<string, seq<int>>, history: map<string, seq<int>>, clock: int, now: int)
    requires AllFaithful(counters, history, clock) && clock <= now
    ensures AllFaithful(counters, history, now)
  {
    forall key ensures Faithful(TimesOf(counters, key), TimesOf(history, key), now) {
      StaysFaithful(TimesOf(counters, key), TimesOf(history, key), clock, now);
    }
  }

  lemma OneKeyFaithful(counters: map<string, seq<int>>, history: map<string, seq<int>>, clock: int,
                       key: string, counters': map<string, seq<int>>, history': map<string, seq<int>>)
    requires AllFaithful(counters, history, clock)
    requires forall k :: k != key ==> TimesOf(counters', k) == TimesOf(counters, k) && TimesOf(history', k) == TimesOf(history, k)
    requires Faithful(TimesOf(counters', key), TimesOf(history', key), clock)
    ensures AllFaithful(counters', history', clock)
  {
    hide Faithful;
    forall k ensures Faithful(TimesOf(counters', k), TimesOf(history', k), clock) {
      if k != key {
        assert Faithful(TimesOf(counters, k), TimesOf(history, k), clock);
      }
    }
  }

  lemma TrimsCut(ts: seq<int>, cutoff: int, i: nat)
    requires i <= |ts| && forall j :: 0 <= j < i ==> ts[j] < cutoff
    ensures Trims(ts[i..], ts, cutoff)
  {
  }

  method FirstKept(ts: seq<int>, cutoff: int) returns (i: nat)
    ensures i <= |ts| && (i < |ts| ==> ts[i] >= cutoff)
    ensures forall j :: 0 <= j < i ==> ts[j] < cutoff
  {
    i := 0;
    while i < |ts| && ts[i] < cutoff
      invariant 0 <= i <= |ts|
      invariant forall j :: 0 <= j < i ==> ts[j] < cutoff
    {
      i := i + 1;
    }
  }

  class SlidingWindow {
    var counters: map<string, seq<int>>
    /** Every time ever recorded, never trimmed, and the latest time seen. */
    ghost var history: map<string, seq<int>>
    ghost var clock: int

    constructor (now: int)
      ensures Valid() && counters == map[] && history == map[] && clock == now
    {
      counters, history, clock := map[], map[], now;
    }

    ghost predicate Valid()
      reads this
    {
      AllFaithful(counters, history, clock)
    }

    /** Drops what is more than a minute old, appends now, and returns how many times are left. */
    method Record(key: string, now: int) returns (n: nat)
      requires Valid() && clock <= now
      modifies this
      ensures Valid() && clock == now
      ensures history == old(history)[key := TimesOf(old(history), key) + [now]]
      ensures n == CountIn(TimesOf(history, key), now - 60_000_000_000 - 1, now)
    {
      hide Faithful, AllFaithful, CountIn;
      var cutoff := now - MINUTE;
      var ts := TimesOf(counters, key);
      ghost var whole := TimesOf(history, key);
      var i := FirstKept(ts, cutoff);
      AllStayFaithful(counters, history, clock, now);
      FaithfulAt(counters, history, now, key);
      CutCountsTheMinute(ts, whole, now, i);
      CutIsFaithful(ts, whole, now, i);
      AppendIsFaithful(ts[i..], whole, now);
      CountAppend(whole, now, cutoff - 1, now);
      ts := ts[i..] + [now];
      OneKeyFaithful(counters, history, now, key, counters[key := ts], history[key := whole + [now]]);
      counters := counters[key := ts];
      history := history[key := whole + [now]];
      clock := now;
      n := |ts|;
    }

    /** How many times of the whole history lie less than a minute back. */
    method Count(key: string, now: int) returns (n: nat)
      requires Valid() && clock <= now
      ensures n == CountIn(TimesOf(history, key), now - 60_000_000_000, now)
    {
      var cutoff := now - MINUTE;
      var ts := TimesOf(counters, key);
      n := 0;
      for i := 0 to |ts|
        invariant n == CountIn(ts[..i], cutoff, now)
      {
        CountAppend(ts[..i], ts[i], cutoff, now);
        assert ts[..i + 1] == ts[..i] + [ts[i]];
        assert ts[i] <= now by { assert Faithful(ts, TimesOf(history, key), clock); }
        if ts[i] > cutoff {
          n := n + 1;
        }
      }
      assert ts[..|ts|] == ts;
      TrimmedCountsTheSame(ts, TimesOf(history, key), clock - MINUTE, cutoff, now);
    }

    /** Drops exactly what is more than five minutes old, and keys with nothing left; no count notices. */
    method Cleanup(now: int)
      requires Valid() && clock <= now
      modifies this
      ensures Valid() && clock == now && history == old(history)
      ensures forall key :: key in counters ==> counters[key] != [] && counters[key][0] >= now - 300_000_000_000
      ensures forall key {:trigger TimesOf(counters, key)} ::
        Trims(TimesOf(counters, key), TimesOf(old(counters), key), now - 300_000_000_000)
    {
      hide Faithful, Trims, AllFaithful;
      var cutoff := now - 5 * MINUTE;
      var keys := counters.Keys;
      AllStayFaithful(counters, history, clock, now);
      clock := now;
      forall key ensures Trims(TimesOf(counters, key), TimesOf(old(counters), key), cutoff) {
        TrimsCut(TimesOf(counters, key), cutoff, 0);
        assert TimesOf(counters, key)[0..] == TimesOf(counters, key);
      }
      while keys != {}
        invariant Valid() && clock == now && history == old(history)
        invariant keys <= counters.Keys && keys <= old(counters).Keys
        invariant forall key :: key in keys ==> counters[key] == old(counters)[key]
        invariant forall key {:trigger TimesOf(counters, key)} ::
          Trims(TimesOf(counters, key), TimesOf(old(counters), key), cutoff)
        invariant forall key :: key in counters && key !in keys ==> counters[key] != [] && counters[key][0] >= cutoff
        decreases keys
      {
        var key :| key in keys;
        keys := keys - {key};
        var ts := counters[key];
        var i := FirstKept(ts, cutoff);
        FaithfulAt(counters, history, now, key);
        CutIsFaithful(ts, TimesOf(history, key), now, i);
        ghost var before := counters;
        counters := if i == |ts| then counters - {key} else counters[key := ts[i..]];
        assert TimesOf(counters, key) == ts[i..];
        TrimsCut(ts, cutoff, i);
        assert forall k :: k != key ==> TimesOf(counters, k) == TimesOf(before, k);
        OneKeyFaithful(before, history, now, key, counters, history);
      }
    }

    /** One request of SecurityIPLimit handled alone; a limit of zero or less lets everything through unrecorded. */
    method Admit(ip: string, limit: int, now: int) returns (admitted: bool)
      requires Valid() && clock <= now
      modifies this
      ensures Valid()
      ensures admitted <==> limit <= 0 || CountIn(TimesOf(old(history), ip), now - 60_000_000_000, now) < limit
      ensures history == if limit > 0 && admitted then old(history)[ip := TimesOf(old(history), ip) + [now]] else old(history)
    {
      if limit <= 0 {
        return true;
      }
      var n := Count(ip, now);
      if n >= limit {
        return false;
      }
      var _ := Record(ip, now);
      return true;
    }
  }

  // ---------- admission over whole runs ----------

  /** One address: what it recorded, and how many of its requests stand between count and record (at most most). */
  datatype State = State(limit: nat, most: nat, clock: int, times: seq<int>, between: nat)

  datatype Step = Tick(ns: nat) | Check | Record | Abandon

  function Init(limit: nat, most: nat): State {
    State(limit, most, 0, [], 0)
  }

  function Apply(s: State, step: Step): State {
    match step
    case Tick(ns) => s.(clock := s.clock + ns)
    case Check =>
      if s.between < s.most && CountIn(s.times, s.clock - MINUTE, s.clock) < s.limit then s.(between := s.between + 1) else s
    case Record => if s.between > 0 then s.(between := s.between - 1, times := s.times + [s.clock]) else s
    case Abandon => if s.between > 0 then s.(between := s.between - 1) else s
  }

  function Exec(s: State, steps: seq<Step>): State
    decreases |steps|
  {
    if steps == [] then s else Exec(Apply(s, steps[0]), steps[1..])
  }

  /** Admissions in the window (a, a + 1 minute]. */
  function InMinute(ts: seq<int>, a: int): nat {
    CountIn(ts, a, a + MINUTE)
  }

  /** What one minute may hold with at most `most` requests at once. */
  function Bound(s: State): int {
    s.limit + s.most - 1
  }

  ghost predicate Inv(s: State) {
    && s.between <= s.most && s.limit > 0 && s.most > 0
    && AllUpTo(s.times, s.clock)
    && CountIn(s.times, s.clock - MINUTE, s.clock) + s.between <= Bound(s)
    && forall a :: InMinute(s.times, a) <= Bound(s)
  }

  lemma StepKeeps(s: State, step: Step)
    requires Inv(s)
    ensures Inv(Apply(s, step)) && Bound(Apply(s, step)) == Bound(s)
  {
    hide CountIn, InMinute;
    match step
    case Tick(ns) => CountWiden(s.times, s.clock + ns - MINUTE, s.clock + ns, s.clock - MINUTE, s.clock);
    case Check =>
    case Abandon =>
    case Record => if s.between > 0 { RecordKeeps(s); }
  }

  lemma RecordKeeps(s: State)
    requires Inv(s) && s.between > 0
    ensures Inv(Apply(s, Record))
  {
    hide CountIn;
    CountAppend(s.times, s.clock, s.clock - MINUTE, s.clock);
    forall a ensures InMinute(s.times + [s.clock], a) <= Bound(s) {
      CountAppend(s.times, s.clock, a, a + MINUTE);
      assert InMinute(s.times, a) <= Bound(s);
      if a < s.clock <= a + MINUTE {
        CountWiden(s.times, a, a + MINUTE, s.clock - MINUTE, s.clock);
      }
    }
  }

  lemma {:induction false} RunKeeps(s: State, steps: seq<Step>)
    requires Inv(s)
    ensures Inv(Exec(s, steps)) && Bound(Exec(s, steps)) == Bound(s)
    decreases |steps|
  {
    if steps != [] {
      StepKeeps(s, steps[0]);
      RunKeeps(Apply(s, steps[0]), steps[1..]);
    }
  }

  /**
   With at most `most` requests at a time, no window (a, a + 1 minute] ever holds more than
   limit + most - 1 admissions; handled one after another, no more than the limit.
   */
  lemma NoMinuteAdmitsMore(limit: nat, most: nat, steps: seq<Step>, a: int)
    requires limit > 0 && most > 0
    ensures InMinute(Exec(Init(limit, most), steps).times, a) <= limit + most - 1
  {
    RunKeeps(Init(limit, most), steps);
  }

  // ---------- and that many do get in ----------

  function Repeat(step: Step, n: nat): seq<Step> {
    seq(n, i => step)
  }

  lemma {:induction false} ExecConcat(s: State, a: seq<Step>, b: seq<Step>)
    ensures Exec(s, a + b) == Exec(Exec(s, a), b)
    decreases |a|
  {
    if a == [] {
      assert a + b == b;
    } else {
      ExecConcat(Apply(s, a[0]), a[1..], b);
      assert (a + b)[1..] == a[1..] + b;
    }
  }

  /** n checks at once all pass while the count is short of the limit. */
  lemma {:induction false} ChecksPass(s: State, n: nat)
    requires CountIn(s.times, s.clock - MINUTE, s.clock) < s.limit && s.between + n <= s.most
    ensures Exec(s, Repeat(Check, n)) == s.(between := s.between + n)
    decreases n
  {
    if n > 0 {
      assert Repeat(Check, n)[1..] == Repeat(Check, n - 1);
      ChecksPass(Apply(s, Check), n - 1);
    }
  }

  lemma {:induction false} RecordsFollow(s: State, n: nat)
    requires n <= s.between
    ensures Exec(s, Repeat(Record, n)) == s.(between := s.between - n, times := s.times + seq(n, i => s.clock))
    decreases n
  {
    var now := s.clock;
    if n > 0 {
      assert Repeat(Record, n)[1..] == Repeat(Record, n - 1);
      RecordsFollow(Apply(s, Record), n - 1);
      assert s.times + [now] + seq(n - 1, i => now) == s.times + seq(n, i => now);
    } else {
      assert s.times + seq(0, i => now) == s.times;
    }
  }

  /** limit - 1 requests one after another, then most at once. */
  function Rush(limit: nat, most: nat): seq<Step>
    requires limit > 0
  {
    OneByOne(limit - 1) + (Repeat(Check, most) + Repeat(Record, most))
  }

  function OneByOne(n: nat): seq<Step> {
    if n == 0 then [] else OneByOne(n - 1) + [Check, Record]
  }

  lemma {:induction false} OneByOneAdmits(limit: nat, most: nat, n: nat)
    requires n <= limit && most > 0
    ensures Exec(Init(limit, most), OneByOne(n)) == State(limit, most, 0, seq(n, i => 0), 0)
  {
    if n > 0 {
      OneByOneAdmits(limit, most, n - 1);
      ExecConcat(Init(limit, most), OneByOne(n - 1), [Check, Record]);
      var s := State(limit, most, 0, seq(n - 1, i => 0), 0);
      CountAll(s.times, -MINUTE, 0);
      assert [Check, Record][1..] == [Record];
      assert Exec(s, [Check, Record]) == Exec(Apply(Apply(s, Check), Record), []);
      assert seq(n - 1, i => 0) + [0] == seq(n, i => 0);
    }
  }

  lemma RushRecords(limit: nat, most: nat)
    requires limit > 0 && most > 0
    ensures Exec(Init(limit, most), Rush(limit, most)).times == seq(limit - 1, i => 0) + seq(most, i => 0)
  {
    var s := State(limit, most, 0, seq(limit - 1, i => 0), 0);
    CountAll(s.times, -MINUTE, 0);
    hide Exec, Repeat, OneByOne, CountIn, Apply;
    OneByOneAdmits(limit, most, limit - 1);
    ExecConcat(Init(limit, most), OneByOne(limit - 1), Repeat(Check, most) + Repeat(Record, most));
    ExecConcat(s, Repeat(Check, most), Repeat(Record, most));
    ChecksPass(s, most);
    RecordsFollow(s.(between := most), most);
    assert seq(most, i => s.clock) == seq(most, i => 0);
  }

  lemma RushReachesTheBound(limit: nat, most: nat)
    requires limit > 0 && most > 0
    ensures InMinute(Exec(Init(limit, most), Rush(limit, most)).times, -MINUTE) == limit + most - 1
  {
    RushRecords(limit, most);
    CountAll(seq(limit - 1, i => 0) + seq(most, i => 0), -MINUTE, 0);
    hide CountIn, Exec, Rush;
  }

  /** No run exceeds the limit in any minute exactly when requests are handled one at a time. */
  lemma LimitHoldsIffOneAtATime(limit: nat, most: nat)
    requires limit > 0 && most > 0
    ensures (forall steps, a :: InMinute(Exec(Init(limit, most), steps).times, a) <= limit)
            <==> most == 1
  {
    if most == 1 {
      forall steps, a ensures InMinute(Exec(Init(limit, most), steps).times, a) <= limit {
        NoMinuteAdmitsMore(limit, most, steps, a);
      }
    } else {
      RushReachesTheBound(limit, most);
      assert InMinute(Exec(Init(limit, most), Rush(limit, most)).times, -MINUTE) > limit;
    }
  }
}
