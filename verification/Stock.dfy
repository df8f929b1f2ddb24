/**
 The stock of one item, kept in one row or split over N bucket rows that a deduction probes in turn
 from a hashed start. Every conditional UPDATE is atomic; scans interleave between them.
 */
module Stock {
  import opened Sums
  import opened Modular
  import Fnv

  /** How one UPDATE goes; an error may have had its effect (took). */
  datatype Outcome = Ok | Error(took: bool)

  /** One DeductStock call for quantity q. */
  datatype Scan =
    | Single(q: int)
    | Probing(q: int, primary: nat, tried: nat)
    | Won(q: int)
    | Failed(q: int, bucketed: bool)
    | Errored(q: int, took: bool)

  /** row is shop_items.stock, buckets the bucket rows (none yet: empty), figures what backfills have read. */
  datatype State = State(row: int, buckets: seq<int>, scans: seq<Scan>, figures: seq<int>)

  datatype Step =
    | Begin(key: seq<bv8>, q: int)
    | Attempt(w: nat, outcome: Outcome)
    | ReadStock
    | CreateBuckets(r: nat, n: nat)

  function Init(row: int, buckets: seq<int>): State {
    State(row, buckets, [], [])
  }

  // ---------- integer division as the program does it ----------

  /** Quotient and remainder truncated towards zero. */
  function Quot(a: int, b: int): int
    requires b > 0
  {
    if a >= 0 then a / b else -(-a / b)
  }

  function Rem(a: int, b: int): int
    requires b > 0
  {
    a - Quot(a, b) * b
  }

  /** The initial stock of bucket i of n. */
  function Share(total: int, n: nat, i: nat): int
    requires n > 0
  {
    Quot(total, n) + if i < Rem(total, n) then 1 else 0
  }

  function Shares(total: int, n: nat): seq<int>
    requires n > 0
  {
    seq(n, i requires 0 <= i < n => Share(total, n, i))
  }

  // ---------- steps ----------

  function Sum(s: seq<int>): int {
    SumBy(s, (x: int) => x)
  }

  /** The bucket tried at the given attempt. */
  function Probe(primary: nat, tried: nat, n: nat): nat
    requires n > 0
  {
    (primary + tried) % n
  }

  function ScanAt(s: State, w: nat): Scan {
    if w < |s.scans| then s.scans[w] else Failed(0, false)
  }

  function DoSingle(s: State, w: nat, o: Outcome): State
    requires ScanAt(s, w).Single?
  {
    var q := s.scans[w].q;
    var has := s.row >= q;
    var s1 := if has && (o.Ok? || o.took) then s.(row := s.row - q) else s;
    s1.(scans := s.scans[w := if o.Error? then Errored(q, has && o.took) else if has then Won(q) else Failed(q, false)])
  }

  function DoProbe(s: State, w: nat, o: Outcome): State
    requires ScanAt(s, w).Probing? && s.buckets != []
  {
    var Probing(q, primary, tried) := s.scans[w];
    var b := Probe(primary, tried, |s.buckets|);
    var has := s.buckets[b] >= q;
    var s1 := if has && (o.Ok? || o.took) then s.(buckets := s.buckets[b := s.buckets[b] - q]) else s;
    s1.(scans := s.scans[w :=
          if o.Error? then Errored(q, has && o.took)
          else if has then Won(q)
          else if tried + 1 < |s.buckets| then Probing(q, primary, tried + 1)
          else Failed(q, true)])
  }

  /** One step; a step that is not enabled changes nothing. */
  function Apply(s: State, step: Step): State {
    match step
    case Begin(key, q) =>
      s.(scans := s.scans + [if s.buckets == [] then Single(q) else Probing(q, Fnv.Slot(key, |s.buckets|), 0)])
    case Attempt(w, o) =>
      if ScanAt(s, w).Single? then DoSingle(s, w, o)
      else if ScanAt(s, w).Probing? && s.buckets != [] then DoProbe(s, w, o)
      else s
    case ReadStock => if s.buckets == [] && s.row > 0 then s.(figures := s.figures + [s.row]) else s
    case CreateBuckets(r, n) =>
      if s.buckets == [] && r < |s.figures| && n > 0 then s.(buckets := Shares(s.figures[r], n)) else s
  }

  function Exec(s: State, steps: seq<Step>): State
    decreases |steps|
  {
    if steps == [] then s else Exec(Apply(s, steps[0]), steps[1..])
  }

  /** What is left to sell. */
  function Available(s: State): int {
    if s.buckets == [] then s.row else Sum(s.buckets)
  }

  function TakenBy(k: Scan): int {
    if k.Won? || (k.Errored? && k.took) then k.q else 0
  }

  function Taken(s: State): int {
    SumBy(s.scans, TakenBy)
  }

  // ---------- the stock never goes below zero, whatever the quantities ----------

  ghost predicate Stocked(s: State) {
    && s.row >= 0
    && (forall b :: 0 <= b < |s.buckets| ==> s.buckets[b] >= 0)
    && (forall r :: 0 <= r < |s.figures| ==> s.figures[r] >= 0)
  }

  lemma SharesAreStock(total: int, n: nat)
    requires n > 0 && total >= 0
    ensures forall i :: 0 <= i < n ==> Shares(total, n)[i] >= 0
  {
  }

  lemma StepKeepsStocked(s: State, step: Step)
    requires Stocked(s)
    ensures Stocked(Apply(s, step))
  {
    if step.CreateBuckets? && step.n > 0 && step.r < |s.figures| {
      SharesAreStock(s.figures[step.r], step.n);
    }
  }

  lemma {:induction false} NeverNegative(s: State, steps: seq<Step>)
    requires Stocked(s)
    ensures Stocked(Exec(s, steps))
    decreases |steps|
  {
    if steps != [] {
      hide Apply, Stocked;
      StepKeepsStocked(s, steps[0]);
      NeverNegative(Apply(s, steps[0]), steps[1..]);
    }
  }

  // ---------- conservation ----------

  /**
   The steps that keep the books: a backfill must create its buckets from a figure that is still
   the row's, and a deduction that saw no buckets must not take from the row once they exist.
   */
  predicate Fair(s: State, step: Step) {
    match step
    case CreateBuckets(r, n) => s.buckets == [] && r < |s.figures| && n > 0 ==> s.figures[r] == s.row
    case Attempt(w, o) =>
      ScanAt(s, w).Single? && s.buckets != [] && s.row >= s.scans[w].q && (o.Ok? || o.took) ==> s.scans[w].q == 0
    case _ => true
  }

  predicate FairRun(s: State, steps: seq<Step>)
    decreases |steps|
  {
    steps == [] || (Fair(s, steps[0]) && FairRun(Apply(s, steps[0]), steps[1..]))
  }

  /** n buckets of at least base each, the first rem one more, add up to base * n + rem. */
  lemma {:induction false} SharesPrefix(total: int, n: nat, k: nat)
    requires n > 0 && k <= n
    ensures var base, rem := Quot(total, n), Rem(total, n);
      Sum(Shares(total, n)[..k]) == base * k + if rem <= 0 then 0 else if k <= rem then k else rem
  {
    var shares := Shares(total, n);
    if k > 0 {
      SharesPrefix(total, n, k - 1);
      assert shares[..k][..k - 1] == shares[..k - 1];
      assert Quot(total, n) * (k - 1) + Quot(total, n) == Quot(total, n) * k;
    }
  }

  lemma RemBounds(total: int, n: nat)
    requires n > 0
    ensures total >= 0 ==> 0 <= Rem(total, n) < n
    ensures total < 0 ==> Rem(total, n) <= 0
  {
  }

  /** The buckets add up to the stock they were made from exactly when it is not negative or divides evenly. */
  lemma SharesAddUp(total: int, n: nat)
    requires n > 0
    ensures Sum(Shares(total, n)) == total <==> total >= 0 || Rem(total, n) == 0
    ensures Sum(Shares(total, n)) >= total
  {
    SharesPrefix(total, n, n);
    RemBounds(total, n);
    assert Shares(total, n)[..n] == Shares(total, n);
  }

  /** A step keeps what is left plus what was taken exactly when it is fair. */
  lemma StepConservesIffFair(s: State, step: Step)
    requires Stocked(s)
    ensures Available(Apply(s, step)) + Taken(Apply(s, step)) == Available(s) + Taken(s) <==> Fair(s, step)
  {
    match step
    case Begin(key, q) =>
      SumByAppend(s.scans, if s.buckets == [] then Single(q) else Probing(q, Fnv.Slot(key, |s.buckets|), 0), TakenBy);
    case Attempt(w, o) =>
      if ScanAt(s, w).Single? {
        SumByUpdate(s.scans, w, DoSingle(s, w, o).scans[w], TakenBy);
      } else if ScanAt(s, w).Probing? && s.buckets != [] {
        ProbeConserves(s, w, o);
      }
    case ReadStock =>
    case CreateBuckets(r, n) =>
      if s.buckets == [] && r < |s.figures| && n > 0 {
        SharesAddUp(s.figures[r], n);
      }
  }

  lemma ProbeConserves(s: State, w: nat, o: Outcome)
    requires ScanAt(s, w).Probing? && s.buckets != []
    ensures Sum(DoProbe(s, w, o).buckets) + Taken(DoProbe(s, w, o)) == Sum(s.buckets) + Taken(s)
  {
    var s' := DoProbe(s, w, o);
    var b := Probe(s.scans[w].primary, s.scans[w].tried, |s.buckets|);
    SumByUpdate(s.scans, w, s'.scans[w], TakenBy);
    SumByUpdate(s.buckets, b, s.buckets[b] - s.scans[w].q, (x: int) => x);
  }

  /** However scans interleave: what is left is the start minus the quantities of the scans that took. */
  lemma {:induction false} Conserved(s: State, steps: seq<Step>)
    requires Stocked(s) && FairRun(s, steps)
    ensures Available(Exec(s, steps)) + Taken(Exec(s, steps)) == Available(s) + Taken(s)
    decreases |steps|
  {
    if steps != [] {
      hide Apply, Fair, Available, Taken, Stocked;
      StepConservesIffFair(s, steps[0]);
      StepKeepsStocked(s, steps[0]);
      Conserved(Apply(s, steps[0]), steps[1..]);
    }
  }

  function Books(s: State): int {
    Available(s) + Taken(s)
  }

  /** Quantities are not negative, and no figure a backfill has read is below the row, which only falls. */
  ghost predicate FiguresInv(s: State) {
    && (forall k :: k in s.scans ==> k.q >= 0)
    && (forall r :: 0 <= r < |s.figures| ==> s.figures[r] >= s.row)
  }

  predicate NoRestock(steps: seq<Step>) {
    forall i :: 0 <= i < |steps| ==> (steps[i].Begin? ==> steps[i].q >= 0)
  }

  lemma StepKeepsFigures(s: State, step: Step)
    requires FiguresInv(s) && (step.Begin? ==> step.q >= 0)
    ensures FiguresInv(Apply(s, step))
  {
    if step.Attempt? && step.w < |s.scans| {
      assert s.scans[step.w] in s.scans;
    }
  }

  /** An unfair step makes stock out of nothing; no step loses any. */
  lemma UnfairStepsAddStock(s: State, step: Step)
    requires Stocked(s) && FiguresInv(s)
    ensures Books(Apply(s, step)) >= Books(s)
    ensures Books(Apply(s, step)) == Books(s) <==> Fair(s, step)
  {
    StepConservesIffFair(s, step);
    match step
    case CreateBuckets(r, n) =>
      if s.buckets == [] && r < |s.figures| && n > 0 {
        SharesAddUp(s.figures[r], n);
      }
    case Attempt(w, o) =>
      if ScanAt(s, w).Single? {
        assert s.scans[w] in s.scans;
        SumByUpdate(s.scans, w, DoSingle(s, w, o).scans[w], TakenBy);
      }
    case _ =>
  }

  lemma {:induction false} BooksNeverFall(s: State, steps: seq<Step>)
    requires Stocked(s) && FiguresInv(s) && NoRestock(steps)
    ensures Books(Exec(s, steps)) >= Books(s)
    ensures Books(Exec(s, steps)) == Books(s) <==> FairRun(s, steps)
    decreases |steps|
  {
    if steps != [] {
      hide Apply, Fair, Books, Stocked, FiguresInv;
      UnfairStepsAddStock(s, steps[0]);
      StepKeepsStocked(s, steps[0]);
      StepKeepsFigures(s, steps[0]);
      BooksNeverFall(Apply(s, steps[0]), steps[1..]);
    }
  }

  /**
   What is left plus what was taken is the stock at the start, in a run that never restocks, exactly
   when every step of the run was fair: a later step cannot make up for an unfair one.
   */
  lemma RunConservesIffFair(row: nat, buckets: seq<int>, steps: seq<Step>)
    requires NoRestock(steps) && forall b :: 0 <= b < |buckets| ==> buckets[b] >= 0
    ensures Books(Exec(Init(row, buckets), steps)) == (if buckets == [] then row else Sum(buckets))
       <==> FairRun(Init(row, buckets), steps)
  {
    BooksNeverFall(Init(row, buckets), steps);
  }

  /** A deduction and a backfill overlap: the figure is read before the deduction and used after it. */
  function OverlapRun(q: int, n: nat): seq<Step> {
    [Begin([], q), ReadStock] + [Attempt(0, Ok), CreateBuckets(0, n)]
  }

  lemma ExecTwo(s: State, a: Step, b: Step, rest: seq<Step>)
    ensures Exec(s, [a, b] + rest) == Exec(Apply(Apply(s, a), b), rest)
  {
    hide Apply;
    assert ([a, b] + rest)[1..] == [b] + rest && ([b] + rest)[1..] == rest;
    assert Exec(Apply(s, a), [b] + rest) == Exec(Apply(Apply(s, a), b), rest);
  }

  /** The deducted quantity is sold a second time. */
  lemma OverlapLosesTheDeduction(row: nat, q: int, n: nat)
    requires 0 < q <= row && n > 0
    ensures var s := Exec(Init(row, []), OverlapRun(q, n));
      Taken(s) == q && Available(s) == row && !FairRun(Init(row, []), OverlapRun(q, n))
  {
    var s2 := Apply(Apply(Init(row, []), Begin([], q)), ReadStock);
    assert s2 == State(row, [], [Single(q)], [row]);
    var s3 := Apply(s2, Attempt(0, Ok));
    assert s3 == State(row - q, [], [Won(q)], [row]);
    var s4 := Apply(s3, CreateBuckets(0, n));
    SharesAddUp(row, n);
    SumByAppend([], Won(q), TakenBy);
    assert [] + [Won(q)] == [Won(q)];
    ExecTwo(Init(row, []), Begin([], q), ReadStock, [Attempt(0, Ok), CreateBuckets(0, n)]);
    ExecTwo(s2, Attempt(0, Ok), CreateBuckets(0, n), []);
    assert [Attempt(0, Ok), CreateBuckets(0, n)] + [] == [Attempt(0, Ok), CreateBuckets(0, n)];
    assert s4.buckets != [] by { assert |s4.buckets| == n; }
    assert NoRestock(OverlapRun(q, n));
    RunConservesIffFair(row, [], OverlapRun(q, n));
  }

  /** Once buckets exist, every step is fair as long as no scan still works on the single row. */
  ghost predicate AllBucketed(s: State) {
    s.buckets != [] && forall k :: k in s.scans ==> !k.Single?
  }

  lemma {:induction false} BucketedRunIsFair(s: State, steps: seq<Step>)
    requires AllBucketed(s)
    ensures FairRun(s, steps) && AllBucketed(Exec(s, steps))
    ensures |Exec(s, steps).buckets| == |s.buckets|
    decreases |steps|
  {
    if steps != [] {
      assert AllBucketed(Apply(s, steps[0]));
      BucketedRunIsFair(Apply(s, steps[0]), steps[1..]);
    }
  }

  // ---------- a failed scan found the truth ----------

  /** Quantities are not negative, so buckets only fall; what a scan has passed stays too small. */
  ghost predicate PassedInv(s: State) {
    && (forall k :: k in s.scans ==> k.q >= 0)
    && (forall k :: k in s.scans && k.Failed? && k.bucketed ==> forall b :: 0 <= b < |s.buckets| ==> s.buckets[b] < k.q)
    && (forall k :: k in s.scans && k.Probing? ==>
          && k.tried < |s.buckets|
          && forall j :: 0 <= j < k.tried ==> s.buckets[Probe(k.primary, j, |s.buckets|)] < k.q)
  }

  /** Every bucket is probed: bucket b at some attempt before the n-th. */
  lemma EveryBucketIsProbed(primary: nat, b: nat, n: nat)
    requires b < n
    ensures exists j: nat :: j < n && Probe(primary, j, n) == b
  {
    var d := b - primary % n;
    var j := if d >= 0 then d else d + n;
    var turns := primary / n + if d >= 0 then 0 else 1;
    assert primary + j == n * turns + b by {
      assert primary == n * (primary / n) + primary % n;
      assert n * (primary / n + 1) == n * (primary / n) + n;
    }
    RemainderIs(primary + j, n, turns, b);
    assert Probe(primary, j, n) == b;
  }

  lemma ProbeKeepsPassed(s: State, w: nat, o: Outcome)
    requires PassedInv(s) && ScanAt(s, w).Probing?
    ensures PassedInv(DoProbe(s, w, o))
  {
    var s' := DoProbe(s, w, o);
    var Probing(q, primary, tried) := s.scans[w];
    assert s.scans[w] in s.scans;
    assert |s'.buckets| == |s.buckets| && forall b :: 0 <= b < |s.buckets| ==> s'.buckets[b] <= s.buckets[b];
    if s'.scans[w].Failed? {
      forall b | 0 <= b < |s.buckets| ensures s'.buckets[b] < q {
        EveryBucketIsProbed(primary, b, |s.buckets|);
        var j: nat :| j < |s.buckets| && Probe(primary, j, |s.buckets|) == b;
      }
    }
    forall k | k in s'.scans ensures k == s'.scans[w] || k in s.scans {}
  }

  lemma {:induction false} RunKeepsPassed(s: State, steps: seq<Step>)
    requires AllBucketed(s) && PassedInv(s)
    requires forall i :: 0 <= i < |steps| && steps[i].Begin? ==> steps[i].q >= 0
    ensures PassedInv(Exec(s, steps))
    decreases |steps|
  {
    if steps != [] {
      match steps[0] {
        case Attempt(w, o) =>
          if w < |s.scans| {
            assert s.scans[w] in s.scans;
            if s.scans[w].Probing? { ProbeKeepsPassed(s, w, o); }
          }
        case _ =>
      }
      BucketedRunIsFair(s, [steps[0]]);
      assert Exec(s, [steps[0]]) == Exec(Apply(s, steps[0]), []);
      RunKeepsPassed(Apply(s, steps[0]), steps[1..]);
    }
  }

  /**
   Whatever other scans do meanwhile, a scan that failed for q left every bucket below q, then and
   ever after: for one unit, the whole stock is gone.
   */
  lemma FailureIsReal(buckets: seq<int>, steps: seq<Step>, w: nat)
    requires buckets != [] && forall b :: 0 <= b < |buckets| ==> buckets[b] >= 0
    requires forall i :: 0 <= i < |steps| && steps[i].Begin? ==> steps[i].q >= 0
    ensures var s := Exec(Init(0, buckets), steps);
      ScanAt(s, w).Failed? && w < |s.scans| ==>
        && (forall b :: 0 <= b < |s.buckets| ==> 0 <= s.buckets[b] < s.scans[w].q)
        && (s.scans[w].q <= 1 ==> Available(s) == 0)
  {
    var s := Exec(Init(0, buckets), steps);
    RunKeepsPassed(Init(0, buckets), steps);
    BucketedRunIsFair(Init(0, buckets), steps);
    NeverNegative(Init(0, buckets), steps);
    OnlyBucketedFails(Init(0, buckets), steps);
    if w < |s.scans| && s.scans[w].Failed? {
      assert s.scans[w] in s.scans;
      if s.scans[w].q <= 1 {
        SumByZero(s.buckets, (x: int) => x);
      }
    }
  }

  lemma {:induction false} OnlyBucketedFails(s: State, steps: seq<Step>)
    requires AllBucketed(s) && forall k :: k in s.scans && k.Failed? ==> k.bucketed
    ensures forall k :: k in Exec(s, steps).scans && k.Failed? ==> k.bucketed
    decreases |steps|
  {
    if steps != [] {
      BucketedRunIsFair(s, [steps[0]]);
      assert Exec(s, [steps[0]]) == Exec(Apply(s, steps[0]), []);
      OnlyBucketedFails(Apply(s, steps[0]), steps[1..]);
    }
  }

  // ---------- unit requests: the buckets sell exactly what one counter would ----------

  function WonBy(k: Scan): int {
    if k.Won? then 1 else 0
  }

  /** Every scan asks for one unit and met no error. */
  predicate UnitSteps(steps: seq<Step>) {
    forall i :: 0 <= i < |steps| ==>
      (steps[i].Begin? ==> steps[i].q == 1) && (steps[i].Attempt? ==> steps[i].outcome.Ok?)
  }

  lemma {:induction false} UnitRun(s: State, steps: seq<Step>)
    requires UnitSteps(steps) && forall k :: k in s.scans ==> k.q == 1 && !k.Errored?
    ensures forall k :: k in Exec(s, steps).scans ==> k.q == 1 && !k.Errored?
    decreases |steps|
  {
    if steps != [] {
      UnitRun(Apply(s, steps[0]), steps[1..]);
    }
  }

  lemma {:induction false} TakenIsWon(scans: seq<Scan>)
    requires forall k :: k in scans ==> k.q == 1 && !k.Errored?
    ensures SumBy(scans, TakenBy) == SumBy(scans, WonBy)
    ensures (forall k :: k in scans ==> k.Won?) ==> SumBy(scans, WonBy) == |scans|
    ensures SumBy(scans, WonBy) <= |scans|
  {
    if scans != [] {
      TakenIsWon(scans[..|scans| - 1]);
    }
  }

  /** Once all of m interleaved unit requests have returned, min(m, stock) of them have won, as on a single row. */
  lemma UnitRequestsSellTheStock(buckets: seq<int>, steps: seq<Step>)
    requires buckets != [] && forall b :: 0 <= b < |buckets| ==> buckets[b] >= 0
    requires UnitSteps(steps)
    requires forall k :: k in Exec(Init(0, buckets), steps).scans ==> k.Won? || k.Failed?
    ensures var s := Exec(Init(0, buckets), steps);
      SumBy(s.scans, WonBy) == if |s.scans| <= Sum(buckets) then |s.scans| else Sum(buckets)
  {
    var s0 := Init(0, buckets);
    var s := Exec(s0, steps);
    BucketedRunIsFair(s0, steps);
    Conserved(s0, steps);
    UnitRun(s0, steps);
    TakenIsWon(s.scans);
    NeverNegative(s0, steps);
    SumByNonNegative(s.buckets, (x: int) => x);
    if w: nat :| w < |s.scans| && s.scans[w].Failed? {
      FailureIsReal(buckets, steps, w);
      assert s.scans[w] in s.scans;
    } else {
      forall k | k in s.scans ensures k.Won? {
        var w: nat :| w < |s.scans| && s.scans[w] == k;
      }
    }
  }

  // ---------- larger quantities ----------

  predicate SomeBucketHas(buckets: seq<int>, q: int) {
    exists b :: 0 <= b < |buckets| && buckets[b] >= q
  }

  /** Stock enough in total, though no bucket has it. */
  function Scattered(n: nat, q: int): seq<int>
    requires n > 1
  {
    [1, q - 1] + seq(n - 2, i => 0)
  }

  lemma ScatteredAddsUp(n: nat, q: int)
    requires n > 1
    ensures Sum(Scattered(n, q)) == q
  {
    assert Sum([1, q - 1]) == q by {
      assert [1, q - 1][..1] == [1] && [1][..0] == [];
      SumByAppend([1], q - 1, (x: int) => x);
      SumByAppend([], 1, (x: int) => x);
      assert [] + [1] == [1] && [1] + [q - 1] == [1, q - 1];
    }
    ZerosAddNothing([1, q - 1], n - 2);
  }

  lemma {:induction false} ZerosAddNothing(s: seq<int>, m: nat)
    ensures Sum(s + seq(m, i => 0)) == Sum(s)
  {
    if m == 0 {
      assert s + seq(0, i => 0) == s;
    } else {
      ZerosAddNothing(s, m - 1);
      assert (s + seq(m, i => 0))[..|s| + m - 1] == s + seq(m - 1, i => 0);
    }
  }

  /**
   A scan answers as the single counter would, for every stock, exactly when it asks for at most one
   unit or there is one bucket.
   */
  lemma AgreesWithSingleRowIff(n: nat, q: int)
    requires n > 0
    ensures (forall buckets: seq<int> :: |buckets| == n && (forall b :: 0 <= b < n ==> buckets[b] >= 0) ==>
               (SomeBucketHas(buckets, q) <==> Sum(buckets) >= q))
            <==> q <= 1 || n == 1
  {
    if q <= 1 || n == 1 {
      forall buckets: seq<int> | |buckets| == n && (forall b :: 0 <= b < n ==> buckets[b] >= 0)
        ensures SomeBucketHas(buckets, q) <==> Sum(buckets) >= q
      {
        SumByNonNegative(buckets, (x: int) => x);
        if n == 1 {
          assert buckets[..0] == [];
        } else if !SomeBucketHas(buckets, q) {
          assert buckets[0] < q;
          SumByZero(buckets, (x: int) => x);
        }
      }
    } else {
      var buckets := Scattered(n, q);
      ScatteredAddsUp(n, q);
      assert !SomeBucketHas(buckets, q);
    }
  }
}
