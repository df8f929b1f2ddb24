/** The shop repository's stock methods as the program writes them. */
module ShopRepository {
  import opened Sums
  import opened Stock
  import Fnv

  /** Which bucket a scan takes from: the first in probe order that has q. */
  ghost predicate TakesFrom(buckets: seq<int>, primary: nat, q: int, tried: nat) {
    && tried < |buckets|
    && buckets[Probe(primary, tried, |buckets|)] >= q
    && forall j :: 0 <= j < tried ==> buckets[Probe(primary, j, |buckets|)] < q
  }

  /** Splits total into n buckets, the remainder going to the first ones. */
  method MakeBuckets(total: int, n: nat) returns (buckets: seq<int>)
    requires n > 0
    ensures |buckets| == n
    ensures Sum(buckets) == total <==> total >= 0 || Rem(total, n) == 0
    ensures forall i, j :: 0 <= i < j < n ==> buckets[j] <= buckets[i] <= buckets[j] + 1
    ensures total < 0 ==> forall i :: 0 <= i < n ==> buckets[i] == -(-total / n)
    ensures buckets == Shares(total, n)
  {
    var base := Quot(total, n);
    var rem := Rem(total, n);
    buckets := [];
    for b := 0 to n
      invariant |buckets| == b
      invariant forall i :: 0 <= i < b ==> buckets[i] == Share(total, n, i)
    {
      var s := base;
      if b < rem {
        s := s + 1;
      }
      buckets := buckets + [s];
    }
    assert buckets == Shares(total, n);
    SharesAddUp(total, n);
  }

  const STOCK_BUCKET_COUNT := 16

  class ItemStock {
    var row: int
    var buckets: seq<int>

    constructor (row: int)
      ensures this.row == row && buckets == []
    {
      this.row := row;
      buckets := [];
    }

    function Available(): int
      reads this
    {
      if buckets == [] then row else Sum(buckets)
    }

    /** One conditional UPDATE per bucket, from the hashed one on; without buckets, one on the row. */
    method DeductStock(q: int, shardKey: seq<bv8>) returns (ok: bool)
      modifies this
      ensures Available() == old(Available()) - if ok then q else 0
      ensures if old(buckets) == [] then
                && buckets == []
                && (ok <==> old(row) >= q)
              else
                && row == old(row)
                && (ok <==> SomeBucketHas(old(buckets), q))
                && (ok ==> exists tried: nat ::
                      var primary := Fnv.Slot(shardKey, |old(buckets)|);
                      && TakesFrom(old(buckets), primary, q, tried)
                      && var b := Probe(primary, tried, |old(buckets)|);
                         buckets == old(buckets)[b := old(buckets)[b] - q])
                && (!ok ==> buckets == old(buckets))
    {
      if buckets == [] {
        ok := row >= q;
        if ok {
          row := row - q;
        }
        return;
      }
      var n := |buckets|;
      var primary := Fnv.Slot(shardKey, n);
      var attempt := 0;
      while attempt < n
        invariant 0 <= attempt <= n
        invariant buckets == old(buckets) && row == old(row)
        invariant forall j :: 0 <= j < attempt ==> buckets[Probe(primary, j, n)] < q
      {
        var b := (primary + attempt) % n;
        if buckets[b] >= q {
          assert TakesFrom(old(buckets), primary, q, attempt);
          SumByUpdate(buckets, b, buckets[b] - q, (x: int) => x);
          buckets := buckets[b := buckets[b] - q];
          return true;
        }
        attempt := attempt + 1;
      }
      forall b | 0 <= b < n ensures buckets[b] < q {
        EveryBucketIsProbed(primary, b, n);
      }
      return false;
    }

    /** Buckets are only made for an item with stock and without buckets, and take over its stock. */
    method Backfill()
      modifies this`buckets
      ensures Available() == old(Available())
      ensures buckets == if old(row) > 0 && old(buckets) == [] then Shares(row, STOCK_BUCKET_COUNT) else old(buckets)
      ensures old(row) > 0 && old(buckets) == [] ==>
        |buckets| == 16 && Sum(buckets) == row && forall i, j :: 0 <= i < j < 16 ==> buckets[j] <= buckets[i] <= buckets[j] + 1
    {
      if row > 0 && buckets == [] {
        buckets := MakeBuckets(row, STOCK_BUCKET_COUNT);
      }
    }
  }

  /** The steps of one undisturbed scan. */
  function Attempts(w: nat, k: nat): seq<Step> {
    if k == 0 then [] else [Attempt(w, Ok)] + Attempts(w, k - 1)
  }

  /** A scan with no other in between: the interleaved run ends with the bucket the method takes from reduced. */
  lemma {:induction false} ScanIsARun(s: State, w: nat, tried: nat, target: nat)
    requires w < |s.scans| && s.scans[w].Probing? && s.buckets != [] && s.scans[w].tried <= tried
    requires tried == s.scans[w].tried + target
    requires TakesFrom(s.buckets, s.scans[w].primary, s.scans[w].q, tried)
    ensures var s' := Exec(s, Attempts(w, target + 1));
      var b := Probe(s.scans[w].primary, tried, |s.buckets|);
      && s'.buckets == s.buckets[b := s.buckets[b] - s.scans[w].q]
      && s'.row == s.row
      && s'.scans == s.scans[w := Won(s.scans[w].q)]
    decreases target
  {
    var steps := Attempts(w, target + 1);
    assert steps[0] == Attempt(w, Ok) && steps[1..] == Attempts(w, target);
    var s1 := Apply(s, Attempt(w, Ok));
    if target > 0 {
      ScanIsARun(s1, w, tried, target - 1);
      assert s1.scans[w := Won(s.scans[w].q)] == s.scans[w := Won(s.scans[w].q)];
    }
  }

  /** The whole call: it starts at the bucket of its key and takes from the first that has the quantity. */
  lemma DeductIsARun(s: State, key: seq<bv8>, q: int, tried: nat)
    requires s.buckets != [] && TakesFrom(s.buckets, Fnv.Slot(key, |s.buckets|), q, tried)
    ensures var s' := Exec(s, [Begin(key, q)] + Attempts(|s.scans|, tried + 1));
      var b := Probe(Fnv.Slot(key, |s.buckets|), tried, |s.buckets|);
      && s'.buckets == s.buckets[b := s.buckets[b] - q]
      && s'.row == s.row && s'.scans == s.scans + [Won(q)]
  {
    hide Apply, Exec, Attempts, Fnv.Slot, TakesFrom, Probe;
    var w := |s.scans|;
    var s1 := Apply(s, Begin(key, q));
    BeginProbes(s, key, q);
    FirstThenRest(s, Begin(key, q), Attempts(w, tried + 1));
    ScanIsARun(s1, w, tried, tried);
    assert s1.scans[w := Won(q)] == s.scans + [Won(q)];
  }

  lemma BeginProbes(s: State, key: seq<bv8>, q: int)
    requires s.buckets != []
    ensures var s1 := Apply(s, Begin(key, q));
      && s1.buckets == s.buckets && s1.row == s.row
      && s1.scans == s.scans + [Probing(q, Fnv.Slot(key, |s.buckets|), 0)]
  {
    hide Fnv.Slot;
  }

  lemma FirstThenRest(s: State, step: Step, rest: seq<Step>)
    ensures Exec(s, [step] + rest) == Exec(Apply(s, step), rest)
  {
    hide Apply;
    assert ([step] + rest)[1..] == rest;
  }

  /** And when no bucket has q, with every bucket tried and nothing changed. */
  lemma {:induction false} FailingScanIsARun(s: State, w: nat)
    requires w < |s.scans| && s.scans[w].Probing? && s.scans[w].tried < |s.buckets|
    requires !SomeBucketHas(s.buckets, s.scans[w].q)
    ensures Exec(s, Attempts(w, |s.buckets| - s.scans[w].tried))
         == s.(scans := s.scans[w := Failed(s.scans[w].q, true)])
    decreases |s.buckets| - s.scans[w].tried
  {
    var n := |s.buckets| - s.scans[w].tried;
    var steps := Attempts(w, n);
    assert steps[0] == Attempt(w, Ok) && steps[1..] == Attempts(w, n - 1);
    var s1 := Apply(s, Attempt(w, Ok));
    assert !(s.buckets[Probe(s.scans[w].primary, s.scans[w].tried, |s.buckets|)] >= s.scans[w].q);
    if n > 1 {
      FailingScanIsARun(s1, w);
      assert s1.scans[w := Failed(s.scans[w].q, true)] == s.scans[w := Failed(s.scans[w].q, true)];
    }
  }
}
