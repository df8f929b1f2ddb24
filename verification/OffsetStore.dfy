/** The file-backed progress store and the retry loop around the handler, as the program writes them. */
module OffsetStore {
  import opened Consumer
  import opened ConsumerRuns

  class FileProgressStore {
    var m: map<Part, nat>
    var disk: map<Part, nat>

    /** A new store loads what is on disk; what cannot be read is left out without an error. */
    constructor (disk: map<Part, nat>, lost: set<Part>)
      ensures m == disk - lost && this.disk == disk
    {
      this.m := disk - lost;
      this.disk := disk;
    }

    ghost function View(): Store
      reads this
    {
      Store(m, disk, {})
    }

    method Get(p: Part) returns (off: nat, ok: bool)
      ensures ok <==> p in m
      ensures ok ==> off == m[p]
    {
      ok := p in m;
      off := if ok then m[p] else 0;
    }

    method Set(p: Part, off: nat)
      modifies this`m
      ensures m == Raise(old(m), p, off)
      ensures m == if p in old(m) && old(m)[p] >= off then old(m) else old(m)[p := off]
    {
      if p !in m || off > m[p] {
        m := m[p := off];
      }
    }

    /** Writes a temporary file and renames it: the file holds the whole map, or is untouched. */
    method Flush(works: bool) returns (ok: bool)
      modifies this`disk
      ensures ok == works && disk == if works then m else old(disk)
    {
      if works {
        disk := m;
      }
      ok := works;
    }

    /** A synchronous commit is the commit of the interleaved model. */
    method Commit(p: Part, off: nat, sync: bool, works: bool) returns (ok: bool)
      modifies this
      ensures ok <==> !sync || works
      ensures m == Raise(old(m), p, off)
      ensures disk == if sync && works then m else old(disk)
      ensures forall cfg: Config, e: Entry :: sync && !cfg.sql ==> View() == Committed(cfg, old(View()), p, off, e, works)
    {
      Set(p, off);
      ok := true;
      if sync {
        ok := Flush(works);
      }
    }

    /** Worker results committed in the order they happen to finish. */
    method CommitAll(commits: seq<CommitOf>)
      modifies this`m
      ensures m == SetAll(old(m), commits)
    {
      for i := 0 to |commits|
        invariant m == SetAll(old(m), commits[..i])
      {
        assert commits[..i + 1][..i] == commits[..i];
        Set(commits[i].p, commits[i].off);
      }
      assert commits[..|commits|] == commits;
    }
  }

  datatype HandlerResult = Ok | Failed | Panicked

  function MaxInt(a: int, b: int): int {
    if a > b then a else b
  }

  /** The handler succeeds at attempt a, after nothing but plain failures and without cancellation in between. */
  ghost predicate SucceedsAt(a: int, result: int -> HandlerResult, cancelled: int -> bool) {
    && result(a).Ok?
    && (forall b :: 0 <= b < a ==> result(b).Failed?)
    && (forall b :: 0 < b <= a ==> !cancelled(b))
  }

  /** The wait that follows the given ones: the base, then twice the last, up to the maximum. */
  function DelayAfter(delays: seq<nat>, base: nat, maxDelay: nat): nat {
    if delays == [] then base
    else
      var twice := 2 * delays[|delays| - 1];
      if twice > maxDelay then maxDelay else twice
  }

  predicate IsBackoff(delays: seq<nat>, base: nat, maxDelay: nat) {
    forall i :: 0 <= i < |delays| ==> delays[i] == DelayAfter(delays[..i], base, maxDelay)
  }

  lemma BackoffMeans(delays: seq<nat>, base: nat, maxDelay: nat)
    requires IsBackoff(delays, base, maxDelay)
    ensures |delays| > 0 ==> delays[0] == base
    ensures forall i :: 0 < i < |delays| ==>
      delays[i] == if 2 * delays[i - 1] > maxDelay then maxDelay else 2 * delays[i - 1]
  {
    forall i | 0 < i < |delays| ensures delays[i] == if 2 * delays[i - 1] > maxDelay then maxDelay else 2 * delays[i - 1] {
      assert delays[..i][i - 1] == delays[i - 1];
    }
  }

  lemma NoBackoffYet(base: nat, maxDelay: nat)
    ensures IsBackoff([], base, maxDelay)
  {
  }

  lemma BackoffGoesOn(delays: seq<nat>, base: nat, maxDelay: nat)
    requires IsBackoff(delays, base, maxDelay)
    ensures IsBackoff(delays + [DelayAfter(delays, base, maxDelay)], base, maxDelay)
  {
    var longer := delays + [DelayAfter(delays, base, maxDelay)];
    forall i | 0 <= i < |longer| ensures longer[i] == DelayAfter(longer[..i], base, maxDelay) {
      assert longer[..i] == delays[..i];
      assert i == |delays| ==> delays[..i] == delays;
    }
  }

  /**
   Calls the handler up to 1 + max(retryMax, 0) times with doubling, capped delays; a panic or a
   cancellation gives up at once. The message is dead-lettered exactly when no allowed attempt succeeds.
   */
  method Process(retryMax: int, base: nat, maxDelay: nat, result: int -> HandlerResult, cancelled: int -> bool)
    returns (dlqed: bool, delays: seq<nat>)
    ensures dlqed <==> forall a :: 0 <= a <= MaxInt(retryMax, 0) ==> !SucceedsAt(a, result, cancelled)
    ensures |delays| <= MaxInt(retryMax, 0)
    ensures |delays| > 0 ==> delays[0] == base
    ensures forall i :: 0 < i < |delays| ==>
      delays[i] == if 2 * delays[i - 1] > maxDelay then maxDelay else 2 * delays[i - 1]
  {
    hide IsBackoff;
    var delay := base;
    var attempt := 0;
    delays := [];
    NoBackoffYet(base, maxDelay);
    while attempt <= MaxInt(retryMax, 0)
      invariant 0 <= attempt <= MaxInt(retryMax, 0) + 1
      invariant |delays| == if attempt == 0 then 0 else attempt - 1
      invariant forall b :: 0 <= b < attempt ==> result(b).Failed?
      invariant forall b :: 0 < b < attempt ==> !cancelled(b)
      invariant delay == DelayAfter(delays, base, maxDelay)
      invariant IsBackoff(delays, base, maxDelay)
    {
      BackoffMeans(delays, base, maxDelay);
      if attempt > 0 {
        BackoffGoesOn(delays, base, maxDelay);
        delays := delays + [delay];
        BackoffMeans(delays, base, maxDelay);
        if cancelled(attempt) {
          return true, delays;
        }
        delay := 2 * delay;
        if delay > maxDelay {
          delay := maxDelay;
        }
      }
      match result(attempt)
      case Ok =>
        assert SucceedsAt(attempt, result, cancelled);
        return false, delays;
      case Panicked =>
        return true, delays;
      case Failed =>
        attempt := attempt + 1;
    }
    BackoffMeans(delays, base, maxDelay);
    dlqed := true;
  }
}
