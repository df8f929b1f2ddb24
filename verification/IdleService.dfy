/** The settlement service as the program writes it, tied to the interleaved model. */
module IdleService {
  import opened Sums
  import opened Settlement
  import Outbox
  import opened OutboxApplier

  /** How the calls of one settleSession go: failed makes the close (or its transaction) return an error. */
  datatype SettleFaults = SettleFaults(acquire: Outbox.Outcome, failed: bool, release: Outbox.Outcome)

  /**
   How the calls of one Start go: the lookup of the device, the list of active sessions, the eviction,
   the insert, and the second lookup after a failed insert, which may fail or answer from a stale cache.
   */
  datatype StartFaults = StartFaults(lookup: bool, list: bool, settle: SettleFaults, insert: Outbox.Outcome, again: bool)

  datatype View = View(records: seq<Record>, counter: map<string, int>, rows: seq<Outbox.Row>)

  /** What the caller gets back. */
  datatype Answer = Settled(applied: bool) | Failed

  function Released(v: View, user: string, granted: int, o: Outbox.Outcome): View {
    if granted > 0 && (o.Ok? || o.took) then v.(counter := Bump(v.counter, user, -granted)) else v
  }

  /** The second half of an undisturbed settleSession, once g points are granted. */
  function AfterClose(v: View, rec: nat, completed: bool, g: int, f: SettleFaults): (View, Answer)
    requires rec < |v.records|
  {
    var r := v.records[rec];
    if f.failed then (Released(v, r.user, g, f.release), Failed)
    else if !r.status.Active? then (Released(v, r.user, g, f.release), Settled(false))
    else if g != 0 && Outbox.Find(v.rows, IdleEvent(rec)) >= 0 then (Released(v, r.user, g, f.release), Failed)
    else
      (View(v.records[rec := ClosedRecord(r, completed, g)], v.counter,
            if g == 0 then v.rows else v.rows + [Outbox.Row(IdleEvent(rec), r.user, g, Outbox.Pending, 0)]),
       Settled(true))
  }

  /** One undisturbed settleSession of record rec at time now. */
  function AfterSettle(cfg: Config, v: View, rec: nat, completed: bool, now: int, f: SettleFaults): (View, Answer)
    requires rec < |v.records|
  {
    var r := v.records[rec];
    var want := Points(cfg, now - r.start);
    if cfg.limit <= 0 then AfterClose(v, rec, completed, want, f)
    else
      var g := Grant(CounterOf(v.counter, r.user), want, cfg.limit);
      var reserved := v.(counter := Bump(v.counter, r.user, g));
      if !f.acquire.Ok? then (if f.acquire.took then reserved else v, Failed)
      else AfterClose(reserved, rec, completed, g, f)
  }

  function ViewOf(s: State): View {
    View(s.records, s.counter, s.points.rows)
  }

  /** A close that does not take effect leaves a grant to give back, if there is one. */
  lemma CloseThenRelease(s: State, w: nat, f: SettleFaults)
    requires SettlerAt(s, w).Granted? && s.settlers[w].rec < |s.records|
    requires s.settlers[w].user == s.records[s.settlers[w].rec].user
    ensures var Granted(rec, user, completed, g) := s.settlers[w];
      var s1 := DoClose(s, w, f.failed);
      var (v, answer) := AfterClose(ViewOf(s), rec, completed, g, f);
      if answer == Settled(true) then
        ViewOf(s1) == v && s1.settlers == s.settlers[w := Ended] && s1.closed == s.closed + [rec]
      else if g > 0 then
        s1 == Set(s, w, Undo(rec, user, g)) && v == Released(ViewOf(s), user, g, f.release)
      else
        s1 == Set(s, w, Ended) && v == ViewOf(s)
  {
  }

  lemma AfterCloseIsARun(s: State, w: nat, f: SettleFaults)
    requires SettlerAt(s, w).Granted? && s.settlers[w].rec < |s.records|
    requires s.settlers[w].user == s.records[s.settlers[w].rec].user
    ensures var k := s.settlers[w];
      var s' := Apply(Apply(s, Close(w, f.failed)), Release(w, f.release));
      var (v, answer) := AfterClose(ViewOf(s), k.rec, k.completed, k.granted, f);
      && ViewOf(s') == v
      && s'.settlers == s.settlers[w := Ended]
      && s'.closed == if answer == Settled(true) then s.closed + [k.rec] else s.closed
  {
    var k := s.settlers[w];
    var s1 := DoClose(s, w, f.failed);
    assert Apply(s, Close(w, f.failed)) == s1;
    CloseThenRelease(s, w, f);
    if AfterClose(ViewOf(s), k.rec, k.completed, k.granted, f).1 == Settled(true) {
      assert s1.settlers[w].Ended?;
      assert Apply(s1, Release(w, f.release)) == s1;
    } else if k.granted > 0 {
      assert s1.settlers[w] == Undo(k.rec, k.user, k.granted);
      assert s1.settlers[w := Ended] == s.settlers[w := Ended];
      assert Apply(s1, Release(w, f.release)) == DoRelease(s1, w, f.release);
    } else {
      assert s1.settlers[w].Ended?;
      assert Apply(s1, Release(w, f.release)) == s1;
    }
  }

  /** An acquire either ends the call or leaves what it granted. */
  lemma AcquireFirst(s: State, w: nat, now: int, f: SettleFaults)
    requires SettlerAt(s, w).Begun? && s.settlers[w].rec < |s.records|
    requires s.settlers[w].user == s.records[s.settlers[w].rec].user
    requires s.settlers[w].want == Points(s.cfg, now - s.records[s.settlers[w].rec].start)
    ensures var k := s.settlers[w];
      var s1 := DoAcquire(s, w, f.acquire);
      var settled := AfterSettle(s.cfg, ViewOf(s), k.rec, k.completed, now, f);
      && s1.records == s.records && s1.closed == s.closed
      && if s1.settlers[w].Ended? then
           s1.settlers == s.settlers[w := Ended] && settled == (ViewOf(s1), Failed)
         else
           && s1.settlers[w].Granted?
           && s1.settlers == s.settlers[w := Granted(k.rec, k.user, k.completed, s1.settlers[w].granted)]
           && settled == AfterClose(ViewOf(s1), k.rec, k.completed, s1.settlers[w].granted, f)
  {
  }

  /** An undisturbed settleSession is the interleaved run whose steps follow each other. */
  lemma AfterSettleIsARun(s: State, w: nat, now: int, f: SettleFaults)
    requires SettlerAt(s, w).Begun? && s.settlers[w].rec < |s.records|
    requires s.settlers[w].user == s.records[s.settlers[w].rec].user
    requires s.settlers[w].want == Points(s.cfg, now - s.records[s.settlers[w].rec].start)
    ensures var k := s.settlers[w];
      var s' := Apply(Apply(Apply(s, Acquire(w, f.acquire)), Close(w, f.failed)), Release(w, f.release));
      var (v, answer) := AfterSettle(s.cfg, ViewOf(s), k.rec, k.completed, now, f);
      && ViewOf(s') == v
      && s'.settlers == s.settlers[w := Ended]
      && s'.closed == if answer == Settled(true) then s.closed + [k.rec] else s.closed
  {
    var s1 := DoAcquire(s, w, f.acquire);
    assert Apply(s, Acquire(w, f.acquire)) == s1;
    AcquireFirst(s, w, now, f);
    if s1.settlers[w].Ended? {
      assert Apply(s1, Close(w, f.failed)) == s1;
      assert Apply(s1, Release(w, f.release)) == s1;
    } else {
      AfterCloseIsARun(s1, w, f);
      assert s1.settlers[w := Ended] == s.settlers[w := Ended];
    }
  }

  /** And so is the whole call, from reading the record on, for a user whose counter is warm. */
  lemma SettleSessionIsARun(s: State, rec: nat, completed: bool, now: int, f: SettleFaults)
    requires rec < |s.records| && s.records[rec].user in s.counter
    ensures var w := |s.settlers|;
      var s1 := Apply(s, Begin(rec, completed, now));
      var s' := Apply(Apply(Apply(s1, Acquire(w, f.acquire)), Close(w, f.failed)), Release(w, f.release));
      var (v, answer) := AfterSettle(s.cfg, ViewOf(s), rec, completed, now, f);
      && ViewOf(s') == v
      && s'.closed == if answer == Settled(true) then s.closed + [rec] else s.closed
  {
    var s1 := Apply(s, Begin(rec, completed, now));
    assert s1.settlers[|s.settlers|] == Begun(rec, s.records[rec].user, completed, Points(s.cfg, now - s.records[rec].start));
    assert ViewOf(s1) == ViewOf(s) && s1.closed == s.closed && s1.cfg == s.cfg;
    hide Apply, AfterSettle, ViewOf, Points;
    AfterSettleIsARun(s1, |s.settlers|, now, f);
  }

  /** Settling touches at most its own record, and only while that is active; it closes an active one unless it fails. */
  lemma SettleTouchesOne(cfg: Config, v: View, rec: nat, completed: bool, now: int, f: SettleFaults)
    requires rec < |v.records|
    ensures var (v', answer) := AfterSettle(cfg, v, rec, completed, now, f);
      && |v'.records| == |v.records|
      && (forall i :: 0 <= i < |v.records| && i != rec ==> v'.records[i] == v.records[i])
      && (answer == Settled(true) ==>
            v.records[rec].status.Active? && v'.records[rec] == ClosedRecord(v.records[rec], completed, v'.records[rec].earned))
      && (answer != Settled(true) ==> v'.records == v.records)
      && (answer == Settled(false) ==> !v.records[rec].status.Active?)
  {
  }

  /** The same for whatever number of minutes it is. */
  lemma SettleAlways(cfg: Config, v: View, rec: nat, completed: bool, now: int, f: SettleFaults)
    requires rec < |v.records|
    ensures var (v', answer) := AfterSettle(cfg, v, rec, completed, now, f);
      && (forall m :: answer == Settled(true) && CountsAs(now - v.records[rec].start, m) ==>
            PaidOff(cfg, v, v', rec, completed, Due(cfg, CounterOf(v.counter, v.records[rec].user), m)))
      && (answer != Settled(true) ==> v'.records == v.records && v'.rows == v.rows)
  {
    hide AfterSettle;
    PointsAreWholeMinutes(cfg, now - v.records[rec].start, 1);
    var k :| CountsAs(now - v.records[rec].start, k);
    SettlePaysWholeMinutes(cfg, v, rec, completed, now, f, k);
    forall m | CountsAs(now - v.records[rec].start, m)
      ensures var (v', answer) := AfterSettle(cfg, v, rec, completed, now, f);
        && (answer == Settled(true) ==>
              PaidOff(cfg, v, v', rec, completed, Due(cfg, CounterOf(v.counter, v.records[rec].user), m)))
        && (answer != Settled(true) ==> v'.records == v.records && v'.rows == v.rows)
    {
      SettlePaysWholeMinutes(cfg, v, rec, completed, now, f, m);
    }
  }

  /** What an award of m minutes comes to when the day already has its share: cut to the limit, never below zero. */
  function Due(cfg: Config, already: int, m: int): int {
    var award := m * cfg.pointsPerMinute;
    if cfg.limit <= 0 then award
    else if award <= 0 || already >= cfg.limit then 0
    else if already + award <= cfg.limit then award
    else cfg.limit - already
  }

  /** Record rec is closed with the given points, an outbox row carries them, and the counter has them. */
  predicate PaidOff(cfg: Config, v: View, v': View, rec: nat, completed: bool, points: int)
    requires rec < |v.records|
  {
    var r := v.records[rec];
    && r.status.Active?
    && v'.records == v.records[rec := Record(r.user, r.device, r.start, if completed then Completed else Timeout, points)]
    && v'.rows == v.rows + (if points == 0 then [] else [Outbox.Row(IdleEvent(rec), r.user, points, Outbox.Pending, 0)])
    && v'.counter ==
       if cfg.limit <= 0 || points == 0 then v.counter else v.counter[r.user := CounterOf(v.counter, r.user) + points]
  }

  /**
   A settlement that applies pays the session's whole minutes, cut to what the day has left; one that
   does not leaves records and rows alone, and gives the quota back if its calls to Redis work. It
   applies to an active record without an outbox row whenever its calls work.
   */
  lemma SettlePaysWholeMinutes(cfg: Config, v: View, rec: nat, completed: bool, now: int, f: SettleFaults, m: int)
    requires rec < |v.records| && CountsAs(now - v.records[rec].start, m)
    ensures var (v', answer) := AfterSettle(cfg, v, rec, completed, now, f);
      var r := v.records[rec];
      && (answer == Settled(true) ==> PaidOff(cfg, v, v', rec, completed, Due(cfg, CounterOf(v.counter, r.user), m)))
      && (answer != Settled(true) ==> v'.records == v.records && v'.rows == v.rows)
      && (answer != Settled(true) && cfg.limit > 0 && f.acquire.Ok? && f.release.Ok? ==>
            forall u :: CounterOf(v'.counter, u) == CounterOf(v.counter, u))
      && (f.acquire.Ok? && !f.failed && r.status.Active? && (forall row :: row in v.rows ==> row.event != IdleEvent(rec)) ==>
            answer == Settled(true))
  {
    hide AfterSettle, AfterClose, PaidOff, Due, Grant, Bump, CountsAs;
    SettleIsClose(cfg, v, rec, completed, now, f, m);
    var g := Due(cfg, CounterOf(v.counter, v.records[rec].user), m);
    if cfg.limit <= 0 || f.acquire.Ok? {
      var v1 := Reserved(cfg, v, v.records[rec].user, g);
      CloseEffects(v1, rec, completed, g, f);
      if AfterClose(v1, rec, completed, g, f).1 == Settled(true) {
        ReservedEffects(cfg, v, rec, completed, g, AfterClose(v1, rec, completed, g, f).0);
      }
      GivenBack(cfg, v, v.records[rec].user, g, f.release);
    }
  }

  /** v once g points are counted for u, with a limit. */
  function Reserved(cfg: Config, v: View, u: string, g: int): View {
    if cfg.limit <= 0 then v else v.(counter := Bump(v.counter, u, g))
  }

  /** A settlement reserves what is due and goes on to the close, unless the reservation fails. */
  lemma SettleIsClose(cfg: Config, v: View, rec: nat, completed: bool, now: int, f: SettleFaults, m: int)
    requires rec < |v.records| && CountsAs(now - v.records[rec].start, m)
    ensures var u := v.records[rec].user;
      var g := Due(cfg, CounterOf(v.counter, u), m);
      && (cfg.limit > 0 ==> g >= 0)
      && AfterSettle(cfg, v, rec, completed, now, f) ==
        if cfg.limit > 0 && !f.acquire.Ok? then (if f.acquire.took then Reserved(cfg, v, u, g) else v, Failed)
        else AfterClose(Reserved(cfg, v, u, g), rec, completed, g, f)
  {
    hide Points, AfterClose, Bump;
    PointsAreWholeMinutes(cfg, now - v.records[rec].start, m);
  }

  lemma CloseEffects(v: View, rec: nat, completed: bool, g: int, f: SettleFaults)
    requires rec < |v.records|
    ensures var (v', answer) := AfterClose(v, rec, completed, g, f);
      var r := v.records[rec];
      && (answer == Settled(true) ==>
            && r.status.Active? && v'.counter == v.counter
            && v'.records == v.records[rec := Record(r.user, r.device, r.start, if completed then Completed else Timeout, g)]
            && v'.rows == v.rows + if g == 0 then [] else [Outbox.Row(IdleEvent(rec), r.user, g, Outbox.Pending, 0)])
      && (answer != Settled(true) ==> v' == Released(v, r.user, g, f.release))
      && (!f.failed && r.status.Active? && (forall row :: row in v.rows ==> row.event != IdleEvent(rec)) ==>
            answer == Settled(true))
  {
    hide IdleEvent, Bump;
    if g == 0 { assert v.rows + [] == v.rows; }
  }

  lemma ReservedEffects(cfg: Config, v: View, rec: nat, completed: bool, g: int, v': View)
    requires rec < |v.records| && v.records[rec].status.Active?
    requires var r := v.records[rec];
      && v'.counter == Reserved(cfg, v, r.user, g).counter
      && v'.records == v.records[rec := Record(r.user, r.device, r.start, if completed then Completed else Timeout, g)]
      && v'.rows == v.rows + if g == 0 then [] else [Outbox.Row(IdleEvent(rec), r.user, g, Outbox.Pending, 0)]
    ensures PaidOff(cfg, v, v', rec, completed, g)
  {
    hide IdleEvent;
  }

  /** What was reserved and released again is not counted. */
  lemma GivenBack(cfg: Config, v: View, u: string, g: int, o: Outbox.Outcome)
    requires cfg.limit > 0 ==> g >= 0
    ensures cfg.limit > 0 && o.Ok? ==>
      forall w :: CounterOf(Released(Reserved(cfg, v, u, g), u, g, o).counter, w) == CounterOf(v.counter, w)
    ensures var v' := Released(Reserved(cfg, v, u, g), u, g, o); v'.records == v.records && v'.rows == v.rows
  {
  }

  predicate ActiveOf(r: Record, user: string) {
    r.user == user && r.status.Active?
  }

  function Actives(user: string): Record -> int {
    (r: Record) => if ActiveOf(r, user) then 1 else 0
  }

  /** How many sessions of the user are active. */
  function ActiveCount(records: seq<Record>, user: string): int {
    SumBy(records, Actives(user))
  }

  /** Record i is an active session of the user, and none of the user's active sessions began earlier. */
  predicate Oldest(records: seq<Record>, user: string, i: nat) {
    && i < |records| && ActiveOf(records[i], user)
    && forall j :: 0 <= j < |records| && ActiveOf(records[j], user) ==> records[i].start <= records[j].start
  }

  /** A session is completed, or kept as it was; only active sessions of the user are completed. */
  predicate StoppedOrSame(before: Record, after: Record, user: string) {
    after == before || (ActiveOf(before, user) && after == ClosedRecord(before, true, after.earned))
  }

  /** Without a limit a session that was closed has earned all its minutes. */
  ghost predicate PaidInFull(cfg: Config, before: Record, after: Record, now: int) {
    after == before || cfg.limit > 0 || forall m :: CountsAs(now - before.start, m) ==> after.earned == m * cfg.pointsPerMinute
  }

  lemma SamePaidInFull(cfg: Config, records: seq<Record>, now: int)
    ensures forall i :: 0 <= i < |records| ==> PaidInFull(cfg, records[i], records[i], now)
  {
  }

  lemma SettledIsPaidInFull(cfg: Config, v: View, rec: nat, now: int, f: SettleFaults)
    requires rec < |v.records|
    ensures PaidInFull(cfg, v.records[rec], AfterSettle(cfg, v, rec, true, now, f).0.records[rec], now)
  {
    SettleAlways(cfg, v, rec, true, now, f);
  }

  /** Settling the active sessions of the user from record i on, up to the first error. */
  function Stopped(cfg: Config, v: View, user: string, now: int, faults: nat -> SettleFaults, i: nat): (View, bool)
    decreases |v.records| - i
  {
    if i >= |v.records| then (v, false)
    else if !ActiveOf(v.records[i], user) then Stopped(cfg, v, user, now, faults, i + 1)
    else
      var (v', answer) := AfterSettle(cfg, v, i, true, now, faults(i));
      SettleTouchesOne(cfg, v, i, true, now, faults(i));
      if answer.Failed? then (v', true) else Stopped(cfg, v', user, now, faults, i + 1)
  }

  lemma StopsNext(cfg: Config, v: View, user: string, now: int, faults: nat -> SettleFaults, i: nat)
    requires i < |v.records|
    ensures Stopped(cfg, v, user, now, faults, i) ==
      if !ActiveOf(v.records[i], user) then Stopped(cfg, v, user, now, faults, i + 1)
      else
        var (v', answer) := AfterSettle(cfg, v, i, true, now, faults(i));
        if answer.Failed? then (v', true) else Stopped(cfg, v', user, now, faults, i + 1)
  {
    hide AfterSettle;
  }

  function MaxDevices(configured: int): int {
    if configured <= 0 then 1 else configured
  }

  /** Closing sessions does not make a device active. */
  lemma NoneAfterClosing(p: seq<Record>, q: seq<Record>, user: string, device: string)
    requires |p| == |q| && !HasActive(p, user, device)
    requires forall i :: 0 <= i < |p| && q[i] != p[i] ==> !q[i].status.Active?
    ensures !HasActive(q, user, device)
  {
    forall r | r in q && r.user == user && r.device == device ensures !r.status.Active? {
      var i :| 0 <= i < |q| && q[i] == r;
      assert p[i] in p;
    }
  }

  class IdleService {
    const cfg: Config
    const outbox: PointsOutboxRepository
    var records: seq<Record>
    var counter: map<string, int>

    constructor (cfg: Config, outbox: PointsOutboxRepository)
      ensures this.cfg == cfg && this.outbox == outbox && records == [] && counter == map[]
    {
      this.cfg := cfg;
      this.outbox := outbox;
      records := [];
      counter := map[];
    }

    ghost function Now(): View
      reads this, outbox
    {
      View(records, counter, outbox.rows)
    }

    /** The conditional insert of Start: an active session of the same user and device is kept. */
    method Create(user: string, device: string, start: int) returns (created: bool)
      modifies this`records
      ensures created <==> forall r :: r in old(records) ==> !(r.user == user && r.device == device && r.status.Active?)
      ensures records == if created then old(records) + [Record(user, device, start, Active, 0)] else old(records)
    {
      created := !HasActive(records, user, device);
      if created {
        records := records + [Record(user, device, start, Active, 0)];
      }
    }

    /** Without a limit all that is wanted is granted and nothing is counted. */
    method AcquireDailyPoints(user: string, want: int, o: Outbox.Outcome) returns (granted: int)
      modifies this`counter
      ensures granted == if cfg.limit <= 0 then want else Grant(CounterOf(old(counter), user), want, cfg.limit)
      ensures granted != want && cfg.limit > 0 ==>
        granted == if CounterOf(old(counter), user) >= cfg.limit || want <= 0 then 0 else cfg.limit - CounterOf(old(counter), user)
      ensures counter ==
        if cfg.limit > 0 && (o.Ok? || o.took) && granted != 0 then
          old(counter)[user := CounterOf(old(counter), user) + granted]
        else old(counter)
    {
      if cfg.limit <= 0 {
        return want;
      }
      var cur := CounterOf(counter, user);
      granted := if cur + want <= cfg.limit then want else cfg.limit - cur;
      if granted <= 0 {
        granted := 0;
      }
      if o.Ok? || o.took {
        counter := Bump(counter, user, granted);
      }
    }

    method ReleaseDailyPoints(user: string, granted: int, o: Outbox.Outcome)
      modifies this`counter
      ensures counter ==
        if granted > 0 && (o.Ok? || o.took) then old(counter)[user := CounterOf(old(counter), user) - granted] else old(counter)
    {
      if granted > 0 && (o.Ok? || o.took) {
        counter := Bump(counter, user, -granted);
      }
    }

    /** UPDATE idle_records ... WHERE id = rec AND status = 'active'. */
    method MarkSettled(rec: nat, completed: bool, points: int) returns (applied: bool)
      requires rec < |records|
      modifies this`records
      ensures applied <==> old(records)[rec].status.Active?
      ensures applied ==>
        var r := old(records)[rec];
        records == old(records)[rec := Record(r.user, r.device, r.start, if completed then Completed else Timeout, points)]
      ensures !applied ==> records == old(records)
    {
      applied := records[rec].status.Active?;
      if applied {
        records := records[rec := ClosedRecord(records[rec], completed, points)];
      }
    }

    method SettleSession(rec: nat, completed: bool, now: int, f: SettleFaults) returns (answer: Answer)
      requires rec < |records|
      modifies this, outbox
      ensures (Now(), answer) == AfterSettle(cfg, old(Now()), rec, completed, now, f)
      ensures forall m :: answer == Settled(true) && CountsAs(now - old(records)[rec].start, m) ==>
        PaidOff(cfg, old(Now()), Now(), rec, completed, Due(cfg, CounterOf(old(counter), old(records)[rec].user), m))
      ensures answer != Settled(true) ==> records == old(records) && outbox.rows == old(outbox.rows)
    {
      SettleAlways(cfg, Now(), rec, completed, now, f);
      hide PaidOff, Due, CountsAs;
      var r := records[rec];
      var points := Points(cfg, now - r.start);
      if cfg.limit > 0 {
        points := AcquireDailyPoints(r.user, points, f.acquire);
        if !f.acquire.Ok? {
          return Failed;
        }
      }
      answer := CloseAndPay(rec, completed, points, f);
    }

    /**
     The second half: the close, alone or in one transaction with the outbox row, and the release when it
     does not take effect.
     */
    method CloseAndPay(rec: nat, completed: bool, points: int, f: SettleFaults) returns (answer: Answer)
      requires rec < |records|
      modifies this, outbox
      ensures (Now(), answer) == AfterClose(old(Now()), rec, completed, points, f)
    {
      var r := records[rec];
      if points == 0 {
        if f.failed {
          return Failed;
        }
        var applied := MarkSettled(rec, completed, 0);
        return Settled(applied);
      }
      // one transaction: the guarded close and the outbox row, or neither
      var before := records;
      var applied := false;
      var err := f.failed;
      if !err {
        applied := MarkSettled(rec, completed, points);
        if applied {
          var ok := outbox.AppendInTx(IdleEvent(rec), r.user, points, 0);
          if !ok {
            records := before;
            err := true;
          }
        }
      }
      if err {
        ReleaseDailyPoints(r.user, points, f.release);
        return Failed;
      }
      if !applied {
        ReleaseDailyPoints(r.user, points, f.release);
      }
      return Settled(applied);
    }

    /** The user's active sessions: how many, and the one that began first. */
    method FindActiveAll(user: string) returns (n: nat, oldest: nat)
      ensures n == ActiveCount(records, user)
      ensures n > 0 ==> Oldest(records, user, oldest)
      ensures n > 0 ==> oldest < |records| && records[oldest].user == user && records[oldest].status.Active?
      ensures n > 0 ==> forall r :: r in records && r.user == user && r.status.Active? ==> records[oldest].start <= r.start
    {
      n, oldest := 0, 0;
      for i := 0 to |records|
        invariant n == ActiveCount(records[..i], user)
        invariant n == 0 ==> forall j :: 0 <= j < i ==> !ActiveOf(records[j], user)
        invariant n > 0 ==> oldest < i && Oldest(records[..i], user, oldest)
      {
        assert records[..i + 1] == records[..i] + [records[i]];
        SumByAppend(records[..i], records[i], Actives(user));
        if ActiveOf(records[i], user) {
          if n == 0 || records[i].start < records[oldest].start {
            oldest := i;
          }
          n := n + 1;
        }
      }
      assert records[..|records|] == records;
    }

    /** With the device limit reached, the session that began first is settled to make room. */
    method EvictOldestIfFull(user: string, maxDev: int, now: int, f: SettleFaults) returns (failed: bool)
      requires maxDev > 0
      modifies this, outbox
      ensures |records| == |old(records)|
      ensures forall i :: 0 <= i < |records| && records[i] != old(records)[i] ==>
        ActiveCount(old(records), user) >= maxDev && Oldest(old(records), user, i)
        && records[i] == ClosedRecord(old(records)[i], true, records[i].earned)
      ensures forall i, m :: 0 <= i < |records| && records[i] != old(records)[i] && CountsAs(now - old(records)[i].start, m) ==>
        PaidOff(cfg, old(Now()), Now(), i, true, Due(cfg, CounterOf(old(counter), user), m))
      ensures failed || ActiveCount(old(records), user) < maxDev ==> records == old(records)
      ensures !failed && ActiveCount(old(records), user) >= maxDev ==>
        ActiveCount(records, user) == ActiveCount(old(records), user) - 1
    {
      var n, oldest := FindActiveAll(user);
      if n < maxDev {
        return false;
      }
      SettleTouchesOne(cfg, Now(), oldest, true, now, f);
      var answer := SettleSession(oldest, true, now, f);
      assert answer != Settled(false);
      if answer == Settled(true) {
        SumByUpdate(old(records), oldest, records[oldest], Actives(user));
        assert records == old(records)[oldest := records[oldest]];
      }
      return answer.Failed?;
    }

    /**
     Start of one device, undisturbed: an active session of the device is kept as it is; otherwise one
     is created, after the oldest gave way if the limit was reached, so the number never grows past it.
     A failed start adds nothing, unless the insert's error and the second lookup both hide that it
     took place; an eviction before a failed insert stays.
     */
    method Start(user: string, device: string, maxDevices: int, now: int, f: StartFaults) returns (failed: bool)
      modifies this, outbox
      ensures !failed ==> HasActive(records, user, device)
      ensures f.lookup ==> failed
      ensures f.lookup || f.list || HasActive(old(records), user, device) ==> records == old(records)
      ensures !failed && !HasActive(old(records), user, device) ==>
        var n := ActiveCount(old(records), user);
        ActiveCount(records, user) == if n >= (if maxDevices <= 0 then 1 else maxDevices) then n else n + 1
      ensures failed && !(f.insert == Outbox.Err(true) && f.again) ==>
        |records| == |old(records)| && ActiveCount(records, user) <= ActiveCount(old(records), user)
      ensures ActiveCount(records, user) <= Max(ActiveCount(old(records), user), (if maxDevices <= 0 then 1 else maxDevices))
      ensures |old(records)| <= |records| <= |old(records)| + 1
      ensures forall i :: 0 <= i < |old(records)| && records[i] != old(records)[i] ==>
        ActiveCount(old(records), user) >= (if maxDevices <= 0 then 1 else maxDevices) && Oldest(old(records), user, i)
    {
      if f.lookup {
        return true;
      }
      if HasActive(records, user, device) {
        return false;
      }
      if f.list {
        return true;
      }
      failed := EvictOldestIfFull(user, MaxDevices(maxDevices), now, f.settle);
      if failed {
        return;
      }
      ghost var before := records;
      NoneAfterClosing(old(records), records, user, device);
      if f.insert.Err? && !f.insert.took {
        return true;  // the second lookup finds nothing either
      }
      var created := Create(user, device, now);
      SumByAppend(before, Record(user, device, now, Active, 0), Actives(user));
      assert records[|before|] in records;
      failed := f.insert.Err? && f.again;
    }

    /**
     Stop completes every active session of the user; it gives up at the first error, and a user with
     no active session is told so.
     */
    method Stop(user: string, now: int, faults: nat -> SettleFaults) returns (notIdle: bool, failed: bool)
      modifies this, outbox
      ensures notIdle <==> forall i :: 0 <= i < |old(records)| ==> !ActiveOf(old(records)[i], user)
      ensures |records| == |old(records)|
      ensures forall i :: 0 <= i < |records| ==> StoppedOrSame(old(records)[i], records[i], user)
      ensures !failed ==> forall i :: 0 <= i < |records| ==> !ActiveOf(records[i], user)
      ensures (Now(), failed) == Stopped(cfg, old(Now()), user, now, faults, 0)
      ensures forall i :: 0 <= i < |records| ==> PaidInFull(cfg, old(records)[i], records[i], now)
    {
      hide AfterSettle, PaidInFull, PaidOff, CountsAs, Due;
      var n := |records|;
      var i := 0;
      notIdle, failed := true, false;
      SamePaidInFull(cfg, records, now);
      while i < n && !failed
        invariant 0 <= i <= n == |records| == |old(records)|
        invariant notIdle <==> forall j :: 0 <= j < i ==> !ActiveOf(old(records)[j], user)
        invariant failed ==> !notIdle
        invariant forall j :: 0 <= j < n ==> StoppedOrSame(old(records)[j], records[j], user)
        invariant forall j :: i <= j < n ==> records[j] == old(records)[j]
        invariant !failed ==> forall j :: 0 <= j < i ==> !ActiveOf(records[j], user)
        invariant !failed ==> Stopped(cfg, Now(), user, now, faults, i) == Stopped(cfg, old(Now()), user, now, faults, 0)
        invariant failed ==> (Now(), true) == Stopped(cfg, old(Now()), user, now, faults, 0)
        invariant forall j :: 0 <= j < n ==> PaidInFull(cfg, old(records)[j], records[j], now)
      {
        StopsNext(cfg, Now(), user, now, faults, i);
        if ActiveOf(records[i], user) {
          notIdle := false;
          SettleTouchesOne(cfg, Now(), i, true, now, faults(i));
          SettledIsPaidInFull(cfg, Now(), i, now, faults(i));
          var answer := SettleSession(i, true, now, faults(i));
          failed := answer.Failed?;
        }
        i := i + 1;
      }
    }
  }
}
