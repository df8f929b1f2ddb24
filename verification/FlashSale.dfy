/**
 A flash-sale activity: the Redis scripts that turn requests away early, with a stock counter and
 one count per user, and the guarded sold_qty row that has the last word. Every script and every
 UPDATE is one atomic step.
 */
module FlashSale {
  import opened Sums

  datatype Counter = Missing | Stock(n: int)

  /** The two Redis keys of one activity. */
  datatype Redis = Redis(stock: Counter, users: map<string, int>)

  /**
   held is what each user knows to have acquired and has not given back; sales counts the row updates
   that answered a sale, takenBack those that took one back. The program stores none of the three.
   */
  datatype State = State(redis: Redis, held: map<string, int>, sold: int, limitQty: int, sales: nat, takenBack: nat)

  datatype Answer = OK(remaining: int) | SoldOut | UserLimit

  /**
   An acquire may take effect without its answer arriving (told); the caller then goes on without
   Redis. A caller that gives its hold back may fail to reach Redis (works).
   */
  datatype Step =
    | Acquire(user: string, limitQty: int, perUser: int, told: bool)
    | Release(user: string, works: bool)
    | Warmup(limitQty: int)
    | Reconcile(remaining: int)
    | ExpireStock
    | ExpireUsers
    | SellOne
    | UnsellOne

  function CountOf(users: map<string, int>, u: string): int {
    if u in users then users[u] else 0
  }

  /** A limit of zero or less stands for one per user. */
  function PerUser(limit: int): int {
    if limit <= 0 then 1 else limit
  }

  function Seeded(stock: Counter, limitQty: int): int {
    if stock.Missing? then limitQty else stock.n
  }

  /** The acquire script: the user's limit is checked before the stock. */
  function Acquired(r: Redis, u: string, limitQty: int, perUser: int): (Redis, Answer) {
    var left := Seeded(r.stock, limitQty);
    if CountOf(r.users, u) >= PerUser(perUser) then (r.(stock := Stock(left)), UserLimit)
    else if left <= 0 then (r.(stock := Stock(left)), SoldOut)
    else (Redis(Stock(left - 1), r.users[u := CountOf(r.users, u) + 1]), OK(left - 1))
  }

  /** The release script: the stock goes up whether or not the user has anything to give back. */
  function Released(r: Redis, u: string): Redis {
    var count := CountOf(r.users, u);
    Redis(Stock(Seeded(r.stock, 0) + 1), if count > 0 then r.users[u := count - 1] else r.users)
  }

  function WarmedUp(r: Redis, limitQty: int): Redis {
    r.(stock := Stock(Seeded(r.stock, limitQty)))
  }

  function Reconciled(r: Redis, remaining: int): Redis {
    r.(stock := Stock(if remaining < 0 then 0 else remaining))
  }

  function Sold(sold: int, limitQty: int): (int, bool) {
    if sold < limitQty then (sold + 1, true) else (sold, false)
  }

  function Unsold(sold: int): int {
    if sold > 0 then sold - 1 else sold
  }

  function Init(limitQty: int): State {
    State(Redis(Missing, map[]), map[], 0, limitQty, 0, 0)
  }

  function Apply(s: State, step: Step): State {
    match step
    case Acquire(u, q, per, told) =>
      var (r, answer) := Acquired(s.redis, u, q, per);
      s.(redis := r, held := if answer.OK? && told then s.held[u := CountOf(s.held, u) + 1] else s.held)
    case Release(u, works) =>
      s.(redis := if works then Released(s.redis, u) else s.redis,
         held := if CountOf(s.held, u) > 0 then s.held[u := CountOf(s.held, u) - 1] else s.held)
    case Warmup(q) => s.(redis := WarmedUp(s.redis, q))
    case Reconcile(n) => s.(redis := Reconciled(s.redis, n))
    case ExpireStock => s.(redis := s.redis.(stock := Missing))
    case ExpireUsers => s.(redis := s.redis.(users := map[]))
    case SellOne =>
      var (sold, ok) := Sold(s.sold, s.limitQty);
      s.(sold := sold, sales := if ok then s.sales + 1 else s.sales)
    case UnsellOne => s.(sold := Unsold(s.sold), takenBack := if s.sold > 0 then s.takenBack + 1 else s.takenBack)
  }

  function Exec(s: State, steps: seq<Step>): State
    decreases |steps|
  {
    if steps == [] then s else Exec(Apply(s, steps[0]), steps[1..])
  }

  // ---------- conservation in Redis ----------

  /** What the two keys add up to; before the counter exists it counts as the seed. */
  ghost function Total(r: Redis, seed: int): int {
    Seeded(r.stock, seed) + SumMap(r.users)
  }

  /** The steps after which the keys still add up to the same; a missing counter counts as the seed until a script creates it. */
  ghost predicate Fair(s: State, step: Step, seed: int) {
    match step
    case Acquire(u, q, per, _) => s.redis.stock.Missing? ==> q == seed
    case Release(u, works) =>
      if !works then true
      else if s.redis.stock.Missing? then seed == if CountOf(s.redis.users, u) > 0 then 0 else 1
      else CountOf(s.redis.users, u) > 0
    case Warmup(q) => s.redis.stock.Missing? ==> q == seed
    case Reconcile(n) => (if n < 0 then 0 else n) == Seeded(s.redis.stock, seed)
    case ExpireStock => Seeded(s.redis.stock, seed) == seed
    case ExpireUsers => SumMap(s.redis.users) == 0
    case SellOne => true
    case UnsellOne => true
  }

  /** Stock plus user counts is kept by exactly these steps: above all, by a release exactly when that user has a count. */
  lemma StepConservesIffFair(s: State, step: Step, seed: int)
    ensures Total(Apply(s, step).redis, seed) == Total(s.redis, seed) <==> Fair(s, step, seed)
  {
    match step
    case Acquire(u, q, per, _) => SumMapSet(s.redis.users, u, CountOf(s.redis.users, u) + 1);
    case Release(u, _) => SumMapSet(s.redis.users, u, CountOf(s.redis.users, u) - 1);
    case _ =>
  }

  // ---------- limits that hold whatever happens ----------

  /** Everyone states the same limits, and the quantity is not negative. */
  predicate SameLimits(steps: seq<Step>, limitQty: int, perUser: int) {
    limitQty >= 0 && forall i :: 0 <= i < |steps| ==>
      match steps[i]
      case Acquire(_, q, per, _) => q == limitQty && per == perUser
      case Warmup(q) => q == limitQty
      case _ => true
  }

  ghost predicate Bounded(s: State, perUser: int) {
    && (s.redis.stock.Stock? ==> s.redis.stock.n >= 0)
    && (forall u :: u in s.redis.users ==> 0 <= s.redis.users[u] <= PerUser(perUser))
  }

  /**
   Over every run, stray releases, lost answers, reconciles and expiries included: the counter is
   never negative and no user's count leaves [0, limit].
   */
  lemma {:induction false} AlwaysBounded(s: State, steps: seq<Step>, perUser: int)
    requires Bounded(s, perUser) && SameLimits(steps, s.limitQty, perUser)
    ensures Bounded(Exec(s, steps), perUser)
    decreases |steps|
  {
    if steps != [] {
      AlwaysBounded(Apply(s, steps[0]), steps[1..], perUser);
    }
  }

  /** The row's own guards bound what is sold, whatever Redis holds and whatever limits its callers state. */
  lemma {:induction false} SoldStaysWithinLimit(s: State, steps: seq<Step>)
    requires 0 <= s.sold <= s.limitQty
    ensures 0 <= Exec(s, steps).sold <= s.limitQty
    decreases |steps|
  {
    if steps != [] {
      SoldStaysWithinLimit(Apply(s, steps[0]), steps[1..]);
    }
  }

  /** The row counts: every sale that was answered, less those taken back. */
  lemma {:induction false} SoldIsCounted(s: State, steps: seq<Step>)
    requires s.sold == s.sales - s.takenBack
    ensures var s' := Exec(s, steps); s'.sold == s'.sales - s'.takenBack && s'.limitQty == s.limitQty
    decreases |steps|
  {
    if steps != [] {
      SoldIsCounted(Apply(s, steps[0]), steps[1..]);
    }
  }

  /**
   In every run, whatever Redis holds: no more sales are answered than there are units and returns, a
   sale is answered exactly while units are left, and a return makes one available again.
   */
  lemma NoMoreSalesThanUnits(limitQty: nat, steps: seq<Step>)
    ensures var s := Exec(Init(limitQty), steps);
      && s.sold == s.sales - s.takenBack && s.sales <= limitQty + s.takenBack
      && Apply(s, SellOne).sales == (if s.sales - s.takenBack < limitQty then s.sales + 1 else s.sales)
      && Apply(s, UnsellOne).takenBack == (if s.sales > s.takenBack then s.takenBack + 1 else s.takenBack)
  {
    SoldIsCounted(Init(limitQty), steps);
    SoldStaysWithinLimit(Init(limitQty), steps);
    hide Exec;
  }

  // ---------- what users hold ----------

  /**
   What may happen in a run: releases by users who hold nothing (stray), expiry or reconciliation of
   the stock key, expiry of the users key, answers and releases that do not arrive (losses).
   */
  datatype Regime = Regime(stray: bool, stockResets: bool, usersExpire: bool, losses: bool)

  predicate Permits(r: Regime, s: State, step: Step) {
    match step
    case Acquire(_, _, _, told) => r.losses || told
    case Release(u, works) => (r.stray || CountOf(s.held, u) > 0) && (r.losses || works)
    case Reconcile(_) => r.stockResets
    case ExpireStock => r.stockResets
    case ExpireUsers => r.usersExpire
    case _ => true
  }

  predicate PermitsAll(r: Regime, s: State, steps: seq<Step>)
    decreases |steps|
  {
    steps == [] || (Permits(r, s, steps[0]) && PermitsAll(r, Apply(s, steps[0]), steps[1..]))
  }

  lemma {:induction false} ExecConcat(s: State, a: seq<Step>, b: seq<Step>, r: Regime)
    ensures Exec(s, a + b) == Exec(Exec(s, a), b)
    ensures PermitsAll(r, s, a) && PermitsAll(r, Exec(s, a), b) ==> PermitsAll(r, s, a + b)
    decreases |a|
  {
    hide Apply, Permits;
    if a == [] {
      assert a + b == b;
    } else {
      ExecConcat(Apply(s, a[0]), a[1..], b, r);
      assert (a + b)[1..] == a[1..] + b;
    }
  }

  lemma ExecOne(s: State, step: Step, r: Regime)
    ensures Exec(s, [step]) == Apply(s, step)
    ensures PermitsAll(r, s, [step]) <==> Permits(r, s, step)
  {
    hide Apply, Permits;
    assert [step][1..] == [];
  }

  lemma {:induction false} LimitStays(s: State, steps: seq<Step>)
    ensures Exec(s, steps).limitQty == s.limitQty
    decreases |steps|
  {
    if steps != [] {
      LimitStays(Apply(s, steps[0]), steps[1..]);
    }
  }

  // ---------- the total ----------

  /** What users hold, and what the counter has left for others. */
  ghost function HeldAndLeft(s: State): int {
    SumMap(s.held) + Seeded(s.redis.stock, s.limitQty)
  }

  ghost predicate Accounted(s: State, losses: bool) {
    && (forall u :: 0 <= CountOf(s.held, u))
    && HeldAndLeft(s) <= s.limitQty
    && (!losses ==> HeldAndLeft(s) == s.limitQty)
    && (s.redis.stock.Missing? ==> forall u :: CountOf(s.held, u) <= 0)
  }

  lemma StepKeepsAccounts(s: State, step: Step, perUser: int, r: Regime)
    requires Accounted(s, r.losses) && !r.stray && !r.stockResets
    requires Permits(r, s, step) && SameLimits([step], s.limitQty, perUser)
    ensures Accounted(Apply(s, step), r.losses)
  {
    assert [step][0] == step;
    var s' := Apply(s, step);
    if step.Acquire? || step.Release? {
      var u := step.user;
      assert 0 <= CountOf(s.held, u) && (s.redis.stock.Missing? ==> CountOf(s.held, u) <= 0);
      SumMapSet(s.held, u, CountOf(s.held, u) + if step.Acquire? then 1 else -1);
    }
    hide SumMap;
    forall v ensures 0 <= CountOf(s'.held, v) && (s'.redis.stock.Missing? ==> CountOf(s'.held, v) <= 0) {
      assert 0 <= CountOf(s.held, v) && (s.redis.stock.Missing? ==> CountOf(s.held, v) <= 0);
    }
  }

  lemma {:induction false} RunsKeepAccounts(s: State, steps: seq<Step>, perUser: int, r: Regime)
    requires Accounted(s, r.losses) && !r.stray && !r.stockResets
    requires PermitsAll(r, s, steps) && SameLimits(steps, s.limitQty, perUser)
    ensures Accounted(Exec(s, steps), r.losses)
    decreases |steps|
  {
    if steps != [] {
      StepKeepsAccounts(s, steps[0], perUser, r);
      RunsKeepAccounts(Apply(s, steps[0]), steps[1..], perUser, r);
    }
  }

  /**
   With limits fixed, releases matched to acquires and the stock key neither expired nor reconciled,
   Redis alone hands out no more than limitQty, expiry of the users key or not; without losses
   nothing gets stuck either.
   */
  lemma RedisNeverOversells(limitQty: int, perUser: int, r: Regime, steps: seq<Step>)
    requires !r.stray && !r.stockResets
    requires PermitsAll(r, Init(limitQty), steps) && SameLimits(steps, limitQty, perUser)
    ensures var s := Exec(Init(limitQty), steps);
      && HeldAndLeft(s) <= limitQty
      && (!r.losses ==> HeldAndLeft(s) == limitQty)
      && 0 <= Seeded(s.redis.stock, limitQty) <= limitQty
      && 0 <= SumMap(s.held)
      && forall u :: 0 <= CountOf(s.held, u) <= limitQty
  {
    RunsKeepAccounts(Init(limitQty), steps, perUser, r);
    AlwaysBounded(Init(limitQty), steps, perUser);
    LimitStays(Init(limitQty), steps);
    var s := Exec(Init(limitQty), steps);
    forall u | u in s.held ensures s.held[u] >= 0 {
      assert 0 <= CountOf(s.held, u);
    }
    SumMapNonNegative(s.held);
  }

  /** One unit too many: given back by someone who had none, or handed out again by a new counter. */
  function TooMany(limitQty: int, perUser: int, stray: bool): seq<Step> {
    if stray then [Warmup(limitQty)] + [Release("v", true)]
    else if limitQty > 0 then [Acquire("u", limitQty, perUser, true)] + [ExpireStock]
    else [Warmup(limitQty)] + [Reconcile(1)]
  }

  lemma TooManyOversells(limitQty: int, perUser: int, r: Regime)
    requires limitQty >= 0 && (r.stray || r.stockResets)
    ensures var steps := TooMany(limitQty, perUser, r.stray);
      && PermitsAll(r, Init(limitQty), steps) && SameLimits(steps, limitQty, perUser)
      && HeldAndLeft(Exec(Init(limitQty), steps)) == limitQty + 1
  {
    var s0 := Init(limitQty);
    var first, second := TooMany(limitQty, perUser, r.stray)[0], TooMany(limitQty, perUser, r.stray)[1];
    assert TooMany(limitQty, perUser, r.stray) == [first] + [second];
    var s1 := Apply(s0, first);
    SumMapSet(map[], "u", 1);
    assert map[]["u" := 1] == map["u" := 1];
    assert s1.held == if first.Acquire? then map["u" := 1] else map[];
    assert s1.redis.stock == Stock(if first.Acquire? then limitQty - 1 else limitQty);
    ExecConcat(s0, [first], [second], r);
    ExecOne(s0, first, r);
    ExecOne(s1, second, r);
  }

  /** The total is kept in every run exactly when releases are matched and the stock key is not reset. */
  lemma NeverOversellsIff(limitQty: int, perUser: int, r: Regime)
    requires limitQty >= 0
    ensures (forall steps :: PermitsAll(r, Init(limitQty), steps) && SameLimits(steps, limitQty, perUser) ==>
               HeldAndLeft(Exec(Init(limitQty), steps)) <= limitQty)
            <==> !r.stray && !r.stockResets
  {
    if r.stray || r.stockResets {
      TooManyOversells(limitQty, perUser, r);
    } else {
      forall steps | PermitsAll(r, Init(limitQty), steps) && SameLimits(steps, limitQty, perUser)
        ensures HeldAndLeft(Exec(Init(limitQty), steps)) <= limitQty
      {
        RedisNeverOversells(limitQty, perUser, r, steps);
      }
    }
  }

  // ---------- each user's limit ----------

  /** What a user holds is counted for that user. */
  ghost predicate Counted(s: State) {
    forall u :: 0 <= CountOf(s.held, u) <= CountOf(s.redis.users, u)
  }

  lemma StepKeepsCounts(s: State, step: Step)
    requires Counted(s) && !step.ExpireUsers?
    ensures Counted(Apply(s, step))
  {
    forall u ensures 0 <= CountOf(Apply(s, step).held, u) <= CountOf(Apply(s, step).redis.users, u) {
      assert 0 <= CountOf(s.held, u) <= CountOf(s.redis.users, u);
    }
  }

  lemma {:induction false} RunsKeepCounts(s: State, steps: seq<Step>, r: Regime)
    requires Counted(s) && !r.usersExpire && PermitsAll(r, s, steps)
    ensures Counted(Exec(s, steps))
    decreases |steps|
  {
    if steps != [] {
      StepKeepsCounts(s, steps[0]);
      RunsKeepCounts(Apply(s, steps[0]), steps[1..], r);
    }
  }

  /** As long as the users key does not expire nobody holds more than the limit, stray releases and new counters included. */
  lemma NobodyExceedsTheLimit(limitQty: int, perUser: int, r: Regime, steps: seq<Step>)
    requires !r.usersExpire && PermitsAll(r, Init(limitQty), steps) && SameLimits(steps, limitQty, perUser)
    ensures forall u :: 0 <= CountOf(Exec(Init(limitQty), steps).held, u) <= PerUser(perUser)
  {
    RunsKeepCounts(Init(limitQty), steps, r);
    AlwaysBounded(Init(limitQty), steps, perUser);
    var s := Exec(Init(limitQty), steps);
    forall u ensures 0 <= CountOf(s.held, u) <= PerUser(perUser) {
      assert 0 <= CountOf(s.held, u) <= CountOf(s.redis.users, u);
    }
  }

  function Repeat(step: Step, n: nat): seq<Step> {
    if n == 0 then [] else [step] + Repeat(step, n - 1)
  }

  lemma {:induction false} RepeatSame(step: Step, n: nat, limitQty: int, perUser: int)
    requires limitQty >= 0 && SameLimits([step], limitQty, perUser)
    ensures SameLimits(Repeat(step, n), limitQty, perUser)
  {
    if n > 0 {
      RepeatSame(step, n - 1, limitQty, perUser);
      assert [step][0] == step;
    }
  }

  /** The user "u" holds k units and is counted for them, nobody else holds any, and n are left. */
  predicate Holding(s: State, limitQty: int, n: nat, k: nat, counted: nat) {
    s.limitQty == limitQty && s.redis.stock == Stock(n) && CountOf(s.held, "u") == k && CountOf(s.redis.users, "u") == counted
  }

  lemma {:induction false} AcquiresUpTo(s: State, limitQty: int, perUser: int, r: Regime, n: nat, k: nat, j: nat)
    requires Holding(s, limitQty, n, k, k) && k + j <= PerUser(perUser) && j <= n
    ensures var steps := Repeat(Acquire("u", limitQty, perUser, true), j);
      PermitsAll(r, s, steps) && Holding(Exec(s, steps), limitQty, n - j, k + j, k + j)
    decreases j
  {
    if j > 0 {
      var step := Acquire("u", limitQty, perUser, true);
      assert Repeat(step, j)[1..] == Repeat(step, j - 1);
      AcquiresUpTo(Apply(s, step), limitQty, perUser, r, n - 1, k + 1, j - 1);
    }
  }

  lemma {:induction false} StrayReleasesAdd(s: State, limitQty: int, r: Regime, n: nat, j: nat)
    requires r.stray && Holding(s, limitQty, n, 0, 0) && CountOf(s.held, "v") == 0
    ensures var steps := Repeat(Release("v", true), j);
      PermitsAll(r, s, steps) && Holding(Exec(s, steps), limitQty, n + j, 0, 0)
    decreases j
  {
    if j > 0 {
      assert Repeat(Release("v", true), j)[1..] == Repeat(Release("v", true), j - 1);
      StrayReleasesAdd(Apply(s, Release("v", true)), limitQty, r, n + 1, j - 1);
    }
  }

  /** Makes more than the limit of one user available. */
  function Stocking(limitQty: int, perUser: int, r: Regime): seq<Step> {
    [Warmup(limitQty)] +
    (if limitQty > PerUser(perUser) then []
     else if r.stockResets then [Reconcile(PerUser(perUser) + 1)]
     else Repeat(Release("v", true), PerUser(perUser) + 1))
  }

  lemma StockingStocks(limitQty: int, perUser: int, r: Regime)
    requires limitQty >= 0 && (limitQty > PerUser(perUser) || r.stray || r.stockResets)
    ensures var steps := Stocking(limitQty, perUser, r);
      && PermitsAll(r, Init(limitQty), steps) && SameLimits(steps, limitQty, perUser)
      && exists n: nat :: n > PerUser(perUser) && Holding(Exec(Init(limitQty), steps), limitQty, n, 0, 0)
  {
    var p := PerUser(perUser);
    var s0 := Init(limitQty);
    var s1 := Apply(s0, Warmup(limitQty));
    var more := Stocking(limitQty, perUser, r)[1..];
    assert Stocking(limitQty, perUser, r) == [Warmup(limitQty)] + more;
    ExecConcat(s0, [Warmup(limitQty)], more, r);
    ExecOne(s0, Warmup(limitQty), r);
    assert Holding(s1, limitQty, limitQty, 0, 0);
    if limitQty > p {
      assert more == [];
    } else if r.stockResets {
      assert more == [Reconcile(p + 1)];
      ExecOne(s1, Reconcile(p + 1), r);
      assert Holding(Exec(s1, more), limitQty, p + 1, 0, 0);
    } else {
      assert more == Repeat(Release("v", true), p + 1);
      StrayReleasesAdd(s1, limitQty, r, limitQty, p + 1);
      RepeatSame(Release("v", true), p + 1, limitQty, perUser);
    }
  }

  /** One user takes the limit, the counts expire, and the same user takes another. */
  function TwiceTheLimit(limitQty: int, perUser: int, r: Regime): seq<Step> {
    var take := Acquire("u", limitQty, perUser, true);
    Stocking(limitQty, perUser, r) + (Repeat(take, PerUser(perUser)) + ([ExpireUsers] + [take]))
  }

  lemma ExpiryLetsOneMoreIn(s: State, limitQty: int, perUser: int, r: Regime, n: nat, k: nat)
    requires r.usersExpire && Holding(s, limitQty, n, k, k) && n > 0
    ensures var steps := [ExpireUsers] + [Acquire("u", limitQty, perUser, true)];
      PermitsAll(r, s, steps) && CountOf(Exec(s, steps).held, "u") == k + 1
  {
    var take := Acquire("u", limitQty, perUser, true);
    ExecConcat(s, [ExpireUsers], [take], r);
    ExecOne(s, ExpireUsers, r);
    ExecOne(Apply(s, ExpireUsers), take, r);
  }

  lemma TwiceTheLimitExceeds(limitQty: int, perUser: int, r: Regime)
    requires limitQty >= 0 && r.usersExpire && (limitQty > PerUser(perUser) || r.stray || r.stockResets)
    ensures var steps := TwiceTheLimit(limitQty, perUser, r);
      && PermitsAll(r, Init(limitQty), steps) && SameLimits(steps, limitQty, perUser)
      && CountOf(Exec(Init(limitQty), steps).held, "u") == PerUser(perUser) + 1
  {
    var p := PerUser(perUser);
    var take := Acquire("u", limitQty, perUser, true);
    var s0, stocking := Init(limitQty), Stocking(limitQty, perUser, r);
    StockingStocks(limitQty, perUser, r);
    var s1 := Exec(s0, stocking);
    var n: nat :| n > p && Holding(s1, limitQty, n, 0, 0);
    AcquiresUpTo(s1, limitQty, perUser, r, n, 0, p);
    var s2 := Exec(s1, Repeat(take, p));
    ExpiryLetsOneMoreIn(s2, limitQty, perUser, r, n - p, p);
    RepeatSame(take, p, limitQty, perUser);
    hide Apply, Exec, PermitsAll, Stocking, Repeat, Holding;
    ExecConcat(s1, Repeat(take, p), [ExpireUsers] + [take], r);
    ExecConcat(s0, stocking, Repeat(take, p) + ([ExpireUsers] + [take]), r);
  }

  /**
   No user ever holds more than the limit, in every run, exactly when the users key does not expire,
   or when there is not more than one user's limit to hold in the first place.
   */
  lemma UserLimitHoldsIff(limitQty: int, perUser: int, r: Regime)
    requires limitQty >= 0
    ensures (forall steps, u :: PermitsAll(r, Init(limitQty), steps) && SameLimits(steps, limitQty, perUser) ==>
               CountOf(Exec(Init(limitQty), steps).held, u) <= PerUser(perUser))
            <==> !r.usersExpire || (limitQty <= PerUser(perUser) && !r.stray && !r.stockResets)
  {
    if r.usersExpire && (limitQty > PerUser(perUser) || r.stray || r.stockResets) {
      TwiceTheLimitExceeds(limitQty, perUser, r);
    } else {
      forall steps, u | PermitsAll(r, Init(limitQty), steps) && SameLimits(steps, limitQty, perUser)
        ensures CountOf(Exec(Init(limitQty), steps).held, u) <= PerUser(perUser)
      {
        if r.usersExpire {
          RedisNeverOversells(limitQty, perUser, r, steps);
        } else {
          NobodyExceedsTheLimit(limitQty, perUser, r, steps);
        }
      }
    }
  }

  // ---------- as the program runs them ----------

  class FlashSaleStore {
    var stock: Counter
    var users: map<string, int>
    var soldQty: int
    var limitQty: int

    constructor (limitQty: int)
      ensures Now() == Redis(Missing, map[]) && soldQty == 0 && this.limitQty == limitQty
    {
      stock, users, soldQty := Missing, map[], 0;
      this.limitQty := limitQty;
    }

    ghost function Now(): Redis
      reads this
    {
      Redis(stock, users)
    }

    method TryAcquireFlashSale(user: string, limitQty: int, perUserLimit: int) returns (answer: Answer)
      modifies this`stock, this`users
      ensures (Now(), answer) == Acquired(old(Now()), user, limitQty, perUserLimit)
      ensures var left := if old(stock).Missing? then limitQty else old(stock).n;
        var count := if user in old(users) then old(users)[user] else 0;
        && answer == (if count >= (if perUserLimit <= 0 then 1 else perUserLimit) then UserLimit
                      else if left <= 0 then SoldOut else OK(left - 1))
        && stock == Stock(if answer.OK? then left - 1 else left)
        && users == if answer.OK? then old(users)[user := count + 1] else old(users)
    {
      var perLimit := perUserLimit;
      if perLimit <= 0 {
        perLimit := 1;
      }
      if stock.Missing? {
        stock := Stock(limitQty);
      }
      var ucnt := CountOf(users, user);
      if ucnt >= perLimit {
        return UserLimit;
      }
      if stock.n <= 0 {
        return SoldOut;
      }
      stock := Stock(stock.n - 1);
      users := users[user := ucnt + 1];
      return OK(stock.n);
    }

    method ReleaseFlashSale(user: string)
      modifies this`stock, this`users
      ensures Now() == Released(old(Now()), user)
      ensures stock == Stock(if old(stock).Missing? then 1 else old(stock).n + 1)
      ensures users == if user in old(users) && old(users)[user] > 0 then old(users)[user := old(users)[user] - 1] else old(users)
    {
      stock := Stock(Seeded(stock, 0) + 1);
      var u := CountOf(users, user);
      if u > 0 {
        users := users[user := u - 1];
      }
    }

    method WarmupFlashSale(limitQty: int)
      modifies this`stock
      ensures Now() == WarmedUp(old(Now()), limitQty)
      ensures stock == if old(stock).Missing? then Stock(limitQty) else old(stock)
    {
      if stock.Missing? {
        stock := Stock(limitQty);
      }
    }

    method ReconcileFlashSale(remaining: int)
      modifies this`stock
      ensures Now() == Reconciled(old(Now()), remaining)
      ensures stock == Stock(if remaining < 0 then 0 else remaining)
    {
      var left := remaining;
      if left < 0 {
        left := 0;
      }
      stock := Stock(left);
    }

    method AcquireFlashQuota() returns (ok: bool)
      modifies this`soldQty
      ensures (soldQty, ok) == Sold(old(soldQty), limitQty)
      ensures ok <==> old(soldQty) < limitQty
      ensures soldQty == if ok then old(soldQty) + 1 else old(soldQty)
    {
      ok := soldQty < limitQty;
      if ok {
        soldQty := soldQty + 1;
      }
    }

    method ReleaseFlashQuota()
      modifies this`soldQty
      ensures soldQty == Unsold(old(soldQty))
      ensures soldQty == if old(soldQty) > 0 then old(soldQty) - 1 else old(soldQty)
    {
      if soldQty > 0 {
        soldQty := soldQty - 1;
      }
    }
  }
}
