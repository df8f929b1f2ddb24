/**
 The lease lock in Redis and the leader electors on top of it: token-checked SET NX, refresh and
 unlock by any number of processes and threads, each call split where another thread or process
 can get in between, with errors on either side of the server and crashes. Time is in milliseconds
 on the one Redis clock.
 */
module Lease {

  datatype Key = Free | Held(token: nat, expiry: int)

  /** What a call to Redis reports: its answer, or an error that may have had the effect (took). */
  datatype Outcome = Ok | Error(took: bool)

  /** One Lock, RefreshLock or Unlock by process p, at the points where it can be interrupted. */
  datatype Call =
    | Over
    | Locked(p: nat, token: nat)
    | Refreshing(p: nat, token: nat)
    | Refused(p: nat)
    | Unlocking(p: nat, token: nat)
    | SettingFlag(p: nat, flag: bool)

  /**
   tokens is each process's lockTokens entry for the key, leaders the electors whose flag is up,
   dead the processes that crashed (a restart is a new process). owner (who drew each token),
   granted (when each token last won a Lock or RefreshLock) and released are not read by the program.
   */
  datatype State = State(
    ttl: int,
    clock: int,
    key: Key,
    tokens: map<nat, nat>,
    leaders: set<nat>,
    calls: seq<Call>,
    dead: set<nat>,
    owner: seq<nat>,
    granted: map<nat, int>,
    released: set<nat>)

  datatype Step =
    | Advance(ms: nat)
    | Lock(p: nat, outcome: Outcome)
    | Store(c: nat)
    | Peek(p: nat)
    | Extend(c: nat, outcome: Outcome)
    | Forget(c: nat)
    | Pop(p: nat)
    | Delete(c: nat, outcome: Outcome)
    | SetFlag(c: nat)
    | Crash(p: nat)

  function Init(ttl: int): State {
    State(ttl, 0, Free, map[], {}, [], {}, [], map[], {})
  }

  // ---------- Redis ----------

  /** A key past its expiry reads as absent. */
  predicate Live(key: Key, clock: int) {
    key.Held? && clock < key.expiry
  }

  function SetNX(key: Key, clock: int, token: nat, ttl: int): Key {
    if Live(key, clock) then key else Held(token, clock + ttl)
  }

  /** The get == token test of both scripts. */
  predicate Matches(key: Key, clock: int, token: nat) {
    Live(key, clock) && key.token == token
  }

  /** EXPIRE takes whole seconds: the ttl is cut to them, and zero seconds make the key expire at once. */
  function RefreshScript(key: Key, clock: int, token: nat, ttl: int): Key {
    if Matches(key, clock, token) then Held(token, clock + ttl / 1000 * 1000) else key
  }

  function UnlockScript(key: Key, clock: int, token: nat): Key {
    if Matches(key, clock, token) then Free else key
  }

  // ---------- steps ----------

  function CallAt(s: State, c: nat): Call {
    if c < |s.calls| && !s.calls[c].Over? && s.calls[c].p !in s.dead then s.calls[c] else Over
  }

  function Goes(s: State, c: nat, k: Call): State
    requires c < |s.calls|
  {
    s.(calls := s.calls[c := k])
  }

  function Begins(s: State, k: Call): State {
    s.(calls := s.calls + [k])
  }

  function DoLock(s: State, p: nat, o: Outcome): State {
    var token := |s.owner|;
    var won := !Live(s.key, s.clock);
    var s1 := s.(owner := s.owner + [p], key := if o.Ok? || o.took then SetNX(s.key, s.clock, token, s.ttl) else s.key);
    if o.Error? then s1
    else if won then Begins(s1.(granted := s.granted[token := s.clock]), Locked(p, token))
    else Begins(s1, SettingFlag(p, false))
  }

  function DoStore(s: State, c: nat): State
    requires CallAt(s, c).Locked?
  {
    var Locked(p, token) := s.calls[c];
    Goes(s.(tokens := s.tokens[p := token]), c, SettingFlag(p, true))
  }

  function DoPeek(s: State, p: nat): State {
    Begins(s, if p in s.tokens then Refreshing(p, s.tokens[p]) else SettingFlag(p, false))
  }

  function DoExtend(s: State, c: nat, o: Outcome): State
    requires CallAt(s, c).Refreshing?
  {
    var Refreshing(p, token) := s.calls[c];
    var s1 := if o.Ok? || o.took then s.(key := RefreshScript(s.key, s.clock, token, s.ttl)) else s;
    if o.Error? then Goes(s1, c, Over)
    else if Matches(s.key, s.clock, token) then Goes(s1.(granted := s.granted[token := s.clock]), c, SettingFlag(p, true))
    else Goes(s1, c, Refused(p))
  }

  function DoForget(s: State, c: nat): State
    requires CallAt(s, c).Refused?
  {
    Goes(s.(tokens := s.tokens - {s.calls[c].p}), c, SettingFlag(s.calls[c].p, false))
  }

  function DoPop(s: State, p: nat): State {
    if p in s.tokens then
      Begins(s.(tokens := s.tokens - {p}, released := s.released + {s.tokens[p]}), Unlocking(p, s.tokens[p]))
    else Begins(s, SettingFlag(p, false))
  }

  function DoDelete(s: State, c: nat, o: Outcome): State
    requires CallAt(s, c).Unlocking?
  {
    var Unlocking(p, token) := s.calls[c];
    Goes(if o.Ok? || o.took then s.(key := UnlockScript(s.key, s.clock, token)) else s, c, SettingFlag(p, false))
  }

  function DoSetFlag(s: State, c: nat): State
    requires CallAt(s, c).SettingFlag?
  {
    var SettingFlag(p, flag) := s.calls[c];
    Goes(s.(leaders := if flag then s.leaders + {p} else s.leaders - {p}), c, Over)
  }

  /** One step; a step that is not enabled changes nothing. */
  function Apply(s: State, step: Step): State {
    match step
    case Advance(ms) => s.(clock := s.clock + ms)
    case Lock(p, o) => if p in s.dead then s else DoLock(s, p, o)
    case Store(c) => if CallAt(s, c).Locked? then DoStore(s, c) else s
    case Peek(p) => if p in s.dead then s else DoPeek(s, p)
    case Extend(c, o) => if CallAt(s, c).Refreshing? then DoExtend(s, c, o) else s
    case Forget(c) => if CallAt(s, c).Refused? then DoForget(s, c) else s
    case Pop(p) => if p in s.dead then s else DoPop(s, p)
    case Delete(c, o) => if CallAt(s, c).Unlocking? then DoDelete(s, c, o) else s
    case SetFlag(c) => if CallAt(s, c).SettingFlag? then DoSetFlag(s, c) else s
    case Crash(p) => s.(dead := s.dead + {p}, leaders := s.leaders - {p})
  }

  function Exec(s: State, steps: seq<Step>): State
    decreases |steps|
  {
    if steps == [] then s else Exec(Apply(s, steps[0]), steps[1..])
  }

  // ---------- invariants ----------

  /** Token k won a Lock or RefreshLock less than a ttl ago and its Unlock has not begun. */
  predicate Leased(s: State, k: nat) {
    k in s.granted && k !in s.released && s.clock < s.granted[k] + s.ttl
  }

  /** Tokens are drawn before they are used, and no process stores a token it did not draw. */
  ghost predicate TokenInv(s: State) {
    && (s.key.Held? ==> s.key.token < |s.owner|)
    && (forall k :: k in s.granted ==> k < |s.owner| && s.granted[k] <= s.clock)
    && (forall k :: k in s.released ==> k < |s.owner|)
    && (forall p :: p in s.tokens ==> s.tokens[p] < |s.owner| && s.owner[s.tokens[p]] == p)
  }

  /** Every call uses only a token that its own process drew. */
  ghost predicate CallInv(s: State) {
    forall c :: 0 <= c < |s.calls| && (s.calls[c].Locked? || s.calls[c].Refreshing? || s.calls[c].Unlocking?) ==>
      s.calls[c].token < |s.owner| && s.owner[s.calls[c].token] == s.calls[c].p
  }

  ghost predicate OwnerInv(s: State) {
    TokenInv(s) && CallInv(s)
  }

  ghost predicate UnlockInv(s: State) {
    forall c :: 0 <= c < |s.calls| && s.calls[c].Unlocking? ==> s.calls[c].token in s.released
  }

  /** A lease is backed by the key, for as long as it lasts. */
  ghost predicate LeaseInv(s: State) {
    && UnlockInv(s)
    && (forall k :: Leased(s, k) ==> s.key.Held? && s.key.token == k && s.granted[k] + s.ttl <= s.key.expiry)
  }

  /** No key outlives one ttl from now. */
  predicate ExpiryInv(s: State) {
    s.ttl > 0 && (s.key.Held? ==> s.key.expiry <= s.clock + s.ttl)
  }

  lemma LockKeepsTokens(s: State, p: nat, o: Outcome)
    requires TokenInv(s)
    ensures TokenInv(DoLock(s, p, o))
  {
  }

  lemma ExtendKeepsTokens(s: State, c: nat, o: Outcome)
    requires OwnerInv(s) && CallAt(s, c).Refreshing?
    ensures TokenInv(DoExtend(s, c, o))
  {
  }

  lemma StepKeepsTokens(s: State, step: Step)
    requires OwnerInv(s)
    ensures TokenInv(Apply(s, step))
  {
    hide DoLock, DoExtend;
    match step
    case Lock(p, o) => LockKeepsTokens(s, p, o);
    case Extend(c, o) => if CallAt(s, c).Refreshing? { ExtendKeepsTokens(s, c, o); }
    case _ =>
  }

  lemma LockKeepsCalls(s: State, p: nat, o: Outcome)
    requires OwnerInv(s)
    ensures CallInv(DoLock(s, p, o))
  {
  }

  lemma ExtendKeepsCalls(s: State, c: nat, o: Outcome)
    requires CallInv(s) && CallAt(s, c).Refreshing?
    ensures CallInv(DoExtend(s, c, o))
  {
  }

  lemma StepKeepsCalls(s: State, step: Step)
    requires OwnerInv(s)
    ensures CallInv(Apply(s, step))
  {
    hide DoLock, DoExtend;
    match step
    case Lock(p, o) => LockKeepsCalls(s, p, o);
    case Extend(c, o) => if CallAt(s, c).Refreshing? { ExtendKeepsCalls(s, c, o); }
    case _ =>
  }

  lemma StepKeepsOwner(s: State, step: Step)
    requires OwnerInv(s)
    ensures OwnerInv(Apply(s, step))
    ensures Apply(s, step).ttl == s.ttl
  {
    StepKeepsTokens(s, step);
    StepKeepsCalls(s, step);
  }

  lemma StepKeepsUnlock(s: State, step: Step)
    requires UnlockInv(s)
    ensures UnlockInv(Apply(s, step))
  {
  }

  lemma StepKeepsLease(s: State, step: Step)
    requires OwnerInv(s) && LeaseInv(s) && s.ttl % 1000 == 0
    ensures LeaseInv(Apply(s, step))
  {
    StepKeepsUnlock(s, step);
    assert s.ttl / 1000 * 1000 == s.ttl;
    var s' := Apply(s, step);
    forall k | Leased(s', k) ensures s'.key.Held? && s'.key.token == k && s'.granted[k] + s.ttl <= s'.key.expiry {
      if k in s.granted && s'.granted[k] == s.granted[k] {
        assert Leased(s, k);
      }
    }
  }

  lemma StepKeepsExpiry(s: State, step: Step)
    requires ExpiryInv(s)
    ensures ExpiryInv(Apply(s, step))
  {
  }

  lemma {:induction false} RunKeeps(s: State, steps: seq<Step>)
    requires OwnerInv(s) && ExpiryInv(s)
    ensures OwnerInv(Exec(s, steps)) && ExpiryInv(Exec(s, steps))
    ensures Exec(s, steps).ttl == s.ttl
    decreases |steps|
  {
    hide Apply, TokenInv, CallInv, ExpiryInv;
    if steps != [] {
      StepKeepsOwner(s, steps[0]);
      StepKeepsExpiry(s, steps[0]);
      RunKeeps(Apply(s, steps[0]), steps[1..]);
    }
  }

  lemma {:induction false} RunKeepsLease(s: State, steps: seq<Step>)
    requires OwnerInv(s) && LeaseInv(s) && s.ttl % 1000 == 0
    ensures LeaseInv(Exec(s, steps))
    decreases |steps|
  {
    hide Apply, TokenInv, CallInv, LeaseInv;
    if steps != [] {
      StepKeepsOwner(s, steps[0]);
      StepKeepsLease(s, steps[0]);
      RunKeepsLease(Apply(s, steps[0]), steps[1..]);
    }
  }

  // ---------- what holds over whole runs ----------

  /** No two different tokens, hence no two processes, hold a lease at once. */
  ghost predicate OneHolder(s: State) {
    forall j, k :: Leased(s, j) && Leased(s, k) ==> j == k
  }

  /** Lock, refresh at once, wait out the truncated ttl; then a second process locks. */
  function TruncatedRun(ttl: int): seq<Step>
    requires ttl > 0
  {
    [Lock(0, Ok), Store(0), Peek(0)] + [Extend(1, Ok), Advance(ttl / 1000 * 1000), Lock(1, Ok)]
  }

  lemma TruncatedRunSharesTheLease(ttl: int)
    requires ttl > 0 && ttl % 1000 != 0
    ensures var s := Exec(Init(ttl), TruncatedRun(ttl));
      Leased(s, 0) && Leased(s, 1) && s.owner == [0, 1]
  {
    var wait := ttl / 1000 * 1000;
    var s3 := Apply(Apply(Apply(Init(ttl), Lock(0, Ok)), Store(0)), Peek(0));
    assert s3 == Init(ttl).(key := Held(0, ttl), tokens := map[0 := 0], calls := [SettingFlag(0, true), Refreshing(0, 0)],
                            owner := [0], granted := map[0 := 0]);
    ExecThree(Init(ttl), Lock(0, Ok), Store(0), Peek(0), [Extend(1, Ok), Advance(wait), Lock(1, Ok)]);
    ExecThree(s3, Extend(1, Ok), Advance(wait), Lock(1, Ok), []);
    assert [Extend(1, Ok), Advance(wait), Lock(1, Ok)] + [] == [Extend(1, Ok), Advance(wait), Lock(1, Ok)];
    var s4 := Apply(s3, Extend(1, Ok));
    assert s4.key == Held(0, wait) && s4.granted == map[0 := 0];
    var s5 := Apply(s4, Advance(wait));
    assert s5.clock == wait && s5.owner == [0] && !Live(s5.key, s5.clock);
    var s6 := Apply(s5, Lock(1, Ok));
    assert s6.owner == [0] + [1] && s6.granted == map[0 := 0, 1 := wait] && s6.released == {} && s6.clock == wait;
    assert Exec(s6, []) == s6;
  }

  lemma ExecThree(s: State, a: Step, b: Step, c: Step, rest: seq<Step>)
    ensures Exec(s, [a, b, c] + rest) == Exec(Apply(Apply(Apply(s, a), b), c), rest)
  {
    ExecFirst(s, a, [b, c] + rest);
    assert [a, b, c] + rest == [a] + ([b, c] + rest);
    ExecFirst(Apply(s, a), b, [c] + rest);
    assert [b, c] + rest == [b] + ([c] + rest);
    ExecFirst(Apply(Apply(s, a), b), c, rest);
  }

  lemma ExecFirst(s: State, a: Step, rest: seq<Step>)
    ensures Exec(s, [a] + rest) == Exec(Apply(s, a), rest)
  {
    hide Apply;
    assert ([a] + rest)[1..] == rest;
  }

  /**
   The lease is exclusive in every run exactly when the ttl is a whole number of seconds: Lock keeps
   milliseconds, but RefreshLock hands EXPIRE the ttl cut to seconds.
   */
  lemma LeaseIsExclusiveIffWholeSeconds(ttl: int)
    requires ttl > 0
    ensures (forall steps :: OneHolder(Exec(Init(ttl), steps))) <==> ttl % 1000 == 0
  {
    if ttl % 1000 == 0 {
      forall steps ensures OneHolder(Exec(Init(ttl), steps)) {
        RunKeepsLease(Init(ttl), steps);
      }
    } else {
      TruncatedRunSharesTheLease(ttl);
      assert !OneHolder(Exec(Init(ttl), TruncatedRun(ttl)));
    }
  }

  /** Whatever the ttl, a refresh or an unlock changes the key only while it holds a token its own process drew. */
  lemma NobodyTouchesAnothersKey(ttl: int, steps: seq<Step>, c: nat, o: Outcome)
    requires ttl > 0
    ensures var s := Exec(Init(ttl), steps);
      && (Apply(s, Extend(c, o)).key != s.key || Apply(s, Delete(c, o)).key != s.key ==>
            && c < |s.calls| && !s.calls[c].Over?
            && s.key.Held? && s.key.token < |s.owner| && s.owner[s.key.token] == s.calls[c].p)
  {
    RunKeeps(Init(ttl), steps);
  }

  /** A holder that stops renewing, dead or not, is out within one ttl: any live process can then lock. */
  lemma AbandonedLockIsFreeWithinTtl(ttl: int, steps: seq<Step>, wait: nat, p: nat)
    requires ttl > 0 && wait >= ttl
    ensures var s := Apply(Exec(Init(ttl), steps), Advance(wait));
      p !in s.dead ==> Leased(Apply(s, Lock(p, Ok)), |s.owner|) && Apply(s, Lock(p, Ok)).owner == s.owner + [p]
  {
    RunKeeps(Init(ttl), steps);
    var s := Apply(Exec(Init(ttl), steps), Advance(wait));
    assert |s.owner| !in s.released;
  }

  // ---------- the flag is weaker than the lease ----------

  ghost predicate HoldsLease(s: State, p: nat) {
    exists k: nat :: Leased(s, k) && k < |s.owner| && s.owner[k] == p
  }

  /** Two electors one after the other, the first without a tick since its lease ran out. */
  function OverlapRun(ttl: nat): seq<Step> {
    [Lock(0, Ok), Store(0), SetFlag(0)] + ([Advance(ttl), Lock(1, Ok), Store(1)] + [SetFlag(1)])
  }

  /** An elector whose lease has run out stays flagged until it hears otherwise, beside the next one. */
  lemma FlagsMayOverlap(ttl: nat)
    requires ttl > 0
    ensures var s := Exec(Init(ttl), OverlapRun(ttl));
      s.leaders == {0, 1} && HoldsLease(s, 1) && !HoldsLease(s, 0)
  {
    var s3 := Apply(Apply(Apply(Init(ttl), Lock(0, Ok)), Store(0)), SetFlag(0));
    assert s3 == Init(ttl).(key := Held(0, ttl), tokens := map[0 := 0], leaders := {0}, calls := [Over],
                            owner := [0], granted := map[0 := 0]);
    var s6 := Apply(Apply(Apply(s3, Advance(ttl)), Lock(1, Ok)), Store(1));
    assert s6.owner == [0] + [1] && s6.granted == map[0 := 0, 1 := ttl] && s6.released == {} && s6.clock == ttl;
    assert s6.calls == [Over] + [SettingFlag(1, true)] && s6.leaders == {0};
    var s := Apply(s6, SetFlag(1));
    assert Leased(s, 1) && !Leased(s, 0);
    hide Apply;
    ExecThree(Init(ttl), Lock(0, Ok), Store(0), SetFlag(0), [Advance(ttl), Lock(1, Ok), Store(1)] + [SetFlag(1)]);
    ExecThree(s3, Advance(ttl), Lock(1, Ok), Store(1), [SetFlag(1)]);
    ExecFirst(s6, SetFlag(1), []);
    assert [SetFlag(1)] + [] == [SetFlag(1)];
  }

  /** But with a whole-second ttl at most one process holds the lease, in every run, whoever is flagged. */
  lemma OneProcessHoldsTheLease(ttl: int, steps: seq<Step>, p: nat, q: nat)
    requires ttl > 0 && ttl % 1000 == 0
    ensures var s := Exec(Init(ttl), steps); HoldsLease(s, p) && HoldsLease(s, q) ==> p == q
  {
    RunKeepsLease(Init(ttl), steps);
  }

  // ---------- when a Stop sticks ----------

  /** Call c of process p is on its way to raise the flag. */
  predicate Raises(s: State, c: nat, p: nat) {
    c < |s.calls| &&
    match s.calls[c]
    case Locked(q, _) => q == p
    case SettingFlag(q, flag) => q == p && flag
    case Refreshing(q, token) => q == p && Matches(s.key, s.clock, token)
    case _ => false
  }

  ghost predicate Quiet(s: State, p: nat) {
    p !in s.leaders && (p in s.dead || forall c :: !Raises(s, c, p))
  }

  /** p begins no further tick; its loop may still begin one after Stop, if its ticker fires before it sees the stop channel. */
  predicate NoNewTick(step: Step, p: nat) {
    !(step.Lock? && step.p == p) && !(step.Peek? && step.p == p)
  }

  predicate NoNewTicks(steps: seq<Step>, p: nat) {
    forall i :: 0 <= i < |steps| ==> NoNewTick(steps[i], p)
  }

  /** A token that does not match never matches again: fresh locks draw fresh tokens. */
  lemma MismatchStays(s: State, step: Step, token: nat)
    requires token < |s.owner| && !Matches(s.key, s.clock, token)
    ensures !Matches(Apply(s, step).key, Apply(s, step).clock, token)
  {
  }

  lemma StepKeepsRaises(s: State, step: Step, p: nat, c: nat)
    requires CallInv(s) && !Raises(s, c, p) && p !in s.dead && NoNewTick(step, p)
    ensures !Raises(Apply(s, step), c, p)
  {
    if c < |s.calls| && s.calls[c].Refreshing? && s.calls[c].p == p {
      MismatchStays(s, step, s.calls[c].token);
    }
  }

  lemma StepKeepsQuiet(s: State, step: Step, p: nat)
    requires CallInv(s) && Quiet(s, p) && NoNewTick(step, p)
    ensures Quiet(Apply(s, step), p)
  {
    assert p !in Apply(s, step).leaders by {
      if step.SetFlag? && CallAt(s, step.c).SettingFlag? && p !in s.dead { assert !Raises(s, step.c, p); }
    }
    if p !in s.dead {
      forall c: nat ensures !Raises(Apply(s, step), c, p) { StepKeepsRaises(s, step, p, c); }
    } else {
      assert p in Apply(s, step).dead;
    }
  }

  lemma {:induction false} QuietForever(s: State, steps: seq<Step>, p: nat)
    requires OwnerInv(s) && Quiet(s, p) && NoNewTicks(steps, p)
    ensures p !in Exec(s, steps).leaders
    decreases |steps|
  {
    if steps != [] {
      assert NoNewTick(steps[0], p);
      StepKeepsQuiet(s, steps[0], p);
      StepKeepsOwner(s, steps[0]);
      hide Apply, Quiet, TokenInv, CallInv;
      QuietForever(Apply(s, steps[0]), steps[1..], p);
    }
  }

  /** The steps of p's own calls that bring the flag up. */
  function RaisingSteps(s: State, c: nat): seq<Step>
    requires c < |s.calls|
  {
    [if s.calls[c].Locked? then Store(c) else if s.calls[c].Refreshing? then Extend(c, Ok) else Advance(0)] + [SetFlag(c)]
  }

  lemma RaisingStepsRaise(s: State, c: nat, p: nat)
    requires Raises(s, c, p) && p !in s.dead
    ensures p in Exec(s, RaisingSteps(s, c)).leaders && NoNewTicks(RaisingSteps(s, c), p)
  {
    var first := RaisingSteps(s, c)[0];
    var s1 := Apply(s, first);
    assert CallAt(s1, c) == SettingFlag(p, true);
    assert p in Apply(s1, SetFlag(c)).leaders;
    hide Apply;
    ExecFirst(s, first, [SetFlag(c)]);
    ExecFirst(s1, SetFlag(c), []);
    assert [SetFlag(c)] + [] == [SetFlag(c)];
  }

  /**
   When the flag of p is down and p begins no further tick, it stays down in every continuation, other
   processes, threads and time included, exactly when p is dead or none of its calls has won a lock
   it has not stored yet, is about to raise the flag, or is refreshing a key that still holds its token.
   */
  lemma StopSticksIff(ttl: int, run: seq<Step>, p: nat)
    requires ttl > 0 && p !in Exec(Init(ttl), run).leaders
    ensures var s := Exec(Init(ttl), run);
      (forall steps :: NoNewTicks(steps, p) ==> p !in Exec(s, steps).leaders)
      <==> p in s.dead || forall c :: !Raises(s, c, p)
  {
    RunKeeps(Init(ttl), run);
    var s := Exec(Init(ttl), run);
    if p in s.dead || forall c :: !Raises(s, c, p) {
      forall steps | NoNewTicks(steps, p) ensures p !in Exec(s, steps).leaders {
        QuietForever(s, steps, p);
      }
    } else {
      var c: nat :| Raises(s, c, p);
      RaisingStepsRaise(s, c, p);
    }
  }

  /** And a Stop can find such a call: a tick that has won the key but not stored its token. */
  lemma StopDuringLockLeavesLeader(ttl: int)
    requires ttl > 0
    ensures var stopped := Exec(Init(ttl), [Lock(0, Ok), Pop(0), SetFlag(1)] + []);
      var s := Exec(stopped, [Advance(0), Store(0), SetFlag(0)] + []);
      0 !in stopped.leaders && 0 in s.leaders && Live(s.key, s.clock) && HoldsLease(s, 0)
  {
    var s3 := Apply(Apply(Apply(Init(ttl), Lock(0, Ok)), Pop(0)), SetFlag(1));
    assert s3 == Init(ttl).(key := Held(0, ttl), calls := [Locked(0, 0), Over], owner := [0], granted := map[0 := 0]);
    var s := Apply(Apply(Apply(s3, Advance(0)), Store(0)), SetFlag(0));
    assert Leased(s, 0) && s.owner[0] == 0;
    hide Apply;
    ExecThree(Init(ttl), Lock(0, Ok), Pop(0), SetFlag(1), []);
    ExecThree(s3, Advance(0), Store(0), SetFlag(0), []);
  }
}
