/** The lock client and the elector as the program writes them, tied to the interleaved model. */
module LeaderElection {
  import opened Lease

  datatype Token = NoToken | Token(id: nat)

  /** Redis, one process's token entry, and its elector's flag. */
  datatype View = View(key: Key, token: Token, leader: bool)

  /** One undisturbed Lock with a newly drawn token; the answer is meaningful only without an error. */
  function AfterLock(v: View, clock: int, ttl: int, drawn: nat, o: Outcome): (View, bool) {
    var key := if o.Ok? || o.took then SetNX(v.key, clock, drawn, ttl) else v.key;
    if o.Ok? && !Live(v.key, clock) then (v.(key := key, token := Token(drawn)), true)
    else (v.(key := key), false)
  }

  function AfterRefresh(v: View, clock: int, ttl: int, o: Outcome): (View, bool) {
    if v.token.NoToken? then (v, false)
    else
      var key := if o.Ok? || o.took then RefreshScript(v.key, clock, v.token.id, ttl) else v.key;
      if o.Error? then (v.(key := key), false)
      else if Matches(v.key, clock, v.token.id) then (v.(key := key), true)
      else (v.(key := key, token := NoToken), false)
  }

  function AfterUnlock(v: View, clock: int, o: Outcome): View {
    if v.token.NoToken? then v
    else v.(key := if o.Ok? || o.took then UnlockScript(v.key, clock, v.token.id) else v.key, token := NoToken)
  }

  /** One undisturbed tick: renew or acquire, and keep the flag on errors. */
  function AfterTick(v: View, clock: int, ttl: int, drawn: nat, o: Outcome): View {
    var (v', ok) := if v.leader then AfterRefresh(v, clock, ttl, o) else AfterLock(v, clock, ttl, drawn, o);
    if o.Error? && !(v.leader && v.token.NoToken?) then v' else v'.(leader := ok)
  }

  /** What process p sees of a state. */
  function ViewOf(s: State, p: nat): View {
    View(s.key, if p in s.tokens then Token(s.tokens[p]) else NoToken, p in s.leaders)
  }

  /** The steps an undisturbed tick of p consists of. */
  function TickSteps(s: State, p: nat, o: Outcome): seq<Step> {
    var c := |s.calls|;
    if p in s.leaders then [Peek(p), Extend(c, o), Forget(c)] + [SetFlag(c)] else [Lock(p, o), Store(c), SetFlag(c)] + []
  }

  lemma LockIsARun(s: State, p: nat, o: Outcome)
    requires p !in s.dead && p !in s.leaders
    ensures var c := |s.calls|;
      var s' := Apply(Apply(Apply(s, Lock(p, o)), Store(c)), SetFlag(c));
      ViewOf(s', p) == AfterTick(ViewOf(s, p), s.clock, s.ttl, |s.owner|, o)
  {
    var c := |s.calls|;
    var s1 := Apply(s, Lock(p, o));
    if o.Error? {
      assert CallAt(s1, c).Over?;
    } else {
      var s2 := Apply(s1, Store(c));
      assert s2.calls[c].SettingFlag? && CallAt(s2, c) == s2.calls[c];
    }
  }

  lemma RefreshIsARun(s: State, p: nat, o: Outcome)
    requires p !in s.dead && p in s.leaders
    ensures var c := |s.calls|;
      var s' := Apply(Apply(Apply(Apply(s, Peek(p)), Extend(c, o)), Forget(c)), SetFlag(c));
      ViewOf(s', p) == AfterTick(ViewOf(s, p), s.clock, s.ttl, |s.owner|, o)
  {
    var c := |s.calls|;
    var s1 := Apply(s, Peek(p));
    var s2 := Apply(s1, Extend(c, o));
    assert s1.calls[c] == CallAt(s1, c);
    var s3 := Apply(s2, Forget(c));
    if p in s.tokens {
      assert s2 == DoExtend(s1, c, o);
    }
  }

  /** An undisturbed tick is the interleaved run whose steps follow each other. */
  lemma TickIsARun(s: State, p: nat, o: Outcome)
    requires p !in s.dead
    ensures ViewOf(Exec(s, TickSteps(s, p, o)), p) == AfterTick(ViewOf(s, p), s.clock, s.ttl, |s.owner|, o)
  {
    var c := |s.calls|;
    if p in s.leaders {
      RefreshIsARun(s, p, o);
      ExecThree(s, Peek(p), Extend(c, o), Forget(c), [SetFlag(c)]);
      var s' := Apply(Apply(Apply(s, Peek(p)), Extend(c, o)), Forget(c));
      assert Exec(s', [SetFlag(c)]) == Exec(Apply(s', SetFlag(c)), []);
    } else {
      LockIsARun(s, p, o);
      ExecThree(s, Lock(p, o), Store(c), SetFlag(c), []);
    }
  }

  /** An undisturbed Stop: pop the token, unlock with it, lower the flag whatever Redis answers. */
  lemma StopIsARun(s: State, p: nat, o: Outcome)
    requires p !in s.dead
    ensures var c := |s.calls|;
      var s' := Exec(s, [Pop(p), Delete(c, o), SetFlag(c)] + []);
      && ViewOf(s', p) == AfterUnlock(ViewOf(s, p), s.clock, o).(leader := false)
      && (p in s.tokens ==> !Leased(s', s.tokens[p]))
  {
    var c := |s.calls|;
    ExecThree(s, Pop(p), Delete(c, o), SetFlag(c), []);
    var s1 := Apply(s, Pop(p));
    var s2 := Apply(s1, Delete(c, o));
    assert s2.calls[c] == SettingFlag(p, false);
  }

  /**
   And it lets the next one in: once a Stop has reached Redis while its token was in the key, any live
   process that locks at the same moment holds the lease.
   */
  lemma StopFreesTheLock(ttl: int, run: seq<Step>, p: nat, o: Outcome, q: nat)
    requires ttl > 0 && (o.Ok? || o.took)
    requires var s := Exec(Init(ttl), run);
      && p !in s.dead && q !in s.dead
      && p in s.tokens && s.key.Held? && s.clock < s.key.expiry && s.key.token == s.tokens[p]
    ensures var s := Exec(Init(ttl), run);
      var stopped := Exec(s, [Pop(p), Delete(|s.calls|, o), SetFlag(|s.calls|)] + []);
      var next := Apply(stopped, Lock(q, Ok));
      && stopped.clock == s.clock && stopped.key == Free
      && Leased(next, |s.owner|) && next.owner == s.owner + [q] && next.key == Held(|s.owner|, s.clock + ttl)
  {
    RunKeeps(Init(ttl), run);
    var s := Exec(Init(ttl), run);
    hide Exec;
    var c := |s.calls|;
    ExecThree(s, Pop(p), Delete(c, o), SetFlag(c), []);
    NothingLeft(Apply(Apply(Apply(s, Pop(p)), Delete(c, o)), SetFlag(c)));
    var s1 := Apply(s, Pop(p));
    assert s1.calls[c] == Unlocking(p, s.tokens[p]) && CallAt(s1, c) == s1.calls[c];
    var s2 := Apply(s1, Delete(c, o));
    assert s2.key == Free && s2.calls[c] == SettingFlag(p, false);
  }

  lemma NothingLeft(s: State)
    ensures Exec(s, []) == s
  {
  }

  class RedisServer {
    var clock: int
    var key: Key

    constructor ()
      ensures clock == 0 && key == Free
    {
      clock, key := 0, Free;
    }

    method SetIfAbsent(token: nat, ttl: int, o: Outcome) returns (ok: bool)
      modifies this`key
      ensures key == if o.Ok? || o.took then SetNX(old(key), clock, token, ttl) else old(key)
      ensures var taken := old(key).Held? && clock < old(key).expiry;
        && (ok <==> o.Ok? && !taken)
        && key == if taken || o == Error(false) then old(key) else Held(token, clock + ttl)
    {
      ok := !Live(key, clock);
      if ok && (o.Ok? || o.took) {
        key := Held(token, clock + ttl);
      }
      ok := ok && o.Ok?;
    }

    method EvalRefresh(token: nat, ttl: int, o: Outcome) returns (ok: bool)
      modifies this`key
      ensures key == if o.Ok? || o.took then RefreshScript(old(key), clock, token, ttl) else old(key)
      ensures var mine := old(key).Held? && clock < old(key).expiry && old(key).token == token;
        && (ok <==> o.Ok? && mine)
        && key == if mine && o != Error(false) then Held(token, clock + ttl / 1000 * 1000) else old(key)
    {
      ok := Live(key, clock) && key.token == token;
      if ok && (o.Ok? || o.took) {
        key := key.(expiry := clock + ttl / 1000 * 1000);
      }
      ok := ok && o.Ok?;
    }

    method EvalUnlock(token: nat, o: Outcome)
      modifies this`key
      ensures key == if o.Ok? || o.took then UnlockScript(old(key), clock, token) else old(key)
      ensures var mine := old(key).Held? && clock < old(key).expiry && old(key).token == token;
        key == if mine && o != Error(false) then Free else old(key)
    {
      if (o.Ok? || o.took) && Live(key, clock) && key.token == token {
        key := Free;
      }
    }
  }

  class LeaderElector {
    const redis: RedisServer
    const ttl: int
    var token: Token
    var leader: bool
    var stopped: bool

    constructor (redis: RedisServer, ttl: int)
      ensures this.redis == redis && this.ttl == ttl && token == NoToken && !leader && !stopped
    {
      this.redis, this.ttl := redis, ttl;
      token, leader, stopped := NoToken, false, false;
    }

    ghost function Now(): View
      reads this, redis
    {
      View(redis.key, token, leader)
    }

    method TryLock(drawn: nat, o: Outcome) returns (ok: bool)
      modifies this`token, redis`key
      ensures (Now(), ok) == AfterLock(old(Now()), redis.clock, ttl, drawn, o)
      ensures ok <==> o.Ok? && !(old(redis.key).Held? && redis.clock < old(redis.key).expiry)
      ensures token == (if ok then Token(drawn) else old(token)) && (ok ==> redis.key == Held(drawn, redis.clock + ttl))
    {
      ok := redis.SetIfAbsent(drawn, ttl, o);
      if ok {
        token := Token(drawn);
      }
    }

    /** failed is the error result: only a call that reached for Redis can report one. */
    method RefreshLock(o: Outcome) returns (ok: bool, failed: bool)
      modifies this`token, redis`key
      ensures (Now(), ok) == AfterRefresh(old(Now()), redis.clock, ttl, o)
      ensures failed <==> o.Error? && old(token).Token?
      ensures ok <==>
        && o.Ok? && old(token).Token? && old(redis.key).Held?
        && redis.clock < old(redis.key).expiry && old(redis.key).token == old(token).id
      ensures token == if ok || failed then old(token) else NoToken
    {
      if token.NoToken? {
        return false, false;
      }
      ok := redis.EvalRefresh(token.id, ttl, o);
      failed := o.Error?;
      if !failed && !ok {
        token := NoToken;
      }
    }

    method Unlock(o: Outcome)
      modifies this`token, redis`key
      ensures Now() == AfterUnlock(old(Now()), redis.clock, o)
      ensures token == NoToken
      ensures var mine := old(token).Token? && old(redis.key).Held?
                && redis.clock < old(redis.key).expiry && old(redis.key).token == old(token).id;
        redis.key == if mine && o != Error(false) then Free else old(redis.key)
    {
      if token.Token? {
        var popped := token.id;
        token := NoToken;
        redis.EvalUnlock(popped, o);
      }
    }

    method TryAcquireOrRenew(drawn: nat, o: Outcome)
      modifies this, redis`key
      ensures Now() == AfterTick(old(Now()), redis.clock, ttl, drawn, o)
      ensures stopped == old(stopped)
      ensures old(leader) && old(token).NoToken? ==> !leader
      ensures o.Error? && (old(token).Token? || !old(leader)) ==> leader == old(leader)
      ensures o.Ok? && old(leader) && old(token).Token? ==>
        (leader <==> old(redis.key).Held? && redis.clock < old(redis.key).expiry && old(redis.key).token == old(token).id)
      ensures o.Ok? && !old(leader) ==> (leader <==> !(old(redis.key).Held? && redis.clock < old(redis.key).expiry))
    {
      var ok, failed;
      if leader {
        ok, failed := RefreshLock(o);
      } else {
        ok := TryLock(drawn, o);
        failed := o.Error?;
      }
      if failed {
        return;
      }
      leader := ok;
    }

    /** Only the first Stop releases. */
    method Stop(o: Outcome)
      modifies this, redis`key
      ensures stopped
      ensures Now() == if old(stopped) then old(Now()) else AfterUnlock(old(Now()), redis.clock, o).(leader := false)
      ensures !old(stopped) ==> !leader && token == NoToken
      ensures var mine := old(token).Token? && old(redis.key).Held?
                && redis.clock < old(redis.key).expiry && old(redis.key).token == old(token).id;
        redis.key == if !old(stopped) && mine && o != Error(false) then Free else old(redis.key)
    {
      if !stopped {
        stopped := true;
        Unlock(o);
        leader := false;
      }
    }
  }
}
