/** What ordered commits guarantee over whole runs, restarts included, and what start_from_latest gives up. */
module ConsumerRuns {
  import opened Consumer

  lemma InitHolds(cfg: Config)
    ensures Inv(Init(cfg))
  {
  }

  /** A message was handled, skipped as a duplicate, dead-lettered or dropped. */
  predicate Dealt(s: State, p: Part, o: nat) {
    (p, o) in s.finished || (p, o) in s.dropped
  }

  /** Every message of p below off, from where p was last opened without finding an offset, is dealt with. */
  ghost predicate DealtBelow(s: State, p: Part, off: nat) {
    && p in s.begun && off <= |Log(s.log, p)|
    && forall i: nat {:trigger Log(s.log, p)[i]} ::
         s.begun[p] <= i < off && !Log(s.log, p)[i].Gap? ==> Dealt(s, p, i)
  }

  /**
   In every reachable state, whatever the settings and whatever fails: every message below a stored
   offset, in memory or on disk, from where the partition was last opened without finding an offset,
   was handled, skipped as a duplicate, dead-lettered, or dropped. Without start_from_latest that is
   every message from the first. Only ids that went through the handler are ever skipped.
   */
  lemma NothingSkipped(cfg: Config, steps: seq<Step>)
    ensures var s := Exec(Init(cfg), steps);
      && s.store.seen <= s.processed
      && (forall p :: p in s.store.mem ==> DealtBelow(s, p, s.store.mem[p]))
      && (forall p :: p in s.store.disk ==> DealtBelow(s, p, s.store.disk[p]))
      && (!cfg.latest ==> forall p :: p in s.begun ==> s.begun[p] == 0)
  {
    InitHolds(cfg);
    RunKeeps(Init(cfg), steps);
    StepsKeepConfig(Init(cfg), steps);
    var s := Exec(Init(cfg), steps);
    hide Exec;
    forall p | p in s.store.mem ensures DealtBelow(s, p, s.store.mem[p]) {
      assert DoneUpTo(s, p, s.store.mem[p]);
    }
    forall p | p in s.store.disk ensures DealtBelow(s, p, s.store.disk[p]) {
      assert DoneUpTo(s, p, s.store.disk[p]);
    }
  }

  lemma {:induction false} StepsKeepConfig(s: State, steps: seq<Step>)
    ensures Exec(s, steps).cfg == s.cfg
    decreases |steps|
  {
    if steps != [] {
      StepFrame(s, steps[0], Part("", 0));
      StepsKeepConfig(Apply(s, steps[0]), steps[1..]);
    }
  }

  // ---------- what is dropped ----------

  /** Every dead-letter append of the run works. */
  predicate AppendsWork(steps: seq<Step>) {
    forall i :: 0 <= i < |steps| ==> (steps[i].Handle? ==> steps[i].disk)
  }

  lemma {:induction false} NothingDropped(s: State, steps: seq<Step>)
    requires s.cfg.dlqOn && s.dropped == {} && AppendsWork(steps)
    ensures Exec(s, steps).dropped == {}
    decreases |steps|
  {
    if steps != [] {
      StepFrame(s, steps[0], Part("", 0));
      NothingDropped(Apply(s, steps[0]), steps[1..]);
    }
  }

  /** One event, and a handler that fails. */
  function FailingRun(p: Part): seq<Step> {
    [Open(p, false), Produce(p, Event("e")), Fetch(p, 0), Handle(p, false, true)]
  }

  lemma FailingRunDrops(cfg: Config, p: Part)
    requires !cfg.dlqOn
    ensures (p, 0) in Exec(Init(cfg), FailingRun(p)).dropped
  {
    var s1 := Apply(Init(cfg), Open(p, false));
    var s2 := Apply(s1, Produce(p, Event("e")));
    var s3 := Apply(s2, Fetch(p, 0));
    ExecFour(Init(cfg), Open(p, false), Produce(p, Event("e")), Fetch(p, 0), Handle(p, false, true));
    assert Log(s2.log, p) == [Event("e")];
    assert s3.readers[p] == Reader(0, Got(0));
  }

  lemma ExecFirst(s: State, step: Step, rest: seq<Step>)
    ensures Exec(s, [step] + rest) == Exec(Apply(s, step), rest)
  {
    hide Apply;
    assert ([step] + rest)[1..] == rest;
  }

  lemma ExecFour(s: State, a: Step, b: Step, c: Step, d: Step)
    ensures Exec(s, [a, b, c, d]) == Apply(Apply(Apply(Apply(s, a), b), c), d)
  {
    hide Apply;
    assert [a, b, c, d] == [a] + ([b] + ([c] + ([d] + [])));
    ExecFirst(s, a, [b] + ([c] + ([d] + [])));
    ExecFirst(Apply(s, a), b, [c] + ([d] + []));
    ExecFirst(Apply(Apply(s, a), b), c, [d] + []);
    ExecFirst(Apply(Apply(Apply(s, a), b), c), d, []);
  }

  /** Nothing is dropped, in any run whose dead-letter appends work, exactly when a dead-letter path is configured. */
  lemma NothingDroppedIffDlqOn(cfg: Config)
    ensures (forall steps :: AppendsWork(steps) ==> Exec(Init(cfg), steps).dropped == {}) <==> cfg.dlqOn
  {
    if cfg.dlqOn {
      forall steps | AppendsWork(steps) ensures Exec(Init(cfg), steps).dropped == {} {
        NothingDropped(Init(cfg), steps);
      }
    } else {
      var p := Part("", 0);
      FailingRunDrops(cfg, p);
      assert AppendsWork(FailingRun(p));
    }
  }

  /** Every message is an event, and so is the one each reader is busy with. */
  ghost predicate OnlyEvents(s: State) {
    && (forall p, i :: p in s.log && 0 <= i < |s.log[p]| ==> !s.log[p][i].Poison?)
    && (forall p :: p in s.readers && s.readers[p].phase.Got? ==>
          s.readers[p].phase.off < |Log(s.log, p)| && Log(s.log, p)[s.readers[p].phase.off].Event?)
  }

  lemma StepKeepsEvents(s: State, step: Step)
    requires OnlyEvents(s) && (step.Produce? ==> !step.entry.Poison?)
    ensures OnlyEvents(Apply(s, step))
    ensures (step.Handle? ==> step.ok) ==> Apply(s, step).dropped == s.dropped
  {
    hide Committed;
  }

  lemma {:induction false} NoneDropped(s: State, steps: seq<Step>)
    requires OnlyEvents(s) && s.dropped == {}
    requires forall i :: 0 <= i < |steps| ==>
      (steps[i].Handle? ==> steps[i].ok) && (steps[i].Produce? ==> !steps[i].entry.Poison?)
    ensures Exec(s, steps).dropped == {}
    decreases |steps|
  {
    if steps != [] {
      StepKeepsEvents(s, steps[0]);
      hide Apply, OnlyEvents;
      NoneDropped(Apply(s, steps[0]), steps[1..]);
    }
  }

  /** Whatever the settings, nothing is dropped while every message can be decoded and its handler succeeds. */
  lemma SuccessIsNeverDropped(cfg: Config, steps: seq<Step>)
    requires forall i :: 0 <= i < |steps| ==>
      (steps[i].Handle? ==> steps[i].ok) && (steps[i].Produce? ==> !steps[i].entry.Poison?)
    ensures Exec(Init(cfg), steps).dropped == {}
  {
    NoneDropped(Init(cfg), steps);
  }

  // ---------- persisted offsets ----------

  /** Every load of the file is complete. */
  predicate LoadsWork(steps: seq<Step>) {
    forall i :: 0 <= i < |steps| ==> (steps[i].Crash? ==> steps[i].lost == {})
  }

  predicate Covers(a: map<Part, nat>, b: map<Part, nat>) {
    forall p :: p in a ==> p in b && a[p] <= b[p]
  }

  lemma StepRaisesDisk(s: State, step: Step)
    requires Covers(s.store.disk, s.store.mem) && (s.cfg.sql ==> s.store.mem == s.store.disk)
    requires s.cfg.sql || !step.Crash? || step.lost == {}
    ensures var s' := Apply(s, step);
      && s'.cfg == s.cfg && Covers(s.store.disk, s'.store.disk)
      && Covers(s'.store.disk, s'.store.mem) && (s'.cfg.sql ==> s'.store.mem == s'.store.disk)
  {
    if step.Crash? && step.lost == {} { assert s.store.disk - {} == s.store.disk; }
  }

  lemma {:induction false} DiskNeverDecreases(s: State, steps: seq<Step>)
    requires Covers(s.store.disk, s.store.mem) && (s.cfg.sql ==> s.store.mem == s.store.disk)
    requires s.cfg.sql || LoadsWork(steps)
    ensures var s' := Exec(s, steps);
      && s'.cfg == s.cfg && Covers(s.store.disk, s'.store.disk)
      && Covers(s'.store.disk, s'.store.mem) && (s'.cfg.sql ==> s'.store.mem == s'.store.disk)
    decreases |steps|
  {
    if steps != [] {
      StepRaisesDisk(s, steps[0]);
      hide Apply;
      DiskNeverDecreases(Apply(s, steps[0]), steps[1..]);
    }
  }

  /** One message is handled and its offset persisted. */
  function HandledRun(p: Part): seq<Step> {
    [Open(p, false), Produce(p, Event("e")), Fetch(p, 0), Handle(p, true, true)] + [Commit(p, true)]
  }

  /** The file is not read, and then overwritten. */
  function ForgottenRun(p: Part): seq<Step> {
    [Crash({p}), FlushAll(true)]
  }

  lemma FailedLoadForgets(cfg: Config, p: Part)
    requires !cfg.sql
    ensures var s := Exec(Init(cfg), HandledRun(p));
      p in s.store.disk && p !in Exec(s, ForgottenRun(p)).store.disk
  {
    var s4 := Apply(Apply(Apply(Apply(Init(cfg), Open(p, false)), Produce(p, Event("e"))), Fetch(p, 0)), Handle(p, true, true));
    var s2 := Apply(Apply(Init(cfg), Open(p, false)), Produce(p, Event("e")));
    assert Log(s2.log, p) == [Event("e")];
    assert s4.readers[p] == Reader(0, Settled(0)) && Log(s4.log, p) == [Event("e")];
    var s5 := Apply(s4, Commit(p, true));
    assert p in s5.store.disk && !s5.cfg.sql;
    assert p !in Apply(Apply(s5, Crash({p})), FlushAll(true)).store.disk;
    hide Apply;
    ExecConcat(Init(cfg), [Open(p, false), Produce(p, Event("e")), Fetch(p, 0), Handle(p, true, true)], [Commit(p, true)]);
    ExecFour(Init(cfg), Open(p, false), Produce(p, Event("e")), Fetch(p, 0), Handle(p, true, true));
    ExecFirst(s4, Commit(p, true), []);
    assert [Commit(p, true)] + [] == [Commit(p, true)];
    ExecFirst(s5, Crash({p}), [FlushAll(true)] + []);
    ExecFirst(Apply(s5, Crash({p})), FlushAll(true), []);
    assert ForgottenRun(p) == [Crash({p})] + ([FlushAll(true)] + []);
  }

  /**
   Persisted offsets never go back and never run ahead of memory, in every run: exactly when offsets
   are kept in SQL, or the file is always loaded completely. The program ignores a failed load, and
   the next flush then overwrites the file.
   */
  lemma PersistedNeverDecreasesIff(cfg: Config, faulty: bool)
    ensures (forall steps, more :: faulty || (LoadsWork(steps) && LoadsWork(more)) ==> KeepsPersisted(cfg, steps, more))
            <==> cfg.sql || !faulty
  {
    if cfg.sql || !faulty {
      forall steps, more | faulty || (LoadsWork(steps) && LoadsWork(more)) ensures KeepsPersisted(cfg, steps, more) {
        DiskNeverDecreases(Init(cfg), steps);
        DiskNeverDecreases(Exec(Init(cfg), steps), more);
      }
    } else {
      var p := Part("", 0);
      FailedLoadForgets(cfg, p);
      assert !KeepsPersisted(cfg, HandledRun(p), ForgottenRun(p));
    }
  }

  /** After steps, memory covers the disk; and after more, the disk covers what it held before. */
  predicate KeepsPersisted(cfg: Config, steps: seq<Step>, more: seq<Step>) {
    var s := Exec(Init(cfg), steps);
    Covers(s.store.disk, s.store.mem) && Covers(s.store.disk, Exec(s, more).store.disk)
  }

  // ---------- start_from_latest ----------

  /** Position o of p can no longer be fetched by anyone, now or after a restart. */
  ghost predicate Passed(s: State, p: Part, o: nat) {
    && s.cfg.latest
    && o < |Log(s.log, p)|
    && (p in s.store.mem ==> o < s.store.mem[p])
    && (p in s.store.disk ==> o < s.store.disk[p])
    && (p in s.readers ==>
          && o < s.readers[p].pos
          && (s.readers[p].phase.Got? || s.readers[p].phase.Settled? ==> s.readers[p].pos <= s.readers[p].phase.off))
    && (s.cfg.sql ==> s.store.mem == s.store.disk)
  }

  lemma StepKeepsPassed(s: State, step: Step, p: Part, o: nat)
    requires Passed(s, p, o)
    ensures Passed(Apply(s, step), p, o)
    ensures Dealt(Apply(s, step), p, o) <==> Dealt(s, p, o)
  {
    StepFrame(s, step, p);
  }

  lemma {:induction false} PassedForever(s: State, steps: seq<Step>, p: Part, o: nat)
    requires Passed(s, p, o)
    ensures Dealt(Exec(s, steps), p, o) <==> Dealt(s, p, o)
    decreases |steps|
  {
    if steps != [] {
      StepKeepsPassed(s, steps[0], p, o);
      PassedForever(Apply(s, steps[0]), steps[1..], p, o);
    }
  }

  /** The first message at or after pos, given that there is one at o. */
  function NextEntry(log: seq<Entry>, pos: nat, o: nat): (off: nat)
    requires pos <= o < |log| && !log[o].Gap?
    ensures off <= o && Delivers(log, pos, off)
    decreases o - pos
  {
    if log[pos].Gap? then NextEntry(log, pos + 1, o) else pos
  }

  /** The steps that deal with one message and commit it. */
  lemma OneMessage(s: State, p: Part, off: nat)
    requires p in s.readers && s.readers[p].phase.Fetching? && Delivers(Log(s.log, p), s.readers[p].pos, off)
    ensures var s' := Exec(s, [Fetch(p, off), Handle(p, true, true), Commit(p, true)]);
      && Dealt(s', p, off) && s'.log == s.log
      && p in s'.readers && s'.readers[p] == Reader(off + 1, Fetching)
  {
    var s1 := Apply(s, Fetch(p, off));
    var s2 := Apply(s1, Handle(p, true, true));
    var s3 := Apply(s2, Commit(p, true));
    assert [Fetch(p, off), Handle(p, true, true), Commit(p, true)]
        == [Fetch(p, off)] + ([Handle(p, true, true)] + ([Commit(p, true)] + []));
    ExecFirst(s, Fetch(p, off), [Handle(p, true, true)] + ([Commit(p, true)] + []));
    ExecFirst(s1, Handle(p, true, true), [Commit(p, true)] + []);
    ExecFirst(s2, Commit(p, true), []);
    hide Committed, Delivers;
    assert s1.readers[p] == Reader(s.readers[p].pos, Got(off));
    assert s2.readers[p] == Reader(s.readers[p].pos, Settled(off)) && Dealt(s2, p, off);
  }

  lemma {:induction false} ExecConcat(s: State, a: seq<Step>, b: seq<Step>)
    ensures Exec(s, a + b) == Exec(Exec(s, a), b)
    decreases |a|
  {
    hide Apply;
    if a == [] {
      assert a + b == b;
    } else {
      ExecConcat(Apply(s, a[0]), a[1..], b);
      assert (a + b)[1..] == a[1..] + b;
    }
  }

  /** Whatever lies at or after the reader's position can still be dealt with. */
  lemma {:induction false} CanBeDealtWith(s: State, p: Part, o: nat) returns (steps: seq<Step>)
    requires p in s.readers && s.readers[p].phase.Fetching?
    requires s.readers[p].pos <= o < |Log(s.log, p)| && !Log(s.log, p)[o].Gap?
    ensures Dealt(Exec(s, steps), p, o)
    decreases o - s.readers[p].pos
  {
    var off := NextEntry(Log(s.log, p), s.readers[p].pos, o);
    steps := [Fetch(p, off), Handle(p, true, true), Commit(p, true)];
    OneMessage(s, p, off);
    if off < o {
      var s' := Exec(s, steps);
      var rest := CanBeDealtWith(s', p, o);
      ExecConcat(s, steps, rest);
      steps := steps + rest;
    }
  }

  /** Whether a process that starts after a crash finds the persisted offset of p. */
  predicate FindsPersisted(s: State, p: Part, lost: set<Part>, unread: bool) {
    p in s.store.disk && if s.cfg.sql then !unread else p !in lost
  }

  /** p's reader after a crash and a restart. */
  function Restarted(s: State, p: Part, lost: set<Part>, unread: bool): State {
    Apply(Apply(s, Crash(lost)), Open(p, unread))
  }

  /**
   A process that starts after a crash reads on exactly at the persisted offset when it finds it, and
   otherwise at the end of the log with start_from_latest, at the beginning without; a reader opened
   later goes by the offset in memory.
   */
  lemma ResumesWhereItStopped(cfg: Config, steps: seq<Step>, p: Part, lost: set<Part>, unread: bool)
    ensures var s := Exec(Init(cfg), steps);
      var default := if cfg.latest then |Log(s.log, p)| else 0;
      && p in Restarted(s, p, lost, unread).readers
      && Restarted(s, p, lost, unread).readers[p] ==
           Reader(if FindsPersisted(s, p, lost, unread) then s.store.disk[p] else default, Fetching)
      && (p !in s.readers ==>
            && p in Apply(s, Open(p, unread)).readers
            && Apply(s, Open(p, unread)).readers[p] ==
                 Reader(if p in s.store.mem && !(cfg.sql && unread) then s.store.mem[p] else default, Fetching))
  {
    InitHolds(cfg);
    RunKeeps(Init(cfg), steps);
    StepsKeepConfig(Init(cfg), steps);
    hide Exec;
  }

  // ---------- events seen before ----------

  lemma StepKeepsSeenEvents(s: State, step: Step)
    ensures s.store.seen <= Apply(s, step).store.seen
  {
  }

  lemma {:induction false} SeenForever(s: State, steps: seq<Step>)
    ensures s.store.seen <= Exec(s, steps).store.seen
    decreases |steps|
  {
    if steps != [] {
      StepKeepsSeenEvents(s, steps[0]);
      hide Apply;
      SeenForever(Apply(s, steps[0]), steps[1..]);
    }
  }

  /**
   With SQL, an event whose commit worked is known from then on: in every continuation, crashes
   included, a reader that holds the same event again, on whatever partition, can pass it over, and
   then the handler does not run and the message counts as finished.
   */
  lemma CommittedEventsAreSkipped(s: State, p: Part, steps: seq<Step>, q: Part)
    requires s.cfg.sql && p in s.readers && s.readers[p].phase.Settled? && s.readers[p].phase.off < |Log(s.log, p)|
    requires var e := Log(s.log, p)[s.readers[p].phase.off]; e.Event? && e.id != ""
    requires var s' := Exec(Apply(s, Commit(p, true)), steps);
      && q in s'.readers && s'.readers[q].phase.Got? && s'.readers[q].phase.off < |Log(s'.log, q)|
      && Log(s'.log, q)[s'.readers[q].phase.off] == Log(s.log, p)[s.readers[p].phase.off]
    ensures var s' := Exec(Apply(s, Commit(p, true)), steps);
      var off := s'.readers[q].phase.off;
      var passed := Apply(s', Skip(q));
      && passed.processed == s'.processed && passed.dropped == s'.dropped
      && (q, off) in passed.finished && passed.readers[q].phase == Settled(off)
  {
    var s1 := Apply(s, Commit(p, true));
    assert Log(s.log, p)[s.readers[p].phase.off].id in s1.store.seen;
    SeenForever(s1, steps);
    StepsKeepConfig(s1, steps);
    hide Exec;
  }

  /** What is stored does not reach past a message that its reader has not finished. */
  lemma StoredIsDealt(s: State, p: Part, o: nat)
    requires Inv(s) && p in s.readers && s.readers[p].pos <= o < |Log(s.log, p)|
    requires !Log(s.log, p)[o].Gap? && !Dealt(s, p, o)
    ensures p in s.store.disk ==> s.store.disk[p] <= o
  {
    assert p in s.store.disk ==> DoneUpTo(s, p, s.store.disk[p]);
  }

  /**
   A restart after a crash passes over a message that its reader had not finished exactly when it is
   told to start at the end and finds no persisted offset: there is none, or reading it fails.
   */
  lemma RestartSkipsIff(cfg: Config, steps: seq<Step>, p: Part, o: nat, lost: set<Part>, unread: bool)
    requires var s := Exec(Init(cfg), steps);
      p in s.readers && s.readers[p].pos <= o < |Log(s.log, p)| && !Log(s.log, p)[o].Gap? && !Dealt(s, p, o)
    ensures var s := Exec(Init(cfg), steps);
      o < Restarted(s, p, lost, unread).readers[p].pos <==> cfg.latest && !FindsPersisted(s, p, lost, unread)
  {
    InitHolds(cfg);
    RunKeeps(Init(cfg), steps);
    StepsKeepConfig(Init(cfg), steps);
    var s := Exec(Init(cfg), steps);
    hide Exec;
    StoredIsDealt(s, p, o);
  }

  /** If an offset is persisted, a later restart that finds it can still deal with the message. */
  lemma AnotherRestartDeals(s: State, p: Part, o: nat, lost: set<Part>, unread: bool) returns (more: seq<Step>)
    requires Inv(s) && p in s.readers && s.readers[p].pos <= o < |Log(s.log, p)|
    requires !Log(s.log, p)[o].Gap? && !Dealt(s, p, o) && (p in s.store.disk || !s.cfg.latest)
    ensures Dealt(Exec(Restarted(s, p, lost, unread), more), p, o)
  {
    var s1 := Restarted(s, p, lost, unread);
    var s2 := Restarted(s1, p, {}, false);
    assert s1.store.disk == s.store.disk && s1.log == s.log && s1.cfg == s.cfg;
    assert s1.store.disk - {} == s.store.disk;
    StoredIsDealt(s, p, o);
    assert s2.readers[p].phase.Fetching? && s2.readers[p].pos <= o && s2.log == s.log;
    hide Apply, Inv, Dealt;
    var rest := CanBeDealtWith(s2, p, o);
    ExecFirst(s1, Crash({}), [Open(p, false)] + rest);
    ExecFirst(Apply(s1, Crash({})), Open(p, false), rest);
    more := [Crash({})] + ([Open(p, false)] + rest);
  }

  /**
   And passing over is for good, so that no later run deals with the message, exactly when it is told
   to start at the end and nothing was persisted: an offset that was only not read may be found later.
   */
  lemma SkippedForeverIff(cfg: Config, steps: seq<Step>, p: Part, o: nat, lost: set<Part>, unread: bool)
    requires var s := Exec(Init(cfg), steps);
      p in s.readers && s.readers[p].pos <= o < |Log(s.log, p)| && !Log(s.log, p)[o].Gap? && !Dealt(s, p, o)
    ensures var s := Exec(Init(cfg), steps);
      (forall more :: !Dealt(Exec(Restarted(s, p, lost, unread), more), p, o)) <==> cfg.latest && p !in s.store.disk
  {
    InitHolds(cfg);
    RunKeeps(Init(cfg), steps);
    StepsKeepConfig(Init(cfg), steps);
    var s := Exec(Init(cfg), steps);
    var restarted := Restarted(s, p, lost, unread);
    if cfg.latest && p !in s.store.disk {
      assert !Dealt(restarted, p, o) && Passed(restarted, p, o);
      hide Exec, Apply, Inv;
      forall more ensures !Dealt(Exec(restarted, more), p, o) {
        PassedForever(restarted, more, p, o);
      }
    } else {
      hide Exec, Apply, Inv, Dealt;
      var more := AnotherRestartDeals(s, p, o, lost, unread);
      assert Dealt(Exec(restarted, more), p, o);
    }
  }

  // ---------- the in-memory offset ----------

  datatype CommitOf = CommitOf(p: Part, off: nat)

  function SetAll(m: map<Part, nat>, commits: seq<CommitOf>): map<Part, nat> {
    if commits == [] then m
    else
      var last := commits[|commits| - 1];
      Raise(SetAll(m, commits[..|commits| - 1]), last.p, last.off)
  }

  /** In whatever order commits arrive, the stored value is the largest of the starting value and those committed. */
  lemma {:induction false} AnyOrderGivesMaximum(m: map<Part, nat>, commits: seq<CommitOf>, p: Part)
    ensures var m' := SetAll(m, commits);
      && (p in m' <==> p in m || exists i :: 0 <= i < |commits| && commits[i].p == p)
      && (p in m' ==>
            && (p in m ==> m[p] <= m'[p])
            && (forall i :: 0 <= i < |commits| && commits[i].p == p ==> commits[i].off <= m'[p])
            && ((p in m && m'[p] == m[p]) || exists i :: 0 <= i < |commits| && commits[i] == CommitOf(p, m'[p])))
  {
    if commits != [] {
      var init, last := commits[..|commits| - 1], commits[|commits| - 1];
      AnyOrderGivesMaximum(m, init, p);
      var before := SetAll(m, init);
      if p in before && !(p in m && before[p] == m[p]) {
        var i :| 0 <= i < |init| && init[i] == CommitOf(p, before[p]);
        assert commits[i] == init[i];
      }
      if exists i :: 0 <= i < |init| && init[i].p == p {
        var i :| 0 <= i < |init| && init[i].p == p;
        assert commits[i].p == p;
      }
      if last.p == p {
        assert commits[|commits| - 1] == CommitOf(p, last.off);
      }
    }
  }
}
