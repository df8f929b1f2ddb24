/**
 Consuming partitions without a consumer group: every reader handles one message at a time and
 commits before it fetches the next; offsets live in a file that is flushed on every commit, or in
 a SQL store with a table of seen event ids. The process may die anywhere and start again.
 */
module Consumer {

  /** One (topic, partition). */
  datatype Part = Part(topic: string, partition: nat)

  /** A broker position: nothing to deliver, a message that cannot be decoded, or an event. */
  datatype Entry = Gap | Poison | Event(id: string)

  datatype Phase = Fetching | Got(off: nat) | Settled(off: nat)

  datatype Reader = Reader(pos: nat, phase: Phase)

  /**
   The consumer: dlqOn says whether a local dead-letter path is configured, sql selects the store,
   latest is start_from_latest. mem and disk are the stored next offsets in memory and on disk.
   */
  datatype Config = Config(dlqOn: bool, sql: bool, latest: bool)

  datatype Store = Store(mem: map<Part, nat>, disk: map<Part, nat>, seen: set<string>)

  /**
   begun is where each partition was last opened without finding a stored offset; finished and dropped are the positions whose
   message was handled, skipped as a duplicate or dead-lettered, and those that were none of it;
   processed are the ids that went through the handler. The program reads none of these four.
   */
  datatype State = State(
    cfg: Config,
    log: map<Part, seq<Entry>>,
    store: Store,
    readers: map<Part, Reader>,
    begun: map<Part, nat>,
    finished: set<(Part, nat)>,
    dropped: set<(Part, nat)>,
    processed: set<string>)

  /**
   Open reads the stored offset; with SQL that read may fail, and the error is ignored. After a Crash
   the file is loaded again; the entries of lost partitions may be missing, and that is ignored, too.
   */
  datatype Step =
    | Produce(p: Part, entry: Entry)
    | Open(p: Part, unread: bool)
    | Fetch(p: Part, off: nat)
    | Skip(p: Part)
    | Handle(p: Part, ok: bool, disk: bool)
    | Commit(p: Part, works: bool)
    | FlushAll(works: bool)
    | Crash(lost: set<Part>)

  function Init(cfg: Config): State {
    State(cfg, map[], Store(map[], map[], {}), map[], map[], {}, {}, {})
  }

  function Log(log: map<Part, seq<Entry>>, p: Part): seq<Entry> {
    if p in log then log[p] else []
  }

  /** offsetStore.set: a stored offset never goes back. */
  function Raise(m: map<Part, nat>, p: Part, off: nat): map<Part, nat> {
    if p !in m || off > m[p] then m[p := off] else m
  }

  /** Commit of the next offset, for the message e just dealt with. */
  function Committed(cfg: Config, st: Store, p: Part, next: nat, e: Entry, works: bool): Store {
    if cfg.sql then
      if works then
        var m := Raise(st.disk, p, next);
        Store(m, m, if e.Event? && e.id != "" then st.seen + {e.id} else st.seen)
      else st
    else
      var m := Raise(st.mem, p, next);
      Store(m, if works then m else st.disk, st.seen)
  }

  /** Whether opening p finds a stored offset. */
  predicate Finds(s: State, p: Part, unread: bool) {
    p in s.store.mem && !(s.cfg.sql && unread)
  }

  /** Where a reader of p starts: the stored offset, or the configured end of the log. */
  function StartOf(s: State, p: Part, unread: bool): nat {
    if Finds(s, p, unread) then s.store.mem[p] else if s.cfg.latest then |Log(s.log, p)| else 0
  }

  predicate Delivers(log: seq<Entry>, pos: nat, off: nat) {
    pos <= off < |log| && !log[off].Gap? && forall i :: pos <= i < off ==> log[i].Gap?
  }

  function DoHandle(s: State, p: Part, ok: bool, disk: bool): State
    requires p in s.readers && s.readers[p].phase.Got? && s.readers[p].phase.off < |Log(s.log, p)|
  {
    var off := s.readers[p].phase.off;
    var e := Log(s.log, p)[off];
    var kept := (e.Event? && ok) || (s.cfg.dlqOn && disk);
    s.(readers := s.readers[p := Reader(s.readers[p].pos, Settled(off))],
       finished := if kept then s.finished + {(p, off)} else s.finished,
       dropped := if kept then s.dropped else s.dropped + {(p, off)},
       processed := if e.Event? then s.processed + {e.id} else s.processed)
  }

  predicate IsDuplicate(s: State, p: Part) {
    && p in s.readers && s.readers[p].phase.Got? && s.readers[p].phase.off < |Log(s.log, p)|
    && var e := Log(s.log, p)[s.readers[p].phase.off];
       s.cfg.sql && e.Event? && e.id != "" && e.id in s.store.seen
  }

  /** One step; a step that is not enabled changes nothing. */
  function Apply(s: State, step: Step): State {
    match step
    case Produce(p, entry) => s.(log := s.log[p := Log(s.log, p) + [entry]])
    case Open(p, unread) =>
      if p in s.readers then s
      else
        var start := StartOf(s, p, unread);
        s.(readers := s.readers[p := Reader(start, Fetching)],
           begun := if Finds(s, p, unread) then s.begun else s.begun[p := start])
    case Fetch(p, off) =>
      if p in s.readers && s.readers[p].phase.Fetching? && Delivers(Log(s.log, p), s.readers[p].pos, off) then
        s.(readers := s.readers[p := Reader(s.readers[p].pos, Got(off))])
      else s
    case Skip(p) =>
      if IsDuplicate(s, p) then
        var off := s.readers[p].phase.off;
        s.(readers := s.readers[p := Reader(s.readers[p].pos, Settled(off))], finished := s.finished + {(p, off)})
      else s
    case Handle(p, ok, disk) =>
      if p in s.readers && s.readers[p].phase.Got? && s.readers[p].phase.off < |Log(s.log, p)| then DoHandle(s, p, ok, disk)
      else s
    case Commit(p, works) =>
      if p in s.readers && s.readers[p].phase.Settled? && s.readers[p].phase.off < |Log(s.log, p)| then
        var off := s.readers[p].phase.off;
        s.(store := Committed(s.cfg, s.store, p, off + 1, Log(s.log, p)[off], works),
           readers := s.readers[p := Reader(off + 1, Fetching)])
      else s
    case FlushAll(works) => if works then s.(store := s.store.(disk := s.store.mem)) else s
    case Crash(lost) => s.(readers := map[], store := s.store.(mem := if s.cfg.sql then s.store.disk else s.store.disk - lost))
  }

  function Exec(s: State, steps: seq<Step>): State
    decreases |steps|
  {
    if steps == [] then s else Exec(Apply(s, steps[0]), steps[1..])
  }

  // ---------- the invariant ----------

  /** Every message of p from where it was last begun up to end is finished or dropped. */
  ghost predicate DoneUpTo(s: State, p: Part, end: nat) {
    && end <= |Log(s.log, p)|
    && p in s.begun
    && forall i {:trigger (p, i) in s.finished} {:trigger Log(s.log, p)[i]} ::
         s.begun[p] <= i < end && !Log(s.log, p)[i].Gap? ==> (p, i) in s.finished || (p, i) in s.dropped
  }

  ghost predicate ReaderInv(s: State, p: Part)
    requires p in s.readers
  {
    var r := s.readers[p];
    match r.phase
    case Fetching => DoneUpTo(s, p, r.pos)
    case Got(off) => DoneUpTo(s, p, off) && off < |Log(s.log, p)| && !Log(s.log, p)[off].Gap?
    case Settled(off) => DoneUpTo(s, p, off + 1) && !Log(s.log, p)[off].Gap?
                         && ((p, off) in s.finished || (p, off) in s.dropped)
  }

  ghost predicate StoreInv(s: State) {
    && (forall p :: p in s.store.mem ==> DoneUpTo(s, p, s.store.mem[p]))
    && (forall p :: p in s.store.disk ==> DoneUpTo(s, p, s.store.disk[p]))
    && (s.cfg.sql ==> s.store.mem == s.store.disk)
  }

  /** Only ids that went through the handler are taken for duplicates. */
  ghost predicate SeenInv(s: State) {
    && s.store.seen <= s.processed
    && (forall p :: p in s.readers && s.readers[p].phase.Settled? && s.readers[p].phase.off < |Log(s.log, p)| ==>
          var e := Log(s.log, p)[s.readers[p].phase.off];
          e.Event? ==> e.id in s.processed)
  }

  /** Without start_from_latest every partition begins at zero. */
  ghost predicate BegunInv(s: State) {
    forall p :: p in s.begun ==> s.begun[p] <= |Log(s.log, p)| && (!s.cfg.latest ==> s.begun[p] == 0)
  }

  /** With start_from_latest no stored offset runs ahead of the reader, nor the file ahead of memory. */
  ghost predicate BehindInv(s: State) {
    && (forall p :: p in s.readers ==> ReaderBehind(s, p))
    && (s.cfg.latest ==> forall p :: p in s.store.mem && p in s.store.disk ==> s.store.disk[p] <= s.store.mem[p])
  }

  predicate ReaderBehind(s: State, p: Part)
    requires p in s.readers
  {
    var r := s.readers[p];
    && (!r.phase.Fetching? ==> r.pos <= r.phase.off)
    && (s.cfg.latest && p in s.store.mem ==> s.store.mem[p] <= r.pos)
    && (s.cfg.latest && p in s.store.disk ==> s.store.disk[p] <= r.pos)
  }

  ghost predicate Inv(s: State) {
    && StoreInv(s)
    && SeenInv(s)
    && BegunInv(s)
    && BehindInv(s)
    && (forall p :: p in s.readers ==> ReaderInv(s, p))
  }

  // ---------- every step keeps it ----------

  /** What is done stays done when the log grows, more positions are finished, and the beginning moves on. */
  lemma DoneStays(s: State, s': State, p: Part, end: nat)
    requires DoneUpTo(s, p, end)
    requires Log(s.log, p) <= Log(s'.log, p) && p in s'.begun && s.begun[p] <= s'.begun[p]
    requires s.finished <= s'.finished && s.dropped <= s'.dropped
    ensures DoneUpTo(s', p, end)
  {
  }

  lemma StepFrame(s: State, step: Step, p: Part)
    ensures var s' := Apply(s, step);
      && Log(s.log, p) <= Log(s'.log, p)
      && s.finished <= s'.finished && s.dropped <= s'.dropped && s.processed <= s'.processed
      && s'.cfg == s.cfg
  {
  }

  lemma StepMovesBegun(s: State, step: Step, p: Part)
    requires BegunInv(s) && p in s.begun
    ensures p in Apply(s, step).begun && s.begun[p] <= Apply(s, step).begun[p]
  {
  }

  lemma StepKeepsBegun(s: State, step: Step)
    requires BegunInv(s) && StoreInv(s)
    ensures BegunInv(Apply(s, step))
  {
  }

  lemma StepKeepsReaderBehind(s: State, step: Step, p: Part)
    requires BehindInv(s) && StoreInv(s) && p in Apply(s, step).readers
    ensures ReaderBehind(Apply(s, step), p)
  {
  }

  lemma StepKeepsFileBehind(s: State, step: Step)
    requires BehindInv(s) && StoreInv(s)
    ensures var s' := Apply(s, step);
      s'.cfg.latest ==> forall p :: p in s'.store.mem && p in s'.store.disk ==> s'.store.disk[p] <= s'.store.mem[p]
  {
    assert step.Commit? && step.p in s.readers ==> ReaderBehind(s, step.p);
    hide DoneUpTo, DoHandle;
  }

  lemma StepKeepsBehind(s: State, step: Step)
    requires BehindInv(s) && StoreInv(s)
    ensures BehindInv(Apply(s, step))
  {
    StepKeepsFileBehind(s, step);
    forall p | p in Apply(s, step).readers ensures ReaderBehind(Apply(s, step), p) {
      StepKeepsReaderBehind(s, step, p);
    }
    hide Apply, StoreInv, ReaderBehind;
  }

  /** What was stored for p before the step, and was done, is done after it. */
  lemma StepKeepsDone(s: State, step: Step, p: Part, end: nat)
    requires BegunInv(s) && DoneUpTo(s, p, end)
    ensures DoneUpTo(Apply(s, step), p, end)
  {
    StepFrame(s, step, p);
    StepMovesBegun(s, step, p);
    hide Apply;
    DoneStays(s, Apply(s, step), p, end);
  }

  /** A stored offset is one stored before, or the one just committed. */
  lemma StepStores(s: State, step: Step, p: Part, off: nat)
    requires StoreInv(s)
    requires var st := Apply(s, step).store; (p in st.mem && st.mem[p] == off) || (p in st.disk && st.disk[p] == off)
    ensures (p in s.store.mem && s.store.mem[p] == off) || (p in s.store.disk && s.store.disk[p] == off)
      || (p in s.readers && s.readers[p].phase.Settled? && s.readers[p].phase.off + 1 == off)
  {
  }

  lemma StepKeepsStoredDone(s: State, step: Step, p: Part, off: nat)
    requires Inv(s)
    requires var st := Apply(s, step).store; (p in st.mem && st.mem[p] == off) || (p in st.disk && st.disk[p] == off)
    ensures DoneUpTo(Apply(s, step), p, off)
  {
    StepStores(s, step, p, off);
    hide Apply;
    assert DoneUpTo(s, p, off);
    StepKeepsDone(s, step, p, off);
  }

  lemma StepKeepsStore(s: State, step: Step)
    requires Inv(s)
    ensures StoreInv(Apply(s, step))
  {
    var st := Apply(s, step).store;
    forall p | p in st.mem ensures DoneUpTo(Apply(s, step), p, st.mem[p]) {
      StepKeepsStoredDone(s, step, p, st.mem[p]);
    }
    forall p | p in st.disk ensures DoneUpTo(Apply(s, step), p, st.disk[p]) {
      StepKeepsStoredDone(s, step, p, st.disk[p]);
    }
    StepKeepsSql(s, step);
    hide Apply, Inv, DoneUpTo;
  }

  lemma StepKeepsSql(s: State, step: Step)
    requires s.cfg.sql ==> s.store.mem == s.store.disk
    ensures Apply(s, step).cfg.sql ==> Apply(s, step).store.mem == Apply(s, step).store.disk
  {
  }

  lemma StepKeepsSeen(s: State, step: Step)
    requires SeenInv(s) && (forall p :: p in s.readers ==> ReaderInv(s, p))
    ensures SeenInv(Apply(s, step))
  {
  }

  lemma OpenedReader(s: State, p: Part, unread: bool)
    requires StoreInv(s) && BegunInv(s) && p !in s.readers
    ensures ReaderInv(Apply(s, Open(p, unread)), p)
  {
    if Finds(s, p, unread) {
      StepKeepsDone(s, Open(p, unread), p, s.store.mem[p]);
    }
  }

  /** How far the reader had everything done, after the step as before. */
  function DoneEnd(r: Reader): nat {
    match r.phase
    case Fetching => r.pos
    case Got(off) => off
    case Settled(off) => off + 1
  }

  lemma MovedReader(s: State, step: Step, p: Part)
    requires p in s.readers && p in Apply(s, step).readers && ReaderInv(s, p)
    requires DoneUpTo(Apply(s, step), p, DoneEnd(s.readers[p]))
    ensures ReaderInv(Apply(s, step), p)
  {
    hide Committed, Raise;
    StepFrame(s, step, p);
  }

  lemma StepKeepsReader(s: State, step: Step, p: Part)
    requires Inv(s) && p in Apply(s, step).readers
    ensures ReaderInv(Apply(s, step), p)
  {
    if p in s.readers {
      StepKeepsDone(s, step, p, DoneEnd(s.readers[p]));
      hide StoreInv, SeenInv, BehindInv, BegunInv;
      MovedReader(s, step, p);
    } else {
      assert step.Open? && step.p == p;
      OpenedReader(s, p, step.unread);
    }
  }

  lemma StepKeeps(s: State, step: Step)
    requires Inv(s)
    ensures Inv(Apply(s, step))
  {
    StepKeepsStore(s, step);
    StepKeepsSeen(s, step);
    StepKeepsBegun(s, step);
    StepKeepsBehind(s, step);
    forall p | p in Apply(s, step).readers ensures ReaderInv(Apply(s, step), p) {
      StepKeepsReader(s, step, p);
    }
    hide Apply, StoreInv, SeenInv, BegunInv, BehindInv, ReaderInv;
  }

  lemma {:induction false} RunKeeps(s: State, steps: seq<Step>)
    requires Inv(s)
    ensures Inv(Exec(s, steps))
    decreases |steps|
  {
    if steps != [] {
      StepKeeps(s, steps[0]);
      RunKeeps(Apply(s, steps[0]), steps[1..]);
    }
  }
}
