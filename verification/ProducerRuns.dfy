/** What the producer guarantees over whole runs. */
module ProducerRuns {
  import opened Messages
  import opened Producer

  lemma InitHolds(queueSize: int, maxOverflow: int, dlqOn: bool)
    ensures Inv(Init(queueSize, maxOverflow, dlqOn))
  {
  }

  function HandBag(h: Hand): multiset<Msg> {
    if h.Empty? then multiset{} else multiset{h.msg}
  }

  /** All copies there are. */
  function Bag(p: Places): multiset<Msg> {
    multiset(p.queue) + HandBag(p.hand) + multiset(p.overflow) + multiset(p.dlq) + multiset(p.broker) + multiset(p.lost)
  }

  lemma PlacedIsMultiset(p: Places, m: Msg)
    ensures Placed(p, m) + multiset(p.doubled)[m] == Bag(p)[m]
  {
    hide Count;
    CountIsMultiplicity(p.queue, m);
    CountIsMultiplicity(p.overflow, m);
    CountIsMultiplicity(p.dlq, m);
    CountIsMultiplicity(p.broker, m);
    CountIsMultiplicity(p.lost, m);
    CountIsMultiplicity(p.doubled, m);
  }

  /**
   After every step of every run, the copies of messages in the queue, the loop's hand, the overflow
   workers, the dead-letter queue, the broker and lost are those passed to Send and one more for each
   publish in doubt: so each message is in at least one place, and each in exactly one if and only if
   nothing is doubled. The queue and the overflow pool stay within their configured sizes.
   */
  lemma ExactlyOnePlace(queueSize: int, maxOverflow: int, dlqOn: bool, steps: seq<Step>)
    ensures var s := Exec(Init(queueSize, maxOverflow, dlqOn), steps);
      && Bag(s.at) == multiset(s.sent) + multiset(s.at.doubled)
      && (Bag(s.at) == multiset(s.sent) <==> s.at.doubled == [])
      && |s.at.queue| <= s.cfg.capacity
      && |s.at.overflow| <= s.cfg.workers
  {
    hide Count, Exec, Apply, Placed, Bag;
    InitHolds(queueSize, maxOverflow, dlqOn);
    RunKeeps(Init(queueSize, maxOverflow, dlqOn), steps);
    var s := Exec(Init(queueSize, maxOverflow, dlqOn), steps);
    forall m ensures Bag(s.at)[m] == (multiset(s.sent) + multiset(s.at.doubled))[m] {
      CountIsMultiplicity(s.sent, m);
      PlacedIsMultiset(s.at, m);
    }
    assert s.at.doubled != [] ==> s.at.doubled[0] in multiset(s.at.doubled);
  }

  /** A message is doubled only by a publish or relay in doubt. */
  predicate Certain(step: Step) {
    match step
    case Process(answer, _) => !answer.Doubtful?
    case DrainSend(answer, _) => !answer.Doubtful?
    case Work(_, answer, _) => !answer.Doubtful?
    case Replay(_, answer) => !answer.Doubtful?
    case _ => true
  }

  lemma {:induction false} CertainRunsDoubleNothing(s: State, steps: seq<Step>)
    requires s.at.doubled == [] && forall i :: 0 <= i < |steps| ==> Certain(steps[i])
    ensures Exec(s, steps).at.doubled == []
    decreases |steps|
  {
    if steps != [] {
      assert Certain(steps[0]);
      CertainRunsDoubleNothing(Apply(s, steps[0]), steps[1..]);
    }
  }

  // ---------- what is lost ----------

  /** The step's file append, if it makes one, works. */
  predicate DiskWorks(step: Step) {
    match step
    case Send(_, disk) => disk
    case Process(_, disk) => disk
    case Requeue(_, disk) => disk
    case DrainSend(_, disk) => disk
    case Flush(disk) => disk
    case Work(_, _, disk) => disk
    case _ => true
  }

  /** Nothing that can be encoded is lost, and nothing else is doubled. */
  ghost predicate OnlyUnencodableLost(p: Places) {
    (forall m :: m in p.lost ==> !m.marshals) && (forall m :: m in p.doubled ==> m.marshals)
  }

  ghost predicate DlqEncodable(p: Places) {
    forall m :: m in p.dlq ==> m.marshals
  }

  lemma StepLoses(cfg: Config, p: Places, pc: LoopPc, step: Step)
    requires cfg.dlqOn && DiskWorks(step) && OnlyUnencodableLost(p) && DlqEncodable(p)
    ensures OnlyUnencodableLost(PlacesAfter(cfg, p, pc, step))
  {
  }

  lemma StepStores(cfg: Config, p: Places, pc: LoopPc, step: Step)
    requires DlqEncodable(p)
    ensures DlqEncodable(PlacesAfter(cfg, p, pc, step))
  {
  }

  /** With the dead-letter queue on and its appends working, only messages that cannot be encoded are lost. */
  lemma {:induction false} NothingElseLost(s: State, steps: seq<Step>)
    requires s.cfg.dlqOn && OnlyUnencodableLost(s.at) && DlqEncodable(s.at)
    requires AppendsWork(steps)
    ensures OnlyUnencodableLost(Exec(s, steps).at)
    decreases |steps|
  {
    if steps != [] {
      StepLoses(s.cfg, s.at, s.pc, steps[0]);
      StepStores(s.cfg, s.at, s.pc, steps[0]);
      NothingElseLost(Apply(s, steps[0]), steps[1..]);
    }
  }

  /** Every file append of the run works. */
  predicate AppendsWork(steps: seq<Step>) {
    forall i :: 0 <= i < |steps| ==> DiskWorks(steps[i])
  }

  lemma ExecThree(s: State, a: Step, b: Step, c: Step)
    ensures Exec(s, [a, b, c]) == Apply(Apply(Apply(s, a), b), c)
  {
    hide Apply;
    assert [a, b, c][1..] == [b, c] && [b, c][1..] == [c] && [c][1..] == [];
    assert Exec(Apply(Apply(s, a), b), [c]) == Exec(Apply(Apply(Apply(s, a), b), c), []);
  }

  /** A message that the broker refuses once. */
  function RefusedRun(m: Msg): seq<Step> {
    [Send(m, true), Take, Process(Refused, true)]
  }

  lemma RefusedRunLoses(queueSize: int, maxOverflow: int, m: Msg)
    requires m.marshals
    ensures Exec(Init(queueSize, maxOverflow, false), RefusedRun(m)).at.lost == [m]
  {
    var s0 := Init(queueSize, maxOverflow, false);
    ExecThree(s0, Send(m, true), Take, Process(Refused, true));
    var s2 := Apply(Apply(s0, Send(m, true)), Take);
    assert s2.at.hand == Holding(m);
  }

  /**
   In every run whose file appends work, only messages that cannot be encoded are lost: exactly when
   the dead-letter queue is on.
   */
  lemma NothingElseLostIffDlqOn(queueSize: int, maxOverflow: int, dlqOn: bool)
    ensures (forall steps :: AppendsWork(steps) ==>
               OnlyUnencodableLost(Exec(Init(queueSize, maxOverflow, dlqOn), steps).at)) <==> dlqOn
  {
    var s0 := Init(queueSize, maxOverflow, dlqOn);
    if dlqOn {
      forall steps | AppendsWork(steps) ensures OnlyUnencodableLost(Exec(s0, steps).at) {
        NothingElseLost(s0, steps);
      }
    } else {
      var m := Msg(0, true);
      RefusedRunLoses(queueSize, maxOverflow, m);
      assert AppendsWork(RefusedRun(m));
      assert m in Exec(s0, RefusedRun(m)).at.lost;
    }
  }

  // ---------- after shutdown ----------

  /**
   Once the loop and the workers have exited, with a writable dead-letter queue and messages that can
   be encoded: everything sent is with the broker or in the dead-letter queue if and only if no Send
   put a message into the queue after the loop had gone.
   */
  lemma AllDeliveredOrStoredIff(queueSize: int, maxOverflow: int, steps: seq<Step>)
    requires AppendsWork(steps) && forall i :: 0 <= i < |steps| ==> (steps[i].Send? ==> steps[i].msg.marshals)
    requires var s := Exec(Init(queueSize, maxOverflow, true), steps);
      s.pc.Exited? && s.at.overflow == []
    ensures var s := Exec(Init(queueSize, maxOverflow, true), steps);
      multiset(s.sent) + multiset(s.at.doubled) == multiset(s.at.dlq) + multiset(s.at.broker) <==> !s.late
  {
    var s0 := Init(queueSize, maxOverflow, true);
    assert OnlyUnencodableLost(s0.at) && DlqEncodable(s0.at);
    hide Count, Exec, Apply, Placed;
    var s := Exec(s0, steps);
    InitHolds(queueSize, maxOverflow, true);
    RunKeeps(s0, steps);
    ExactlyOnePlace(queueSize, maxOverflow, true, steps);
    NothingElseLost(s0, steps);
    SentAreEncodable(s0, steps);
    NothingLostThen(s.sent, s.at);
    assert s.at.queue != [] ==> s.at.queue[0] in multiset(s.at.queue);
  }

  lemma FirstLost(sent: seq<Msg>, p: Places)
    requires Bag(p) == multiset(sent) + multiset(p.doubled)
    ensures p.lost == [] || (p.lost[0] in p.lost && (p.lost[0] in sent || p.lost[0] in p.doubled))
  {
    if p.lost != [] {
      assert p.lost[0] in multiset(p.lost) && p.lost[0] in Bag(p);
      assert p.lost[0] in multiset(sent) || p.lost[0] in multiset(p.doubled);
    }
  }

  lemma NothingLostThen(sent: seq<Msg>, p: Places)
    requires Bag(p) == multiset(sent) + multiset(p.doubled)
    requires OnlyUnencodableLost(p) && forall m :: m in sent ==> m.marshals
    ensures p.lost == []
  {
    FirstLost(sent, p);
  }

  lemma {:induction false} SentAreEncodable(s: State, steps: seq<Step>)
    requires forall m :: m in s.sent ==> m.marshals
    requires forall i :: 0 <= i < |steps| ==> (steps[i].Send? ==> steps[i].msg.marshals)
    ensures forall m :: m in Exec(s, steps).sent ==> m.marshals
    decreases |steps|
  {
    if steps != [] {
      SentAreEncodable(Apply(s, steps[0]), steps[1..]);
    }
  }

  // ---------- the shutdown drain ends ----------

  /** What the loop still has to do: two units for each queued message, one for the one in hand, one for leaving. */
  function Work(p: Places, pc: LoopPc): nat {
    2 * |p.queue| + (if p.hand.Empty? then 0 else 1) + (if pc.Exited? then 0 else 1)
  }

  predicate IsDrainStep(step: Step) {
    step.DrainTake? || step.DrainSend? || step.DrainEnd? || step.Flush?
  }

  /** Steps of the draining loop that did something. */
  function DrainSteps(s: State, steps: seq<Step>): nat
    decreases |steps|
  {
    if steps == [] then 0
    else
      (if IsDrainStep(steps[0]) && Apply(s, steps[0]) != s then 1 else 0) + DrainSteps(Apply(s, steps[0]), steps[1..])
  }

  function Sends(steps: seq<Step>): nat {
    if steps == [] then 0 else (if steps[0].Send? then 1 else 0) + Sends(steps[1..])
  }

  lemma StepWork(s: State, step: Step)
    requires LoopInv(s.cfg, s.at, s.pc, s.late) && !s.pc.Running?
    ensures var s' := Apply(s, step);
      && !s'.pc.Running?
      && Work(s'.at, s'.pc) + (if IsDrainStep(step) && s' != s then 1 else 0)
         <= Work(s.at, s.pc) + (if step.Send? then 2 else 0)
  {
  }

  /** However the steps interleave, the drain takes at most the work it found plus two for each later Send. */
  lemma {:induction false} DrainTerminates(s: State, steps: seq<Step>)
    requires LoopInv(s.cfg, s.at, s.pc, s.late) && !s.pc.Running?
    ensures DrainSteps(s, steps) <= Work(s.at, s.pc) + 2 * Sends(steps)
    decreases |steps|
  {
    if steps != [] {
      StepWork(s, steps[0]);
      StepKeepsLoop(s, steps[0]);
      DrainTerminates(Apply(s, steps[0]), steps[1..]);
    }
  }

  /** And it is never stuck: until it has exited, some step of its own is enabled. */
  lemma DrainNeverStuck(s: State)
    requires LoopInv(s.cfg, s.at, s.pc, s.late) && !s.pc.Running? && !s.pc.Exited?
    ensures exists step :: IsDrainStep(step) && Apply(s, step) != s
  {
    var step := if s.pc.Flushing? then Flush(true)
                else if !s.at.hand.Empty? then DrainSend(Delivered, true)
                else if s.at.queue == [] then DrainEnd
                else DrainTake;
    assert IsDrainStep(step);
    if step.DrainSend? {
      assert PcAfter(s.at, s.pc, s.closed, step) != s.pc;
    } else if step.Flush? && s.at.queue != [] {
      assert |PlacesAfter(s.cfg, s.at, s.pc, step).queue| == |s.at.queue| - 1;
    }
  }

  // ---------- a Send that comes too late ----------

  /** Once the loop has exited, a late Send is never made good: the queue only grows, and late stays. */
  lemma {:induction false} LateStaysLate(s: State, steps: seq<Step>)
    requires s.pc.Exited?
    ensures Exec(s, steps).pc.Exited? && s.at.queue <= Exec(s, steps).at.queue && (s.late ==> Exec(s, steps).late)
    decreases |steps|
  {
    if steps != [] {
      LateStaysLate(Apply(s, steps[0]), steps[1..]);
    }
  }
}
