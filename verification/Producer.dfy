/**
 The asynchronous Kafka producer: bounded queue, send loop, bounded overflow workers, dead-letter
 queue and broker, with every sender, worker and the loop taking steps in any order.

 The breaker may be in any state at each check, and each file append may fail.
 */
module Producer {
  import opened Messages

  /** What the loop has taken off the queue: about to be published, or waiting to be queued again. */
  datatype Hand = Empty | Holding(msg: Msg) | Retrying(msg: Msg)

  datatype LoopPc = Running | Draining(done: nat) | Flushing | Exited

  /**
   How a publish goes: taken, refused, taken although an error came back, or not tried because the
   breaker is open.
   */
  datatype Answer = Delivered | Refused | Doubtful | Open

  datatype Err = None | Marshal | BreakerOpen

  const DRAIN_BUDGET := 200

  datatype Config = Config(capacity: nat, workers: nat, dlqOn: bool)

  /**
   Everywhere a message can be; lost is none of the places it should be. doubled records the messages
   that an error in doubt left with the broker and in the dead-letter queue; the program has no such list.
   */
  datatype Places = Places(
    queue: seq<Msg>,
    hand: Hand,
    overflow: seq<Msg>,
    dlq: seq<Msg>,
    broker: seq<Msg>,
    lost: seq<Msg>,
    doubled: seq<Msg>)

  /** sent lists what Send was given; late records a message queued after the loop had exited. */
  datatype State = State(cfg: Config, at: Places, pc: LoopPc, closed: bool, sent: seq<Msg>, late: bool)

  datatype Step =
    | Send(msg: Msg, disk: bool)
    | Take
    | Process(answer: Answer, disk: bool)
    | Requeue(breakerOpen: bool, disk: bool)
    | Close
    | SeeClose
    | DrainTake
    | DrainSend(answer: Answer, disk: bool)
    | DrainEnd
    | Flush(disk: bool)
    | Work(i: nat, answer: Answer, disk: bool)
    | Replay(i: nat, answer: Answer)

  /** Configured sizes with their defaults: a queue size must be positive, zero workers are allowed. */
  function QueueCapacity(size: int): nat {
    if size <= 0 then 8192 else size
  }

  function OverflowWorkers(n: int): nat {
    if n < 0 then 256 else n
  }

  function Init(queueSize: int, maxOverflow: int, dlqOn: bool): State {
    State(Config(QueueCapacity(queueSize), OverflowWorkers(maxOverflow), dlqOn),
          Places([], Empty, [], [], [], [], []), Running, false, [], false)
  }

  /** dlqStore.append: skipped when disabled, dropped when the record cannot be encoded or written. */
  function ToDlq(cfg: Config, p: Places, m: Msg, disk: bool): Places {
    if cfg.dlqOn && m.marshals && disk then p.(dlq := p.dlq + [m]) else p.(lost := p.lost + [m])
  }

  /** sendOne: a refused message goes to the dead-letter queue and counts as handled. */
  function SendOne(cfg: Config, p: Places, m: Msg, answer: Answer, disk: bool): (Places, Err) {
    if !m.marshals then (p, Marshal)
    else
      match answer
      case Delivered => (p.(broker := p.broker + [m]), None)
      case Refused => (ToDlq(cfg, p, m, disk), None)
      case Doubtful => (InDoubt(cfg, p, m, disk), None)
      case Open => (p, BreakerOpen)
  }

  /** The broker has the message, and the producer stores it as well if it can. */
  function InDoubt(cfg: Config, p: Places, m: Msg, disk: bool): Places {
    if cfg.dlqOn && m.marshals && disk then
      p.(broker := p.broker + [m], dlq := p.dlq + [m], doubled := p.doubled + [m])
    else p.(broker := p.broker + [m])
  }

  /** A relayed line leaves the dead-letter queue only when the broker says it took it. */
  function Relayed(p: Places, i: nat, answer: Answer): Places
    requires i < |p.dlq|
  {
    var m := p.dlq[i];
    match answer
    case Delivered => p.(broker := p.broker + [m], dlq := Without(p.dlq, i))
    case Doubtful => p.(broker := p.broker + [m], doubled := p.doubled + [m])
    case _ => p
  }

  function Sent(cfg: Config, p: Places, m: Msg, disk: bool): Places {
    if |p.queue| < cfg.capacity then p.(queue := p.queue + [m])
    else if |p.overflow| < cfg.workers then p.(overflow := p.overflow + [m])
    else ToDlq(cfg, p, m, disk)
  }

  /** processMessage: only an open breaker lets the loop keep the message. */
  function Processed(cfg: Config, p: Places, m: Msg, answer: Answer, disk: bool): Places {
    var (p', err) := SendOne(cfg, p, m, answer, disk);
    match err
    case None => p'
    case Marshal => p'.(lost := p'.lost + [m])
    case BreakerOpen => p'.(hand := Retrying(m))
  }

  function Requeued(cfg: Config, p: Places, m: Msg, breakerOpen: bool, disk: bool): Places {
    if !breakerOpen && |p.queue| < cfg.capacity then p.(queue := p.queue + [m]) else ToDlq(cfg, p, m, disk)
  }

  /** The shutdown drain: whatever sendOne reports goes to the dead-letter queue. */
  function Drained(cfg: Config, p: Places, m: Msg, answer: Answer, disk: bool): Places {
    var (p', err) := SendOne(cfg, p, m, answer, disk);
    if err.None? then p' else ToDlq(cfg, p', m, disk)
  }

  /** An overflow worker: an open breaker sends to the dead-letter queue, an unencodable message is dropped. */
  function Worked(cfg: Config, p: Places, m: Msg, answer: Answer, disk: bool): Places {
    var (p', err) := SendOne(cfg, p, m, answer, disk);
    match err
    case None => p'
    case Marshal => p'.(lost := p'.lost + [m])
    case BreakerOpen => ToDlq(cfg, p', m, disk)
  }

  function Without<T>(s: seq<T>, i: nat): seq<T>
    requires i < |s|
  {
    s[..i] + s[i + 1..]
  }

  /** Where the messages are after a step; a step that is not enabled moves nothing. */
  function PlacesAfter(cfg: Config, p: Places, pc: LoopPc, step: Step): Places {
    match step
    case Send(m, disk) => Sent(cfg, p, m, disk)
    case Take => if pc.Running? && p.hand.Empty? && p.queue != [] then Taken(p) else p
    case Process(answer, disk) =>
      if pc.Running? && p.hand.Holding? then Processed(cfg, p.(hand := Empty), p.hand.msg, answer, disk) else p
    case Requeue(breakerOpen, disk) =>
      if pc.Running? && p.hand.Retrying? then Requeued(cfg, p.(hand := Empty), p.hand.msg, breakerOpen, disk) else p
    case DrainTake => if pc.Draining? && p.hand.Empty? && p.queue != [] then Taken(p) else p
    case DrainSend(answer, disk) =>
      if pc.Draining? && p.hand.Holding? then Drained(cfg, p.(hand := Empty), p.hand.msg, answer, disk) else p
    case Flush(disk) =>
      if pc.Flushing? && p.queue != [] then ToDlq(cfg, p.(queue := p.queue[1..]), p.queue[0], disk) else p
    case Work(i, answer, disk) =>
      if i < |p.overflow| then Worked(cfg, p.(overflow := Without(p.overflow, i)), p.overflow[i], answer, disk) else p
    case Replay(i, answer) => if i < |p.dlq| then Relayed(p, i, answer) else p
    case _ => p
  }

  function Taken(p: Places): Places
    requires p.queue != []
  {
    p.(hand := Holding(p.queue[0]), queue := p.queue[1..])
  }

  /** Where the loop is after a step. */
  function PcAfter(p: Places, pc: LoopPc, closed: bool, step: Step): LoopPc {
    match step
    case SeeClose => if pc.Running? && p.hand.Empty? && closed then Draining(0) else pc
    case DrainSend(_, _) =>
      if pc.Draining? && p.hand.Holding? then (if pc.done + 1 >= DRAIN_BUDGET then Flushing else Draining(pc.done + 1))
      else pc
    case DrainEnd => if pc.Draining? && p.hand.Empty? && p.queue == [] then Exited else pc
    case Flush(_) => if pc.Flushing? && p.queue == [] then Exited else pc
    case _ => pc
  }

  function Apply(s: State, step: Step): State {
    State(s.cfg,
          PlacesAfter(s.cfg, s.at, s.pc, step),
          PcAfter(s.at, s.pc, s.closed, step),
          s.closed || step.Close?,
          if step.Send? then s.sent + [step.msg] else s.sent,
          s.late || (s.pc.Exited? && step.Send? && |s.at.queue| < s.cfg.capacity))
  }

  function Exec(s: State, steps: seq<Step>): State
    decreases |steps|
  {
    if steps == [] then s else Exec(Apply(s, steps[0]), steps[1..])
  }

  // ---------- every message is in one place, or doubled ----------

  function InHand(h: Hand, m: Msg): nat {
    if !h.Empty? && h.msg == m then 1 else 0
  }

  /** Copies of m over all the places a message can be, without the second copies of doubled ones. */
  function Placed(p: Places, m: Msg): int {
    Count(p.queue, m) + InHand(p.hand, m) + Count(p.overflow, m) + Count(p.dlq, m) + Count(p.broker, m) + Count(p.lost, m)
    - Count(p.doubled, m)
  }

  /** Bounds, and what the loop leaves behind when it exits. */
  predicate LoopInv(cfg: Config, p: Places, pc: LoopPc, late: bool) {
    && |p.queue| <= cfg.capacity
    && |p.overflow| <= cfg.workers
    && (pc.Draining? ==> pc.done < DRAIN_BUDGET && !p.hand.Retrying?)
    && (pc.Flushing? || pc.Exited? ==> p.hand.Empty?)
    && (pc.Exited? && !late ==> p.queue == [])
    && (late ==> pc.Exited? && p.queue != [])
  }

  ghost predicate Inv(s: State) {
    && (forall m :: Count(s.sent, m) == Placed(s.at, m))
    && LoopInv(s.cfg, s.at, s.pc, s.late)
  }

  lemma ToDlqPlaces(cfg: Config, p: Places, m: Msg, disk: bool, x: Msg)
    ensures Placed(ToDlq(cfg, p, m, disk), x) == Placed(p, x) + if m == x then 1 else 0
  {
    CountPush(p.dlq, m, x);
    CountPush(p.lost, m, x);
  }

  lemma SendOnePlaces(cfg: Config, p: Places, m: Msg, answer: Answer, disk: bool, x: Msg)
    ensures var (p', err) := SendOne(cfg, p, m, answer, disk);
      Placed(p', x) == Placed(p, x) + (if m == x && err.None? then 1 else 0) && p'.hand == p.hand
  {
    hide Count;
    CountPush(p.broker, m, x);
    ToDlqPlaces(cfg, p, m, disk, x);
    InDoubtPlaces(cfg, p, m, disk, x);
  }

  lemma InDoubtPlaces(cfg: Config, p: Places, m: Msg, disk: bool, x: Msg)
    ensures Placed(InDoubt(cfg, p, m, disk), x) == Placed(p, x) + if m == x then 1 else 0
  {
    hide Count;
    CountPush(p.broker, m, x);
    CountPush(p.dlq, m, x);
    CountPush(p.doubled, m, x);
  }

  /** Whoever is given a message puts it into exactly one place. */
  lemma ProcessedPlaces(cfg: Config, p: Places, m: Msg, answer: Answer, disk: bool, x: Msg)
    requires p.hand.Empty?
    ensures Placed(Processed(cfg, p, m, answer, disk), x) == Placed(p, x) + if m == x then 1 else 0
  {
    hide Count, SendOne;
    SendOnePlaces(cfg, p, m, answer, disk, x);
    CountPush(SendOne(cfg, p, m, answer, disk).0.lost, m, x);
  }

  lemma DrainedPlaces(cfg: Config, p: Places, m: Msg, answer: Answer, disk: bool, x: Msg)
    ensures Placed(Drained(cfg, p, m, answer, disk), x) == Placed(p, x) + if m == x then 1 else 0
  {
    hide Count, SendOne, ToDlq, Placed;
    SendOnePlaces(cfg, p, m, answer, disk, x);
    ToDlqPlaces(cfg, SendOne(cfg, p, m, answer, disk).0, m, disk, x);
  }

  lemma WorkedPlaces(cfg: Config, p: Places, m: Msg, answer: Answer, disk: bool, x: Msg)
    ensures Placed(Worked(cfg, p, m, answer, disk), x) == Placed(p, x) + if m == x then 1 else 0
  {
    hide Count, SendOne, ToDlq;
    var p' := SendOne(cfg, p, m, answer, disk).0;
    SendOnePlaces(cfg, p, m, answer, disk, x);
    CountPush(p'.lost, m, x);
    ToDlqPlaces(cfg, p', m, disk, x);
  }

  lemma SentPlaces(cfg: Config, p: Places, m: Msg, disk: bool, x: Msg)
    ensures Placed(Sent(cfg, p, m, disk), x) == Placed(p, x) + if m == x then 1 else 0
  {
    if |p.queue| < cfg.capacity {
      CountPush(p.queue, m, x);
    } else if |p.overflow| < cfg.workers {
      CountPush(p.overflow, m, x);
    } else {
      ToDlqPlaces(cfg, p, m, disk, x);
    }
  }

  lemma RequeuedPlaces(cfg: Config, p: Places, m: Msg, breakerOpen: bool, disk: bool, x: Msg)
    ensures Placed(Requeued(cfg, p, m, breakerOpen, disk), x) == Placed(p, x) + if m == x then 1 else 0
  {
    if !breakerOpen && |p.queue| < cfg.capacity {
      CountPush(p.queue, m, x);
    } else {
      ToDlqPlaces(cfg, p, m, disk, x);
    }
  }

  lemma TakenPlaces(p: Places, x: Msg)
    requires p.queue != [] && p.hand.Empty?
    ensures Placed(Taken(p), x) == Placed(p, x)
  {
    CountPop(p.queue, x);
  }

  lemma ReplayPlaces(p: Places, i: nat, answer: Answer, x: Msg)
    requires i < |p.dlq|
    ensures Placed(Relayed(p, i, answer), x) == Placed(p, x)
  {
    hide Count;
    CountRemove(p.dlq, i, x);
    CountPush(p.broker, p.dlq[i], x);
    CountPush(p.doubled, p.dlq[i], x);
  }

  /** A step moves messages between places; only Send adds one. */
  lemma StepPlaces(cfg: Config, p: Places, pc: LoopPc, step: Step, x: Msg)
    ensures Placed(PlacesAfter(cfg, p, pc, step), x) == Placed(p, x) + if step.Send? && step.msg == x then 1 else 0
  {
    hide Count, Sent, Processed, Requeued, Drained, Worked, Relayed, ToDlq;
    var p0 := p.(hand := Empty);
    if PlacesAfter(cfg, p, pc, step) != p {
      match step
      case Send(m, disk) => SentPlaces(cfg, p, m, disk, x);
      case Take => TakenPlaces(p, x);
      case DrainTake => TakenPlaces(p, x);
      case Process(answer, disk) => ProcessedPlaces(cfg, p0, p.hand.msg, answer, disk, x);
      case DrainSend(answer, disk) => DrainedPlaces(cfg, p0, p.hand.msg, answer, disk, x);
      case Requeue(breakerOpen, disk) => RequeuedPlaces(cfg, p0, p.hand.msg, breakerOpen, disk, x);
      case Flush(disk) =>
        CountPop(p.queue, x);
        ToDlqPlaces(cfg, p.(queue := p.queue[1..]), p.queue[0], disk, x);
      case Work(i, answer, disk) =>
        CountRemove(p.overflow, i, x);
        WorkedPlaces(cfg, p.(overflow := Without(p.overflow, i)), p.overflow[i], answer, disk, x);
      case Replay(i, answer) => ReplayPlaces(p, i, answer, x);
      case _ =>
    } else if step.Send? {
      SentPlaces(cfg, p, step.msg, step.disk, x);
    }
  }

  lemma StepKeepsLoop(s: State, step: Step)
    requires LoopInv(s.cfg, s.at, s.pc, s.late)
    ensures var s' := Apply(s, step); LoopInv(s'.cfg, s'.at, s'.pc, s'.late)
  {
  }

  lemma StepKeeps(s: State, step: Step)
    requires Inv(s)
    ensures Inv(Apply(s, step))
  {
    StepKeepsLoop(s, step);
    var s' := Apply(s, step);
    forall m ensures Count(s'.sent, m) == Placed(s'.at, m) {
      StepPlaces(s.cfg, s.at, s.pc, step, m);
      if step.Send? { CountPush(s.sent, step.msg, m); }
    }
  }

  lemma {:induction false} RunKeeps(s: State, steps: seq<Step>)
    requires Inv(s)
    ensures Inv(Exec(s, steps))
    decreases |steps|
  {
    if steps != [] {
      StepKeeps(s, steps[0]);
      RunKeeps(Apply(s, steps[0]), steps[1..]);
    }
  }
}
