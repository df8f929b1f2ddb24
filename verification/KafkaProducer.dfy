/** The producer as the program writes it: one method per routine, and the shutdown drain as its loop. */
module KafkaProducer {
  import opened Messages
  import P = Producer

  /** drainToDLQ: everything still queued goes to the dead-letter queue. */
  function Flushed(cfg: P.Config, p: P.Places, k: nat, disk: nat -> bool): P.Places
    decreases |p.queue|
  {
    if p.queue == [] then p
    else Flushed(cfg, P.ToDlq(cfg, p.(queue := p.queue[1..]), p.queue[0], disk(k)), k + 1, disk)
  }

  /** The drain after done messages: publish until the queue is empty or the budget is used up, then flush. */
  function DrainedFrom(cfg: P.Config, p: P.Places, done: nat, answer: nat -> P.Answer, disk: nat -> bool): P.Places
    decreases |p.queue|
  {
    if p.queue == [] then p
    else
      var p' := P.Drained(cfg, p.(queue := p.queue[1..]), p.queue[0], answer(done), disk(done));
      if done + 1 >= P.DRAIN_BUDGET then Flushed(cfg, p', done + 1, disk)
      else DrainedFrom(cfg, p', done + 1, answer, disk)
  }

  lemma {:induction false} FlushedPlaces(cfg: P.Config, p: P.Places, k: nat, disk: nat -> bool, m: Msg)
    ensures var p' := Flushed(cfg, p, k, disk);
      && p'.queue == [] && p'.broker == p.broker
      && P.Placed(p', m) == P.Placed(p, m)
      && (cfg.dlqOn && (forall j: nat :: disk(j)) && (forall x :: x in p.queue ==> x.marshals) ==> p'.lost == p.lost)
    decreases |p.queue|
  {
    if p.queue != [] {
      var p0 := p.(queue := p.queue[1..]);
      CountPop(p.queue, m);
      P.ToDlqPlaces(cfg, p0, p.queue[0], disk(k), m);
      FlushedPlaces(cfg, P.ToDlq(cfg, p0, p.queue[0], disk(k)), k + 1, disk, m);
    }
  }

  lemma DrainedKeeps(cfg: P.Config, p: P.Places, m: Msg, answer: P.Answer, disk: bool)
    ensures var p' := P.Drained(cfg, p, m, answer, disk);
      && p'.queue == p.queue && p'.hand == p.hand
      && |p'.broker| <= |p.broker| + 1
      && (cfg.dlqOn && disk && m.marshals ==> p'.lost == p.lost)
  {
  }

  /** One drained message: the rest of the queue is untouched, the broker is asked at most once. */
  lemma DrainedOne(cfg: P.Config, p: P.Places, answer: P.Answer, disk: bool, m: Msg)
    requires p.queue != [] && p.hand.Empty?
    ensures var p' := P.Drained(cfg, p.(queue := p.queue[1..]), p.queue[0], answer, disk);
      && p'.queue == p.queue[1..] && p'.hand.Empty?
      && |p'.broker| <= |p.broker| + 1
      && P.Placed(p', m) == P.Placed(p, m)
      && (cfg.dlqOn && disk && p.queue[0].marshals ==> p'.lost == p.lost)
  {
    hide Count, P.Drained;
    var p0 := p.(queue := p.queue[1..]);
    DrainedKeeps(cfg, p0, p.queue[0], answer, disk);
    CountPop(p.queue, m);
    assert P.Placed(p, m) == P.Placed(p0, m) + if p.queue[0] == m then 1 else 0;
    hide P.Placed;
    P.DrainedPlaces(cfg, p0, p.queue[0], answer, disk, m);
  }

  /**
   The drain empties the queue, puts every message in one other place, asks the broker at most
   for what is left of its budget, and loses nothing that can be encoded and stored.
   */
  lemma {:induction false} DrainEmptiesQueue(
    cfg: P.Config, p: P.Places, done: nat, answer: nat -> P.Answer, disk: nat -> bool, m: Msg)
    requires done < P.DRAIN_BUDGET && p.hand.Empty?
    ensures var p' := DrainedFrom(cfg, p, done, answer, disk);
      && p'.queue == []
      && P.Placed(p', m) == P.Placed(p, m)
      && |p'.broker| <= |p.broker| + P.DRAIN_BUDGET - done
      && (cfg.dlqOn && (forall j: nat :: disk(j)) && (forall x :: x in p.queue ==> x.marshals) ==> p'.lost == p.lost)
    decreases |p.queue|
  {
    hide Count, P.Placed, P.Drained;
    if p.queue != [] {
      var p1 := P.Drained(cfg, p.(queue := p.queue[1..]), p.queue[0], answer(done), disk(done));
      DrainedOne(cfg, p, answer(done), disk(done), m);
      if done + 1 >= P.DRAIN_BUDGET {
        FlushedPlaces(cfg, p1, done + 1, disk, m);
      } else {
        DrainEmptiesQueue(cfg, p1, done + 1, answer, disk, m);
      }
    }
  }

  lemma {:induction false} FlushStoresAll(cfg: P.Config, p: P.Places, k: nat, disk: nat -> bool)
    requires cfg.dlqOn && (forall j: nat :: disk(j)) && forall x :: x in p.queue ==> x.marshals
    ensures Flushed(cfg, p, k, disk) == p.(queue := [], dlq := p.dlq + p.queue)
    decreases |p.queue|
  {
    if p.queue != [] {
      FlushStoresAll(cfg, P.ToDlq(cfg, p.(queue := p.queue[1..]), p.queue[0], disk(k)), k + 1, disk);
      assert p.dlq + [p.queue[0]] + p.queue[1..] == p.dlq + p.queue;
    } else {
      assert p.dlq + [] == p.dlq;
    }
  }

  /** The head of the queue, once the broker took it. */
  function Published(p: P.Places): P.Places
    requires p.queue != []
  {
    p.(queue := p.queue[1..], broker := p.broker + [p.queue[0]])
  }

  lemma DrainGoesOn(cfg: P.Config, p: P.Places, done: nat, answer: nat -> P.Answer, disk: nat -> bool)
    requires p.queue != [] && p.queue[0].marshals && answer(done) == P.Delivered
    ensures DrainedFrom(cfg, p, done, answer, disk) ==
      if done + 1 >= 200 then Flushed(cfg, Published(p), done + 1, disk)
      else DrainedFrom(cfg, Published(p), done + 1, answer, disk)
  {
    hide Flushed;
    assert P.Drained(cfg, p.(queue := p.queue[1..]), p.queue[0], answer(done), disk(done)) == Published(p);
  }

  /** The places once n messages were published and the others stored. */
  function PublishedThenStored(p: P.Places, n: nat): P.Places
    requires n <= |p.queue|
  {
    p.(queue := [], broker := p.broker + p.queue[..n], dlq := p.dlq + p.queue[n..])
  }

  lemma PublishedNext(p: P.Places, n: nat)
    requires 0 < n <= |p.queue|
    ensures PublishedThenStored(Published(p), n - 1) == PublishedThenStored(p, n)
  {
    var q := Published(p);
    assert q.broker + q.queue[..n - 1] == p.broker + p.queue[..n];
    assert q.queue[n - 1..] == p.queue[n..];
  }

  lemma NothingPublished(p: P.Places)
    ensures PublishedThenStored(p, 0) == p.(queue := [], dlq := p.dlq + p.queue)
    ensures p.queue == [] ==> PublishedThenStored(p, 0) == p
  {
    assert p.broker + p.queue[..0] == p.broker && p.queue[0..] == p.queue;
    assert p.dlq + [] == p.dlq;
  }

  /**
   With a broker that takes everything, the drain publishes the first messages, in order, up to its
   budget of 200, and stores the others.
   */
  lemma {:induction false} DrainPublishesFirst(
    cfg: P.Config, p: P.Places, done: nat, answer: nat -> P.Answer, disk: nat -> bool)
    requires done < 200 && forall x :: x in p.queue ==> x.marshals
    requires cfg.dlqOn && (forall j: nat :: disk(j)) && forall j: nat :: answer(j) == P.Delivered
    ensures DrainedFrom(cfg, p, done, answer, disk)
         == PublishedThenStored(p, if |p.queue| <= 200 - done then |p.queue| else 200 - done)
    decreases |p.queue|
  {
    if p.queue == [] {
      NothingPublished(p);
    } else {
      DrainGoesOn(cfg, p, done, answer, disk);
      hide DrainedFrom, Flushed, PublishedThenStored;
      PublishedNext(p, if |p.queue| <= 200 - done then |p.queue| else 200 - done);
      if done + 1 >= 200 {
        FlushStoresAll(cfg, Published(p), done + 1, disk);
        NothingPublished(Published(p));
      } else {
        DrainPublishesFirst(cfg, Published(p), done + 1, answer, disk);
      }
    }
  }

  class KafkaProducer {
    const cfg: P.Config
    var queue: seq<Msg>
    var overflow: seq<Msg>
    var dlq: seq<Msg>
    var broker: seq<Msg>
    var lost: seq<Msg>
    ghost var doubled: seq<Msg>

    constructor (queueSize: int, maxOverflow: int, dlqOn: bool)
      ensures At() == P.Init(queueSize, maxOverflow, dlqOn).at && cfg == P.Init(queueSize, maxOverflow, dlqOn).cfg
      ensures cfg == P.Config(if queueSize <= 0 then 8192 else queueSize, if maxOverflow < 0 then 256 else maxOverflow, dlqOn)
    {
      cfg := P.Config(P.QueueCapacity(queueSize), P.OverflowWorkers(maxOverflow), dlqOn);
      queue, overflow, dlq, broker, lost := [], [], [], [], [];
      doubled := [];
    }

    ghost function At(): P.Places
      reads this
    {
      P.Places(queue, P.Empty, overflow, dlq, broker, lost, doubled)
    }

    /** dlqStore.append; the disk may refuse. */
    method AppendDlq(m: Msg, disk: bool)
      modifies this
      ensures At() == P.ToDlq(cfg, old(At()), m, disk)
      ensures queue == old(queue) && overflow == old(overflow) && broker == old(broker) && doubled == old(doubled)
      ensures var stored := cfg.dlqOn && m.marshals && disk;
        && dlq == (if stored then old(dlq) + [m] else old(dlq))
        && lost == if stored then old(lost) else old(lost) + [m]
    {
      if cfg.dlqOn && m.marshals && disk {
        dlq := dlq + [m];
      } else {
        lost := lost + [m];
      }
    }

    method SendOne(m: Msg, answer: P.Answer, disk: bool) returns (err: P.Err)
      modifies this
      ensures (At(), err) == P.SendOne(cfg, old(At()), m, answer, disk)
      ensures err == if !m.marshals then P.Marshal else if answer.Open? then P.BreakerOpen else P.None
      ensures queue == old(queue) && overflow == old(overflow)
      ensures broker == if m.marshals && (answer.Delivered? || answer.Doubtful?) then old(broker) + [m] else old(broker)
      ensures dlq == if m.marshals && (answer.Refused? || answer.Doubtful?) && cfg.dlqOn && disk then old(dlq) + [m] else old(dlq)
      ensures lost == if m.marshals && answer.Refused? && !(cfg.dlqOn && disk) then old(lost) + [m] else old(lost)
    {
      if !m.marshals {
        return P.Marshal;
      }
      if answer.Open? {
        return P.BreakerOpen;
      }
      if answer.Delivered? || answer.Doubtful? {
        broker := broker + [m];
      }
      if answer.Refused? {
        AppendDlq(m, disk);
      } else if answer.Doubtful? && cfg.dlqOn && disk {
        dlq := dlq + [m];
        doubled := doubled + [m];
      }
      return P.None;
    }

    method Send(m: Msg, disk: bool)
      modifies this
      ensures At() == P.Sent(cfg, old(At()), m, disk)
      ensures broker == old(broker)
      ensures |old(queue)| < cfg.capacity ==>
        queue == old(queue) + [m] && overflow == old(overflow) && dlq == old(dlq) && lost == old(lost)
      ensures |old(queue)| >= cfg.capacity && |old(overflow)| < cfg.workers ==>
        queue == old(queue) && overflow == old(overflow) + [m] && dlq == old(dlq) && lost == old(lost)
      ensures |old(queue)| >= cfg.capacity && |old(overflow)| >= cfg.workers ==>
        var stored := cfg.dlqOn && m.marshals && disk;
        && queue == old(queue) && overflow == old(overflow)
        && dlq == (if stored then old(dlq) + [m] else old(dlq)) && lost == if stored then old(lost) else old(lost) + [m]
    {
      if |queue| < cfg.capacity {
        queue := queue + [m];
      } else if |overflow| < cfg.workers {
        overflow := overflow + [m];
      } else {
        AppendDlq(m, disk);
      }
    }

    /** The loop takes one message, publishes it, and requeues it when the breaker is open. */
    method ProcessNext(answer: P.Answer, breakerOpen: bool, disk: bool)
      requires queue != []
      modifies this
      ensures var m, p := old(queue)[0], old(At()).(queue := old(queue)[1..]);
        At() == if m.marshals && answer.Open? then P.Requeued(cfg, p, m, breakerOpen, disk)
                else P.Processed(cfg, p, m, answer, disk)
      ensures overflow == old(overflow)
      ensures var m := old(queue)[0];
        var kept := m.marshals && answer.Open? && !breakerOpen && |old(queue)| <= cfg.capacity;
        queue == if kept then old(queue)[1..] + [m] else old(queue)[1..]
      ensures var m := old(queue)[0];
        var refused := m.marshals && (answer.Refused? || (answer.Open? && (breakerOpen || |old(queue)| > cfg.capacity)));
        && broker == (if m.marshals && (answer.Delivered? || answer.Doubtful?) then old(broker) + [m] else old(broker))
        && dlq == (if (refused || (m.marshals && answer.Doubtful?)) && cfg.dlqOn && disk then old(dlq) + [m] else old(dlq))
        && lost == if !m.marshals || (refused && !(cfg.dlqOn && disk)) then old(lost) + [m] else old(lost)
    {
      var m := queue[0];
      queue := queue[1..];
      var err := SendOne(m, answer, disk);
      if err.BreakerOpen? {
        if !breakerOpen && |queue| < cfg.capacity {
          queue := queue + [m];
        } else {
          AppendDlq(m, disk);
        }
      } else if err.Marshal? {
        lost := lost + [m];
      }
    }

    /** One overflow worker finishes. */
    method WorkOne(i: nat, answer: P.Answer, disk: bool)
      requires i < |overflow|
      modifies this
      ensures At() == P.Worked(cfg, old(At()).(overflow := P.Without(old(overflow), i)), old(overflow)[i], answer, disk)
      ensures queue == old(queue) && overflow == old(overflow)[..i] + old(overflow)[i + 1..]
      ensures var m := old(overflow)[i];
        var refused := m.marshals && (answer.Refused? || answer.Open?);
        && broker == (if m.marshals && (answer.Delivered? || answer.Doubtful?) then old(broker) + [m] else old(broker))
        && dlq == (if (refused || (m.marshals && answer.Doubtful?)) && cfg.dlqOn && disk then old(dlq) + [m] else old(dlq))
        && lost == if !m.marshals || (refused && !(cfg.dlqOn && disk)) then old(lost) + [m] else old(lost)
    {
      var m := overflow[i];
      overflow := overflow[..i] + overflow[i + 1..];
      var err := SendOne(m, answer, disk);
      if err.BreakerOpen? {
        AppendDlq(m, disk);
      } else if err.Marshal? {
        lost := lost + [m];
      }
    }

    method DrainToDlq(k: nat, disk: nat -> bool)
      modifies this
      ensures At() == Flushed(cfg, old(At()), k, disk)
    {
      var j := k;
      while queue != []
        invariant Flushed(cfg, At(), j, disk) == Flushed(cfg, old(At()), k, disk)
        decreases |queue|
      {
        var m := queue[0];
        queue := queue[1..];
        AppendDlq(m, disk(j));
        j := j + 1;
      }
    }

    /** What the loop does once it has seen the close signal. */
    method Drain(answer: nat -> P.Answer, disk: nat -> bool)
      modifies this
      ensures At() == DrainedFrom(cfg, old(At()), 0, answer, disk)
    {
      hide P.SendOne, P.ToDlq, Flushed;
      var drained := 0;
      while queue != []
        invariant drained < P.DRAIN_BUDGET
        invariant DrainedFrom(cfg, At(), drained, answer, disk) == DrainedFrom(cfg, old(At()), 0, answer, disk)
        decreases |queue|
      {
        var m := queue[0];
        queue := queue[1..];
        DrainedKeeps(cfg, At(), m, answer(drained), disk(drained));
        var err := SendOne(m, answer(drained), disk(drained));
        if !err.None? {
          AppendDlq(m, disk(drained));
        }
        drained := drained + 1;
        if drained >= P.DRAIN_BUDGET {
          DrainToDlq(drained, disk);
          return;
        }
      }
    }
  }
}
