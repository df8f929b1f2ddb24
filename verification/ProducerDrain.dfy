/** The shutdown drain with nobody in between is one of the interleaved runs, and ends as the method Drain says. */
module ProducerDrain {
  import opened Messages
  import opened Producer
  import KafkaProducer

  /** What is left to flush, one message at a time from number k on, and the look at the empty queue. */
  function FlushSteps(n: nat, k: nat, disk: nat -> bool): seq<Step> {
    if n == 0 then [Flush(true)] else [Flush(disk(k))] + FlushSteps(n - 1, k + 1, disk)
  }

  /** The drain of n messages when done are behind it. */
  function AllSteps(n: nat, done: nat, answer: nat -> Answer, disk: nat -> bool): seq<Step>
    decreases n
  {
    if n == 0 then [DrainEnd]
    else
      [DrainTake] + ([DrainSend(answer(done), disk(done))] +
        (if done + 1 >= 200 then FlushSteps(n - 1, done + 1, disk) else AllSteps(n - 1, done + 1, answer, disk)))
  }

  lemma ExecFirst(s: State, step: Step, rest: seq<Step>)
    ensures Exec(s, [step] + rest) == Exec(Apply(s, step), rest)
  {
    hide Apply;
    assert ([step] + rest)[1..] == rest;
  }

  lemma ExecOne(s: State, step: Step)
    ensures Exec(s, [step]) == Apply(s, step)
  {
    hide Apply;
    ExecFirst(s, step, []);
    assert [step] + [] == [step];
  }

  lemma {:induction false} FlushIsARun(s: State, k: nat, disk: nat -> bool)
    requires s.pc.Flushing? && s.at.hand.Empty?
    ensures var s' := Exec(s, FlushSteps(|s.at.queue|, k, disk));
      s'.pc.Exited? && s'.at == KafkaProducer.Flushed(s.cfg, s.at, k, disk)
    decreases |s.at.queue|
  {
    if s.at.queue == [] {
      ExecOne(s, Flush(true));
    } else {
      var s1 := Apply(s, Flush(disk(k)));
      ExecFirst(s, Flush(disk(k)), FlushSteps(|s.at.queue| - 1, k + 1, disk));
      FlushIsARun(s1, k + 1, disk);
    }
  }

  /** Taking and publishing one message. */
  lemma SendIsTwoSteps(s: State, answer: Answer, disk: bool)
    requires s.pc.Draining? && s.at.hand.Empty? && s.at.queue != []
    ensures var p := Drained(s.cfg, s.at.(queue := s.at.queue[1..]), s.at.queue[0], answer, disk);
      var s2 := Apply(Apply(s, DrainTake), DrainSend(answer, disk));
      && s2.at == p && s2.cfg == s.cfg && p.hand.Empty? && p.queue == s.at.queue[1..]
      && s2.pc == if s.pc.done + 1 >= 200 then Flushing else Draining(s.pc.done + 1)
  {
    KafkaProducer.DrainedKeeps(s.cfg, s.at.(queue := s.at.queue[1..]), s.at.queue[0], answer, disk);
    hide Drained;
    var s1 := Apply(s, DrainTake);
    assert s1.at.(hand := Empty) == s.at.(queue := s.at.queue[1..]);
  }

  lemma DrainUnfolds(cfg: Config, p: Places, done: nat, answer: nat -> Answer, disk: nat -> bool)
    requires p.queue != []
    ensures var p' := Drained(cfg, p.(queue := p.queue[1..]), p.queue[0], answer(done), disk(done));
      KafkaProducer.DrainedFrom(cfg, p, done, answer, disk) ==
        if done + 1 >= 200 then KafkaProducer.Flushed(cfg, p', done + 1, disk)
        else KafkaProducer.DrainedFrom(cfg, p', done + 1, answer, disk)
  {
    hide Drained, KafkaProducer.Flushed;
    KafkaProducer.DrainedKeeps(cfg, p.(queue := p.queue[1..]), p.queue[0], answer(done), disk(done));
  }

  /** The whole drain: publish until the queue is empty or 200 are done, then flush, then leave. */
  lemma {:induction false} DrainIsARun(s: State, answer: nat -> Answer, disk: nat -> bool)
    requires s.pc.Draining? && s.pc.done < 200 && s.at.hand.Empty?
    ensures var s' := Exec(s, AllSteps(|s.at.queue|, s.pc.done, answer, disk));
      s'.pc.Exited? && s'.at == KafkaProducer.DrainedFrom(s.cfg, s.at, s.pc.done, answer, disk)
    decreases |s.at.queue|
  {
    hide Apply, Exec, Drained, KafkaProducer.DrainedFrom, KafkaProducer.Flushed, AllSteps, FlushSteps;
    if s.at.queue == [] {
      DrainsNone(s, answer, disk);
    } else {
      DrainsOne(s, answer, disk);
      var done := s.pc.done;
      var s2 := Apply(Apply(s, DrainTake), DrainSend(answer(done), disk(done)));
      SendIsTwoSteps(s, answer(done), disk(done));
      DrainUnfolds(s.cfg, s.at, done, answer, disk);
      if done + 1 >= 200 {
        FlushIsARun(s2, done + 1, disk);
      } else {
        DrainIsARun(s2, answer, disk);
      }
    }
  }

  lemma DrainsNone(s: State, answer: nat -> Answer, disk: nat -> bool)
    requires s.pc.Draining? && s.at.hand.Empty? && s.at.queue == []
    ensures var s' := Exec(s, AllSteps(0, s.pc.done, answer, disk));
      s'.pc.Exited? && s'.at == KafkaProducer.DrainedFrom(s.cfg, s.at, s.pc.done, answer, disk)
  {
    ExecOne(s, DrainEnd);
  }

  lemma DrainsOne(s: State, answer: nat -> Answer, disk: nat -> bool)
    requires s.pc.Draining? && s.at.queue != []
    ensures var n, done := |s.at.queue|, s.pc.done;
      var s2 := Apply(Apply(s, DrainTake), DrainSend(answer(done), disk(done)));
      Exec(s, AllSteps(n, done, answer, disk)) ==
        Exec(s2, if done + 1 >= 200 then FlushSteps(n - 1, done + 1, disk) else AllSteps(n - 1, done + 1, answer, disk))
  {
    hide Apply, Exec, FlushSteps;
    var n, done := |s.at.queue|, s.pc.done;
    var send := DrainSend(answer(done), disk(done));
    var rest := if done + 1 >= 200 then FlushSteps(n - 1, done + 1, disk) else AllSteps(n - 1, done + 1, answer, disk);
    ExecFirst(s, DrainTake, [send] + rest);
    ExecFirst(Apply(s, DrainTake), send, rest);
  }
}
