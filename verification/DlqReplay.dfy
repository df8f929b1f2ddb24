/** Replaying one file with nobody in between is one of the interleaved runs, and ends as the method ReplayFile says. */
module DlqReplay {
  import opened Messages
  import opened Dlq
  import opened DlqRuns

  lemma {:induction false} ExecConcat(s: State, a: seq<Step>, b: seq<Step>)
    ensures Exec(s, a + b) == Exec(Exec(s, a), b)
    decreases |a|
  {
    hide Apply;
    if a == [] {
      assert a + b == b;
    } else {
      ExecConcat(Apply(s, a[0]), a[1..], b);
      assert (a + b)[1..] == a[1..] + b;
    }
  }

  lemma ExecOne(s: State, step: Step)
    ensures Exec(s, [step]) == Apply(s, step)
  {
    hide Apply;
    assert [step][1..] == [];
  }

  /** One relay call per line; ok answers by the number of messages acknowledged before. */
  function ScanSteps(lines: seq<Line>, ok: nat -> bool, max: int): seq<Step> {
    if lines == [] then []
    else
      var init := lines[..|lines| - 1];
      ScanSteps(init, ok, max) + [ScanNext(ok(|ScanAll(init, ok, max).acked|))]
  }

  function WriteSteps(n: nat): seq<Step> {
    if n == 0 then [] else [WriteLine] + WriteSteps(n - 1)
  }

  /** s while the snapshot of t is scanned. */
  predicate InScan(s: State, t: Topic, lines: seq<Line>, pos: nat, scan: Scan) {
    s.pc.Scanning? && s.pc.todo != [] && s.pc.todo[0] == t && s.pc.pos == pos && s.pc.scan == scan
    && t in s.snap && s.snap[t] == lines
  }

  /** Scanning moves only the scan and what the broker took. */
  predicate OnlyScanned(s: State, s': State, t: Topic, acked: seq<Msg>) {
    && s'.main == s.main && s'.snap == s.snap && s'.max == s.max && s'.pc.Scanning? && s.pc.Scanning?
    && s'.pc.todo == s.pc.todo
    && Log(s'.acked, t) == Log(s.acked, t) + acked
  }

  lemma ScanStep(s: State, t: Topic, lines: seq<Line>, pos: nat, scan: Scan, answer: bool)
    requires InScan(s, t, lines, pos, scan) && pos < |lines|
    ensures var scan' := ScanLine(scan, lines[pos], answer, s.max);
      var s' := Apply(s, ScanNext(answer));
      && InScan(s', t, lines, pos + 1, scan')
      && scan.acked <= scan'.acked
      && OnlyScanned(s, s', t, scan'.acked[|scan.acked|..])
  {
  }

  lemma {:induction false} ScanRun(s: State, t: Topic, lines: seq<Line>, ok: nat -> bool, k: nat)
    requires InScan(s, t, lines, 0, Scan([], [], false)) && k <= |lines|
    ensures var s' := Exec(s, ScanSteps(lines[..k], ok, s.max));
      var scan := ScanAll(lines[..k], ok, s.max);
      InScan(s', t, lines, k, scan) && OnlyScanned(s, s', t, scan.acked)
    decreases k
  {
    if k > 0 {
      ScanRun(s, t, lines, ok, k - 1);
      assert lines[..k][..k - 1] == lines[..k - 1];
      var scan := ScanAll(lines[..k - 1], ok, s.max);
      var step := ScanNext(ok(|scan.acked|));
      var s1 := Exec(s, ScanSteps(lines[..k - 1], ok, s.max));
      ExecConcat(s, ScanSteps(lines[..k - 1], ok, s.max), [step]);
      ExecOne(s1, step);
      hide Apply, Exec;
      ScanStep(s1, t, lines, k - 1, scan, ok(|scan.acked|));
      var acked := ScanLine(scan, lines[k - 1], ok(|scan.acked|), s.max).acked;
      assert acked == scan.acked + acked[|scan.acked|..];
    } else {
      assert Log(s.acked, t) + [] == Log(s.acked, t);
    }
  }

  /** Writing back appends the kept lines and nothing else. */
  lemma {:induction false} WriteRun(s: State, t: Topic, rest: seq<Line>)
    requires s.pc.WritingBack? && s.pc.todo != [] && s.pc.todo[0] == t && s.pc.rest == rest
    ensures var s' := Exec(s, WriteSteps(|rest|));
      && s'.pc == WritingBack(s.pc.todo, [])
      && s'.snap == s.snap && s'.acked == s.acked
      && Get(s'.main, t) == Get(s.main, t) + rest
      && s'.main - {t} == s.main - {t}
    decreases |rest|
  {
    if rest != [] {
      var s1 := Apply(s, WriteLine);
      assert WriteSteps(|rest|)[0] == WriteLine && WriteSteps(|rest|)[1..] == WriteSteps(|rest| - 1);
      WriteRun(s1, t, rest[1..]);
      assert s1.main - {t} == s.main - {t};
      assert Get(s.main, t) + [rest[0]] + rest[1..] == Get(s.main, t) + rest;
    } else {
      assert Get(s.main, t) + [] == Get(s.main, t);
    }
  }

  function ReplaySteps(lines: seq<Line>, ok: nat -> bool, max: int): seq<Step> {
    [Rename] + (ScanSteps(lines, ok, max) + ([EndScan] + (WriteSteps(|ScanAll(lines, ok, max).kept|) + [RemoveSnapshot])))
  }

  /** The second half: from the end of the scan to the removal of the snapshot. */
  lemma FinishRun(s: State, t: Topic, lines: seq<Line>, scan: Scan)
    requires InScan(s, t, lines, |lines|, scan)
    ensures var s' := Exec(s, [EndScan] + (WriteSteps(|scan.kept|) + [RemoveSnapshot]));
      && s'.pc == Replaying(s.pc.todo[1..])
      && s'.snap == s.snap - {t} && s'.acked == s.acked
      && Get(s'.main, t) == Get(s.main, t) + scan.kept
      && s'.main - {t} == s.main - {t}
  {
    var s1 := Apply(s, EndScan);
    var s2 := Exec(s1, WriteSteps(|scan.kept|));
    ExecConcat(s, [EndScan], WriteSteps(|scan.kept|) + [RemoveSnapshot]);
    ExecOne(s, EndScan);
    ExecConcat(s1, WriteSteps(|scan.kept|), [RemoveSnapshot]);
    WriteRun(s1, t, scan.kept);
    ExecOne(s2, RemoveSnapshot);
  }

  lemma RenameRun(s: State, t: Topic, rest: seq<Topic>)
    requires s.pc == Replaying([t] + rest) && t in s.main && s.snap == map[]
    ensures var s1 := Exec(s, [Rename]);
      && InScan(s1, t, s.main[t], 0, Scan([], [], false))
      && s1.pc.todo == [t] + rest && s1.snap == map[t := s.main[t]]
      && s1.main == s.main - {t} && s1.acked == s.acked && s1.max == s.max
  {
    ExecOne(s, Rename);
  }

  lemma RunInThree(s: State, lines: seq<Line>, ok: nat -> bool, max: int)
    ensures Exec(s, ReplaySteps(lines, ok, max)) ==
      Exec(Exec(Exec(s, [Rename]), ScanSteps(lines, ok, max)),
           [EndScan] + (WriteSteps(|ScanAll(lines, ok, max).kept|) + [RemoveSnapshot]))
  {
    hide Apply, Exec, ScanAll, ScanSteps, WriteSteps;
    var finish := [EndScan] + (WriteSteps(|ScanAll(lines, ok, max).kept|) + [RemoveSnapshot]);
    ExecConcat(s, [Rename], ScanSteps(lines, ok, max) + finish);
    ExecConcat(Exec(s, [Rename]), ScanSteps(lines, ok, max), finish);
  }

  /**
   One file replayed alone: the broker takes the messages up to the first stop, the other lines are
   the whole main file again, the snapshot is gone, and no other topic is touched.
   */
  lemma ReplayFileIsARun(s: State, t: Topic, rest: seq<Topic>, ok: nat -> bool)
    requires s.pc == Replaying([t] + rest) && t in s.main && s.snap == map[]
    ensures var lines := s.main[t];
      var n := Sent(|Msgs(lines)|, ok, s.max, 0);
      var s' := Exec(s, ReplaySteps(lines, ok, s.max));
      && s'.pc == Replaying(rest) && s'.snap == map[]
      && Log(s'.acked, t) == Log(s.acked, t) + Msgs(lines)[..n]
      && Get(s'.main, t) == Without(lines, n)
      && s'.main - {t} == s.main - {t}
  {
    hide Apply, Exec, ReplaySteps, ScanAll, ScanSteps, WriteSteps, Sent, Without, Msgs;
    var lines := s.main[t];
    var scan := ScanAll(lines, ok, s.max);
    assert lines[..|lines|] == lines;
    RenameRun(s, t, rest);
    var s1 := Exec(s, [Rename]);
    ScanRun(s1, t, lines, ok, |lines|);
    var s2 := Exec(s1, ScanSteps(lines, ok, s.max));
    FinishRun(s2, t, lines, scan);
    RunInThree(s, lines, ok, s.max);
    ScanAllIs(lines, ok, s.max);
    assert Get(s2.main, t) == [];
    assert ([t] + rest)[1..] == rest;
  }
}
