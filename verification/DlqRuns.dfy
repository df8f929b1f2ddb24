/**
 The dead-letter queue over whole runs: appends from any sender, the replay goroutine one file
 operation or relay call at a time, and the process dying anywhere in between.
 */
module DlqRuns {
  import opened Messages
  import opened Dlq

  /** Where the replay goroutine stands; the head of todo is the topic it is working on. */
  datatype Pc =
    | Idle
    | Recovering(todo: seq<Topic>)
    | RecoverWrote(todo: seq<Topic>)
    | Replaying(todo: seq<Topic>)
    | Scanning(todo: seq<Topic>, pos: nat, scan: Scan)
    | WritingBack(todo: seq<Topic>, rest: seq<Line>)

  type History = map<Topic, seq<Msg>>

  /** written and acked record every line that ever got into a main file and what the broker ever took; crashes counts deaths. */
  datatype State = State(
    max: int,
    main: Files,
    snap: Files,
    pc: Pc,
    written: Files,
    acked: History,
    crashes: nat)

  datatype Step =
    | Append(t: Topic, msg: Msg)
    | Garble(t: Topic, line: Line)
    | StartReplay(order: seq<Topic>)
    | RecoverWrite
    | RecoverRemove
    | ListMain(order: seq<Topic>)
    | Rename
    | ScanNext(answer: bool)
    | EndScan
    | WriteLine
    | RemoveSnapshot
    | EndReplay
    | Crash

  function Init(max: int): State {
    State(max, map[], map[], Idle, map[], map[], 0)
  }

  function Log(h: History, t: Topic): seq<Msg> {
    if t in h then h[t] else []
  }

  /** order is a directory listing of these files. */
  predicate Lists(order: seq<Topic>, files: Files) {
    && (forall t :: t in order ==> t in files) && (forall t :: t in files ==> t in order)
    && (forall i, j :: 0 <= i < j < |order| ==> order[i] != order[j])
  }

  function DoScan(s: State, answer: bool): State
    requires s.pc.Scanning? && s.pc.todo != [] && s.pc.pos < |Get(s.snap, s.pc.todo[0])|
  {
    var t := s.pc.todo[0];
    var scan := ScanLine(s.pc.scan, Get(s.snap, t)[s.pc.pos], answer, s.max);
    s.(pc := s.pc.(pos := s.pc.pos + 1, scan := scan),
       acked := if |scan.acked| > |s.pc.scan.acked| then s.acked[t := Log(s.acked, t) + [scan.acked[|scan.acked| - 1]]]
                else s.acked)
  }

  function DoAppend(s: State, t: Topic, line: Line): State {
    s.(main := s.main[t := Get(s.main, t) + [line]], written := s.written[t := Get(s.written, t) + [line]])
  }

  function DoRecoverWrite(s: State): State
    requires s.pc.Recovering? && s.pc.todo != []
  {
    var t := s.pc.todo[0];
    s.(main := s.main[t := Get(s.main, t) + Get(s.snap, t)], pc := RecoverWrote(s.pc.todo))
  }

  function DoWriteLine(s: State): State
    requires s.pc.WritingBack? && s.pc.todo != [] && s.pc.rest != []
  {
    var t := s.pc.todo[0];
    s.(main := s.main[t := Get(s.main, t) + [s.pc.rest[0]]], pc := WritingBack(s.pc.todo, s.pc.rest[1..]))
  }

  function DoRename(s: State): State
    requires s.pc.Replaying? && s.pc.todo != []
  {
    var t := s.pc.todo[0];
    if t in s.main then
      s.(snap := s.snap[t := s.main[t]], main := s.main - {t}, pc := Scanning(s.pc.todo, 0, Scan([], [], false)))
    else s.(pc := Replaying(s.pc.todo[1..]))
  }

  /** One step; a step that is not enabled changes nothing. */
  function Apply(s: State, step: Step): State {
    match step
    case Append(t, m) => if m.marshals then DoAppend(s, t, Rec(m)) else s
    case Garble(t, line) => if line.Rec? then s else DoAppend(s, t, line)  // a blank or damaged line, from elsewhere
    case StartReplay(order) =>
      if s.pc.Idle? && Lists(order, s.snap) then s.(pc := Recovering(order)) else s
    case RecoverWrite => if s.pc.Recovering? && s.pc.todo != [] then DoRecoverWrite(s) else s
    case RecoverRemove =>
      if s.pc.RecoverWrote? && s.pc.todo != [] then
        s.(snap := s.snap - {s.pc.todo[0]}, pc := Recovering(s.pc.todo[1..]))
      else s
    case ListMain(order) =>
      if s.pc.Recovering? && s.pc.todo == [] && Lists(order, s.main) then s.(pc := Replaying(order)) else s
    case Rename => if s.pc.Replaying? && s.pc.todo != [] then DoRename(s) else s
    case ScanNext(answer) =>
      if s.pc.Scanning? && s.pc.todo != [] && s.pc.pos < |Get(s.snap, s.pc.todo[0])| then DoScan(s, answer) else s
    case EndScan =>
      if s.pc.Scanning? && s.pc.todo != [] && s.pc.pos == |Get(s.snap, s.pc.todo[0])| then
        s.(pc := WritingBack(s.pc.todo, s.pc.scan.kept))
      else s
    case WriteLine => if s.pc.WritingBack? && s.pc.todo != [] && s.pc.rest != [] then DoWriteLine(s) else s
    case RemoveSnapshot =>
      if s.pc.WritingBack? && s.pc.todo != [] && s.pc.rest == [] then
        s.(snap := s.snap - {s.pc.todo[0]}, pc := Replaying(s.pc.todo[1..]))
      else s
    case EndReplay => if s.pc.Replaying? && s.pc.todo == [] then s.(pc := Idle) else s
    case Crash => s.(pc := Idle, crashes := s.crashes + 1)
  }

  function Exec(s: State, steps: seq<Step>): State
    decreases |steps|
  {
    if steps == [] then s else Exec(Apply(s, steps[0]), steps[1..])
  }

  // ---------- the invariant ----------

  /** A line that is not blank: a message, or something that cannot be decoded. */
  type Content = x: Line | !x.Blank? witness Junk("")

  /** How often x stands in a file. */
  function Copies(lines: seq<Line>, x: Line): nat {
    if lines == [] then 0 else Copies(lines[..|lines| - 1], x) + if lines[|lines| - 1] == x then 1 else 0
  }

  /** How often the broker took x; it takes nothing but messages. */
  function Taken(s: State, t: Topic, x: Line): nat {
    if x.Rec? then Count(Log(s.acked, t), x.msg) else 0
  }

  /** Whether the goroutine is working on the snapshot of t. */
  predicate At(pc: Pc, t: Topic) {
    !pc.Idle? && pc.todo != [] && pc.todo[0] == t
  }

  /** How many copies of x the snapshot of t still stands for: those neither acknowledged nor put back yet. */
  function Pending(s: State, t: Topic, x: Content): nat {
    if s.pc.RecoverWrote? && At(s.pc, t) then 0
    else if s.pc.Scanning? && At(s.pc, t) && s.pc.pos <= |Get(s.snap, t)| then
      Copies(s.pc.scan.kept, x) + Copies(Get(s.snap, t)[s.pc.pos..], x)
    else if s.pc.WritingBack? && At(s.pc, t) then Copies(s.pc.rest, x)
    else Copies(Get(s.snap, t), x)
  }

  /** Which snapshots exist at each point; a file about to be renamed never has one. */
  ghost predicate PcInv(s: State) {
    match s.pc
    case Idle => true
    case Recovering(todo) => Lists(todo, s.snap)
    case RecoverWrote(todo) => todo != [] && Lists(todo, s.snap)
    case Replaying(todo) => s.snap == map[]
    case Scanning(todo, pos, _) => todo != [] && s.snap.Keys == {todo[0]} && pos <= |Get(s.snap, todo[0])|
    case WritingBack(todo, _) => todo != [] && s.snap.Keys == {todo[0]}
  }

  /** Where the copies of one line of one topic are. */
  datatype Books = Books(written: nat, acked: nat, main: nat, pending: nat, snap: nat)

  function BooksOf(s: State, t: Topic, x: Content): Books {
    Books(Copies(Get(s.written, t), x), Taken(s, t, x), Copies(Get(s.main, t), x),
          Pending(s, t, x), Copies(Get(s.snap, t), x))
  }

  predicate Balanced(b: Books, exact: bool) {
    && b.pending <= b.snap
    && b.written <= b.acked + b.main + b.pending
    && (exact ==> b.written == b.acked + b.main + b.pending)
    && (b.acked > 0 || b.main > 0 || b.snap > 0 ==> b.written > 0)
  }

  ghost predicate Inv(s: State) {
    PcInv(s) && forall t, x: Content :: Balanced(BooksOf(s, t, x), s.crashes == 0)
  }

  // ---------- every step keeps it ----------

  lemma {:induction false} CopiesConcat(a: seq<Line>, b: seq<Line>, x: Line)
    ensures Copies(a + b, x) == Copies(a, x) + Copies(b, x)
  {
    if b == [] {
      assert a + b == a;
    } else {
      CopiesConcat(a, b[..|b| - 1], x);
      assert (a + b)[..|a + b| - 1] == a + b[..|b| - 1];
    }
  }

  lemma CopiesPush(lines: seq<Line>, line: Line, x: Line)
    ensures Copies(lines + [line], x) == Copies(lines, x) + if line == x then 1 else 0
  {
    assert (lines + [line])[..|lines|] == lines;
  }

  lemma {:induction false} CopiesIsMultiplicity(lines: seq<Line>, x: Line)
    ensures Copies(lines, x) == multiset(lines)[x]
  {
    if lines != [] {
      CopiesIsMultiplicity(lines[..|lines| - 1], x);
      assert lines == lines[..|lines| - 1] + [lines[|lines| - 1]];
    }
  }

  /** The first line of the rest: what it holds, and what is left. */
  lemma CopiesPop(lines: seq<Line>, x: Line)
    requires lines != []
    ensures Copies(lines, x) == Copies(lines[1..], x) + if lines[0] == x then 1 else 0
  {
    assert [lines[0]] + lines[1..] == lines;
    CopiesConcat([lines[0]], lines[1..], x);
    CopiesPush([], lines[0], x);
    assert [] + [lines[0]] == [lines[0]];
  }

  /** A scanned line is acknowledged, kept, or blank: what it holds is in exactly one place afterwards. */
  lemma ScanLineCopies(scan: Scan, line: Line, answer: bool, max: int, x: Content)
    ensures var scan' := ScanLine(scan, line, answer, max);
      if |scan'.acked| > |scan.acked| then
        line.Rec? && scan'.acked == scan.acked + [line.msg] && scan'.kept == scan.kept
      else
        scan'.acked == scan.acked
        && Copies(scan'.kept, x) == Copies(scan.kept, x) + if line == x then 1 else 0
  {
    CopiesPush(scan.kept, line, x);
  }

  lemma CopiesFrom(lines: seq<Line>, pos: nat, x: Line)
    requires pos < |lines|
    ensures Copies(lines[pos..], x) == Copies(lines[pos + 1..], x) + if lines[pos] == x then 1 else 0
  {
    CopiesPop(lines[pos..], x);
    assert lines[pos..][1..] == lines[pos + 1..];
  }

  /** Whether this scan step acknowledges a copy of x. */
  predicate Acknowledges(s: State, answer: bool, x: Content)
    requires s.pc.Scanning? && s.pc.todo != [] && s.pc.pos < |Get(s.snap, s.pc.todo[0])|
  {
    var line := Get(s.snap, s.pc.todo[0])[s.pc.pos];
    |ScanLine(s.pc.scan, line, answer, s.max).acked| > |s.pc.scan.acked| && line == x
  }

  lemma ScanPending(s: State, answer: bool, x: Content)
    requires s.pc.Scanning? && s.pc.todo != [] && s.pc.pos < |Get(s.snap, s.pc.todo[0])|
    ensures var t := s.pc.todo[0];
      Pending(s, t, x) == Pending(DoScan(s, answer), t, x) + if Acknowledges(s, answer, x) then 1 else 0
  {
    hide Count, Copies;
    var lines := Get(s.snap, s.pc.todo[0]);
    CopiesFrom(lines, s.pc.pos, x);
    ScanLineCopies(s.pc.scan, lines[s.pc.pos], answer, s.max, x);
  }

  lemma ScanAcked(s: State, answer: bool, x: Content)
    requires s.pc.Scanning? && s.pc.todo != [] && s.pc.pos < |Get(s.snap, s.pc.todo[0])|
    ensures var t := s.pc.todo[0];
      Taken(DoScan(s, answer), t, x) == Taken(s, t, x) + if Acknowledges(s, answer, x) then 1 else 0
  {
    var t := s.pc.todo[0];
    var line := Get(s.snap, t)[s.pc.pos];
    ScanLineCopies(s.pc.scan, line, answer, s.max, x);
    if line.Rec? && x.Rec? { CountPush(Log(s.acked, t), line.msg, x.msg); }
    hide Count;
  }

  lemma ScanBooks(s: State, answer: bool, t: Topic, x: Content)
    requires s.pc.Scanning? && s.pc.todo != [] && s.pc.pos < |Get(s.snap, s.pc.todo[0])| && s.pc.todo[0] == t
    ensures var b, b' := BooksOf(s, t, x), BooksOf(DoScan(s, answer), t, x);
      if Acknowledges(s, answer, x) then b.pending > 0 && b' == b.(acked := b.acked + 1, pending := b.pending - 1)
      else b' == b
  {
    hide Count, Copies, ScanLine, Acknowledges, Pending, Taken;
    ScanPending(s, answer, x);
    ScanAcked(s, answer, x);
    PendingIsBounded(s, answer, x);
  }

  lemma PendingIsBounded(s: State, answer: bool, x: Content)
    requires s.pc.Scanning? && s.pc.todo != [] && s.pc.pos < |Get(s.snap, s.pc.todo[0])|
    ensures Acknowledges(s, answer, x) ==> Pending(s, s.pc.todo[0], x) > 0
  {
    ScanPending(s, answer, x);
  }

  lemma ScanElsewhere(s: State, answer: bool, t: Topic, x: Content)
    requires s.pc.Scanning? && s.pc.todo != [] && s.pc.pos < |Get(s.snap, s.pc.todo[0])| && s.pc.todo[0] != t
    ensures BooksOf(DoScan(s, answer), t, x) == BooksOf(s, t, x)
  {
    hide Count, Copies, ScanLine;
  }

  lemma AppendElsewhere(s: State, topic: Topic, line: Line, t: Topic, x: Content)
    requires t != topic
    ensures BooksOf(DoAppend(s, topic, line), t, x) == BooksOf(s, t, x)
  {
    hide Count, Copies;
  }

  lemma AppendBooks(s: State, t: Topic, line: Line, x: Content)
    ensures var b, b' := BooksOf(s, t, x), BooksOf(DoAppend(s, t, line), t, x);
      b' == if x == line then b.(written := b.written + 1, main := b.main + 1) else b
  {
    hide Count, Copies;
    CopiesPush(Get(s.main, t), line, x);
    CopiesPush(Get(s.written, t), line, x);
  }

  lemma AnyAppendBooks(s: State, topic: Topic, line: Line, t: Topic, x: Content)
    requires Balanced(BooksOf(s, t, x), s.crashes == 0)
    ensures Balanced(BooksOf(DoAppend(s, topic, line), t, x), s.crashes == 0)
  {
    hide BooksOf, DoAppend;
    if t == topic { AppendBooks(s, t, line, x); } else { AppendElsewhere(s, topic, line, t, x); }
  }

  lemma RecoverWriteBooks(s: State, t: Topic, x: Content)
    requires s.pc.Recovering? && s.pc.todo != []
    ensures var b, b' := BooksOf(s, t, x), BooksOf(DoRecoverWrite(s), t, x);
      b' == if s.pc.todo[0] == t then b.(main := b.main + b.pending, pending := 0) else b
  {
    CopiesConcat(Get(s.main, t), Get(s.snap, t), x);
  }

  /** A snapshot that stands for nothing any more is deleted. */
  lemma RemoveBooks(s: State, step: Step, t: Topic, x: Content)
    requires PcInv(s) && (step.RecoverRemove? || step.RemoveSnapshot?) && Apply(s, step) != s
    ensures var b, b' := BooksOf(s, t, x), BooksOf(Apply(s, step), t, x);
      b' == if s.pc.todo[0] == t then b.(snap := 0, pending := 0) else b
    ensures s.pc.todo[0] == t ==> BooksOf(s, t, x).pending == 0
  {
  }

  lemma RenameBooks(s: State, t: Topic, x: Content)
    requires PcInv(s) && s.pc.Replaying? && s.pc.todo != []
    ensures var b, b' := BooksOf(s, t, x), BooksOf(DoRename(s), t, x);
      && (s.pc.todo[0] == t ==> b.snap == 0 && b.pending == 0)
      && b' == if s.pc.todo[0] == t && t in s.main then b.(main := 0, pending := b.main, snap := b.main) else b
  {
    if t in s.main { assert s.main[t][0..] == s.main[t]; }
  }

  lemma WriteLinePending(s: State, x: Content)
    requires s.pc.WritingBack? && s.pc.todo != [] && s.pc.rest != []
    ensures var t := s.pc.todo[0];
      Pending(s, t, x) == Pending(DoWriteLine(s), t, x) + if s.pc.rest[0] == x then 1 else 0
  {
    CopiesPop(s.pc.rest, x);
  }

  lemma WriteLineMain(s: State, x: Content)
    requires s.pc.WritingBack? && s.pc.todo != [] && s.pc.rest != []
    ensures var t := s.pc.todo[0];
      Copies(Get(DoWriteLine(s).main, t), x) == Copies(Get(s.main, t), x) + if s.pc.rest[0] == x then 1 else 0
  {
    CopiesPush(Get(s.main, s.pc.todo[0]), s.pc.rest[0], x);
  }

  lemma WriteLineBooks(s: State, t: Topic, x: Content)
    requires s.pc.WritingBack? && s.pc.todo != [] && s.pc.rest != []
    ensures var b, b' := BooksOf(s, t, x), BooksOf(DoWriteLine(s), t, x);
      b' == b || (b.pending > 0 && b' == b.(main := b.main + 1, pending := b.pending - 1))
  {
    hide Count, Copies;
    if s.pc.todo[0] == t {
      WriteLinePending(s, x);
      WriteLineMain(s, x);
    }
  }

  /** Dying only forgets what was done with the snapshot. */
  lemma CrashBooks(s: State, t: Topic, x: Content)
    ensures var b, b' := BooksOf(s, t, x), BooksOf(Apply(s, Crash), t, x);
      b' == b.(pending := b.snap)
  {
    hide Count, Copies;
  }

  /** At the end of a scan what is kept is what is left to write back. */
  lemma EndScanBooks(s: State, t: Topic, x: Content)
    ensures BooksOf(Apply(s, EndScan), t, x) == BooksOf(s, t, x)
  {
    hide Count, Copies, Pending;
    EndScanPending(s, t, x);
  }

  lemma EndScanPending(s: State, t: Topic, x: Content)
    ensures Pending(Apply(s, EndScan), t, x) == Pending(s, t, x)
  {
    hide Count, Copies;
    NoCopies(x);
    if s.pc.Scanning? && s.pc.todo != [] && s.pc.pos == |Get(s.snap, s.pc.todo[0])| {
      assert Get(s.snap, s.pc.todo[0])[s.pc.pos..] == [];
    }
  }

  lemma NoCopies(x: Line)
    ensures Copies([], x) == 0
  {
  }

  /** The remaining steps move nothing. */
  lemma OtherBooks(s: State, step: Step, t: Topic, x: Content)
    requires step.StartReplay? || step.ListMain? || step.EndReplay?
    ensures BooksOf(Apply(s, step), t, x) == BooksOf(s, t, x)
  {
    hide Count, Copies, Lists;
  }

  lemma StepKeepsBooks(s: State, step: Step, t: Topic, x: Content)
    requires PcInv(s) && Balanced(BooksOf(s, t, x), s.crashes == 0)
    ensures Balanced(BooksOf(Apply(s, step), t, x), Apply(s, step).crashes == 0)
  {
    hide Count, Copies, Pending, ScanLine, Lists;
    if Apply(s, step) != s {
      match step
      case Append(topic, msg) => AnyAppendBooks(s, topic, Rec(msg), t, x);
      case Garble(topic, line) => AnyAppendBooks(s, topic, line, t, x);
      case RecoverWrite => RecoverWriteBooks(s, t, x);
      case RecoverRemove => RemoveBooks(s, step, t, x);
      case Rename => RenameBooks(s, t, x);
      case ScanNext(answer) => if At(s.pc, t) { ScanBooks(s, answer, t, x); } else { ScanElsewhere(s, answer, t, x); }
      case WriteLine => WriteLineBooks(s, t, x);
      case RemoveSnapshot => RemoveBooks(s, step, t, x);
      case Crash => CrashBooks(s, t, x);
      case EndScan => EndScanBooks(s, t, x);
      case _ => OtherBooks(s, step, t, x);
    }
  }

  lemma StepKeepsPc(s: State, step: Step)
    requires PcInv(s)
    ensures PcInv(Apply(s, step))
  {
  }

  lemma {:induction false} RunKeeps(s: State, steps: seq<Step>)
    requires Inv(s)
    ensures Inv(Exec(s, steps))
    decreases |steps|
  {
    if steps != [] {
      var s' := Apply(s, steps[0]);
      StepKeepsPc(s, steps[0]);
      forall t, x: Content ensures Balanced(BooksOf(s', t, x), s'.crashes == 0) {
        StepKeepsBooks(s, steps[0], t, x);
      }
      RunKeeps(s', steps[1..]);
    }
  }

  // ---------- what it means ----------

  lemma InitHolds(max: int)
    ensures Inv(Init(max))
  {
    forall t, x: Content ensures BooksOf(Init(max), t, x) == Books(0, 0, 0, 0, 0) {}
  }

  lemma BooksAreMultisets(s: State, t: Topic, x: Content)
    ensures var b := BooksOf(s, t, x);
      && b.written == multiset(Get(s.written, t))[x]
      && b.acked == (if x.Rec? then multiset(Log(s.acked, t))[x.msg] else 0)
      && b.main == multiset(Get(s.main, t))[x]
      && b.snap == multiset(Get(s.snap, t))[x]
  {
    CopiesIsMultiplicity(Get(s.written, t), x);
    if x.Rec? { CountIsMultiplicity(Log(s.acked, t), x.msg); }
    CopiesIsMultiplicity(Get(s.main, t), x);
    CopiesIsMultiplicity(Get(s.snap, t), x);
    hide Count, Copies;
  }

  /** How often x stands in the main file and the snapshot of t together. */
  function Stored(s: State, t: Topic, x: Line): nat {
    multiset(Get(s.main, t))[x] + multiset(Get(s.snap, t))[x]
  }

  lemma AccountOf(s: State, t: Topic, x: Content)
    requires Inv(s)
    ensures var w, a := multiset(Get(s.written, t))[x], if x.Rec? then multiset(Log(s.acked, t))[x.msg] else 0;
      w <= a + Stored(s, t, x) && (a > 0 || Stored(s, t, x) > 0 ==> w > 0)
  {
    assert Balanced(BooksOf(s, t, x), s.crashes == 0);
    hide BooksOf, Inv;
    BooksAreMultisets(s, t, x);
  }

  /**
   After any interleaving of appends, replay steps, crashes and recoveries, every message that ever got
   into a main file, counted with multiplicity, is acknowledged or stored in the main or the snapshot
   file; every line that cannot be decoded is stored; and nothing is stored or acknowledged that was
   not written.
   */
  lemma NothingLost(max: int, steps: seq<Step>, t: Topic)
    ensures var s := Exec(Init(max), steps);
      && (forall m :: multiset(Get(s.written, t))[Rec(m)] <= multiset(Log(s.acked, t))[m] + Stored(s, t, Rec(m)))
      && (forall text :: multiset(Get(s.written, t))[Junk(text)] <= Stored(s, t, Junk(text)))
      && (forall x :: x in Get(s.main, t) || x in Get(s.snap, t) ==> x.Blank? || x in Get(s.written, t))
      && (forall m :: m in Log(s.acked, t) ==> Rec(m) in Get(s.written, t))
  {
    hide Exec, Inv, Stored;
    InitHolds(max);
    RunKeeps(Init(max), steps);
    var s := Exec(Init(max), steps);
    forall m ensures multiset(Get(s.written, t))[Rec(m)] <= multiset(Log(s.acked, t))[m] + Stored(s, t, Rec(m)) {
      AccountOf(s, t, Rec(m));
    }
    forall text ensures multiset(Get(s.written, t))[Junk(text)] <= Stored(s, t, Junk(text)) {
      AccountOf(s, t, Junk(text));
    }
    forall x | (x in Get(s.main, t) || x in Get(s.snap, t)) && !x.Blank? ensures x in Get(s.written, t) {
      AccountOf(s, t, x);
      StoredSome(s, t, x);
    }
    forall m | m in Log(s.acked, t) ensures Rec(m) in Get(s.written, t) {
      AccountOf(s, t, Rec(m));
    }
  }

  lemma StoredSome(s: State, t: Topic, x: Line)
    requires x in Get(s.main, t) || x in Get(s.snap, t)
    ensures Stored(s, t, x) > 0
  {
  }

  /** Without crashes, whenever no file is half replayed, the account is exact. */
  lemma ExactWithoutCrashes(max: int, steps: seq<Step>, t: Topic)
    requires var s := Exec(Init(max), steps);
      s.crashes == 0 && (s.pc.Idle? || s.pc.Recovering? || s.pc.Replaying?)
    ensures var s := Exec(Init(max), steps);
      && (forall m :: multiset(Get(s.written, t))[Rec(m)] == multiset(Log(s.acked, t))[m] + Stored(s, t, Rec(m)))
      && (forall text :: multiset(Get(s.written, t))[Junk(text)] == Stored(s, t, Junk(text)))
  {
    hide Exec;
    InitHolds(max);
    RunKeeps(Init(max), steps);
    var s := Exec(Init(max), steps);
    hide Inv, BooksOf;
    forall m ensures multiset(Get(s.written, t))[Rec(m)] == multiset(Log(s.acked, t))[m] + Stored(s, t, Rec(m)) {
      QuietBooks(s, t, Rec(m));
      BooksAreMultisets(s, t, Rec(m));
    }
    forall text ensures multiset(Get(s.written, t))[Junk(text)] == Stored(s, t, Junk(text)) {
      QuietBooks(s, t, Junk(text));
      BooksAreMultisets(s, t, Junk(text));
    }
  }

  lemma QuietBooks(s: State, t: Topic, x: Content)
    requires Inv(s) && s.crashes == 0 && (s.pc.Idle? || s.pc.Recovering? || s.pc.Replaying?)
    ensures var b := BooksOf(s, t, x); b.written == b.acked + b.main + b.snap
  {
    assert Balanced(BooksOf(s, t, x), true);
  }

  /** The rename of a main file never replaces a snapshot that still exists. */
  lemma RenameNeverOverwrites(max: int, steps: seq<Step>)
    ensures var s := Exec(Init(max), steps);
      s.pc.Replaying? && s.pc.todo != [] ==> s.pc.todo[0] !in s.snap
  {
    InitHolds(max);
    RunKeeps(Init(max), steps);
  }
}
