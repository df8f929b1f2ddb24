/**
 The local dead-letter queue: one JSON-lines file per topic, replayed through a renamed snapshot.

 A line is what is left of it after trimming and decoding: blank, undecodable, or a message.
 Every file operation succeeds and every line fits the scanner.
 */
module Dlq {
  import opened Messages

  datatype Line = Blank | Junk(text: string) | Rec(msg: Msg)

  datatype Topic = Topic(name: string)

  /** The files that exist, by topic. */
  type Files = map<Topic, seq<Line>>

  function Get(files: Files, t: Topic): seq<Line> {
    if t in files then files[t] else []
  }

  /** The messages of a file, in order. */
  function Msgs(lines: seq<Line>): seq<Msg> {
    if lines == [] then []
    else
      var last := lines[|lines| - 1];
      Msgs(lines[..|lines| - 1]) + (if last.Rec? then [last.msg] else [])
  }

  /** The lines that stay behind when the first k messages are taken out; blank lines are never kept. */
  function Without(lines: seq<Line>, k: nat): seq<Line> {
    if lines == [] then []
    else
      var init, last := lines[..|lines| - 1], lines[|lines| - 1];
      Without(init, k) + (if last.Blank? || (last.Rec? && |Msgs(init)| < k) then [] else [last])
  }

  /** The lines that cannot be decoded, in order. */
  function Junks(lines: seq<Line>): seq<Line> {
    if lines == [] then []
    else
      var last := lines[|lines| - 1];
      Junks(lines[..|lines| - 1]) + (if last.Junk? then [last] else [])
  }

  function NonBlank(lines: seq<Line>): seq<Line> {
    if lines == [] then []
    else
      var last := lines[|lines| - 1];
      NonBlank(lines[..|lines| - 1]) + (if last.Blank? then [] else [last])
  }

  /**
   A pass that sends acked and keeps kept: up to some line it sends every message and keeps what it
   cannot decode, and from there on it keeps everything that is not blank.
   */
  ghost predicate Splits(lines: seq<Line>, acked: seq<Msg>, kept: seq<Line>) {
    exists c: nat :: c <= |lines| && acked == Msgs(lines[..c]) && kept == Junks(lines[..c]) + NonBlank(lines[c..])
  }

  lemma {:induction false} JunksConcat(a: seq<Line>, b: seq<Line>)
    ensures Junks(a + b) == Junks(a) + Junks(b)
  {
    if b == [] {
      assert a + b == a;
    } else {
      JunksConcat(a, b[..|b| - 1]);
      assert (a + b)[..|a + b| - 1] == a + b[..|b| - 1];
    }
  }

  lemma JunksPush(lines: seq<Line>, line: Line)
    ensures Junks(lines + [line]) == Junks(lines) + if line.Junk? then [line] else []
    ensures NonBlank(lines + [line]) == NonBlank(lines) + if line.Blank? then [] else [line]
  {
    assert (lines + [line])[..|lines|] == lines;
  }

  /** No pass loses a line that cannot be decoded. */
  lemma {:induction false} JunksStay(lines: seq<Line>, k: nat)
    ensures Junks(Without(lines, k)) == Junks(lines)
  {
    if lines != [] {
      JunksStay(lines[..|lines| - 1], k);
      JunksPush(Without(lines[..|lines| - 1], k), lines[|lines| - 1]);
      assert Without(lines[..|lines| - 1], k) + [] == Without(lines[..|lines| - 1], k);
    }
  }

  lemma {:induction false} WithoutAllMessages(lines: seq<Line>, k: nat)
    requires k >= |Msgs(lines)|
    ensures Without(lines, k) == Junks(lines)
  {
    if lines != [] {
      WithoutAllMessages(lines[..|lines| - 1], k);
    }
  }

  lemma WithoutPush(init: seq<Line>, last: Line, k: nat)
    ensures Without(init + [last], k) == Without(init, k) + if last.Blank? || (last.Rec? && |Msgs(init)| < k) then [] else [last]
  {
    assert (init + [last])[..|init|] == init;
  }

  /** One line more, after the pass has stopped. */
  lemma SplitsPush(init: seq<Line>, last: Line, acked: seq<Msg>, kept: seq<Line>)
    requires Splits(init, acked, kept)
    ensures Splits(init + [last], acked, kept + if last.Blank? then [] else [last])
  {
    hide Msgs, Junks, NonBlank;
    var c: nat :| c <= |init| && acked == Msgs(init[..c]) && kept == Junks(init[..c]) + NonBlank(init[c..]);
    var lines := init + [last];
    assert lines[..c] == init[..c] && lines[c..] == init[c..] + [last];
    JunksPush(init[c..], last);
  }

  lemma AllSplits(lines: seq<Line>)
    ensures Splits(lines, Msgs(lines), Junks(lines))
  {
    var c := |lines|;
    assert lines[..c] == lines && lines[c..] == [];
    assert NonBlank([]) == [];
    assert Junks(lines) + [] == Junks(lines);
  }

  lemma {:induction false} WithoutSplits(lines: seq<Line>, k: nat)
    requires k <= |Msgs(lines)|
    ensures Splits(lines, Msgs(lines)[..k], Without(lines, k))
  {
    if k == |Msgs(lines)| {
      WithoutAllMessages(lines, k);
      AllSplits(lines);
    } else {
      var init, last := lines[..|lines| - 1], lines[|lines| - 1];
      assert lines == init + [last];
      MsgsAppend(init, last);
      WithoutPush(init, last, k);
      WithoutSplits(init, k);
      hide Msgs, Without, Splits;
      SplitsPush(init, last, Msgs(init)[..k], Without(init, k));
      assert Msgs(lines)[..k] == Msgs(init)[..k];
      assert Without(init, k) + [] == Without(init, k);
    }
  }

  lemma MsgsAppend(lines: seq<Line>, l: Line)
    ensures Msgs(lines + [l]) == Msgs(lines) + (if l.Rec? then [l.msg] else [])
  {
    assert (lines + [l])[..|lines|] == lines;
  }

  lemma {:induction false} MsgsConcat(a: seq<Line>, b: seq<Line>)
    ensures Msgs(a + b) == Msgs(a) + Msgs(b)
  {
    if b == [] {
      assert a + b == a;
    } else {
      var init, last := b[..|b| - 1], b[|b| - 1];
      MsgsConcat(a, init);
      assert a + b == (a + init) + [last];
      MsgsAppend(a + init, last);
      MsgsAppend(init, last);
      assert init + [last] == b;
    }
  }

  lemma {:induction false} MsgsOfWithout(lines: seq<Line>, k: nat)
    ensures Msgs(Without(lines, k)) == if k <= |Msgs(lines)| then Msgs(lines)[k..] else []
  {
    if lines != [] {
      var init, last := lines[..|lines| - 1], lines[|lines| - 1];
      MsgsOfWithout(init, k);
      MsgsAppend(Without(init, k), last);
      assert Without(init, k) + [] == Without(init, k);
    }
  }

  /**
   How many of n messages one pass sends: relay attempt k is answered by ok(k), and the pass
   stops sending after the first failure or after max successes (max <= 0 means no maximum).
   */
  function Sent(n: nat, ok: nat -> bool, max: int, k: nat): (m: nat)
    ensures k <= n ==> k <= m <= n
    decreases n - k
  {
    if k < n && !(max > 0 && k >= max) && ok(k) then Sent(n, ok, max, k + 1) else k
  }

  /** Sent stops at the first attempt that fails, at the maximum, or at the end, whichever comes first. */
  lemma {:induction false} SentIsFirstStop(n: nat, ok: nat -> bool, max: int, k: nat)
    requires k <= n
    ensures var m := Sent(n, ok, max, k);
      && (max > 0 && k <= max ==> m <= max)
      && (forall j: nat :: k <= j < m ==> ok(j))
      && (m < n && !(max > 0 && m >= max) ==> !ok(m))
    decreases n - k
  {
    if k < n && !(max > 0 && k >= max) && ok(k) {
      SentIsFirstStop(n, ok, max, k + 1);
    }
  }

  /** Where the scan of a snapshot stands. */
  datatype Scan = Scan(acked: seq<Msg>, kept: seq<Line>, stop: bool)

  /** One scanned line; answer is what the relay would say to its message. */
  function ScanLine(scan: Scan, line: Line, answer: bool, max: int): Scan {
    if line.Blank? then scan
    else if scan.stop || (max > 0 && |scan.acked| >= max) || line.Junk? then scan.(kept := scan.kept + [line])
    else if answer then scan.(acked := scan.acked + [line.msg])
    else scan.(kept := scan.kept + [line], stop := true)
  }

  /** A whole snapshot scanned; relay attempt k is answered by ok(k). */
  function ScanAll(lines: seq<Line>, ok: nat -> bool, max: int): Scan {
    if lines == [] then Scan([], [], false)
    else
      var scan := ScanAll(lines[..|lines| - 1], ok, max);
      ScanLine(scan, lines[|lines| - 1], ok(|scan.acked|), max)
  }

  /** Any n up to the first stop is what shorter snapshots send, too. */
  lemma {:induction false} SentOfFewer(n: nat, m: nat, ok: nat -> bool, max: int, k: nat)
    requires k <= n <= m
    ensures Sent(n, ok, max, k) == if Sent(m, ok, max, k) <= n then Sent(m, ok, max, k) else n
    decreases n - k
  {
    if k < n && !(max > 0 && k >= max) && ok(k) {
      SentOfFewer(n, m, ok, max, k + 1);
    }
  }

  /**
   One pass as a function: it acknowledges a prefix of the messages, exactly up to the first stop,
   and keeps exactly the other non-blank lines, undecodable ones included, in their order.
   */
  lemma {:induction false} ScanAllIs(lines: seq<Line>, ok: nat -> bool, max: int)
    ensures var n := Sent(|Msgs(lines)|, ok, max, 0);
      var scan := ScanAll(lines, ok, max);
      && scan.acked == Msgs(lines)[..n]
      && scan.kept == Without(lines, n)
      && (scan.stop ==> n < |Msgs(lines)| && !ok(n))
      && (n < |Msgs(lines)| ==> scan.stop || (max > 0 && n >= max))
  {
    hide Sent;
    if lines != [] {
      var init, last := lines[..|lines| - 1], lines[|lines| - 1];
      ScanAllIs(init, ok, max);
      assert init + [last] == lines;
      MsgsAppend(init, last);
      SentOfFewer(|Msgs(init)|, |Msgs(lines)|, ok, max, 0);
      SentIsFirstStop(|Msgs(init)|, ok, max, 0);
      SentIsFirstStop(|Msgs(lines)|, ok, max, 0);
      var n := Sent(|Msgs(lines)|, ok, max, 0);
      WithoutMore(init, Sent(|Msgs(init)|, ok, max, 0), n);
    }
  }

  /** Past the last message, taking out more changes nothing. */
  lemma {:induction false} WithoutMore(lines: seq<Line>, k: nat, m: nat)
    requires k == m || |Msgs(lines)| <= k <= m
    ensures Without(lines, k) == Without(lines, m)
  {
    if lines != [] {
      WithoutMore(lines[..|lines| - 1], k, m);
    }
  }

  lemma NothingScanned(lines: seq<Line>, ok: nat -> bool, max: int)
    ensures ScanAll(lines[..0], ok, max) == Scan([], [], false)
  {
  }

  lemma ScanAllStep(lines: seq<Line>, ok: nat -> bool, max: int, i: nat)
    requires i < |lines|
    ensures var scan := ScanAll(lines[..i], ok, max);
      ScanAll(lines[..i + 1], ok, max) == ScanLine(scan, lines[i], ok(|scan.acked|), max)
  {
    assert lines[..i + 1][..i] == lines[..i];
  }

  class DlqStore {
    const enabled: bool
    const replayBatchMax: int
    var main: Files
    var snap: Files
    var backlog: int

    constructor (enabled: bool, replayBatchMax: int)
      ensures main == map[] && snap == map[] && backlog == 0
      ensures this.enabled == enabled && this.replayBatchMax == replayBatchMax
    {
      this.enabled, this.replayBatchMax := enabled, replayBatchMax;
      main, snap, backlog := map[], map[], 0;
    }

    /**
     Nothing is written when the store is off, the message cannot be encoded, or the topic's file
     exists and is full: the line would take it past its maximal size.
     */
    method Append(t: Topic, msg: Msg, full: bool) returns (written: bool)
      modifies this
      ensures written <==> enabled && msg.marshals && !(full && t in old(main))
      ensures main == if written then old(main)[t := Get(old(main), t) + [Rec(msg)]] else old(main)
      ensures snap == old(snap) && backlog == old(backlog) + if written then 1 else 0
    {
      if !enabled || !msg.marshals || (full && t in main) {
        return false;
      }
      written := true;
      main := main[t := Get(main, t) + [Rec(msg)]];
      backlog := backlog + 1;
    }

    /** Puts every leftover snapshot back at the end of its main file. */
    method RecoverLeftovers()
      modifies this`main, this`snap
      ensures snap == map[]
      ensures forall t :: Get(main, t) == Get(old(main), t) + Get(old(snap), t)
      ensures main.Keys == old(main).Keys + old(snap).Keys
    {
      while snap.Keys != {}
        invariant snap.Keys <= old(snap).Keys
        invariant forall t :: t in snap ==> snap[t] == old(snap)[t]
        invariant forall t :: Get(main, t) == Get(old(main), t) + (if t in snap then [] else Get(old(snap), t))
        invariant main.Keys == old(main).Keys + (old(snap).Keys - snap.Keys)
        decreases snap.Keys
      {
        var t :| t in snap.Keys;
        main := main[t := Get(main, t) + snap[t]];
        snap := snap - {t};
      }
    }

    /** Sends the snapshot of t line by line; what was not sent goes back to the main file. */
    method DrainSnapshot(t: Topic, ok: nat -> bool) returns (acked: seq<Msg>)
      requires t in snap
      modifies this
      ensures var lines := old(snap)[t];
        var n := Sent(|Msgs(lines)|, ok, replayBatchMax, 0);
        && acked == Msgs(lines)[..n]
        && Get(main, t) == Get(old(main), t) + Without(lines, n)
        && backlog == old(backlog) - n
      ensures snap == old(snap) - {t}
      ensures exists kept :: Splits(old(snap)[t], acked, kept) && Get(main, t) == Get(old(main), t) + kept
      ensures Junks(Get(main, t)) == Junks(Get(old(main), t)) + Junks(old(snap)[t])
      ensures forall u :: u != t ==> (u in main <==> u in old(main)) && Get(main, u) == Get(old(main), u)
    {
      hide ScanAll, Splits, Junks, Msgs, Without, Sent;
      var lines := snap[t];
      var failed: seq<Line> := [];
      var stop := false;
      var i := 0;
      acked := [];
      NothingScanned(lines, ok, replayBatchMax);
      while i < |lines|
        invariant 0 <= i <= |lines|
        invariant ScanAll(lines[..i], ok, replayBatchMax) == Scan(acked, failed, stop)
        invariant main == old(main) && snap == old(snap) && backlog == old(backlog) - |acked|
        decreases |lines| - i
      {
        ScanAllStep(lines, ok, replayBatchMax, i);
        if !lines[i].Blank? {
          if stop || (replayBatchMax > 0 && |acked| >= replayBatchMax) {
            failed := failed + [lines[i]];
          } else if !lines[i].Rec? {
            failed := failed + [lines[i]];
          } else if !ok(|acked|) {
            failed := failed + [lines[i]];
            stop := true;
          } else {
            acked := acked + [lines[i].msg];
            backlog := backlog - 1;
          }
        }
        i := i + 1;
      }
      ScanAllIs(lines, ok, replayBatchMax);
      assert lines[..i] == lines;
      WithoutSplits(lines, |acked|);
      JunksStay(lines, |acked|);
      JunksConcat(Get(main, t), failed);
      if failed != [] {
        WriteBack(t, failed);
      }
      snap := snap - {t};
    }

    method WriteBack(t: Topic, lines: seq<Line>)
      modifies this`main
      ensures main == old(main)[t := Get(old(main), t) + lines]
    {
      main := main[t := Get(main, t)];  // O_CREATE
      ghost var before := Get(old(main), t);
      for i := 0 to |lines|
        invariant t in main && main[t] == before + lines[..i]
        invariant main == old(main)[t := main[t]]
      {
        assert before + lines[..i + 1] == before + lines[..i] + [lines[i]];
        main := main[t := main[t] + [lines[i]]];
      }
      assert lines[..|lines|] == lines;
    }

    /** Renames the main file to its snapshot and drains it. */
    method ReplayFile(t: Topic, ok: nat -> bool) returns (acked: seq<Msg>)
      requires t !in snap
      modifies this
      ensures var lines := Get(old(main), t);
        var n := Sent(|Msgs(lines)|, ok, replayBatchMax, 0);
        && acked == Msgs(lines)[..n]
        && Get(main, t) == Without(lines, n)
        && backlog == old(backlog) - n
      ensures Splits(Get(old(main), t), acked, Get(main, t)) && Junks(Get(main, t)) == Junks(Get(old(main), t))
      ensures snap == old(snap)
      ensures forall u :: u != t ==> (u in main <==> u in old(main)) && Get(main, u) == Get(old(main), u)
    {
      if t !in main {
        return [];
      }
      snap := snap[t := main[t]];
      main := main - {t};
      acked := DrainSnapshot(t, ok);
    }

    /**
     Unless the store is off: recovers leftovers, then replays every file; the k-th relay of topic t is
     answered by ok(t)(k).
     */
    method ReplayAll(ok: Topic -> nat -> bool) returns (acked: map<Topic, seq<Msg>>)
      modifies this
      ensures !enabled ==> acked == map[] && main == old(main) && snap == old(snap) && backlog == old(backlog)
      ensures enabled ==> snap == map[] && acked.Keys == old(main).Keys + old(snap).Keys
      ensures enabled ==> forall t ::
        var lines := Get(old(main), t) + Get(old(snap), t);
        var n := Sent(|Msgs(lines)|, ok(t), replayBatchMax, 0);
        && (t in acked ==> acked[t] == Msgs(lines)[..n] && Get(main, t) == Without(lines, n))
        && (t !in acked ==> Get(main, t) == [])
        && Junks(Get(main, t)) == Junks(lines)
    {
      hide Splits, Junks, Msgs, Without, Sent;
      if !enabled {
        return map[];
      }
      RecoverLeftovers();
      var todo := main.Keys;
      ghost var files := main;
      acked := map[];
      while todo != {}
        invariant snap == map[] && todo <= files.Keys
        invariant acked.Keys == files.Keys - todo
        invariant forall t :: t in todo || t !in files ==> Get(main, t) == Get(files, t)
        invariant forall t :: t in acked ==>
          var n := Sent(|Msgs(files[t])|, ok(t), replayBatchMax, 0);
          acked[t] == Msgs(files[t])[..n] && Get(main, t) == Without(files[t], n) && Junks(Get(main, t)) == Junks(files[t])
        decreases todo
      {
        var t :| t in todo;
        var a := ReplayFile(t, ok(t));
        acked := acked[t := a];
        todo := todo - {t};
      }
    }
  }

  /** What a pass acknowledges and what it keeps are together the messages of the snapshot, in order. */
  lemma PassSplitsMessages(lines: seq<Line>, ok: nat -> bool, max: int)
    ensures var n := Sent(|Msgs(lines)|, ok, max, 0);
      n <= |Msgs(lines)| && Msgs(lines) == Msgs(lines)[..n] + Msgs(Without(lines, n))
  {
    var n := Sent(|Msgs(lines)|, ok, max, 0);
    SentIsFirstStop(|Msgs(lines)|, ok, max, 0);
    hide Sent, Msgs, Without;
    MsgsOfWithout(lines, n);
  }
}
