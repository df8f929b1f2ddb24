/** Printing and parsing of heartbeat keys and active-set members. */
module Keys {
  import opened Decimals

  datatype Parsed = None | Pair(user: string, device: string)

  const MARKER := "idle:hb:"
  const MEMBER_SEP := '\U{1F}'

  /** cacheKey: a non-empty prefix goes in front with a colon. */
  function Prefixed(prefix: string, key: string): string {
    if prefix == "" then key else prefix + ":" + key
  }

  function HeartbeatKey(user: string, device: string): string {
    MARKER + user + ":" + device
  }

  function ActiveMember(user: string, device: string): string {
    user + [MEMBER_SEP] + device
  }

  // ---------- searching ----------

  predicate OccursAt(s: string, pat: string, i: nat) {
    i + |pat| <= |s| && s[i..i + |pat|] == pat
  }

  predicate Contains(s: string, pat: string) {
    exists i: nat :: i <= |s| && OccursAt(s, pat, i)
  }

  /** strings.Index: the first occurrence at or after i, or -1. */
  function IndexFrom(s: string, pat: string, i: nat): (k: int)
    requires i <= |s|
    ensures k == -1 || (i <= k && OccursAt(s, pat, k) && forall j: nat :: i <= j < k ==> !OccursAt(s, pat, j))
    ensures k == -1 ==> forall j: nat :: i <= j ==> !OccursAt(s, pat, j)
    decreases |s| - i
  {
    if OccursAt(s, pat, i) then i else if i == |s| then -1 else IndexFrom(s, pat, i + 1)
  }

  function Index(s: string, pat: string): int {
    IndexFrom(s, pat, 0)
  }

  /** strings.SplitN(s, sep, 2) for a one-character separator. */
  function SplitTwo(s: string, sep: char): (p: Parsed)
    ensures p.None? <==> sep !in s
    ensures p.Pair? ==> s == p.user + [sep] + p.device && sep !in p.user
  {
    if s == "" then None
    else if s[0] == sep then Pair("", s[1..])
    else
      match SplitTwo(s[1..], sep)
      case None => None
      case Pair(a, b) => Pair([s[0]] + a, b)
  }

  function ParseActiveMember(m: string): (string, string) {
    match SplitTwo(m, MEMBER_SEP)
    case None => ("", "")
    case Pair(u, d) => (u, d)
  }

  function ParseHeartbeatKey(full: string): Parsed {
    var i := Index(full, MARKER);
    if i < 0 then None else SplitTwo(full[i + |MARKER|..], ':')
  }

  // ---------- splitting ----------

  /** A separator-free head is what comes back. */
  lemma SplitIsUnique(u: string, d: string, sep: char, p: Parsed)
    requires sep !in u
    requires p.Pair? && u + [sep] + d == p.user + [sep] + p.device && sep !in p.user
    ensures p == Pair(u, d)
  {
    var s := u + [sep] + d;
    assert s[|u|] == sep && s[|p.user|] == sep;
    assert forall k :: 0 <= k < |u| ==> s[k] == u[k] && u[k] in u;
    assert forall k :: 0 <= k < |p.user| ==> s[k] == p.user[k] && p.user[k] in p.user;
    assert |u| == |p.user|;
    assert s[..|u|] == u && s[..|p.user|] == p.user;
    assert s[|u| + 1..] == d && s[|p.user| + 1..] == p.device;
  }

  /** Splitting gives back a pair exactly when its first half is free of the separator. */
  lemma SplitRoundTripIff(u: string, d: string, sep: char)
    ensures SplitTwo(u + [sep] + d, sep) == Pair(u, d) <==> sep !in u
  {
    var p := SplitTwo(u + [sep] + d, sep);
    assert (u + [sep] + d)[|u|] == sep;
    if sep !in u {
      SplitIsUnique(u, d, sep, p);
    }
  }

  /** Parsing inverts printing exactly for user ids without 0x1f, whatever the device id. */
  lemma ActiveMemberRoundTripIff(user: string, device: string)
    ensures ParseActiveMember(ActiveMember(user, device)) == (user, device) <==> MEMBER_SEP !in user
  {
    SplitRoundTripIff(user, device, MEMBER_SEP);
    assert ActiveMember(user, device)[|user|] == MEMBER_SEP;
  }

  /** Printing inverts parsing on every member that has a separator; anything else parses to two empty ids. */
  lemma ActiveMemberPrintsBack(m: string)
    ensures MEMBER_SEP in m ==> ActiveMember(ParseActiveMember(m).0, ParseActiveMember(m).1) == m
    ensures MEMBER_SEP !in m ==> ParseActiveMember(m) == ("", "")
  {
  }

  // ---------- the marker ----------

  lemma MarkerChars()
    ensures |MARKER| == 8 && MARKER[0] == 'i'
    ensures forall k :: 0 < k < 8 ==> MARKER[k] != 'i'
  {
    assert MARKER == ['i', 'd', 'l', 'e', ':', 'h', 'b', ':'];
  }

  /** The marker does not overlap itself: before its own place it can only occur inside the prefix. */
  lemma EarlierMarkerIsInPrefix(p: string, rest: string, i: nat)
    requires i < |p| && OccursAt(p + MARKER + rest, MARKER, i)
    ensures OccursAt(p, MARKER, i)
  {
    MarkerChars();
    var s := p + MARKER + rest;
    var found := s[i..i + |MARKER|];
    assert forall k :: 0 <= k < |found| ==> found[k] == s[i + k];
    assert s[|p|] == MARKER[0];
    assert |p| - i >= |MARKER|;
    assert p[i..i + |MARKER|] == s[i..i + |MARKER|];
  }

  lemma MarkerInPrefix(p: string, rest: string, i: nat)
    requires OccursAt(p, MARKER, i)
    ensures OccursAt(p + rest, MARKER, i) && i < |p|
  {
    MarkerChars();
    assert (p + rest)[i..i + |MARKER|] == p[i..i + |MARKER|];
  }

  lemma MarkerIndexIff(p: string, rest: string)
    ensures Index(p + MARKER + rest, MARKER) == |p| <==> !Contains(p, MARKER)
    ensures 0 <= Index(p + MARKER + rest, MARKER) <= |p|
  {
    var s := p + MARKER + rest;
    assert OccursAt(s, MARKER, |p|);
    var k := Index(s, MARKER);
    if k < |p| {
      EarlierMarkerIsInPrefix(p, rest, k);
    }
    if Contains(p, MARKER) {
      var i: nat :| i <= |p| && OccursAt(p, MARKER, i);
      MarkerInPrefix(p, MARKER + rest, i);
      assert p + (MARKER + rest) == s;
    }
  }

  function Lead(prefix: string): string {
    if prefix == "" then "" else prefix + ":"
  }

  /**
   Parsing the full Redis key gives back the ids exactly when the user id has no colon and the
   prefix, with its colon, does not contain the marker itself; the device id is arbitrary.
   */
  lemma HeartbeatKeyRoundTripIff(prefix: string, user: string, device: string)
    ensures ParseHeartbeatKey(Prefixed(prefix, HeartbeatKey(user, device))) == Pair(user, device)
       <==> ':' !in user && !Contains(Lead(prefix), MARKER)
  {
    FullKey(prefix, user, device);
    ParseAfterLead(Lead(prefix), user, device);
  }

  lemma FullKey(prefix: string, user: string, device: string)
    ensures Prefixed(prefix, HeartbeatKey(user, device)) == Lead(prefix) + MARKER + (user + ":" + device)
  {
  }

  lemma ParseAfterLead(p: string, user: string, device: string)
    ensures ParseHeartbeatKey(p + MARKER + (user + ":" + device)) == Pair(user, device)
       <==> ':' !in user && !Contains(p, MARKER)
  {
    hide Contains, SplitTwo, IndexFrom, OccursAt;
    var ids := user + ":" + device;
    var full := p + MARKER + ids;
    MarkerIndexIff(p, ids);
    var i := Index(full, MARKER);
    var rest := full[i + |MARKER|..];
    if i == |p| {
      assert rest == ids;
      SplitRoundTripIff(user, device, ':');
    } else {
      LongerSplitsOtherwise(rest, user, device);
    }
  }

  lemma LongerSplitsOtherwise(rest: string, user: string, device: string)
    requires |rest| > |user| + 1 + |device|
    ensures SplitTwo(rest, ':') != Pair(user, device)
  {
  }

  // ---------- offsets of a partition ----------

  /** The key under which the file store keeps the offset of a partition. */
  function OffsetKey(topic: string, partition: nat): string {
    topic + "/" + Decimal(partition)
  }

  lemma {:induction false} DecimalHasNoSlash(n: nat)
    ensures '/' !in Decimal(n)
  {
    assert DIGITS == ['0', '1', '2', '3', '4', '5', '6', '7', '8', '9'];
    if n >= 10 {
      DecimalHasNoSlash(n / 10);
    }
  }

  /** Two partitions never share a key, whatever characters their topics contain. */
  lemma OffsetKeyInjective(t: string, p: nat, u: string, q: nat)
    requires OffsetKey(t, p) == OffsetKey(u, q)
    ensures t == u && p == q
  {
    DecimalHasNoSlash(p);
    DecimalHasNoSlash(q);
    var s := OffsetKey(t, p);
    assert s[|t|] == '/' && s[|u|] == '/';
    assert forall k :: |t| < k < |s| ==> s[k] == Decimal(p)[k - |t| - 1];
    assert forall k :: |u| < k < |s| ==> s[k] == Decimal(q)[k - |u| - 1];
    assert |t| == |u|;
    assert s[..|t|] == t && s[..|u|] == u;
    assert s[|t| + 1..] == Decimal(p) && s[|u| + 1..] == Decimal(q);
    DecimalInjective(p, q);
  }
}
