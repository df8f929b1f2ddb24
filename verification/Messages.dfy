/** Event messages, and how often one occurs in a queue, a file or a log. */
module Messages {

  /** A message; marshals is false for one that cannot be encoded. */
  datatype Msg = Msg(id: nat, marshals: bool)

  /** How often x occurs in s. */
  function Count(s: seq<Msg>, x: Msg): nat {
    if s == [] then 0 else Count(s[..|s| - 1], x) + (if s[|s| - 1] == x then 1 else 0)
  }

  lemma CountPush(s: seq<Msg>, y: Msg, x: Msg)
    ensures Count(s + [y], x) == Count(s, x) + if y == x then 1 else 0
  {
    assert (s + [y])[..|s|] == s;
  }

  lemma {:induction false} CountConcat(a: seq<Msg>, b: seq<Msg>, x: Msg)
    ensures Count(a + b, x) == Count(a, x) + Count(b, x)
  {
    if b == [] {
      assert a + b == a;
    } else {
      CountConcat(a, b[..|b| - 1], x);
      assert (a + b)[..|a + b| - 1] == a + b[..|b| - 1];
    }
  }

  /** Taking out position i takes out one copy of what stands there. */
  lemma CountRemove(s: seq<Msg>, i: nat, x: Msg)
    requires i < |s|
    ensures Count(s, x) == Count(s[..i] + s[i + 1..], x) + if s[i] == x then 1 else 0
  {
    assert s == s[..i] + [s[i]] + s[i + 1..];
    CountConcat(s[..i] + [s[i]], s[i + 1..], x);
    CountConcat(s[..i], s[i + 1..], x);
    CountPush(s[..i], s[i], x);
  }

  lemma CountPop(s: seq<Msg>, x: Msg)
    requires s != []
    ensures Count(s, x) == Count(s[1..], x) + if s[0] == x then 1 else 0
  {
    CountRemove(s, 0, x);
    assert s[..0] + s[1..] == s[1..];
  }

  lemma {:induction false} CountIsMultiplicity(s: seq<Msg>, x: Msg)
    ensures Count(s, x) == multiset(s)[x]
  {
    if s != [] {
      CountIsMultiplicity(s[..|s| - 1], x);
      assert s == s[..|s| - 1] + [s[|s| - 1]];
    }
  }
}
