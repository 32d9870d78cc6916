/** The regular expressions the tests search with are sequences of literals and
    one-or-more runs of a character class (`listen\s+80`, `server_name\s+[\w\.\-]+`,
    `\[[\w:]+\]`). This module gives their meaning (some way of splitting the text
    matches) and a greedy scanner, and proves the two agree on such patterns. */
module Patterns {
  import opened Outcomes
  import opened Text

  datatype Atom =
    | Lit(text: string)     // the literal text
    | Plus(cls: CharClass)  // one or more characters of the class

  type Pattern = seq<Atom>

  /** Every literal is non-empty. */
  predicate WellFormed(p: Pattern) {
    forall i :: 0 <= i < |p| ==> (p[i].Lit? ==> p[i].text != [])
  }

  /** `c` can be the first character matched by `a`. */
  predicate CanStart(a: Atom, c: char) {
    match a
    case Lit(l) => l != [] && l[0] == c
    case Plus(cls) => InClass(c, cls)
  }

  /** A run never runs into what follows it: the atom after a `Plus` cannot start with a
      character of its class, so backtracking into the run never helps. */
  predicate Deterministic(p: Pattern) {
    forall i, c :: 0 <= i < |p| - 1 && p[i].Plus? && CanStart(p[i + 1], c) ==> !InClass(c, p[i].cls)
  }

  /** The meaning of a pattern: `p` matches exactly the first `n` characters of `t`. */
  ghost predicate Match(p: Pattern, t: string, n: nat)
    decreases |p|
  {
    n <= |t| &&
    if p == [] then n == 0
    else match p[0]
      case Lit(l) => |l| <= n && StartsWith(t, l) && Match(p[1..], t[|l|..], n - |l|)
      case Plus(cls) => exists k :: 0 < k <= n && AllIn(t[..k], cls) && Match(p[1..], t[k..], n - k)
  }

  /** The scanner: literals compared in place, each run taken as long as it goes.
      Returns the length matched at the start of `t`, if the pattern matches there. */
  function Greedy(p: Pattern, t: string): (r: Option<nat>)
    decreases |p|
    ensures r.Some? ==> r.value <= |t|
    ensures r.Some? && p != [] && WellFormed(p) ==> r.value > 0
  {
    if p == [] then Some(0)
    else match p[0]
      case Lit(l) =>
        if StartsWith(t, l) then
          match Greedy(p[1..], t[|l|..])
          case None => None
          case Some(n) => Some(|l| + n)
        else None
      case Plus(cls) =>
        var k := RunLen(t, cls);
        if k == 0 then None
        else
          match Greedy(p[1..], t[k..])
          case None => None
          case Some(n) => Some(k + n)
  }

  lemma TailWellFormed(p: Pattern)
    requires p != [] && WellFormed(p) && Deterministic(p)
    ensures WellFormed(p[1..]) && Deterministic(p[1..])
  {
    var q := p[1..];
    forall i, c | 0 <= i < |q| - 1 && q[i].Plus? && CanStart(q[i + 1], c)
      ensures !InClass(c, q[i].cls)
    {
      assert q[i] == p[i + 1] && q[i + 1] == p[i + 2];
    }
    forall i | 0 <= i < |q| && q[i].Lit? ensures q[i].text != [] {
      assert q[i] == p[i + 1];
    }
  }

  /** What the scanner reports is a match. */
  lemma {:induction false} GreedySound(p: Pattern, t: string)
    requires Greedy(p, t).Some?
    ensures Match(p, t, Greedy(p, t).value)
    decreases |p|
  {
    if p != [] {
      var n := Greedy(p, t).value;
      match p[0]
      case Lit(l) =>
        var rest := Greedy(p[1..], t[|l|..]);
        assert rest.Some? && n == |l| + rest.value;
        GreedySound(p[1..], t[|l|..]);
        assert Match(p[1..], t[|l|..], n - |l|);
      case Plus(cls) =>
        var k := RunLen(t, cls);
        var rest := Greedy(p[1..], t[k..]);
        assert rest.Some? && n == k + rest.value;
        GreedySound(p[1..], t[k..]);
        assert AllIn(t[..k], cls);
        assert 0 < k <= n && Match(p[1..], t[k..], n - k);
    }
  }

  /** A non-empty match begins with a character its first atom can start with. */
  lemma FirstChar(p: Pattern, t: string, n: nat)
    requires p != [] && WellFormed(p) && Match(p, t, n)
    ensures |t| > 0 && CanStart(p[0], t[0])
  {
    match p[0]
    case Lit(l) =>
      assert l != [];
      assert t[..|l|][0] == t[0];
    case Plus(cls) =>
      var k :| 0 < k <= n && AllIn(t[..k], cls) && Match(p[1..], t[k..], n - k);
      assert t[..k][0] == t[0];
  }

  /** On a deterministic pattern, the scanner finds a match wherever one exists. */
  lemma {:induction false} GreedyComplete(p: Pattern, t: string, n: nat)
    requires WellFormed(p) && Deterministic(p) && Match(p, t, n)
    ensures Greedy(p, t).Some?
    decreases |p|, 1
  {
    if p != [] {
      TailWellFormed(p);
      match p[0]
      case Lit(l) =>
        GreedyComplete(p[1..], t[|l|..], n - |l|);
      case Plus(_) =>
        PlusComplete(p, t, n);
    }
  }

  /** The run the scanner takes is exactly the one the match used. */
  lemma {:induction false} PlusComplete(p: Pattern, t: string, n: nat)
    requires p != [] && p[0].Plus? && WellFormed(p) && Deterministic(p) && Match(p, t, n)
    ensures Greedy(p, t).Some?
    decreases |p|, 0
  {
    var cls := p[0].cls;
    var k :| 0 < k <= n && AllIn(t[..k], cls) && Match(p[1..], t[k..], n - k);
    assert forall i :: 0 <= i < k ==> InClass(t[i], cls) by {
      forall i | 0 <= i < k ensures InClass(t[i], cls) {
        assert t[..k][i] == t[i];
      }
    }
    if |p| == 1 {
      assert InClass(t[0], cls);
      assert Greedy(p[1..], t[RunLen(t, cls)..]) == Some(0);
    } else {
      TailWellFormed(p);
      FirstChar(p[1..], t[k..], n - k);
      assert CanStart(p[1], t[k]);
      assert !InClass(t[k], cls);
      RunLenUnique(t, cls, k);
      GreedyComplete(p[1..], t[k..], n - k);
    }
  }

  /** The scanner's verdict at one position is exactly the pattern's meaning. */
  lemma GreedyIff(p: Pattern, t: string)
    requires WellFormed(p) && Deterministic(p)
    ensures Greedy(p, t).Some? <==> exists n :: Match(p, t, n)
  {
    if Greedy(p, t).Some? {
      GreedySound(p, t);
      assert Match(p, t, Greedy(p, t).value);
    }
    if exists n :: Match(p, t, n) {
      var n :| Match(p, t, n);
      GreedyComplete(p, t, n);
      assert Greedy(p, t).Some?;
    }
  }

  /** `re.search(p, t) is not None`: the scanner succeeds at some position. */
  predicate Search(p: Pattern, t: string)
    decreases |t|
  {
    Greedy(p, t).Some? || (t != [] && Search(p, t[1..]))
  }

  /** Some suffix of `t` begins with a match. */
  ghost predicate MatchSomewhere(p: Pattern, t: string) {
    exists i, n :: 0 <= i <= |t| && Match(p, t[i..], n)
  }

  /** `Search` finds a match exactly when the text holds one somewhere. */
  lemma {:induction false} SearchIff(p: Pattern, t: string)
    requires WellFormed(p) && Deterministic(p)
    ensures Search(p, t) <==> MatchSomewhere(p, t)
    decreases |t|
  {
    GreedyIff(p, t);
    assert t[0..] == t;
    if t != [] {
      SearchIff(p, t[1..]);
      if MatchSomewhere(p, t[1..]) {
        var i, n :| 0 <= i <= |t| - 1 && Match(p, t[1..][i..], n);
        assert t[1..][i..] == t[i + 1..];
      }
      if MatchSomewhere(p, t) && !Greedy(p, t).Some? {
        var i, n :| 0 <= i <= |t| && Match(p, t[i..], n);
        GreedyComplete(p, t[i..], n);
        assert i != 0;
        assert t[1..][i - 1..] == t[i..];
      }
    } else if MatchSomewhere(p, t) {
      var i, n :| 0 <= i <= |t| && Match(p, t[i..], n);
      assert t[i..] == t;
    }
  }

  /** A literal followed by a match of the rest of the pattern is a match. */
  lemma MatchLit(p: Pattern, u: string, n: nat)
    requires p != [] && p[0].Lit? && |p[0].text| <= n <= |u| && StartsWith(u, p[0].text)
    requires Match(p[1..], u[|p[0].text|..], n - |p[0].text|)
    ensures Match(p, u, n)
  {
  }

  /** A run of `k` class characters followed by a match of the rest is a match. */
  lemma MatchPlus(p: Pattern, u: string, n: nat, k: nat)
    requires p != [] && p[0].Plus? && 0 < k <= n <= |u| && AllIn(u[..k], p[0].cls)
    requires Match(p[1..], u[k..], n - k)
    ensures Match(p, u, n)
  {
  }

  /** A match only depends on the characters it covers. */
  lemma {:induction false} MatchPrefix(p: Pattern, t: string, n: nat, m: nat)
    requires Match(p, t, n) && n <= m <= |t|
    ensures Match(p, t[..m], n)
    decreases |p|, 1
  {
    if p != [] {
      match p[0]
      case Lit(_) => LitPrefix(p, t, n, m);
      case Plus(_) => PlusPrefix(p, t, n, m);
    }
  }

  lemma {:induction false} LitPrefix(p: Pattern, t: string, n: nat, m: nat)
    requires p != [] && p[0].Lit? && Match(p, t, n) && n <= m <= |t|
    ensures Match(p, t[..m], n)
    decreases |p|, 0
  {
    var l, u := p[0].text, t[..m];
    assert StartsWith(u, l) by {
      assert u[..|l|] == t[..|l|];
    }
    assert Match(p[1..], u[|l|..], n - |l|) by {
      MatchPrefix(p[1..], t[|l|..], n - |l|, m - |l|);
      assert u[|l|..] == t[|l|..][..m - |l|];
    }
    MatchLit(p, u, n);
  }

  lemma {:induction false} PlusPrefix(p: Pattern, t: string, n: nat, m: nat)
    requires p != [] && p[0].Plus? && Match(p, t, n) && n <= m <= |t|
    ensures Match(p, t[..m], n)
    decreases |p|, 0
  {
    var cls, u := p[0].cls, t[..m];
    var k :| 0 < k <= n && AllIn(t[..k], cls) && Match(p[1..], t[k..], n - k);
    assert AllIn(u[..k], cls) by {
      assert u[..k] == t[..k];
    }
    assert Match(p[1..], u[k..], n - k) by {
      MatchPrefix(p[1..], t[k..], n - k, m - k);
      assert u[k..] == t[k..][..m - k];
    }
    MatchPlus(p, u, n, k);
  }

  /** `re.findall(p, t)` for a pattern without groups: the matches found scanning left to
      right, each search resuming where the previous match ended. */
  function FindAll(p: Pattern, t: string): (ms: seq<string>)
    requires p != [] && WellFormed(p)
    decreases |t|
    ensures forall i :: 0 <= i < |ms| ==> Match(p, ms[i], |ms[i]|)
  {
    if t == [] then []
    else match Greedy(p, t)
      case Some(n) =>
        var rest := FindAll(p, t[n..]);
        FoundFirst(p, t, n, rest);
        [t[..n]] + rest
      case None => FindAll(p, t[1..])
  }

  /** A match the scanner reports, put in front of whole matches, leaves them all whole. */
  lemma FoundFirst(p: Pattern, t: string, n: nat, rest: seq<string>)
    requires Greedy(p, t) == Some(n)
    requires forall i :: 0 <= i < |rest| ==> Match(p, rest[i], |rest[i]|)
    ensures forall i :: 0 <= i < |rest| + 1 ==> Match(p, ([t[..n]] + rest)[i], |([t[..n]] + rest)[i]|)
  {
    var ms := [t[..n]] + rest;
    assert Match(p, t[..n], n) by {
      GreedySound(p, t);
      MatchPrefix(p, t, n, n);
    }
    forall i | 0 <= i < |rest| + 1 ensures Match(p, ms[i], |ms[i]|) {
      if i > 0 { assert ms[i] == rest[i - 1]; }
    }
  }

  /** `findall` returns something exactly when `search` succeeds. */
  lemma {:induction false} FindAllNonEmpty(p: Pattern, t: string)
    requires p != [] && WellFormed(p)
    ensures |FindAll(p, t)| > 0 <==> Search(p, t)
    decreases |t|
  {
    if t == [] {
    } else if Greedy(p, t).None? {
      FindAllNonEmpty(p, t[1..]);
    }
  }

  /** Every string `findall` returns is itself matched by the pattern from its start, so
      searching it again always succeeds. */
  lemma FoundMatchesAgain(p: Pattern, t: string, i: nat)
    requires p != [] && WellFormed(p) && Deterministic(p)
    requires i < |FindAll(p, t)|
    ensures Search(p, FindAll(p, t)[i])
  {
    var m := FindAll(p, t)[i];
    GreedyComplete(p, m, |m|);
  }
}
