/** The text primitives the conformance tests rely on, each written as Python's `str`
    and `re` give them: substring search, non-overlapping counting, stripping, line
    iteration, lower-casing and the character classes `\s` and `\w`. */
module Text {
  import opened Outcomes

  /** `str.isspace()`, which is also the set `\s` matches in a `str` pattern. */
  predicate IsSpace(c: char) {
    c == ' ' || ('\t' <= c <= '\r') || ('\U{1c}' <= c <= '\U{1f}') ||
    c == '\U{85}' || c == '\U{a0}' || c == '\U{1680}' || ('\U{2000}' <= c <= '\U{200a}') ||
    c == '\U{2028}' || c == '\U{2029}' || c == '\U{202f}' || c == '\U{205f}' || c == '\U{3000}'
  }

  /** `\w`, restricted to ASCII: letters, digits and the underscore. */
  predicate IsWordChar(c: char) {
    ('a' <= c <= 'z') || ('A' <= c <= 'Z') || ('0' <= c <= '9') || c == '_'
  }

  /** The character classes used by the tests' patterns. */
  datatype CharClass =
    | Space        // \s
    | Word         // \w
    | WordOrColon  // [\w:]
    | NameChar     // [\w\.\-]

  predicate InClass(c: char, cls: CharClass) {
    match cls
    case Space => IsSpace(c)
    case Word => IsWordChar(c)
    case WordOrColon => IsWordChar(c) || c == ':'
    case NameChar => IsWordChar(c) || c == '.' || c == '-'
  }

  predicate AllIn(s: string, cls: CharClass) {
    forall i :: 0 <= i < |s| ==> InClass(s[i], cls)
  }

  /** Length of the longest prefix of `s` whose characters are all in `cls`. */
  function RunLen(s: string, cls: CharClass): (n: nat)
    decreases |s|
    ensures n <= |s|
    ensures forall i :: 0 <= i < n ==> InClass(s[i], cls)
    ensures n == |s| || !InClass(s[n], cls)
  {
    if s != [] && InClass(s[0], cls) then 1 + RunLen(s[1..], cls) else 0
  }

  /** A run is determined by where it stops: any `m` with this shape is the run length. */
  lemma RunLenUnique(s: string, cls: CharClass, m: nat)
    requires m <= |s|
    requires forall i :: 0 <= i < m ==> InClass(s[i], cls)
    requires m == |s| || !InClass(s[m], cls)
    ensures RunLen(s, cls) == m
  {
  }

  predicate StartsWith(s: string, prefix: string) {
    |prefix| <= |s| && s[..|prefix|] == prefix
  }

  /** `lit` occurs in `s` at index `i`. */
  predicate OccursAt(s: string, i: int, lit: string) {
    0 <= i <= |s| && StartsWith(s[i..], lit)
  }

  /** The index of the first occurrence of `lit` in `s`, if any (`s.find(lit)`). */
  function IndexOf(s: string, lit: string): (r: Option<nat>)
    decreases |s|
    ensures r.Some? ==> OccursAt(s, r.value, lit)
    ensures r.Some? ==> forall k :: 0 <= k < r.value ==> !OccursAt(s, k, lit)
    ensures r.None? ==> forall k :: 0 <= k <= |s| ==> !OccursAt(s, k, lit)
  {
    if StartsWith(s, lit) then
      assert s[0..] == s;
      Some(0)
    else if s == [] then
      None
    else
      OccursShiftAll(s, 1, lit);
      match IndexOf(s[1..], lit)
      case None => None
      case Some(i) => Some(i + 1)
  }

  /** Python's `lit in s`. */
  predicate Contains(s: string, lit: string) {
    IndexOf(s, lit).Some?
  }

  lemma ContainsIff(s: string, lit: string)
    ensures Contains(s, lit) <==> exists k :: OccursAt(s, k, lit)
  {
    if Contains(s, lit) {
      assert OccursAt(s, IndexOf(s, lit).value, lit);
    }
  }

  /** The first occurrence is the one no earlier occurrence precedes. */
  lemma IndexOfUnique(s: string, lit: string, e: nat)
    requires OccursAt(s, e, lit)
    requires forall k :: 0 <= k < e ==> !OccursAt(s, k, lit)
    ensures IndexOf(s, lit) == Some(e)
  {
  }

  /** A one-character literal occurs exactly where that character stands. */
  lemma OccursChar(s: string, k: int, c: char)
    ensures OccursAt(s, k, [c]) <==> 0 <= k < |s| && s[k] == c
  {
    if 0 <= k < |s| {
      assert s[k..][..1] == [s[k]];
    }
  }

  /** Dropping a prefix free of `c` moves the first `c` back by the prefix length. */
  lemma IndexOfCharFrom(s: string, c: char, m: nat)
    requires m <= |s|
    requires forall k :: 0 <= k < m ==> s[k] != c
    ensures IndexOf(s[m..], [c]).Some? <==> IndexOf(s, [c]).Some?
    ensures IndexOf(s, [c]).Some? ==> IndexOf(s[m..], [c]) == Some(IndexOf(s, [c]).value - m)
  {
    var t := s[m..];
    match IndexOf(s, [c])
    case Some(e) =>
      OccursChar(s, e, c);
      OccursChar(t, e - m, c);
      forall k | 0 <= k < e - m ensures !OccursAt(t, k, [c]) {
        OccursChar(s, k + m, c);
        OccursChar(t, k, c);
      }
      IndexOfUnique(t, [c], e - m);
    case None =>
      forall k | 0 <= k <= |t| ensures !OccursAt(t, k, [c]) {
        OccursChar(s, k + m, c);
        OccursChar(t, k, c);
      }
  }

  lemma OccursShift(s: string, d: nat, k: nat, lit: string)
    requires d <= |s|
    ensures OccursAt(s[d..], k, lit) <==> OccursAt(s, k + d, lit)
  {
    if k <= |s| - d {
      assert s[d..][k..] == s[k + d..];
    }
  }

  lemma OccursShiftAll(s: string, d: nat, lit: string)
    requires d <= |s|
    ensures forall k :: d <= k <= |s| ==> (OccursAt(s[d..], k - d, lit) <==> OccursAt(s, k, lit))
  {
    forall k | d <= k <= |s| ensures OccursAt(s[d..], k - d, lit) <==> OccursAt(s, k, lit) {
      OccursShift(s, d, k - d, lit);
    }
  }

  /** Python's `s.count(lit)`: occurrences found scanning left to right, each search
      resuming after the previous occurrence, so they never overlap. */
  function Count(s: string, lit: string): nat
    decreases |s|
  {
    if lit == [] then |s| + 1
    else if |s| < |lit| then 0
    else if s[..|lit|] == lit then 1 + Count(s[|lit|..], lit)
    else Count(s[1..], lit)
  }

  /** At least one occurrence is counted exactly when the text contains `lit`. */
  lemma {:induction false} CountPositive(s: string, lit: string)
    requires lit != []
    ensures Count(s, lit) >= 1 <==> Contains(s, lit)
    decreases |s|
  {
    ContainsIff(s, lit);
    if |s| < |lit| {
    } else if s[..|lit|] == lit {
      assert OccursAt(s, 0, lit);
    } else {
      CountPositive(s[1..], lit);
      ContainsIff(s[1..], lit);
      if Contains(s, lit) {
        var k :| OccursAt(s, k, lit);
        assert k != 0;
        OccursShift(s, 1, k - 1, lit);
      }
      if Contains(s[1..], lit) {
        var k :| OccursAt(s[1..], k, lit);
        OccursShift(s, 1, k, lit);
      }
    }
  }

  /** Two occurrences of `lit` in `s` that do not overlap. */
  ghost predicate TwoApart(s: string, lit: string) {
    exists i, j :: OccursAt(s, i, lit) && OccursAt(s, j, lit) && i + |lit| <= j
  }

  /** At least two are counted exactly when two occurrences that do not overlap exist. */
  lemma {:induction false} CountAtLeastTwo(s: string, lit: string)
    requires lit != []
    ensures Count(s, lit) >= 2 <==> TwoApart(s, lit)
    decreases |s|
  {
    if |s| < |lit| {
    } else if s[..|lit|] == lit {
      TwoApartAfterFirst(s, lit);
    } else {
      CountAtLeastTwo(s[1..], lit);
      TwoApartShift(s, lit);
    }
  }

  lemma TwoApartAfterFirst(s: string, lit: string)
    requires lit != [] && |lit| <= |s| && s[..|lit|] == lit
    ensures Count(s, lit) >= 2 <==> TwoApart(s, lit)
  {
    var L := |lit|;
    var rest := s[L..];
    CountPositive(rest, lit);
    ContainsIff(rest, lit);
    assert Count(s, lit) == 1 + Count(rest, lit);
    if Count(s, lit) >= 2 {
      var k :| OccursAt(rest, k, lit);
      OccursShift(s, L, k, lit);
      assert OccursAt(s, 0, lit) && OccursAt(s, k + L, lit);
    }
    if TwoApart(s, lit) {
      var i, j :| OccursAt(s, i, lit) && OccursAt(s, j, lit) && i + L <= j;
      OccursShift(s, L, j - L, lit);
      assert OccursAt(rest, j - L, lit);
    }
  }

  lemma TwoApartShift(s: string, lit: string)
    requires lit != [] && |lit| <= |s| && s[..|lit|] != lit
    ensures TwoApart(s, lit) <==> TwoApart(s[1..], lit)
  {
    var L := |lit|;
    var rest := s[1..];
    if TwoApart(rest, lit) {
      var i, j :| OccursAt(rest, i, lit) && OccursAt(rest, j, lit) && i + L <= j;
      OccursShift(s, 1, i, lit);
      OccursShift(s, 1, j, lit);
      assert OccursAt(s, i + 1, lit) && OccursAt(s, j + 1, lit);
    }
    if TwoApart(s, lit) {
      var i, j :| OccursAt(s, i, lit) && OccursAt(s, j, lit) && i + L <= j;
      assert i != 0;
      OccursShift(s, 1, i - 1, lit);
      OccursShift(s, 1, j - 1, lit);
      assert OccursAt(rest, i - 1, lit) && OccursAt(rest, j - 1, lit);
    }
  }

  /** Counting a single character distributes over concatenation. */
  lemma {:induction false} CountCharConcat(a: string, b: string, c: char)
    ensures Count(a + b, [c]) == Count(a, [c]) + Count(b, [c])
    decreases |a|
  {
    if a == [] {
      assert a + b == b;
    } else {
      assert (a + b)[..1] == a[..1];
      assert (a + b)[1..] == a[1..] + b;
      CountCharConcat(a[1..], b, c);
    }
  }

  /** Characters `readline`/`strip` treat specially. */

  /** Number of leading whitespace characters. */
  function LeadingSpaces(s: string): (n: nat)
    ensures n <= |s|
  {
    RunLen(s, Space)
  }

  /** Number of trailing whitespace characters. */
  function TrailingSpaces(s: string): (n: nat)
    decreases |s|
    ensures n <= |s|
    ensures forall i :: |s| - n <= i < |s| ==> IsSpace(s[i])
    ensures n == |s| || !IsSpace(s[|s| - 1 - n])
  {
    if s != [] && IsSpace(s[|s| - 1]) then 1 + TrailingSpaces(s[..|s| - 1]) else 0
  }

  /** `s.strip()`: the text without its leading and trailing whitespace. */
  function Strip(s: string): (r: string)
    ensures |r| > 0 <==> exists i :: 0 <= i < |s| && !IsSpace(s[i])
    ensures r != [] ==> !IsSpace(r[0]) && !IsSpace(r[|r| - 1])
    ensures exists a, b :: 0 <= a <= b <= |s| && r == s[a..b] &&
                           forall i :: 0 <= i < |s| && !(a <= i < b) ==> IsSpace(s[i])
  {
    var lead := LeadingSpaces(s);
    var t := s[lead..];
    var trail := TrailingSpaces(t);
    var r := t[..|t| - trail];
    assert r == s[lead..lead + |r|];
    assert lead < |s| ==> !IsSpace(t[0]) && |r| > 0;
    assert lead == |s| ==> forall i :: 0 <= i < |s| ==> IsSpace(s[i]);
    assert forall i :: lead + |r| <= i < |s| ==> IsSpace(s[i]) by {
      forall i | lead + |r| <= i < |s| ensures IsSpace(s[i]) {
        assert s[i] == t[i - lead];
      }
    }
    r
  }

  /** Concatenation of a list of strings. */
  function Concat(ls: seq<string>): string {
    if ls == [] then [] else ls[0] + Concat(ls[1..])
  }

  /** The lines a text-mode file yields when iterated (`for line in f`, `f.readline()`):
      each keeps its terminating "\n", the last may lack one, and empty text has none. */
  function Lines(s: string): (ls: seq<string>)
    decreases |s|
    ensures Concat(ls) == s
    ensures forall i :: 0 <= i < |ls| ==> ls[i] != []
    ensures forall i :: 0 <= i < |ls| - 1 ==> ls[i][|ls[i]| - 1] == '\n'
    ensures forall i, k :: 0 <= i < |ls| && 0 <= k < |ls[i]| - 1 ==> ls[i][k] != '\n'
  {
    if s == [] then []
    else match IndexOf(s, "\n")
      case None =>
        assert forall k :: 0 <= k < |s| ==> s[k] != '\n' by {
          forall k | 0 <= k < |s| ensures s[k] != '\n' { OccursChar(s, k, '\n'); }
        }
        [s]
      case Some(e) =>
        var first := s[..e + 1];
        var rest := Lines(s[e + 1..]);
        OccursChar(s, e, '\n');
        assert forall k :: 0 <= k < e ==> first[k] != '\n' by {
          forall k | 0 <= k < e ensures first[k] != '\n' { OccursChar(s, k, '\n'); }
        }
        var ls := [first] + rest;
        assert ls[1..] == rest;
        assert forall i :: 1 <= i < |ls| ==> ls[i] == rest[i - 1];
        assert first + s[e + 1..] == s;
        ls
  }

  /** Lines are determined by the text: any split into non-empty pieces that hold a "\n"
      only as their last character, every piece but the last ending in one, is `Lines`. */
  lemma {:induction false} LinesUnique(s: string, ls: seq<string>)
    requires Concat(ls) == s
    requires forall i :: 0 <= i < |ls| ==> ls[i] != []
    requires forall i :: 0 <= i < |ls| - 1 ==> ls[i][|ls[i]| - 1] == '\n'
    requires forall i, k :: 0 <= i < |ls| && 0 <= k < |ls[i]| - 1 ==> ls[i][k] != '\n'
    ensures ls == Lines(s)
    decreases |ls|
  {
    if ls != [] {
      var first, rest := ls[0], ls[1..];
      var n := |first|;
      assert s == first + Concat(rest);
      assert forall k :: 0 <= k < n - 1 ==> !OccursAt(s, k, "\n") by {
        forall k | 0 <= k < n - 1 ensures !OccursAt(s, k, "\n") {
          OccursChar(s, k, '\n');
          assert s[k] == first[k];
        }
      }
      if |ls| == 1 {
        assert Concat(rest) == [];
        assert s == first;
        if s[n - 1] == '\n' {
          OccursChar(s, n - 1, '\n');
          IndexOfUnique(s, "\n", n - 1);
          assert s[n..] == [];
          assert Lines(s[n..]) == [];
          assert s[..n] == first;
        } else {
          forall k | 0 <= k <= |s| ensures !OccursAt(s, k, "\n") {
            OccursChar(s, k, '\n');
          }
        }
      } else {
        assert first[n - 1] == '\n';
        OccursChar(s, n - 1, '\n');
        IndexOfUnique(s, "\n", n - 1);
        assert s[..n] == first && s[n..] == Concat(rest);
        forall i | 0 <= i < |rest| - 1 ensures rest[i][|rest[i]| - 1] == '\n' {
          assert rest[i] == ls[i + 1];
        }
        forall i, k | 0 <= i < |rest| && 0 <= k < |rest[i]| - 1 ensures rest[i][k] != '\n' {
          assert rest[i] == ls[i + 1];
        }
        LinesUnique(s[n..], rest);
      }
    }
  }

  /** A complete line in front of a text is read first, then the text's own lines. */
  lemma LinesAfterLine(line: string, s: string)
    requires line != [] && line[|line| - 1] == '\n'
    requires forall k :: 0 <= k < |line| - 1 ==> line[k] != '\n'
    ensures Lines(line + s) == [line] + Lines(s)
  {
    var rest := Lines(s);
    var ls := [line] + rest;
    assert ls[0] == line && ls[1..] == rest;
    forall i | 0 <= i < |ls| - 1 ensures ls[i][|ls[i]| - 1] == '\n' {
      if i > 0 { assert ls[i] == rest[i - 1]; }
    }
    forall i, k | 0 <= i < |ls| && 0 <= k < |ls[i]| - 1 ensures ls[i][k] != '\n' {
      if i > 0 { assert ls[i] == rest[i - 1]; }
    }
    LinesUnique(line + s, ls);
  }

  /** `f.readline()`: the text up to and including the first "\n", or all of it when it
      holds no "\n". */
  function FirstLine(s: string): (r: string)
    ensures IndexOf(s, "\n").Some? ==> r == s[..IndexOf(s, "\n").value + 1]
    ensures IndexOf(s, "\n").None? ==> r == s
  {
    if s == [] then [] else
      var ls := Lines(s);
      assert ls[0] + Concat(ls[1..]) == s;
      ls[0]
  }

  /** The first line is all `readline` looks at: text after it never matters. */
  lemma FirstLineOfConcat(a: string, b: string)
    requires Contains(a, "\n")
    ensures FirstLine(a + b) == FirstLine(a)
  {
    var e := IndexOf(a, "\n").value;
    var ab := a + b;
    OccursChar(a, e, '\n');
    OccursChar(ab, e, '\n');
    forall k | 0 <= k < e ensures !OccursAt(ab, k, "\n") {
      OccursChar(a, k, '\n');
      OccursChar(ab, k, '\n');
    }
    IndexOfUnique(ab, "\n", e);
    assert ab[..e + 1] == a[..e + 1];
  }

  /** ASCII lower-casing of one character. */
  function LowerChar(c: char): char {
    if 'A' <= c <= 'Z' then (c as int + 32) as char else c
  }

  /** `s.lower()`, restricted to ASCII letters. */
  function Lower(s: string): (r: string)
    ensures |r| == |s|
    ensures forall i :: 0 <= i < |s| ==> r[i] == LowerChar(s[i])
  {
    seq(|s|, i requires 0 <= i < |s| => LowerChar(s[i]))
  }

  /** Lower-casing keeps every occurrence: whatever `s` contains, `s.lower()` contains in
      lower case, so an upper-case spelling satisfies a lower-case presence test. */
  lemma LowerKeepsOccurrences(s: string, lit: string)
    requires Contains(s, lit)
    ensures Contains(Lower(s), Lower(lit))
  {
    var k := IndexOf(s, lit).value;
    var ls, ll := Lower(s), Lower(lit);
    assert s[k..][..|lit|] == lit;
    assert ls[k..][..|ll|] == ll by {
      forall j | 0 <= j < |ll| ensures ls[k..][..|ll|][j] == ll[j] {
        assert ls[k + j] == LowerChar(s[k + j]);
        assert s[k + j] == s[k..][..|lit|][j];
      }
    }
    ContainsIff(ls, ll);
    assert OccursAt(ls, k, ll);
  }

  /** Decimal rendering of a natural number, as an f-string prints it. */
  function NatToString(n: nat): string
    decreases n
  {
    var digit := ['0' + (n % 10) as char];
    if n < 10 then digit else NatToString(n / 10) + digit
  }
}
