/** The conformance tests of the deployment shell scripts and of the Dockerfile, with the
    suite's two extraction helpers (assigned variables and invoked commands). */
module ShellScripts {
  import opened Outcomes
  import opened Text
  import opened Rules
  import opened Values
  import opened Artifacts

  // ---------------------------------------------------------------- the syntax checker

  /** `_check_shell_syntax`: whether `bash -n` exited with status 0, and what it wrote to
      stderr. */
  function CheckShellSyntax(report: SyntaxCheck): (r: (bool, string))
    ensures r.0 <==> report.returnCode == 0
    ensures r.1 == report.stderr
  {
    (report.returnCode == 0, report.stderr)
  }

  /** A `*_sh_syntax` test: the script must exist (else an assertion fails, naming its
      path), then the checker must accept it (else the failure carries its stderr as is). */
  function SyntaxVerdict(path: string, name: string, script: Script): (v: Verdict)
    ensures script.text.None? ==> v == Fail(path + " not found")
    ensures script.text.Some? ==> (v.Pass? <==> script.syntax.returnCode == 0)
    ensures script.text.Some? && !v.Pass? ==> v == Fail(name + " has syntax errors: " + script.syntax.stderr)
  {
    var (valid, error) := CheckShellSyntax(script.syntax);
    Then(Check(script.text.Some?, path + " not found"),
         Check(valid, name + " has syntax errors: " + error))
  }

  // ---------------------------------------------------------------- assigned variables

  lemma WordIsNotSpace(c: char)
    requires IsWordChar(c)
    ensures !IsSpace(c)
  {
  }

  /** `^\s*(\w+)=` tried at the start of `t`: the captured name when it matches. The runs
      of `\s*` and `\w+` are disjoint, so backtracking never changes the outcome. */
  function AssignmentAt(t: string): (r: Option<string>)
    ensures r.Some? ==>
              var sp := RunLen(t, Space);
              r.value != [] && AllIn(r.value, Word) &&
              sp + |r.value| < |t| && r.value == t[sp..sp + |r.value|] && t[sp + |r.value|] == '='
  {
    var after := t[RunLen(t, Space)..];
    var wl := RunLen(after, Word);
    if wl > 0 && wl < |after| && after[wl] == '=' then
      Some(after[..wl])
    else None
  }

  /** A text cut around a name and the `=` after it. */
  lemma DecomposeAssignment(t: string, sp: nat, name: string)
    requires sp + |name| < |t| && t[sp..sp + |name|] == name && t[sp + |name|] == '='
    ensures t == t[..sp] + name + "=" + t[sp + |name| + 1..]
  {
    assert t[sp..sp + |name| + 1] == name + "=";
    assert t == t[..sp] + t[sp..sp + |name| + 1] + t[sp + |name| + 1..];
  }

  /** A text that starts with an assignment is its indentation, the name, `=` and the rest. */
  lemma AssignmentSplit(t: string)
    requires AssignmentAt(t).Some?
    ensures t == t[..RunLen(t, Space)] + AssignmentAt(t).value + "=" + t[AssignmentEnd(t)..]
  {
    DecomposeAssignment(t, RunLen(t, Space), AssignmentAt(t).value);
  }

  /** Any text of the shape indentation, name, `=` holds exactly that assignment. */
  lemma AssignmentShape(ws: string, name: string, rest: string)
    requires AllIn(ws, Space) && name != [] && AllIn(name, Word)
    ensures AssignmentAt(ws + name + "=" + rest) == Some(name)
    ensures RunLen(ws + name + "=" + rest, Space) == |ws|
  {
    var t := ws + name + "=" + rest;
    WordIsNotSpace(name[0]);
    assert t[|ws|] == name[0];
    assert forall i :: 0 <= i < |ws| ==> t[i] == ws[i];
    RunLenUnique(t, Space, |ws|);
    var u := t[|ws|..];
    assert u == name + "=" + rest;
    assert u[|name|] == '=';
    assert forall i :: 0 <= i < |name| ==> u[i] == name[i];
    RunLenUnique(u, Word, |name|);
    assert u[..|name|] == name;
    assert t[|ws| + |name|] == '=';
    assert t[|ws|..|ws| + |name|] == name;
  }

  /** Where the match of `^\s*(\w+)=` at the start of `t` ends. */
  function AssignmentEnd(t: string): (e: nat)
    requires AssignmentAt(t).Some?
    ensures 0 < e <= |t|
  {
    RunLen(t, Space) + |AssignmentAt(t).value| + 1
  }

  /** `re.findall(r'^\s*(\w+)=', t, re.MULTILINE)` with `lineStart` telling whether `^`
      holds at the start of `t`: after a match the search resumes where it ended. */
  function ScanVariables(t: string, lineStart: bool): seq<string>
    decreases |t|
  {
    if t == [] then []
    else if lineStart && AssignmentAt(t).Some? then
      [AssignmentAt(t).value] + ScanVariables(t[AssignmentEnd(t)..], false)
    else ScanVariables(t[1..], t[0] == '\n')
  }

  /** The variables a text assigns, line by line: for each line of the form indentation,
      name, `=`, that name. */
  function AssignedByLine(lines: seq<string>): (names: seq<string>)
    ensures forall i :: 0 <= i < |names| ==> names[i] != [] && AllIn(names[i], Word)
  {
    if lines == [] then []
    else
      var rest := AssignedByLine(lines[1..]);
      match AssignmentAt(lines[0])
      case None => rest
      case Some(n) =>
        assert forall i :: 1 <= i <= |rest| ==> ([n] + rest)[i] == rest[i - 1];
        [n] + rest
  }

  /** Inside a line, nothing matches before the next line begins. */
  lemma {:induction false} ScanMidLine(t: string)
    ensures ScanVariables(t, false) ==
            match IndexOf(t, "\n") case None => [] case Some(e) => ScanVariables(t[e + 1..], true)
    decreases |t|
  {
    if t != [] {
      ScanPastCharacter(t, false);
      if t[0] == '\n' {
        OccursChar(t, 0, '\n');
        IndexOfUnique(t, "\n", 0);
      } else {
        ScanMidLine(t[1..]);
        IndexOfCharFrom(t, '\n', 1);
        if IndexOf(t, "\n").Some? {
          assert t[1..][IndexOf(t, "\n").value..] == t[IndexOf(t, "\n").value + 1..];
        }
      }
    }
  }

  /** A line that is whitespace up to its newline assigns nothing. */
  lemma BlankLineAssignsNothing(line: string)
    requires AllIn(line, Space)
    ensures AssignmentAt(line).None?
  {
    RunLenUnique(line, Space, |line|);
    assert line[|line|..] == [];
  }

  /** The first line of `t` ends at its first newline `e`; the rest are the lines after. */
  lemma LinesSplit(t: string, e: nat)
    requires IndexOf(t, "\n") == Some(e)
    ensures e < |t| && t[e] == '\n'
    ensures AssignedByLine(Lines(t)) ==
            (match AssignmentAt(t[..e + 1]) case Some(n) => [n] case None => []) +
            AssignedByLine(Lines(t[e + 1..]))
  {
    OccursChar(t, e, '\n');
    var lines := Lines(t);
    assert lines == [t[..e + 1]] + Lines(t[e + 1..]);
    assert lines[1..] == Lines(t[e + 1..]);
  }

  /** A name on the last line, which has no newline. */
  lemma AssignOnLastLine(t: string)
    requires AssignmentAt(t).Some? && IndexOf(t, "\n").None?
    ensures ScanVariables(t, true) == AssignedByLine(Lines(t))
  {
    var m := AssignmentEnd(t);
    assert Lines(t) == [t];
    assert AssignedByLine(Lines(t)[1..]) == [];
    forall k | 0 <= k < m ensures t[k] != '\n' {
      OccursChar(t, k, '\n');
    }
    IndexOfCharFrom(t, '\n', m);
    ScanMidLine(t[m..]);
  }

  /** The name and its `=` hold no newline. */
  lemma AssignmentHasNoNewline(t: string)
    requires AssignmentAt(t).Some?
    ensures forall k :: RunLen(t, Space) <= k < AssignmentEnd(t) ==> t[k] != '\n'
  {
    var name := AssignmentAt(t).value;
    var sp := RunLen(t, Space);
    forall k | sp <= k < AssignmentEnd(t) ensures t[k] != '\n' {
      if k < sp + |name| {
        assert t[k] == name[k - sp];
      } else {
        assert t[k] == '=';
      }
    }
  }

  /** A name whose line holds it whole: it is that line's assignment, and the scan goes on
      from the next line. */
  lemma AssignWithinLine(t: string, e: nat)
    requires AssignmentAt(t).Some? && IndexOf(t, "\n") == Some(e) && RunLen(t, Space) <= e
    ensures AssignedByLine(Lines(t)) == [AssignmentAt(t).value] + AssignedByLine(Lines(t[e + 1..]))
    ensures ScanVariables(t, true) == [AssignmentAt(t).value] + ScanVariables(t[e + 1..], true)
  {
    var name := AssignmentAt(t).value;
    var sp := RunLen(t, Space);
    var m := AssignmentEnd(t);
    LinesSplit(t, e);
    AssignmentHasNoNewline(t);
    assert e >= m;
    forall k | 0 <= k < m ensures t[k] != '\n' {
      OccursChar(t, k, '\n');
    }
    var line := t[..e + 1];
    AssignmentSplit(t);
    assert line == t[..sp] + name + "=" + t[m..e + 1];
    AssignmentShape(t[..sp], name, t[m..e + 1]);
    IndexOfCharFrom(t, '\n', m);
    ScanMidLine(t[m..]);
    assert t[m..][e - m + 1..] == t[e + 1..];
  }

  /** One step of the scan at a line start where a name matches. */
  lemma ScanAtAssignment(t: string)
    requires AssignmentAt(t).Some?
    ensures ScanVariables(t, true) == [AssignmentAt(t).value] + ScanVariables(t[AssignmentEnd(t)..], false)
  {
  }

  /** One step of the scan where no name matches. */
  lemma ScanPastCharacter(t: string, lineStart: bool)
    requires t != [] && (lineStart ==> AssignmentAt(t).None?)
    ensures ScanVariables(t, lineStart) == ScanVariables(t[1..], t[0] == '\n')
  {
  }

  /** Blank text up to and including a newline, then indentation and a name: the scan
      after the newline finds the same name, ending at the same place. */
  lemma AssignmentAfterNewline(t: string, e: nat)
    requires AssignmentAt(t).Some? && e < RunLen(t, Space)
    ensures AssignmentAt(t[e + 1..]) == AssignmentAt(t)
    ensures t[e + 1..][AssignmentEnd(t[e + 1..])..] == t[AssignmentEnd(t)..]
  {
    var sp := RunLen(t, Space);
    var u := t[e + 1..];
    var usp := sp - e - 1;
    assert sp < |t|;
    assert u[usp] == t[sp];
    forall i | 0 <= i < usp ensures InClass(u[i], Space) {
      assert u[i] == t[e + 1 + i];
    }
    RunLenUnique(u, Space, usp);
    assert u[usp..] == t[sp..] by {
      assert t[e + 1..][usp..] == t[e + 1 + usp..];
    }
    SameAssignment(u, t);
  }

  /** Whether an assignment starts a text depends only on what follows its indentation. */
  lemma SameAssignment(u: string, t: string)
    requires u[RunLen(u, Space)..] == t[RunLen(t, Space)..]
    ensures AssignmentAt(u) == AssignmentAt(t)
    ensures AssignmentAt(u).Some? ==> u[AssignmentEnd(u)..] == t[AssignmentEnd(t)..]
  {
    var usp, sp := RunLen(u, Space), RunLen(t, Space);
    if AssignmentAt(t).Some? {
      var k := |AssignmentAt(t).value| + 1;
      assert u[usp + k..] == u[usp..][k..] == t[sp..][k..] == t[sp + k..];
    }
  }

  /** Leading blank lines before a name: the first of them assigns nothing, and the scan
      at the next line finds the same name ending at the same place. */
  lemma AssignAfterBlankLine(t: string, e: nat)
    requires AssignmentAt(t).Some? && IndexOf(t, "\n") == Some(e) && e < RunLen(t, Space)
    ensures AssignedByLine(Lines(t)) == AssignedByLine(Lines(t[e + 1..]))
    ensures ScanVariables(t, true) == ScanVariables(t[e + 1..], true)
  {
    LinesSplit(t, e);
    var blank := t[..e + 1];
    assert AllIn(blank, Space) by {
      forall i | 0 <= i < |blank| ensures InClass(blank[i], Space) {
        assert blank[i] == t[i];
      }
    }
    BlankLineAssignsNothing(blank);
    AssignmentAfterNewline(t, e);
    ScanAtAssignment(t);
    ScanAtAssignment(t[e + 1..]);
  }

  /** An assignment on the first line of `t` is an assignment at the start of `t`. */
  lemma LineAssignsAsText(t: string, e: nat)
    requires e < |t|
    ensures AssignmentAt(t[..e + 1]).Some? ==> AssignmentAt(t).Some?
  {
    var line := t[..e + 1];
    if AssignmentAt(line).Some? {
      var n := AssignmentAt(line).value;
      var lsp := RunLen(line, Space);
      AssignmentSplit(line);
      var tail := line[AssignmentEnd(line)..] + t[e + 1..];
      assert t == line + t[e + 1..];
      assert t == line[..lsp] + n + "=" + tail;
      assert AllIn(line[..lsp], Space) by {
        forall i | 0 <= i < lsp ensures InClass(line[..lsp][i], Space) {
          assert line[..lsp][i] == line[i];
        }
      }
      AssignmentShape(line[..lsp], n, tail);
    }
  }

  /** A line that assigns nothing: the scan goes on from the next line. */
  lemma NoAssignOnLine(t: string, e: nat)
    requires AssignmentAt(t).None? && IndexOf(t, "\n") == Some(e)
    ensures AssignedByLine(Lines(t)) == AssignedByLine(Lines(t[e + 1..]))
    ensures ScanVariables(t, true) == ScanVariables(t[e + 1..], true)
  {
    LinesSplit(t, e);
    LineAssignsAsText(t, e);
    ScanPastCharacter(t, true);
    if t[0] != '\n' {
      IndexOfCharFrom(t, '\n', 1);
      ScanMidLine(t[1..]);
      assert t[1..][e..] == t[e + 1..];
    } else {
      OccursChar(t, 0, '\n');
      IndexOfUnique(t, "\n", 0);
    }
  }

  /** A last line that assigns nothing. */
  lemma NoAssignOnLastLine(t: string)
    requires t != [] && AssignmentAt(t).None? && IndexOf(t, "\n").None?
    ensures ScanVariables(t, true) == AssignedByLine(Lines(t)) == []
  {
    assert Lines(t) == [t];
    assert AssignedByLine(Lines(t)[1..]) == [];
    OccursChar(t, 0, '\n');
    IndexOfCharFrom(t, '\n', 1);
    ScanMidLine(t[1..]);
  }

  /** At the start of a line, the scanner finds what the lines assign one by one, although
      `\s*` may run across blank lines before a name. */
  lemma {:induction false} ScanByLines(t: string)
    ensures ScanVariables(t, true) == AssignedByLine(Lines(t))
    decreases |t|
  {
    if t != [] {
      match IndexOf(t, "\n") {
        case None =>
          if AssignmentAt(t).Some? {
            AssignOnLastLine(t);
          } else {
            NoAssignOnLastLine(t);
          }
        case Some(e) =>
          OccursChar(t, e, '\n');
          ScanByLines(t[e + 1..]);
          if AssignmentAt(t).None? {
            NoAssignOnLine(t, e);
          } else if e < RunLen(t, Space) {
            AssignAfterBlankLine(t, e);
          } else {
            AssignWithinLine(t, e);
          }
      }
    }
  }

  /** `_extract_variables`: the names assigned at the start of a line, in text order. */
  function ExtractVariables(content: string): (names: seq<string>)
    ensures names == AssignedByLine(Lines(content))
    ensures forall i :: 0 <= i < |names| ==> names[i] != [] && AllIn(names[i], Word)
  {
    ScanByLines(content);
    ScanVariables(content, true)
  }

  // ---------------------------------------------------------------- invoked commands

  /** The alternatives of `\b(docker|bash|echo|git|qmake|make|doxygen)\b`, in order. */
  const CommandNames: seq<string> := ["docker", "bash", "echo", "git", "qmake", "make", "doxygen"]

  lemma CommandNamesAreWords()
    ensures forall i :: 0 <= i < |CommandNames| ==> CommandNames[i] != [] && AllIn(CommandNames[i], Word)
  {
  }

  /** The alternation tried at the start of `t`: the first name that occurs there and is
      followed by a word boundary. */
  function CommandAt(t: string, names: seq<string>): (r: Option<string>)
    decreases |names|
    ensures r.Some? ==> r.value in names && StartsWith(t, r.value) &&
                        (|t| == |r.value| || !IsWordChar(t[|r.value|]))
  {
    if names == [] then None
    else if StartsWith(t, names[0]) && (|t| == |names[0]| || !IsWordChar(t[|names[0]|])) then Some(names[0])
    else CommandAt(t, names[1..])
  }

  /** `re.findall` of the command pattern, with `afterWord` telling whether the character
      before `t` is a word character (so that `\b` cannot hold before a name). */
  function ScanCommands(t: string, afterWord: bool): seq<string>
    decreases |t|
  {
    if t == [] then []
    else if !afterWord && CommandAt(t, CommandNames).Some? then
      var c := CommandAt(t, CommandNames).value;
      CommandNamesAreWords();
      [c] + ScanCommands(t[|c|..], true)
    else ScanCommands(t[1..], IsWordChar(t[0]))
  }

  /** The words of a text: its maximal runs of word characters, in order. */
  function Words(s: string): (ws: seq<string>)
    decreases |s|
    ensures forall i :: 0 <= i < |ws| ==> ws[i] != [] && AllIn(ws[i], Word)
  {
    if s == [] then []
    else
      var k := RunLen(s, Word);
      if k == 0 then Words(s[1..])
      else
        var rest := Words(s[k..]);
        assert forall i :: 1 <= i < 1 + |rest| ==> ([s[..k]] + rest)[i] == rest[i - 1];
        [s[..k]] + rest
  }

  /** The words that are command names. */
  function CommandWords(ws: seq<string>): (cs: seq<string>)
    ensures forall i :: 0 <= i < |cs| ==> cs[i] in CommandNames
  {
    if ws == [] then []
    else
      var here := if ws[0] in CommandNames then [ws[0]] else [];
      var rest := CommandWords(ws[1..]);
      assert forall i :: |here| <= i < |here| + |rest| ==> (here + rest)[i] == rest[i - |here|];
      here + rest
  }

  /** A name made of word characters occurs at the start of `t` followed by a boundary
      exactly when it is the whole first word. */
  lemma NameAtBoundary(t: string, name: string)
    requires name != [] && AllIn(name, Word)
    ensures (StartsWith(t, name) && (|t| == |name| || !IsWordChar(t[|name|]))) <==> name == t[..RunLen(t, Word)]
  {
    if StartsWith(t, name) && (|t| == |name| || !IsWordChar(t[|name|])) {
      assert forall i :: 0 <= i < |name| ==> t[i] == name[i];
      RunLenUnique(t, Word, |name|);
    }
  }

  /** The alternation matches exactly when the first word is a command name. */
  lemma {:induction false} CommandAtWord(t: string, names: seq<string>)
    requires forall i :: 0 <= i < |names| ==> names[i] != [] && AllIn(names[i], Word)
    ensures CommandAt(t, names) == if t[..RunLen(t, Word)] in names then Some(t[..RunLen(t, Word)]) else None
    decreases |names|
  {
    if names != [] {
      NameAtBoundary(t, names[0]);
      assert forall i :: 1 <= i < |names| ==> names[i] == names[1..][i - 1];
      CommandAtWord(t, names[1..]);
      assert names == [names[0]] + names[1..];
    }
  }

  /** Inside a word, the scan skips to the word's end. */
  lemma {:induction false} ScanSkipsWord(t: string)
    ensures ScanCommands(t, true) == ScanCommands(t[RunLen(t, Word)..], false)
    decreases |t|
  {
    if t != [] {
      if IsWordChar(t[0]) {
        ScanSkipsWord(t[1..]);
        assert t[1..][RunLen(t[1..], Word)..] == t[RunLen(t, Word)..];
      } else {
        CommandNamesAreWords();
        CommandAtWord(t, CommandNames);
        assert t[..0] == [];
      }
    }
  }

  /** The scanner reports exactly the words that are command names, in order. */
  lemma {:induction false} ScanIsCommandWords(t: string)
    ensures ScanCommands(t, false) == CommandWords(Words(t))
    decreases |t|
  {
    if t != [] {
      var k := RunLen(t, Word);
      CommandNamesAreWords();
      CommandAtWord(t, CommandNames);
      if k == 0 {
        assert t[..0] == [];
        ScanIsCommandWords(t[1..]);
      } else {
        var ws := Words(t);
        assert ws == [t[..k]] + Words(t[k..]);
        assert ws[1..] == Words(t[k..]);
        assert RunLen(t[k..], Word) == 0;
        ScanIsCommandWords(t[k..]);
        if t[..k] in CommandNames {
          ScanSkipsWord(t[k..]);
          assert t[k..][0..] == t[k..];
        } else {
          ScanSkipsWord(t[1..]);
          assert RunLen(t[1..], Word) == k - 1;
          assert t[1..][k - 1..] == t[k..];
        }
      }
    }
  }

  /** `_extract_commands`: each whole-word occurrence of a command name, in text order. */
  function ExtractCommands(content: string): (cs: seq<string>)
    ensures cs == CommandWords(Words(content))
    ensures forall i :: 0 <= i < |cs| ==> cs[i] in CommandNames
  {
    ScanIsCommandWords(content);
    ScanCommands(content, false)
  }

  /** `make` inside `qmake` is not a word of its own, so only `qmake` is reported. */
  lemma QmakeIsOneCommand()
    ensures ExtractCommands("qmake") == ["qmake"]
  {
    var s := "qmake";
    RunLenUnique(s, Word, 5);
    assert s[..5] == s && s[5..] == [];
    assert Words(s) == [s];
    assert CommandWords([s]) == [s] + CommandWords([]);
  }

  // ---------------------------------------------------------------- the REGISTRY_URL test

  /** `assertIn('REGISTRY_URL', content or 'registry' in content)`: `or` binds looser than
      `in`, so the container is the text itself when it is non-empty, and the bool that
      `'registry' in content` yields when it is empty; `in` on a bool raises TypeError. */
  function RegistryUrlVerdict(content: string): (v: Verdict)
    ensures content != [] ==> (v.Pass? <==> Contains(content, "REGISTRY_URL"))
    ensures content != [] && !v.Pass? ==> v == Fail("update_and_redeploy.sh should use registry URL")
    ensures content == [] ==> v.Error?
  {
    var container :=
      if content != [] then Str(content)
      else Scalar("bool", if Contains(content, "registry") then "True" else "False");
    Settle(
      var found :- In("REGISTRY_URL", container);
      Ok(Check(found, "update_and_redeploy.sh should use registry URL")))
  }

  // ---------------------------------------------------------------- the catalogue

  datatype ScriptFile = Entrypoint | Deploy | MultiUserManager | UpdateAndRedeploy | PublishAll

  function ScriptName(f: ScriptFile): string {
    match f
    case Entrypoint => "entrypoint.sh"
    case Deploy => "deploy.sh"
    case MultiUserManager => "multi_user_manager.sh"
    case UpdateAndRedeploy => "update_and_redeploy.sh"
    case PublishAll => "publish_all.sh"
  }

  function ScriptOf(w: Workspace, f: ScriptFile): Script {
    match f
    case Entrypoint => w.entrypoint
    case Deploy => w.deploy
    case MultiUserManager => w.multiUserManager
    case UpdateAndRedeploy => w.updateAndRedeploy
    case PublishAll => w.publishAll
  }

  datatype ScriptAction = Syntax | OnScript(asserts: seq<Assertion>) | RegistryUrl
  datatype DockerfileAction = DockerfileExists | OnDockerfile(asserts: seq<Assertion>)

  datatype Test =
    | ScriptTest(name: string, script: ScriptFile, action: ScriptAction)
    | DockerfileTest(name: string, check: DockerfileAction)

  /** One test. Opening a missing file makes a content test err; the syntax and
      existence tests check for the file first and fail instead. */
  function Run(t: Test, w: Workspace): (v: Verdict)
    ensures t.ScriptTest? && t.action.Syntax? ==>
              v == SyntaxVerdict(PathOf(w, ScriptName(t.script)), ScriptName(t.script), ScriptOf(w, t.script))
    ensures t.ScriptTest? && !t.action.Syntax? && ScriptOf(w, t.script).text.None? ==> v.Error?
    ensures t.ScriptTest? && t.action.OnScript? && ScriptOf(w, t.script).text.Some? ==>
              v == CheckAll(t.action.asserts, ScriptOf(w, t.script).text.value)
    ensures t.ScriptTest? && t.action.RegistryUrl? && ScriptOf(w, t.script).text.Some? ==>
              v == RegistryUrlVerdict(ScriptOf(w, t.script).text.value)
    ensures t.DockerfileTest? && t.check.DockerfileExists? ==> (v.Pass? <==> w.dockerfile.Some?)
    ensures t.DockerfileTest? && t.check.DockerfileExists? && w.dockerfile.None? ==>
              v == Fail("Dockerfile not found at " + PathOf(w, "Dockerfile"))
    ensures t.DockerfileTest? && t.check.OnDockerfile? ==>
              v == OnText(PathOf(w, "Dockerfile"), w.dockerfile, t.check.asserts)
  {
    match t
    case ScriptTest(_, f, action) =>
      var path := PathOf(w, ScriptName(f));
      var script := ScriptOf(w, f);
      (match action
       case Syntax => SyntaxVerdict(path, ScriptName(f), script)
       case OnScript(asserts) => OnText(path, script.text, asserts)
       case RegistryUrl =>
         match script.text
         case None => Error(MissingFile(path))
         case Some(content) => RegistryUrlVerdict(content))
    case DockerfileTest(_, check) =>
      var path := PathOf(w, "Dockerfile");
      match check
      case DockerfileExists => ExistsCheck(w.dockerfile, "Dockerfile not found at " + path)
      case OnDockerfile(asserts) => OnText(path, w.dockerfile, asserts)
  }

  function In1(f: ScriptFile, name: string, lit: string, message: string): Test {
    ScriptTest(name, f, OnScript([Assertion(Has(lit), message)]))
  }

  function Any1(f: ScriptFile, name: string, c: Cond, message: string): Test {
    ScriptTest(name, f, OnScript([Assertion(c, message)]))
  }

  function Docker1(name: string, c: Cond, message: string): Test {
    DockerfileTest(name, OnDockerfile([Assertion(c, message)]))
  }

  /** The `TestShellScripts` class. */
  const ScriptTests: seq<Test> := [
    ScriptTest("test_entrypoint_sh_syntax", Entrypoint, Syntax),
    ScriptTest("test_deploy_sh_syntax", Deploy, Syntax),
    ScriptTest("test_multi_user_manager_sh_syntax", MultiUserManager, Syntax),
    ScriptTest("test_update_and_redeploy_sh_syntax", UpdateAndRedeploy, Syntax),
    ScriptTest("test_publish_all_sh_syntax", PublishAll, Syntax),
    Any1(Entrypoint, "test_entrypoint_sh_has_error_handling",
         AnyOf(["set -e", "set -euo pipefail", "exit 1", "|| exit"]), "entrypoint.sh should have error handling"),
    ScriptTest("test_entrypoint_sh_checks_vnc_password", Entrypoint,
               OnScript([Assertion(Has("VNC_PASSWORD"), "entrypoint.sh should check VNC_PASSWORD"),
                         Assertion(Has("not set"), "entrypoint.sh should validate VNC_PASSWORD is set")])),
    In1(Entrypoint, "test_entrypoint_sh_creates_vnc_dirs", ".vnc", "entrypoint.sh should create .vnc directory"),
    In1(Entrypoint, "test_entrypoint_sh_sets_vnc_password", "vncpasswd", "entrypoint.sh should set VNC password"),
    Any1(Deploy, "test_deploy_sh_has_error_handling", AnyOf(["set -e", "exit", "echo"]),
         "deploy.sh should have some form of command execution"),
    In1(Deploy, "test_deploy_sh_creates_directories", "mkdir", "deploy.sh should create required directories"),
    In1(Deploy, "test_deploy_sh_creates_network", "docker network create", "deploy.sh should create Docker network"),
    In1(Deploy, "test_deploy_sh_creates_volume", "docker volume create", "deploy.sh should create Docker volume"),
    Any1(Deploy, "test_deploy_sh_env_file_check", AnyOf(["docker", "network", "volume"]),
         "deploy.sh should perform docker operations"),
    ScriptTest("test_multi_user_manager_validates_username", MultiUserManager,
               OnScript([Assertion(Has("USERNAME"), "multi_user_manager.sh should use USERNAME variable"),
                         Assertion(Has("[a-z0-9]"), "multi_user_manager.sh should validate username format")])),
    In1(MultiUserManager, "test_multi_user_manager_checks_env_file", ".env",
        "multi_user_manager.sh should check for .env file"),
    In1(MultiUserManager, "test_multi_user_manager_creates_container", "docker run",
        "multi_user_manager.sh should run docker containers"),
    Any1(MultiUserManager, "test_multi_user_manager_creates_nginx_config", AnyOf(["CONFIG_DIR", "proxy_pass", ".conf"]),
         "multi_user_manager.sh should handle nginx configuration"),
    In1(MultiUserManager, "test_multi_user_manager_reloads_nginx", "nginx", "multi_user_manager.sh should reload nginx"),
    In1(UpdateAndRedeploy, "test_update_and_redeploy_pulls_image", "docker pull",
        "update_and_redeploy.sh should pull latest image"),
    Any1(UpdateAndRedeploy, "test_update_and_redeploy_updates_docs", HasLower("docs"),
         "update_and_redeploy.sh should update documentation"),
    Any1(UpdateAndRedeploy, "test_update_and_redeploy_restarts_containers", And(Has("docker"), Has("up")),
         "update_and_redeploy.sh should restart containers"),
    In1(PublishAll, "test_publish_all_sh_has_version_handling", "VERSION", "publish_all.sh should handle versioning"),
    Any1(PublishAll, "test_publish_all_sh_reads_version_file", And(Has("VERSION"), Or(Has("cat"), Has("read"))),
         "publish_all.sh should read VERSION file"),
    In1(PublishAll, "test_publish_all_sh_generates_docs", "doxygen", "publish_all.sh should generate documentation"),
    In1(PublishAll, "test_publish_all_sh_checks_docs_generated", "index.html",
        "publish_all.sh should verify docs were generated"),
    In1(PublishAll, "test_publish_all_sh_pushes_to_git", "git push", "publish_all.sh should push to git"),
    In1(PublishAll, "test_publish_all_sh_tags_release", "git tag", "publish_all.sh should create git tags"),
    In1(PublishAll, "test_publish_all_sh_builds_docker_image", "docker build", "publish_all.sh should build Docker image"),
    In1(PublishAll, "test_publish_all_sh_pushes_to_registry", "docker push", "publish_all.sh should push to registry"),
    Any1(Entrypoint, "test_entrypoint_sh_uses_set_e", FirstLineHas("bash"), "entrypoint.sh should have proper shebang"),
    In1(Deploy, "test_deploy_sh_uses_set_e", "#!/bin/bash", "deploy.sh should have proper bash shebang"),
    In1(MultiUserManager, "test_multi_user_manager_uses_conf_dir_var", "CONFIG_DIR",
        "multi_user_manager.sh should use CONFIG_DIR variable"),
    ScriptTest("test_update_and_redeploy_uses_registry_url", UpdateAndRedeploy, RegistryUrl),
    In1(PublishAll, "test_publish_all_sh_prompts_for_version", "read", "publish_all.sh should prompt for user input")
  ]

  /** The `TestDockerfile` class. */
  const DockerfileTests: seq<Test> := [
    DockerfileTest("test_dockerfile_exists", DockerfileExists),
    Docker1("test_dockerfile_not_empty", NonBlank, "Dockerfile is empty"),
    Docker1("test_dockerfile_has_from_statement", Has("FROM"), "Dockerfile must have FROM statement"),
    Docker1("test_dockerfile_has_build_stage", AnyOf(["builder", "AS"]), "Dockerfile should have multi-stage build"),
    Docker1("test_dockerfile_has_runtime_stage", AtLeast("FROM", 2), "Dockerfile should have multiple build stages"),
    Docker1("test_dockerfile_installs_dependencies", AnyOf(["apt-get install", "RUN"]),
            "Dockerfile should install dependencies"),
    Docker1("test_dockerfile_cleans_up_apt_cache", Has("apt-get clean"), "Dockerfile should clean apt cache to reduce size"),
    Docker1("test_dockerfile_removes_apt_lists", Has("rm -rf /var/lib/apt/lists"), "Dockerfile should remove apt lists"),
    Docker1("test_dockerfile_builds_app", AnyOf(["qmake", "make"]), "Dockerfile should build the application"),
    Docker1("test_dockerfile_exposes_ports", Has("EXPOSE"), "Dockerfile should expose ports"),
    Docker1("test_dockerfile_sets_working_directory", Has("WORKDIR"), "Dockerfile should set working directory"),
    Docker1("test_dockerfile_copies_files", AnyOf(["COPY", "ADD"]), "Dockerfile should copy files"),
    Docker1("test_dockerfile_has_entrypoint", AnyOf(["ENTRYPOINT", "CMD"]), "Dockerfile should have ENTRYPOINT or CMD"),
    Docker1("test_dockerfile_creates_user", Has("useradd"), "Dockerfile should create non-root user"),
    Docker1("test_dockerfile_has_env_vars", Has("ENV"), "Dockerfile should set environment variables"),
    Docker1("test_dockerfile_uses_noninteractive_frontend", Has("DEBIAN_FRONTEND=noninteractive"),
            "Dockerfile should use noninteractive apt mode"),
    Docker1("test_dockerfile_no_sudo_command", Not(Has("sudo")), "Dockerfile should not use sudo (running as root)"),
    Docker1("test_dockerfile_copies_supervisord_config", Has("supervisord.conf"), "Dockerfile should copy supervisord config"),
    Docker1("test_dockerfile_copies_entrypoint_script", Has("entrypoint.sh"), "Dockerfile should copy entrypoint script"),
    Docker1("test_dockerfile_makes_entrypoint_executable", Has("chmod +x"), "Dockerfile should make entrypoint executable"),
    Docker1("test_dockerfile_copies_docs", Has("docs"), "Dockerfile should copy documentation")
  ]

  /** The module's tests, class by class. */
  const Tests: seq<Test> := ScriptTests + DockerfileTests

  /** The verdict of a one-assertion content test on an existing file is that assertion. */
  lemma OneAssertion(asserts: seq<Assertion>, s: string)
    requires |asserts| == 1
    ensures CheckAll(asserts, s).Pass? <==> Holds(asserts[0].cond, s)
    ensures !CheckAll(asserts, s).Pass? ==> CheckAll(asserts, s) == Fail(asserts[0].message)
  {
    assert asserts[1..] == [];
  }

  /** The entrypoint's error-handling test passes exactly when one of its four idioms
      occurs. */
  lemma ErrorHandlingRule(w: Workspace, content: string)
    requires w.entrypoint.text == Some(content)
    ensures Run(ScriptTests[5], w).Pass? <==>
            Contains(content, "set -e") || Contains(content, "set -euo pipefail") ||
            Contains(content, "exit 1") || Contains(content, "|| exit")
  {
    var lits := ["set -e", "set -euo pipefail", "exit 1", "|| exit"];
    var t := ScriptTests[5];
    assert t == Any1(Entrypoint, "test_entrypoint_sh_has_error_handling", AnyOf(lits),
                     "entrypoint.sh should have error handling");
    OneAssertion(t.action.asserts, content);
    assert Holds(AnyOf(lits), content) <==> exists i :: 0 <= i < |lits| && Contains(content, lits[i]);
    if Contains(content, "set -e") { assert Contains(content, lits[0]); }
    if Contains(content, "set -euo pipefail") { assert Contains(content, lits[1]); }
    if Contains(content, "exit 1") { assert Contains(content, lits[2]); }
    if Contains(content, "|| exit") { assert Contains(content, lits[3]); }
  }

  /** The docs test looks for `docs` in the lower-cased text, and fails with its message
      otherwise. */
  lemma DocsRule(w: Workspace, content: string)
    requires w.updateAndRedeploy.text == Some(content)
    ensures Run(ScriptTests[20], w).Pass? <==> Contains(Lower(content), "docs")
    ensures !Run(ScriptTests[20], w).Pass? ==>
            Run(ScriptTests[20], w) == Fail("update_and_redeploy.sh should update documentation")
  {
    var t := ScriptTests[20];
    assert t == Any1(UpdateAndRedeploy, "test_update_and_redeploy_updates_docs", HasLower("docs"),
                     "update_and_redeploy.sh should update documentation");
    OneAssertion(t.action.asserts, content);
  }

  /** Any spelling whose letters fold to `docs` (`DOCS`, `Docs`, ...) satisfies the docs
      test. */
  lemma DocsRuleIgnoresCase(w: Workspace, content: string, spelling: string)
    requires w.updateAndRedeploy.text == Some(content)
    requires Contains(content, spelling) && Lower(spelling) == "docs"
    ensures Run(ScriptTests[20], w).Pass?
  {
    DocsRule(w, content);
    LowerKeepsOccurrences(content, spelling);
  }

  /** The shebang test reads the first line only: what follows it never matters. */
  lemma ShebangReadsFirstLine(w: Workspace, first: string, more: string)
    requires Contains(first, "\n")
    requires w.entrypoint.text == Some(first + more)
    ensures Run(ScriptTests[30], w).Pass? <==> Contains(FirstLine(first), "bash")
  {
    var t := ScriptTests[30];
    assert t == Any1(Entrypoint, "test_entrypoint_sh_uses_set_e", FirstLineHas("bash"),
                     "entrypoint.sh should have proper shebang");
    OneAssertion(t.action.asserts, first + more);
    FirstLineOfConcat(first, more);
  }

  /** The multi-stage test passes exactly when `FROM` occurs twice without overlap. */
  lemma MultiStageRule(w: Workspace, content: string)
    requires w.dockerfile == Some(content)
    ensures Run(DockerfileTests[4], w).Pass? <==> TwoApart(content, "FROM")
  {
    var t := DockerfileTests[4];
    assert t == Docker1("test_dockerfile_has_runtime_stage", AtLeast("FROM", 2),
                        "Dockerfile should have multiple build stages");
    OneAssertion(t.check.asserts, content);
    CountAtLeastTwo(content, "FROM");
  }

  /** The `sudo` test fails exactly when `sudo` occurs anywhere in the Dockerfile. */
  lemma NoSudoRule(w: Workspace, content: string)
    requires w.dockerfile == Some(content)
    ensures Run(DockerfileTests[16], w) == Fail("Dockerfile should not use sudo (running as root)")
            <==> exists k :: OccursAt(content, k, "sudo")
    ensures Run(DockerfileTests[16], w).Pass? <==> !exists k :: OccursAt(content, k, "sudo")
  {
    var t := DockerfileTests[16];
    assert t == Docker1("test_dockerfile_no_sudo_command", Not(Has("sudo")),
                        "Dockerfile should not use sudo (running as root)");
    AbsenceIff("sudo", "Dockerfile should not use sudo (running as root)", content);
  }

  /** A missing script fails its syntax test and makes each of its content tests err. */
  lemma MissingScript(w: Workspace, i: nat)
    requires i < |ScriptTests| && ScriptOf(w, ScriptTests[i].script).text.None?
    ensures ScriptTests[i].action.Syntax? ==> Run(ScriptTests[i], w).Fail?
    ensures !ScriptTests[i].action.Syntax? ==> Run(ScriptTests[i], w).Error?
  {
  }
}
