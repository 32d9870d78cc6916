/** The conformance tests of the reverse-proxy configuration (`nginx.conf`) and of the
    process-supervisor configuration (`supervisord.conf`). */
module ConfigFiles {
  import opened Outcomes
  import opened Text
  import opened Patterns
  import opened Rules
  import opened Artifacts

  // ---------------------------------------------------------------- patterns

  /** `server_name\s+[\w\.\-]+` */
  const ServerName: Pattern := [Lit("server_name"), Plus(Space), Plus(NameChar)]
  /** `listen\s+80` */
  const Listen80: Pattern := [Lit("listen"), Plus(Space), Lit("80")]
  /** `listen\s+443\s+ssl` */
  const Listen443Ssl: Pattern := [Lit("listen"), Plus(Space), Lit("443"), Plus(Space), Lit("ssl")]
  /** `\[[\w:]+\]` */
  const SectionHeader: Pattern := [Lit("["), Plus(WordOrColon), Lit("]")]

  /** Each pattern is one the scanner decides exactly (its runs never swallow what follows). */
  lemma PatternsAreExact()
    ensures WellFormed(ServerName) && Deterministic(ServerName)
    ensures WellFormed(Listen80) && Deterministic(Listen80)
    ensures WellFormed(Listen443Ssl) && Deterministic(Listen443Ssl)
    ensures WellFormed(SectionHeader) && Deterministic(SectionHeader)
  {
  }

  /** `listen\s+80` is a prefix test: it also accepts a server listening on port 8080. */
  lemma Listen80AcceptsPort8080()
    ensures Search(Listen80, "listen 8080;")
  {
    var t := "listen 8080;";
    assert StartsWith(t, "listen");
    assert RunLen(t[6..], Space) == 1 by {
      RunLenUnique(t[6..], Space, 1);
    }
    assert StartsWith(t[7..], "80");
    assert Greedy([Lit("80")], t[7..]) == Some(2);
    assert Greedy([Plus(Space), Lit("80")], t[6..]) == Some(3);
    assert Greedy(Listen80, t) == Some(9);
  }

  // ---------------------------------------------------------------- brace balance

  /** `assertEqual(content.count('{'), content.count('}'), ...)` */
  function BracesVerdict(content: string): (v: Verdict)
    ensures v.Pass? <==> Count(content, "{") == Count(content, "}")
    ensures !v.Pass? ==> v == Fail("Unbalanced braces: " + NatToString(Count(content, "{")) +
                                   " open, " + NatToString(Count(content, "}")) + " close")
  {
    var opens := Count(content, "{");
    var closed := Count(content, "}");
    Check(opens == closed,
          "Unbalanced braces: " + NatToString(opens) + " open, " + NatToString(closed) + " close")
  }

  /** One more `{` anywhere in a balanced text unbalances it. */
  lemma UnmatchedOpenBraceFails(a: string, b: string)
    requires BracesVerdict(a + b).Pass?
    ensures BracesVerdict(a + "{" + b).Fail?
  {
    CountCharConcat(a, b, '{');
    CountCharConcat(a, b, '}');
    CountCharConcat(a + "{", b, '{');
    CountCharConcat(a + "{", b, '}');
    CountCharConcat(a, "{", '{');
    CountCharConcat(a, "{", '}');
  }

  // ---------------------------------------------------------------- supervisor sections

  /** The header a program section opens with. */
  function Header(program: string): string {
    "[program:" + program + "]"
  }

  /** Where the lazy body `(.*?)` may stop: the lookahead `(?=\[|$)` holds there. Without
      MULTILINE, `$` holds at the end of the text and just before a final newline. */
  predicate BodyEnds(t: string, j: nat) {
    j == |t| || (j < |t| && t[j] == '[') || (j + 1 == |t| && t[j] == '\n')
  }

  /** The length of the lazy body at the start of `t`: the first place it may stop. */
  function BodyLen(t: string): (n: nat)
    decreases |t|
    ensures n <= |t| && BodyEnds(t, n)
    ensures forall j :: 0 <= j < n ==> !BodyEnds(t, j)
  {
    if t == [] || t[0] == '[' || t == "\n" then 0
    else
      var n := BodyLen(t[1..]);
      assert forall j :: 1 <= j <= n ==> (BodyEnds(t, j) <==> BodyEnds(t[1..], j - 1));
      1 + n
  }

  /** `re.search(r'\[program:X\](.*?)(?=\[|$)', content, re.DOTALL).group(1)`: the text
      after the first occurrence of the header, up to the first `[` after it (or the end);
      absent when the header never occurs. */
  function SectionBody(content: string, program: string): (r: Option<string>)
    ensures r.Some? <==> Contains(content, Header(program))
    ensures r.Some? ==>
              var i := IndexOf(content, Header(program)).value;
              var after := content[i + |Header(program)|..];
              StartsWith(after, r.value) && BodyEnds(after, |r.value|) &&
              forall j :: 0 <= j < |r.value| ==> !BodyEnds(after, j)
  {
    match IndexOf(content, Header(program))
    case None => None
    case Some(i) =>
      var after := content[i + |Header(program)|..];
      Some(after[..BodyLen(after)])
  }

  /** A program section's body never holds a `[`. */
  lemma SectionBodyHasNoBracket(content: string, program: string)
    requires SectionBody(content, program).Some?
    ensures !Contains(SectionBody(content, program).value, "[")
  {
    var body := SectionBody(content, program).value;
    forall k | 0 <= k <= |body| ensures !OccursAt(body, k, "[") {
      OccursChar(body, k, '[');
      var i := IndexOf(content, Header(program)).value;
      var after := content[i + |Header(program)|..];
      if k < |body| {
        assert body[k] == after[k];
        assert !BodyEnds(after, k);
      }
    }
    ContainsIff(body, "[");
  }

  /** Two assertions on one section: the search found it, then the body holds `lit`. */
  function SectionHas(content: string, program: string, lit: string, notFound: string, message: string): (v: Verdict)
    ensures v.Pass? <==> SectionBody(content, program).Some? && Contains(SectionBody(content, program).value, lit)
    ensures SectionBody(content, program).None? ==> v == Fail(notFound)
    ensures SectionBody(content, program).Some? && !v.Pass? ==> v == Fail(message)
  {
    match SectionBody(content, program)
    case None => Fail(notFound)
    case Some(body) => Check(Contains(body, lit), message)
  }

  /** The header occurs first right after `before` when `before` does not hold it and the
      program name holds no `[`. */
  lemma FirstHeaderAt(before: string, program: string, tail: string)
    requires !Contains(before, Header(program))
    requires forall k :: 0 <= k < |program| ==> program[k] != '['
    ensures IndexOf(before + Header(program) + tail, Header(program)) == Some(|before|)
  {
    var h := Header(program);
    var content := before + h + tail;
    assert content[|before|..][..|h|] == h;
    forall k | 0 <= k < |before| ensures !OccursAt(content, k, h) {
      if k + |h| <= |before| {
        assert content[k..][..|h|] == before[k..][..|h|];
        ContainsIff(before, h);
        assert !OccursAt(before, k, h);
        assert OccursAt(content, k, h) ==> OccursAt(before, k, h);
      } else {
        var d := |before| - k;
        assert h[d] != '[' by {
          if d < 9 {
            assert h[d] == "[program:"[d];
          } else if d < 9 + |program| {
            assert h[d] == program[d - 9];
          } else {
            assert h[d] == ']';
          }
        }
        assert content[k + d] == '[' by {
          assert content[|before|..][..|h|][0] == h[0];
        }
        if k + |h| <= |content| {
          assert content[k..][..|h|][d] == content[k + d];
          assert content[k..][..|h|] != h;
        }
      }
    }
    IndexOfUnique(content, h, |before|);
  }

  /** A section's directives are scoped to it: with the first header followed by `mid` and
      then a `[`, the rule sees `mid` only, so a directive elsewhere in the file (in a later
      section, or under a later copy of the same header) does not count. */
  lemma {:induction false} SectionIsScoped(before: string, program: string, mid: string, rest: string,
                                           lit: string, notFound: string, message: string)
    requires !Contains(before, Header(program))
    requires forall k :: 0 <= k < |program| ==> program[k] != '['
    requires forall k :: 0 <= k < |mid| ==> mid[k] != '['
    ensures SectionBody(before + Header(program) + mid + "[" + rest, program) == Some(mid)
    ensures SectionHas(before + Header(program) + mid + "[" + rest, program, lit, notFound, message).Pass?
            <==> Contains(mid, lit)
  {
    var h := Header(program);
    var tail := mid + "[" + rest;
    assert before + h + mid + "[" + rest == before + h + tail;
    FirstHeaderAt(before, program, tail);
    var content := before + h + tail;
    assert content[|before| + |h|..] == tail;
    var n := BodyLen(tail);
    assert BodyEnds(tail, |mid|) by {
      assert tail[|mid|] == '[';
    }
    forall j | 0 <= j < |mid| ensures !BodyEnds(tail, j) {
      assert tail[j] == mid[j];
    }
    assert n == |mid|;
    assert tail[..|mid|] == mid;
  }

  /** A file without the header fails the rule with the not-found message. */
  lemma MissingSectionFails(content: string, program: string, lit: string, notFound: string, message: string)
    requires !Contains(content, Header(program))
    ensures SectionHas(content, program, lit, notFound, message) == Fail(notFound)
  {
  }

  // ---------------------------------------------------------------- section headers

  /** The loop over `findall`'s results: `assertRegex(section, pattern, ...)` on each. */
  function RecheckHeaders(sections: seq<string>): (v: Verdict)
    decreases |sections|
    ensures v.Pass? <==> forall i :: 0 <= i < |sections| ==> Search(SectionHeader, sections[i])
    ensures !v.Pass? ==> exists i :: 0 <= i < |sections| && v == Fail("Invalid section header: " + sections[i]) &&
                                     forall j :: 0 <= j < i ==> Search(SectionHeader, sections[j])
  {
    if sections == [] then Pass
    else if !Search(SectionHeader, sections[0]) then Fail("Invalid section header: " + sections[0])
    else
      var v := RecheckHeaders(sections[1..]);
      assert forall i :: 1 <= i < |sections| ==> sections[i] == sections[1..][i - 1];
      v
  }

  /** `sections = re.findall(r'\[[\w:]+\]', content)`, which must be non-empty, then each
      re-checked against the same pattern. */
  function HeadersVerdict(content: string): (v: Verdict)
    ensures !v.Error?
  {
    var sections := FindAll(SectionHeader, content);
    if |sections| == 0 then Fail("No valid section headers found") else RecheckHeaders(sections)
  }

  /** The header rule passes exactly when some `[`, one or more word or colon characters and
      `]` occur in a row; the re-check inside the loop never fails. */
  lemma HeadersIff(content: string)
    ensures HeadersVerdict(content).Pass? <==> MatchSomewhere(SectionHeader, content)
    ensures !HeadersVerdict(content).Pass? ==> HeadersVerdict(content) == Fail("No valid section headers found")
  {
    PatternsAreExact();
    var sections := FindAll(SectionHeader, content);
    forall i | 0 <= i < |sections| ensures Search(SectionHeader, sections[i]) {
      FoundMatchesAgain(SectionHeader, content, i);
    }
    FindAllNonEmpty(SectionHeader, content);
    SearchIff(SectionHeader, content);
  }

  // ---------------------------------------------------------------- key=value lines

  /** A supervisor line is accepted when, stripped, it is blank, a `;` or `#` comment, a
      `[` header, or holds a `=`. */
  predicate DirectiveOk(line: string) {
    var l := Strip(line);
    l == [] || l[0] == ';' || l[0] == '#' || l[0] == '[' || Contains(l, "=")
  }

  /** The first line (numbered from `n`) that is not accepted, stripped. */
  function FirstBadLine(lines: seq<string>, n: nat): (r: Option<(nat, string)>)
    decreases |lines|
    ensures r.None? <==> forall i :: 0 <= i < |lines| ==> DirectiveOk(lines[i])
    ensures r.Some? ==> exists i :: 0 <= i < |lines| && !DirectiveOk(lines[i]) &&
                                    r.value == (n + i, Strip(lines[i])) &&
                                    forall j :: 0 <= j < i ==> DirectiveOk(lines[j])
  {
    if lines == [] then None
    else if !DirectiveOk(lines[0]) then Some((n, Strip(lines[0])))
    else
      var r := FirstBadLine(lines[1..], n + 1);
      BadLineAfterFirst(lines, n, r);
      r
  }

  /** The first bad line after an accepted first line is the first bad line of them all. */
  lemma BadLineAfterFirst(lines: seq<string>, n: nat, r: Option<(nat, string)>)
    requires lines != [] && DirectiveOk(lines[0])
    requires r.None? <==> forall i :: 0 <= i < |lines[1..]| ==> DirectiveOk(lines[1..][i])
    requires r.Some? ==> exists i :: 0 <= i < |lines[1..]| && !DirectiveOk(lines[1..][i]) &&
                                     r.value == (n + 1 + i, Strip(lines[1..][i])) &&
                                     forall j :: 0 <= j < i ==> DirectiveOk(lines[1..][j])
    ensures r.None? <==> forall i :: 0 <= i < |lines| ==> DirectiveOk(lines[i])
    ensures r.Some? ==> exists i :: 0 <= i < |lines| && !DirectiveOk(lines[i]) &&
                                    r.value == (n + i, Strip(lines[i])) &&
                                    forall j :: 0 <= j < i ==> DirectiveOk(lines[j])
  {
    var tail := lines[1..];
    if r.None? {
      forall i | 0 <= i < |lines| ensures DirectiveOk(lines[i]) {
        if i > 0 { assert lines[i] == tail[i - 1]; }
      }
    } else {
      var i :| 0 <= i < |tail| && !DirectiveOk(tail[i]) &&
               r.value == (n + 1 + i, Strip(tail[i])) &&
               forall j :: 0 <= j < i ==> DirectiveOk(tail[j]);
      assert lines[i + 1] == tail[i];
      forall j | 0 <= j < i + 1 ensures DirectiveOk(lines[j]) {
        if j > 0 { assert lines[j] == tail[j - 1]; }
      }
    }
  }

  /** `for line_num, line in enumerate(f, 1)`: every non-blank, non-comment, non-header line
      must hold a `=`; the first that does not is reported with its 1-based number. */
  function KeyValueVerdict(content: string): (v: Verdict)
    ensures v.Pass? <==> forall i :: 0 <= i < |Lines(content)| ==> DirectiveOk(Lines(content)[i])
    ensures !v.Pass? ==>
              exists i :: 0 <= i < |Lines(content)| && !DirectiveOk(Lines(content)[i]) &&
                          v == Fail("Line " + NatToString(i + 1) + " doesn't have key=value format: " +
                                    Strip(Lines(content)[i])) &&
                          forall j :: 0 <= j < i ==> DirectiveOk(Lines(content)[j])
  {
    match FirstBadLine(Lines(content), 1)
    case None => Pass
    case Some((n, l)) => Fail("Line " + NatToString(n) + " doesn't have key=value format: " + l)
  }

  /** Blank, comment and header lines are ignored: inserting one anywhere never changes
      whether the rule passes. */
  lemma IgnoredLineKeepsVerdict(above: seq<string>, line: string, below: seq<string>)
    requires Strip(line) == [] || Strip(line)[0] in {';', '#', '['}
    ensures FirstBadLine(above + [line] + below, 1).None? <==> FirstBadLine(above + below, 1).None?
  {
    var with := above + [line] + below;
    var without := above + below;
    assert DirectiveOk(line);
    assert forall i :: 0 <= i < |above| ==> with[i] == above[i] && without[i] == above[i];
    assert forall i :: 0 <= i < |below| ==> with[|above| + 1 + i] == below[i] && without[|above| + i] == below[i];
    if FirstBadLine(without, 1).None? {
      forall i | 0 <= i < |with| ensures DirectiveOk(with[i]) {
        if i < |above| {
          assert DirectiveOk(without[i]);
        } else if i > |above| {
          assert DirectiveOk(without[i - 1]);
        }
      }
    }
    if FirstBadLine(with, 1).None? {
      forall i | 0 <= i < |without| ensures DirectiveOk(without[i]) {
        if i < |above| {
          assert DirectiveOk(with[i]);
        } else {
          assert DirectiveOk(with[i + 1]);
        }
      }
    }
  }

  /** At the level of the file: a blank, comment or header line put in front of the text
      never changes whether the directive test passes. */
  lemma LeadingIgnoredLineKeepsVerdict(line: string, content: string)
    requires line != [] && line[|line| - 1] == '\n'
    requires forall k :: 0 <= k < |line| - 1 ==> line[k] != '\n'
    requires Strip(line) == [] || Strip(line)[0] in {';', '#', '['}
    ensures KeyValueVerdict(line + content).Pass? <==> KeyValueVerdict(content).Pass?
  {
    LeadingIgnoredLine(line, content);
    KeyValuePassIff(line + content);
    KeyValuePassIff(content);
  }

  lemma LeadingIgnoredLine(line: string, content: string)
    requires line != [] && line[|line| - 1] == '\n'
    requires forall k :: 0 <= k < |line| - 1 ==> line[k] != '\n'
    requires Strip(line) == [] || Strip(line)[0] in {';', '#', '['}
    ensures FirstBadLine(Lines(line + content), 1).None? <==> FirstBadLine(Lines(content), 1).None?
  {
    var rest := Lines(content);
    LinesAfterLine(line, content);
    IgnoredLineKeepsVerdict([], line, rest);
    assert [] + [line] + rest == Lines(line + content) && [] + rest == rest;
  }

  /** The directive test passes exactly when no line is bad. */
  lemma KeyValuePassIff(content: string)
    ensures KeyValueVerdict(content).Pass? <==> FirstBadLine(Lines(content), 1).None?
  {
  }

  // ---------------------------------------------------------------- the catalogue

  datatype ConfigFile = NginxConf | SupervisordConf

  function FileName(f: ConfigFile): string {
    match f
    case NginxConf => "nginx.conf"
    case SupervisordConf => "supervisord.conf"
  }

  function Artefact(w: Workspace, f: ConfigFile): Option<string> {
    match f
    case NginxConf => w.nginxConf
    case SupervisordConf => w.supervisordConf
  }

  /** What a test does with its file. */
  datatype Action =
    | Exists                                  // assertTrue(path.exists(), ...)
    | OnContent(asserts: seq<Assertion>)      // assertions on the whole text
    | Braces
    | Section(program: string, lit: string, notFound: string, message: string)
    | SectionHeaders
    | KeyValueLines

  datatype Test = Test(name: string, file: ConfigFile, action: Action)

  /** A check run on the text of an existing file. */
  function ContentVerdict(c: Action, content: string): (v: Verdict)
    ensures !v.Error?
    ensures c.OnContent? ==> v == CheckAll(c.asserts, content)
    ensures c.Braces? ==> v == BracesVerdict(content)
    ensures c.Section? ==> v == SectionHas(content, c.program, c.lit, c.notFound, c.message)
    ensures c.SectionHeaders? ==> v == HeadersVerdict(content)
    ensures c.KeyValueLines? ==> v == KeyValueVerdict(content)
  {
    match c
    case Exists => Pass
    case OnContent(asserts) => CheckAll(asserts, content)
    case Braces => BracesVerdict(content)
    case Section(program, lit, notFound, message) => SectionHas(content, program, lit, notFound, message)
    case SectionHeaders => HeadersVerdict(content)
    case KeyValueLines => KeyValueVerdict(content)
  }

  /** One test: an existence test fails on a missing file; every other test opens the file,
      so a missing file makes it err. */
  function Run(t: Test, w: Workspace): (v: Verdict)
    ensures Artefact(w, t.file).None? && t.action.Exists? ==>
              v == Fail(FileName(t.file) + " not found at " + PathOf(w, FileName(t.file)))
    ensures Artefact(w, t.file).None? && !t.action.Exists? ==>
              v == Error(MissingFile(PathOf(w, FileName(t.file))))
    ensures Artefact(w, t.file).Some? && t.action.Exists? ==> v.Pass?
    ensures Artefact(w, t.file).Some? && !t.action.Exists? ==>
              v == ContentVerdict(t.action, Artefact(w, t.file).value)
  {
    var path := PathOf(w, FileName(t.file));
    if t.action.Exists? then ExistsCheck(Artefact(w, t.file), FileName(t.file) + " not found at " + path)
    else match Artefact(w, t.file)
      case None => Error(MissingFile(path))
      case Some(content) => ContentVerdict(t.action, content)
  }

  function Has1(lit: string, message: string): Action {
    OnContent([Assertion(Has(lit), message)])
  }

  const NginxTests: seq<Test> := [
    Test("test_nginx_conf_exists", NginxConf, Exists),
    Test("test_nginx_conf_not_empty", NginxConf, OnContent([Assertion(NonBlank, "nginx.conf is empty")])),
    Test("test_nginx_conf_has_events_block", NginxConf, Has1("events", "nginx.conf must have 'events' block")),
    Test("test_nginx_conf_has_http_block", NginxConf, Has1("http", "nginx.conf must have 'http' block")),
    Test("test_nginx_conf_has_server_block", NginxConf, Has1("server {", "nginx.conf must have 'server' block")),
    Test("test_nginx_conf_has_upstream_block", NginxConf, Has1("upstream", "nginx.conf should define upstream backend")),
    Test("test_nginx_conf_has_ssl_certificate", NginxConf,
         Has1("ssl_certificate", "nginx.conf should configure SSL certificates")),
    Test("test_nginx_conf_has_ssl_key", NginxConf, Has1("ssl_certificate_key", "nginx.conf should configure SSL key")),
    Test("test_nginx_conf_has_proxy_pass", NginxConf,
         Has1("proxy_pass", "nginx.conf should have proxy_pass for backend")),
    Test("test_nginx_conf_has_http_redirect", NginxConf,
         Has1("return 301", "nginx.conf should redirect HTTP to HTTPS")),
    Test("test_nginx_conf_has_websocket_upgrade", NginxConf,
         Has1("Upgrade", "nginx.conf should support WebSocket upgrade headers")),
    Test("test_nginx_conf_has_docs_location", NginxConf,
         Has1("/docs/", "nginx.conf should have /docs/ location for documentation")),
    Test("test_nginx_conf_has_worker_connections", NginxConf,
         Has1("worker_connections", "nginx.conf should configure worker_connections")),
    Test("test_nginx_conf_braces_balanced", NginxConf, Braces),
    Test("test_nginx_conf_no_syntax_errors", NginxConf,
         OnContent([Assertion(Or(Not(Has("server_name")), Matches(ServerName)), "server_name directive syntax invalid")])),
    Test("test_nginx_conf_has_acme_challenge_location", NginxConf,
         Has1("/.well-known/acme-challenge/", "nginx.conf should have ACME challenge location for Let's Encrypt")),
    Test("test_nginx_conf_listen_ports", NginxConf,
         OnContent([Assertion(Matches(Listen80), "nginx.conf should listen on port 80"),
                    Assertion(Matches(Listen443Ssl), "nginx.conf should listen on port 443 with SSL")]))
  ]

  const SupervisorTests: seq<Test> := [
    Test("test_supervisord_conf_exists", SupervisordConf, Exists),
    Test("test_supervisord_conf_not_empty", SupervisordConf,
         OnContent([Assertion(NonBlank, "supervisord.conf is empty")])),
    Test("test_supervisord_conf_has_supervisord_section", SupervisordConf,
         Has1("[supervisord]", "supervisord.conf must have [supervisord] section")),
    Test("test_supervisord_conf_nodaemon_true", SupervisordConf,
         Has1("nodaemon=true", "supervisord should run in foreground mode (nodaemon=true)")),
    Test("test_supervisord_conf_has_vncserver_program", SupervisordConf,
         Has1("[program:vncserver]", "supervisord.conf should define vncserver program")),
    Test("test_supervisord_conf_has_novnc_program", SupervisordConf,
         Has1("[program:novnc]", "supervisord.conf should define novnc program")),
    Test("test_supervisord_vncserver_has_command", SupervisordConf,
         Section("vncserver", "command=", "vncserver section not found", "vncserver program must have command directive")),
    Test("test_supervisord_vncserver_has_autorestart", SupervisordConf,
         Section("vncserver", "autorestart=", "unexpectedly None", "vncserver program should have autorestart directive")),
    Test("test_supervisord_novnc_has_command", SupervisordConf,
         Section("novnc", "command=", "novnc section not found", "novnc program must have command directive")),
    Test("test_supervisord_vncserver_runs_as_user", SupervisordConf,
         Section("vncserver", "user=", "unexpectedly None", "vncserver program should specify user")),
    Test("test_supervisord_has_logfile", SupervisordConf,
         Has1("logfile=", "supervisord should have logfile configuration")),
    Test("test_supervisord_logfile_unbounded", SupervisordConf,
         Has1("logfile_maxbytes=0", "supervisord logfile_maxbytes should be 0 for Docker (unbounded)")),
    Test("test_supervisord_vncserver_has_environment_vars", SupervisordConf,
         Section("vncserver", "environment=", "unexpectedly None", "vncserver program should set environment variables")),
    Test("test_supervisord_vncserver_geometry_configured", SupervisordConf,
         Has1("-geometry", "VNC geometry should be configured")),
    Test("test_supervisord_section_headers_valid", SupervisordConf, SectionHeaders),
    Test("test_supervisord_no_invalid_directives", SupervisordConf, KeyValueLines)
  ]

  /** The module's tests, class by class. */
  const Tests: seq<Test> := NginxTests + SupervisorTests

  /** The `server_name` test passes vacuously when the directive is absent; otherwise it
      needs the directive, whitespace and a name somewhere in the text. */
  lemma ServerNameRule(w: Workspace, content: string)
    requires w.nginxConf == Some(content)
    ensures !Contains(content, "server_name") ==> Run(NginxTests[14], w).Pass?
    ensures Contains(content, "server_name") ==>
              (Run(NginxTests[14], w).Pass? <==> MatchSomewhere(ServerName, content))
  {
    PatternsAreExact();
    SearchIff(ServerName, content);
    var t := NginxTests[14];
    var a := t.action.asserts;
    assert t.file == NginxConf && t.action.OnContent?;
    assert Run(t, w) == CheckAll(a, content);
    assert a[0].cond == Or(Not(Has("server_name")), Matches(ServerName));
    assert |a| == 1;
    assert CheckAll(a, content).Pass? <==> Holds(a[0].cond, content);
    assert Holds(Not(Has("server_name")), content) == !Contains(content, "server_name");
    assert Holds(Matches(ServerName), content) == Search(ServerName, content);
    assert Run(t, w).Pass? <==> !Contains(content, "server_name") || Search(ServerName, content);
  }

  /** The non-empty test passes exactly when the text has a non-whitespace character. */
  lemma NotEmptyRule(w: Workspace, content: string)
    requires w.nginxConf == Some(content)
    ensures Run(NginxTests[1], w).Pass? <==> exists i :: 0 <= i < |content| && !IsSpace(content[i])
    ensures !Run(NginxTests[1], w).Pass? ==> Run(NginxTests[1], w) == Fail("nginx.conf is empty")
  {
    assert NginxTests[1].action.asserts[1..] == [];
  }
}
