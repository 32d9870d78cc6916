# Deployment conformance tests, modelled in Dafny

The repository's deployment suite checks that the deployment artefacts exist and are
well formed. The artefacts are `nginx.conf`, `supervisord.conf`, the five shell scripts, the
`Dockerfile` and the two docker-compose manifests. This project models each test as a
function from a **workspace** to a **verdict**, plus the runner that assembles the suite and
turns the outcomes into an exit code.

- A workspace (`Artifacts.Workspace`) holds, for each artefact, its text if the file
  exists (`Option<string>`), the report of `bash -n` for each script, and the value the
  YAML decoder returns for each manifest (`Result<Value>`).
- A verdict (`Outcomes.Verdict`) is `Pass`, `Fail(reason)` or `Error(cause)`.
  `Fail(reason)` means an assertion of the test did not hold. `Error(cause)` means some
  other exception escaped the test: a missing file opened for reading, a `KeyError`, or a
  `TypeError` from `in` on a value that is not a container.
- Substring search, `count`, `strip`, `lower`, `readline` and line iteration follow
  Python's semantics on `str` (module `Text`).
- The regular expressions the tests use are a small pattern language: literals and
  one-or-more runs of a character class. A greedy scanner is proved equivalent to the
  pattern's meaning (module `Patterns`). The non-greedy section pattern of
  `supervisord.conf` is modelled directly as "the body up to the first `[` or the end".
  The model follows the code here. The body ends at any `[`, not only at a section
  header. Only the first copy of a header is consulted. A duplicated header is not
  reported at all, though a design that indexes sections would report it.
- The compose tests work on a YAML tree (`Values.Value`). The Python operations they apply
  (`in`, subscript, `get`, `len`, `items`, iteration, `str`) are modelled with the
  exceptions each raises on the wrong kind of value.
- The catalogues list the tests in source order: `ConfigFiles.Tests`, `ShellScripts.Tests`
  and `DockerCompose.Tests`. The lemmas state what the individual tests decide.

One test is modelled as written, and the result differs from what it appears to check:
`assertIn('REGISTRY_URL', content or 'registry' in content)` in
`tests/deployment/test_shell_scripts.py:275`. Python's `or` binds more loosely than `in`,
so this test searches the whole text when the text is non-empty. When the text is empty,
it searches a bool, which raises `TypeError`; the test therefore errs and does not fail
(`ShellScripts.RegistryUrlVerdict`). Likewise, the compose version-format test passes
when `version` is `None`, because `str(None)` is `"None"`
(`DockerCompose.VersionFormatRule`).

## Model

| member | source | states |
|---|---|---|
| Outcomes.Check | tests/deployment/test_docker_compose.py:59 | an `assertTrue(cond, msg)` passes iff `cond` holds and otherwise fails with `msg` |
| Outcomes.Then | tests/deployment/test_docker_compose.py:49-53 | two assertions in a row pass iff both pass; a first failure is the test's verdict and the second assertion is not reached; after a passing first assertion the verdict is the second one's |
| Outcomes.Settle | tests/deployment/test_docker_compose.py:45-47 | an exception raised inside a test body becomes an Error carrying it; a completed body keeps its verdict |
| Text.RunLen | tests/deployment/test_config_files.py:103 | the length of the longest prefix inside a character class: every character before it is in the class, and the next one is not |
| Text.RunLenUnique | tests/deployment/test_config_files.py:103 | any length with these two properties is the run length |
| Text.IndexOf | tests/deployment/test_config_files.py:31 | the first index where the literal occurs; None exactly when it occurs nowhere |
| Text.Contains | tests/deployment/test_config_files.py:31 | Python's `lit in s`: whether `IndexOf` finds the literal (characterised by `Text.ContainsIff`) |
| Text.ContainsIff | tests/deployment/test_config_files.py:31 | Python's `lit in s` holds iff the literal occurs at some index of `s` |
| Text.IndexOfUnique | tests/deployment/test_config_files.py:31 | an occurrence with no earlier occurrence is the index found |
| Text.Count | tests/deployment/test_config_files.py:93-94 | Python's `s.count(lit)`: occurrences counted left to right without overlap, `len(s) + 1` for the empty literal (characterised by `Text.CountPositive` and `Text.CountAtLeastTwo`) |
| Text.CountPositive | tests/deployment/test_config_files.py:93 | `s.count(lit)` is positive iff the literal occurs |
| Text.CountAtLeastTwo | tests/deployment/test_shell_scripts.py:318-320 | `s.count(lit) >= 2` iff there are two occurrences that do not overlap |
| Text.CountCharConcat | tests/deployment/test_config_files.py:93-94 | the count of one character in a concatenation is the sum of the counts in the parts |
| Text.Strip | tests/deployment/test_config_files.py:26 | `s.strip()` is the slice of `s` outside which only whitespace stands and whose first and last characters are not whitespace; it is empty iff `s` is all whitespace |
| Text.Lines | tests/deployment/test_config_files.py:232 | iterating a file yields non-empty lines whose concatenation is the whole text; every line but the last ends in its newline, and no line holds a newline before its end |
| Text.LinesUnique | tests/deployment/test_config_files.py:232 | any split of the text with the properties of `Lines` is `Lines`, so those properties determine the lines |
| Text.LinesAfterLine | tests/deployment/test_config_files.py:232 | a complete line in front of a text is the first line read, followed by the text's own lines |
| Text.FirstLine | tests/deployment/test_shell_scripts.py:253 | `readline()` returns the text up to and including the first newline, or the whole text when it has none |
| Text.FirstLineOfConcat | tests/deployment/test_shell_scripts.py:253 | the first line of a text that starts with a complete line is that line |
| Text.Lower | tests/deployment/test_shell_scripts.py:184 | `lower()` maps every character through the letter case mapping and keeps the length |
| Text.LowerKeepsOccurrences | tests/deployment/test_shell_scripts.py:184 | a lower-case literal that occurs in a text also occurs in its lower-cased form |
| Patterns.Match | tests/deployment/test_config_files.py:103 | what it means for a prefix of a text to match a pattern of literals and one-or-more class runs |
| Patterns.Greedy | tests/deployment/test_config_files.py:103 | the scanner `re` uses at one position: each class run consumes as much as it can; an accepted length is within the text and positive for a non-empty pattern |
| Patterns.GreedySound | tests/deployment/test_config_files.py:103 | a prefix the greedy scanner accepts matches the pattern |
| Patterns.GreedyComplete | tests/deployment/test_config_files.py:103 | whenever some prefix matches a deterministic pattern, the scanner accepts at that position |
| Patterns.GreedyIff | tests/deployment/test_config_files.py:103 | the scanner accepts at a position iff some prefix there matches the pattern |
| Patterns.Search | tests/deployment/test_config_files.py:116-117 | `re.search`: the scanner accepts at some position of the text (characterised by `Patterns.SearchIff`) |
| Patterns.SearchIff | tests/deployment/test_config_files.py:116-117 | `re.search` finds a match iff the pattern matches at some position of the text |
| Patterns.FindAll | tests/deployment/test_config_files.py:224 | every string `re.findall` returns matches the pattern exactly |
| Patterns.FindAllNonEmpty | tests/deployment/test_config_files.py:224-225 | `re.findall` returns nothing iff `re.search` finds nothing |
| Patterns.FoundMatchesAgain | tests/deployment/test_config_files.py:226-228 | each string `re.findall` returned is found again when searched with the same pattern |
| Rules.Holds | tests/deployment/test_shell_scripts.py:68-76 | the meaning of a test's condition on a text: `in`, `in` on the lower-cased text, `in` on the first line, `count >= n`, `re.search`, `strip()` non-empty, and `not`/`and`/`or` of conditions |
| Rules.CheckAll | tests/deployment/test_config_files.py:113-118 | a body of assertions passes iff every condition holds; otherwise it fails with the message of the first that does not; it never errs |
| Rules.OnText | tests/deployment/test_config_files.py:28-31 | a test that opens a missing file errs; on an existing file it is its assertions' verdict |
| Rules.ExistsCheck | tests/deployment/test_config_files.py:19-21 | an existence test passes iff the file exists, and otherwise fails with its message |
| Rules.PresenceIff | tests/deployment/test_config_files.py:28-31 | an `assertIn` test passes iff the literal occurs in the text, and otherwise fails with its message |
| Rules.AbsenceIff | tests/deployment/test_shell_scripts.py:388-392 | an `assertNotIn` test fails iff the literal occurs in the text |
| Rules.AnyOf | tests/deployment/test_shell_scripts.py:68-76 | a disjunction of `in` tests holds iff one of the literals occurs |
| Values.Lookup | tests/deployment/test_docker_compose.py:47 | a key's value is found iff some entry carries the key, and it is that entry's value |
| Values.In | tests/deployment/test_docker_compose.py:46 | `key in v` is key membership for a dict, element membership for a list and substring search for a str; it raises exactly on None and scalars |
| Values.Index | tests/deployment/test_docker_compose.py:47 | `v[key]` succeeds iff `v` is a dict with the key, and yields that entry's value |
| Values.Get | tests/deployment/test_docker_compose.py:146 | `v.get(key, default)` works only on a dict, gives the default for a missing key and the stored value otherwise |
| Values.Len | tests/deployment/test_docker_compose.py:59 | `len(v)` raises exactly on None and scalars |
| Values.Items | tests/deployment/test_docker_compose.py:70 | `v.items()` works only on a dict and yields its entries in order |
| Values.Iterate | tests/deployment/test_docker_compose.py:147 | iteration yields a list's elements or a dict's keys in order; it raises exactly on None and scalars |
| Values.AnyShows | tests/deployment/test_docker_compose.py:147 | `any(lit in str(x) for x in xs)` holds iff some element's string form contains the literal |
| Values.Display | tests/deployment/test_docker_compose.py:147 | `str(v)` of a decoded value: `None`, the string itself, a scalar's text, or a bracketed list or dict of element representations |
| Values.Repr | tests/deployment/test_docker_compose.py:147 | `repr(v)` of a container element: a string in single quotes, any other value as `str` |
| ConfigFiles.PatternsAreExact | tests/deployment/test_config_files.py:98-118 | the nginx patterns are well formed and deterministic, so searching them decides whether they match |
| ConfigFiles.Listen80AcceptsPort8080 | tests/deployment/test_config_files.py:116 | `listen\s+80` is found in `listen 8080;`, because the search is not anchored at a word boundary |
| ConfigFiles.BracesVerdict | tests/deployment/test_config_files.py:90-96 | the brace test passes iff `{` and `}` occur equally often, and otherwise fails with the count message |
| ConfigFiles.UnmatchedOpenBraceFails | tests/deployment/test_config_files.py:93-96 | appending an unmatched `{` to a balanced text makes the brace test fail |
| ConfigFiles.BodyLen | tests/deployment/test_config_files.py:165 | the lazy body runs up to the first `[` or the end, and holds no `[` |
| ConfigFiles.SectionBody | tests/deployment/test_config_files.py:165 | the section is found iff its header occurs, and its body starts right after the first header |
| ConfigFiles.SectionBodyHasNoBracket | tests/deployment/test_config_files.py:165 | a section body never contains `[` |
| ConfigFiles.SectionHas | tests/deployment/test_config_files.py:161-168 | a section test fails with "not found" when the header is absent, and otherwise passes iff the literal occurs in the body |
| ConfigFiles.FirstHeaderAt | tests/deployment/test_config_files.py:165 | the body found is the one after the earliest occurrence of the header |
| ConfigFiles.SectionIsScoped | tests/deployment/test_config_files.py:161-168 | a literal that occurs only after the next section header does not satisfy a section test |
| ConfigFiles.MissingSectionFails | tests/deployment/test_config_files.py:178-184 | a text without the `[program:novnc]` header fails that section's test with its "not found" message |
| ConfigFiles.RecheckHeaders | tests/deployment/test_config_files.py:226-228 | re-searching the headers `re.findall` returned passes iff it confirms them all, and otherwise names the first header that is not confirmed |
| ConfigFiles.HeadersVerdict | tests/deployment/test_config_files.py:220-228 | the section-header test never errs |
| ConfigFiles.HeadersIff | tests/deployment/test_config_files.py:220-228 | the section-header test passes iff the text has some `[name]` header, and otherwise fails with "No valid section headers found" |
| ConfigFiles.FirstBadLine | tests/deployment/test_config_files.py:232-236 | the first line that is neither blank, a comment, a header nor a `key=value` directive, numbered from 1 |
| ConfigFiles.KeyValueVerdict | tests/deployment/test_config_files.py:230-236 | the directive test passes iff every line is blank, a comment, a header or contains `=`, and otherwise names the first bad line |
| ConfigFiles.IgnoredLineKeepsVerdict | tests/deployment/test_config_files.py:233-234 | inserting a blank, comment or header line anywhere in a list of lines does not change whether some line is rejected |
| ConfigFiles.LeadingIgnoredLineKeepsVerdict | tests/deployment/test_config_files.py:230-236 | putting a complete blank, comment or header line in front of a file's text does not change whether the directive test passes |
| ConfigFiles.ContentVerdict | tests/deployment/test_config_files.py:23-236 | a test on an existing file never errs, and each kind of test is decided by its own rule |
| ConfigFiles.Run | tests/deployment/test_config_files.py:19-236 | an existence test fails on a missing file; any other test errs with the missing path; on an existing file the content rule decides |
| ConfigFiles.ServerNameRule | tests/deployment/test_config_files.py:98-105 | the syntax test passes when `server_name` is absent; when it is present, the test passes iff `server_name`, whitespace and a host name occur somewhere in the text |
| ConfigFiles.NotEmptyRule | tests/deployment/test_config_files.py:23-26 | on an existing file, the emptiness test passes iff the text has a non-whitespace character, and otherwise fails with "nginx.conf is empty" |
| ShellScripts.CheckShellSyntax | tests/deployment/test_shell_scripts.py:18-24 | the syntax check is valid iff `bash -n` exits 0, and reports bash's error text otherwise |
| ShellScripts.SyntaxVerdict | tests/deployment/test_shell_scripts.py:38-42 | a syntax test fails on a missing script with the "not found" message, and otherwise passes iff `bash -n` accepts the script |
| ShellScripts.AssignmentAt | tests/deployment/test_shell_scripts.py:30 | an assignment found at a line start is a non-empty run of word characters after the indentation, immediately followed by `=` |
| ShellScripts.AssignmentShape | tests/deployment/test_shell_scripts.py:30 | an assignment is found iff the text, after its indentation, starts with a word and `=` |
| ShellScripts.ScanByLines | tests/deployment/test_shell_scripts.py:30 | the multiline scan over a whole text gives the same names as taking each line's assignment in turn |
| ShellScripts.ExtractVariables | tests/deployment/test_shell_scripts.py:26-30 | `re.findall(r'^\s*(\w+)=', content, re.MULTILINE)` yields, per line in order, the name each line assigns |
| ShellScripts.CommandAt | tests/deployment/test_shell_scripts.py:36 | a command found at a position is one of the seven names, followed by no word character |
| ShellScripts.ScanIsCommandWords | tests/deployment/test_shell_scripts.py:36 | the scan for `\b(docker\|...)\b` yields exactly the whole words of the text that are command names, in order |
| ShellScripts.ExtractCommands | tests/deployment/test_shell_scripts.py:32-36 | the commands found are the words of the content that are command names, in order |
| ShellScripts.QmakeIsOneCommand | tests/deployment/test_shell_scripts.py:36 | the word `qmake` yields only `qmake`, not `make` as well |
| ShellScripts.RegistryUrlVerdict | tests/deployment/test_shell_scripts.py:271-276 | on a non-empty text the test passes iff `REGISTRY_URL` occurs; on an empty text it errs |
| ShellScripts.Run | tests/deployment/test_shell_scripts.py:38-420 | syntax tests follow `bash -n`; content tests err on a missing file and otherwise run their assertions; the Dockerfile existence test passes iff the file exists |
| ShellScripts.OneAssertion | tests/deployment/test_shell_scripts.py:173-178 | a single-assertion content test passes iff its condition holds, and otherwise fails with its message |
| ShellScripts.ErrorHandlingRule | tests/deployment/test_shell_scripts.py:68-76 | the entrypoint error-handling test passes iff `set -e`, `set -euo pipefail`, `exit 1` or `\|\| exit` occurs |
| ShellScripts.DocsRule | tests/deployment/test_shell_scripts.py:180-185 | the documentation test passes iff `docs` occurs in the lower-cased text, and otherwise fails with its message |
| ShellScripts.DocsRuleIgnoresCase | tests/deployment/test_shell_scripts.py:180-185 | a script containing any spelling whose letters fold to `docs` (`DOCS`, `Docs`, ...) passes the documentation test |
| ShellScripts.ShebangReadsFirstLine | tests/deployment/test_shell_scripts.py:250-255 | the shebang test looks only at the first line: a `#!/bin/bash` further down does not pass it |
| ShellScripts.MultiStageRule | tests/deployment/test_shell_scripts.py:314-320 | the multi-stage test passes iff `FROM` occurs twice without overlap |
| ShellScripts.NoSudoRule | tests/deployment/test_shell_scripts.py:388-392 | the sudo test fails iff `sudo` occurs in the Dockerfile |
| ShellScripts.MissingScript | tests/deployment/test_shell_scripts.py:38-76 | with a script missing, its syntax test fails and its content tests err |
| DockerCompose.Follow | tests/deployment/test_docker_compose.py:139 | a chain of subscripts yields the value itself for no keys, and succeeds only if the first key is present |
| DockerCompose.ServiceBuilt | tests/deployment/test_docker_compose.py:71-73 | a service passes iff it has `build` or `image`, fails with the service's message iff it has neither, and errs on None or a scalar |
| DockerCompose.ServicesBuilt | tests/deployment/test_docker_compose.py:70-73 | the loop over services passes iff every service is built; a failure names the first service with neither key |
| DockerCompose.StepResult | tests/deployment/test_docker_compose.py:43-163 | each assertion step on the decoded tree: a subscript error on the path is the step's error; membership passes iff `in` returns true, errs when `in` raises and fails with the step's message when it returns false; not-None fails with its message on None; `len` and `any(... in str(x))` agree with Python |
| DockerCompose.RunSteps | tests/deployment/test_docker_compose.py:101-106 | a test body of steps passes iff every step passes, and otherwise its verdict is the result of the first step that does not pass |
| DockerCompose.Run | tests/deployment/test_docker_compose.py:21-163 | an existence test fails on a missing file; other tests err on a missing file; a decode error fails the valid-YAML test and errs the tree tests |
| DockerCompose.DecodeErrorRule | tests/deployment/test_docker_compose.py:29-41 | when the decoder raises, the valid-YAML test fails with its message, the tree tests err, and only valid-YAML tests and text tests can fail |
| DockerCompose.FollowSnoc | tests/deployment/test_docker_compose.py:117 | subscripting one more key is the old chain followed by that key, an error anywhere before it staying the error |
| DockerCompose.KeyThenNotNone | tests/deployment/test_docker_compose.py:46-47 | `assertIn(k, config)` then `assertIsNotNone(config[k])` passes iff `k` is a key whose value is not None, with the error or failure of the first step that does not pass |
| DockerCompose.KeyThenNonEmpty | tests/deployment/test_docker_compose.py:58-59 | `assertIn(k, config)` then `len(config[k]) > 0` passes iff `k` is a key whose value has non-zero length, with the error or failure of the first step that does not pass |
| DockerCompose.MemberThenMember | tests/deployment/test_docker_compose.py:124-128 | two membership checks, the second one level deeper, pass iff the deeper value can be reached and holds the inner key, with the error or failure of the first that does not pass |
| DockerCompose.ValidYamlRule | tests/deployment/test_docker_compose.py:29-41 | for either manifest, the valid-YAML test passes iff the decoder returns a value |
| DockerCompose.VersionRule | tests/deployment/test_docker_compose.py:43-53 | for any decoded manifest, the version test passes iff `version` is a key whose value is not None; an empty manifest (None) or a scalar errs at `in`; a missing key fails with the file's message; a string or list holding `version` errs at the subscript; a None value fails |
| DockerCompose.ServicesRule | tests/deployment/test_docker_compose.py:55-65 | for any decoded manifest, the services test passes iff `services` is a key whose value has non-zero length; None or a scalar manifest errs at `in`; a missing key fails with the file's message; a non-mapping holding `services` errs at the subscript; length 0 fails; a value without a length errs |
| DockerCompose.ImagesRule | tests/deployment/test_docker_compose.py:67-73 | with services as mappings, the images test passes iff every service has `build` or `image`, and otherwise names the first service that has neither |
| DockerCompose.SomeShowsRule | tests/deployment/test_docker_compose.py:146-147 | a missing key fails the step; a list passes iff some element's string form contains the literal |
| DockerCompose.PortRule | tests/deployment/test_docker_compose.py:143-149 | without `ports` the 8080 test fails; with a list of ports it passes iff some port's string form contains `8080` |
| DockerCompose.MountRule | tests/deployment/test_docker_compose.py:157-163 | without `volumes` the mount test fails; with a list it passes iff some volume's string form contains `nginx.conf` |
| DockerCompose.NetworkRule | tests/deployment/test_docker_compose.py:101-106 | for any decoded manifest, the network test passes iff both `services.tikzit_default` and `services.nginx` can be subscripted and hold `networks`; it reports the error or failure of the first of the two that does not, and errs with KeyError when `services` is a mapping without `tikzit_default` |
| DockerCompose.ServiceExistsRule | tests/deployment/test_docker_compose.py:75-85 | for any decoded manifest, a service-presence test passes iff `config['services']` succeeds and `in` finds the service; a subscript error or an error from `in` is the verdict; otherwise it fails with its message; on a mapping, `in` is key membership |
| DockerCompose.EnvVariableRule | tests/deployment/test_docker_compose.py:151-155 | the environment test passes iff `${VNC_PASSWORD}` occurs in the manifest text |
| DockerCompose.NetworksDefinedRule | tests/deployment/test_docker_compose.py:87-93 | for any decoded manifest, the networks test passes iff `networks` is a key whose value holds `tikzit_net`; None or a scalar errs at `in`; a missing key fails; a non-mapping holding `networks` errs at the subscript; an error or a false from the inner `in` errs or fails with its message |
| DockerCompose.VersionFormatRule | tests/deployment/test_docker_compose.py:108-112 | for any decoded manifest, the test passes iff `version` is a key whose `str` is non-empty, so a None version passes; without the key it errs with the subscript's error: KeyError on a mapping, TypeError on anything else (an empty manifest is None) |
| DockerCompose.CertbotRule | tests/deployment/test_docker_compose.py:121-128 | for any decoded manifest, the certbot test passes iff `config['services']['certbot']` succeeds and holds `volumes`; it reports the error or failure of the first step that does not pass; on mappings, this is key membership |
| RunTests.ComposeCases | tests/deployment/run_tests.py:32 | loading the compose module yields its tests in catalogue order |
| RunTests.ConfigCases | tests/deployment/run_tests.py:32 | loading the config module yields its tests in catalogue order |
| RunTests.ShellCases | tests/deployment/run_tests.py:32 | loading the shell module yields its tests in catalogue order |
| RunTests.EventOf | tests/deployment/run_tests.py:29-36 | a module is reported as failing to load iff its import raises, with the import's message |
| RunTests.LoadSuite | tests/deployment/run_tests.py:29-36 | for any loader of a module's tests, the loop adds, in order, the tests of every module that imports, and logs one event per module |
| RunTests.SuiteOf | tests/deployment/run_tests.py:29-33 | the suite the loading loop builds from a loader of module tests: the tests of each module whose import succeeds, module by module in declared order |
| RunTests.SuiteOfOne | tests/deployment/run_tests.py:29-33 | one module contributes nothing if its import fails and all its loaded tests otherwise |
| RunTests.SuiteOfThree | tests/deployment/run_tests.py:18-33 | the suite of the three declared modules is the compose suite, then the config suite, then the shell suite |
| RunTests.SuiteOfConcat | tests/deployment/run_tests.py:29-33 | the suite of two module lists is the concatenation of their suites |
| RunTests.LoadOrder | tests/deployment/run_tests.py:18-33 | with every import succeeding, the suite is the compose, config and shell tests in that order, and its size is the sum of the three |
| RunTests.SkippedModule | tests/deployment/run_tests.py:29-36 | a module whose import fails contributes no tests, and the others keep their places |
| RunTests.NoModuleLoads | tests/deployment/run_tests.py:29-36 | when every module's import fails the suite is empty, whatever the loader |
| RunTests.RunSuite | tests/deployment/run_tests.py:44-45 | running the suite gives one outcome per test, in order, with that test's verdict |
| Results.PassCount | tests/deployment/run_tests.py:52 | the number of passing tests is the length of the list of tests that passed, and it equals the number of tests iff every test passes |
| Results.Tally | tests/deployment/run_tests.py:45 | the result counts every test run; its failures and errors are exactly the failed and erring tests with their messages, in run order; failures, errors and passes add up to the tests run |
| Results.PassedOfConcat | tests/deployment/run_tests.py:45 | the passing tests of two runs in sequence are those of the first followed by those of the second |
| Results.FailuresOfConcat | tests/deployment/run_tests.py:53 | the failures of two runs in sequence are those of the first followed by those of the second |
| Results.ErrorsOfConcat | tests/deployment/run_tests.py:54 | the errors of two runs in sequence are those of the first followed by those of the second |
| Results.ReportsOfSnoc | tests/deployment/run_tests.py:45 | one more outcome adds itself to the one report its verdict belongs to |
| Results.ReportsPartition | tests/deployment/run_tests.py:51-54 | every test of a run is in exactly one of the passes, the failures and the errors: their sizes add up to the tests run |
| Results.ReportsAreOutcomes | tests/deployment/run_tests.py:45 | every reported failure or error is a test of the run with a Fail or an Error verdict carrying the reported message |
| Results.RecordStep | tests/deployment/run_tests.py:45 | recording one more outcome on a result that matches the run so far gives the result that matches the longer run |
| Results.Record | tests/deployment/run_tests.py:45 | what the result object does with one outcome: count it, and add a failure or an error entry for a Fail or an Error |
| Results.Summarize | tests/deployment/run_tests.py:51-54 | the four printed numbers: tests run, tests run minus failures minus errors, failures, errors |
| Results.WasSuccessful | tests/deployment/run_tests.py:57 | `result.wasSuccessful()`: no failure and no error |
| Results.SuccessesArePasses | tests/deployment/run_tests.py:51-54 | the printed success count, tests run minus failures minus errors, is the number of passing tests |
| Results.ExitCode | tests/deployment/run_tests.py:57-62 | the exit code is 0 or 1, and it is 0 iff the run was successful |
| Results.ExitCodeIff | tests/deployment/run_tests.py:57-62 | the exit code is 0 iff every test passed |
| RunTests.EmptySuite | tests/deployment/run_tests.py:29-62 | when every import fails the suite is empty and the exit code is 0 |
| RunTests.RunDeploymentTests | tests/deployment/run_tests.py:11-62 | the runner loads the suite, runs it and returns the exit code and summary of that run |

## Left out

- File system access: whether a file exists and what it contains is given in the
  workspace. The repository-root resolution in `setUpClass` is reduced to a root path
  string.
- The `bash -n` subprocess: its exit status and error text are given per script, so the
  shell parser is not modelled.
- `yaml.safe_load`: its result, a tree or the message it raises, is given per manifest.
  Mapping keys are strings only; YAML's integer or boolean keys are not modelled.
- General regular-expression engines: only the patterns the tests use are modelled. The
  lazy section body and the `re.MULTILINE` / `\b` scans are written as scanners over the
  text, and each is proved equal to its meaning.
- The prefix unittest adds to an assertion's message (`... is not true : `): a Fail
  carries only the test's own message.
- unittest's runner internals: `Tally` is a function of the outcomes, not the result
  object's mutation during the run. Test order within a module is catalogue order,
  because the loader's alphabetical ordering is not modelled.
- The banners, per-test lines and emoji `run_tests.py` prints: the summary's four
  numbers are modelled, not their text.
- Reading a file: the workspace holds the text a text-mode `read()` returns, i.e. after
  decoding and after newline translation (`\r\n` and `\r` become `\n`). Encodings and
  decoding errors are not modelled.
- The valid-YAML tests catch only `yaml.YAMLError` (tests/deployment/test_docker_compose.py:29-41).
  The model treats every decoder error as a `YAMLError`, so it fails those tests. An
  exception of another kind from the decoder, which would make them err, is not modelled.
- Exceptions other than `ImportError` during an import, and `sys.exit`: the runner
  returns the code instead of exiting.
- `tests/deployment/__init__.py` holds only a docstring and is not part of this model.
- Values.Lookup: a `Dict` may carry a key twice, and `Lookup` takes the first entry. A dict from the YAML decoder has distinct keys, where PyYAML keeps the last value; decoded manifests with repeated keys are not modelled faithfully.
- Values.Repr: always quotes a string with single quotes and escapes nothing; Python switches to double quotes when the string holds a single quote, and escapes special characters.
- Text.Lower: folds ASCII letters only; Python's `lower()` also folds other Unicode letters.
- Text.IsWordChar: `\w` is taken as ASCII letters, digits and `_`; Python's `str`
  patterns also accept other Unicode word characters.
- DockerCompose.PortRule: states the verdict only when the service is a mapping and `ports` is absent or a list. For a
  mapping or a string, `Run` iterates keys or characters as Python does, but no lemma
  states the result.
- DockerCompose.MountRule: states the verdict only when the service is a mapping and `volumes` is absent or a list, for
  the same reason.
- DockerCompose.ImagesRule: stated only when `services` is a mapping of mappings. For
  other values, `ServicesBuilt` and `ServiceBuilt` state the errors `items()` and `in`
  raise, but no lemma about the test's verdict does.
