/** The deployment test runner: it loads the three test modules in their declared order,
    skipping one whose import fails, runs every loaded test, prints the counts and exits 0
    exactly when nothing failed or erred. */
module RunTests {
  import opened Outcomes
  import opened Artifacts
  import opened Results
  import DockerCompose
  import ConfigFiles
  import ShellScripts

  /** The test modules the runner knows. */
  datatype TestModule = ComposeModule | ConfigModule | ShellModule

  function ModuleName(m: TestModule): string {
    match m
    case ComposeModule => "test_docker_compose"
    case ConfigModule => "test_config_files"
    case ShellModule => "test_shell_scripts"
  }

  /** The modules the runner imports, in order. */
  const TestModules: seq<TestModule> := [ComposeModule, ConfigModule, ShellModule]

  /** One test of the suite, from whichever module defines it. */
  datatype TestCase =
    | ComposeCase(compose: DockerCompose.Test)
    | ConfigCase(config: ConfigFiles.Test)
    | ShellCase(shell: ShellScripts.Test)

  function CaseName(c: TestCase): string {
    match c
    case ComposeCase(t) => t.name
    case ConfigCase(t) => t.name
    case ShellCase(t) => t.name
  }

  function RunCase(c: TestCase, w: Workspace): Verdict {
    match c
    case ComposeCase(t) => DockerCompose.Run(t, w)
    case ConfigCase(t) => ConfigFiles.Run(t, w)
    case ShellCase(t) => ShellScripts.Run(t, w)
  }

  /** `loader.loadTestsFromModule(module)`: the module's tests, wrapped as suite entries. */
  function ModuleTests(m: TestModule): seq<TestCase> {
    match m
    case ComposeModule => ComposeCases()
    case ConfigModule => ConfigCases()
    case ShellModule => ShellCases()
  }

  function ComposeCases(): (cases: seq<TestCase>)
    ensures |cases| == |DockerCompose.Tests|
    ensures forall i :: 0 <= i < |cases| ==> cases[i] == ComposeCase(DockerCompose.Tests[i])
  {
    seq(|DockerCompose.Tests|, i requires 0 <= i < |DockerCompose.Tests| => ComposeCase(DockerCompose.Tests[i]))
  }

  function ConfigCases(): (cases: seq<TestCase>)
    ensures |cases| == |ConfigFiles.Tests|
    ensures forall i :: 0 <= i < |cases| ==> cases[i] == ConfigCase(ConfigFiles.Tests[i])
  {
    seq(|ConfigFiles.Tests|, i requires 0 <= i < |ConfigFiles.Tests| => ConfigCase(ConfigFiles.Tests[i]))
  }

  function ShellCases(): (cases: seq<TestCase>)
    ensures |cases| == |ShellScripts.Tests|
    ensures forall i :: 0 <= i < |cases| ==> cases[i] == ShellCase(ShellScripts.Tests[i])
  {
    seq(|ShellScripts.Tests|, i requires 0 <= i < |ShellScripts.Tests| => ShellCase(ShellScripts.Tests[i]))
  }

  /** What the runner prints for one module: loaded, or the ImportError that skipped it. */
  datatype LoadEvent = Loaded(moduleName: string) | FailedToLoad(moduleName: string, error: string)

  /** The event for one module, given the modules whose import raises ImportError. */
  function EventOf(m: TestModule, importErrors: map<TestModule, string>): (e: LoadEvent)
    ensures e.moduleName == ModuleName(m)
    ensures e.FailedToLoad? <==> m in importErrors
    ensures e.FailedToLoad? ==> e.error == importErrors[m]
  {
    if m in importErrors then FailedToLoad(ModuleName(m), importErrors[m]) else Loaded(ModuleName(m))
  }

  /** The suite the loop builds from `modules`: the tests `load` gives for every module
      that imports, in the order of `modules`. The runner's `load` is `ModuleTests`; the
      lemmas below hold for any loader. */
  function SuiteOf(modules: seq<TestModule>, importErrors: map<TestModule, string>,
                   load: TestModule -> seq<TestCase>): seq<TestCase>
    decreases |modules|
  {
    if modules == [] then []
    else
      var last := modules[|modules| - 1];
      SuiteOf(modules[..|modules| - 1], importErrors, load) + (if last in importErrors then [] else load(last))
  }

  /** The loop over `test_modules`: each module is imported and its tests appended, or its
      ImportError is reported and the loop goes on with the next module. */
  method LoadSuite(importErrors: map<TestModule, string>, load: TestModule -> seq<TestCase>)
    returns (suite: seq<TestCase>, log: seq<LoadEvent>)
    ensures suite == SuiteOf(TestModules, importErrors, load)
    ensures |log| == |TestModules|
    ensures forall i :: 0 <= i < |log| ==> log[i] == EventOf(TestModules[i], importErrors)
  {
    suite := [];
    log := [];
    for i := 0 to |TestModules|
      invariant suite == SuiteOf(TestModules[..i], importErrors, load)
      invariant |log| == i
      invariant forall j :: 0 <= j < i ==> log[j] == EventOf(TestModules[j], importErrors)
    {
      var name := TestModules[i];
      assert TestModules[..i + 1][..i] == TestModules[..i];
      if name in importErrors {
        log := log + [FailedToLoad(ModuleName(name), importErrors[name])];
      } else {
        suite := suite + load(name);
        log := log + [Loaded(ModuleName(name))];
      }
    }
    assert TestModules[..|TestModules|] == TestModules;
  }

  /** Building the suite from two runs of modules gives the two suites one after the other. */
  lemma {:induction false} SuiteOfConcat(a: seq<TestModule>, b: seq<TestModule>, importErrors: map<TestModule, string>,
                                         load: TestModule -> seq<TestCase>)
    ensures SuiteOf(a + b, importErrors, load) == SuiteOf(a, importErrors, load) + SuiteOf(b, importErrors, load)
    decreases |b|
  {
    if b == [] {
      assert a + b == a;
    } else {
      var b', last := b[..|b| - 1], b[|b| - 1];
      var x := if last in importErrors then [] else load(last);
      assert (a + b)[..|a + b| - 1] == a + b';
      assert (a + b)[|a + b| - 1] == last;
      assert SuiteOf(a + b, importErrors, load) == SuiteOf(a + b', importErrors, load) + x;
      assert SuiteOf(b, importErrors, load) == SuiteOf(b', importErrors, load) + x;
      SuiteOfConcat(a, b', importErrors, load);
      var sa, sb := SuiteOf(a, importErrors, load), SuiteOf(b', importErrors, load);
      assert (sa + sb) + x == sa + (sb + x);
    }
  }

  lemma SuiteOfOne(name: TestModule, importErrors: map<TestModule, string>, load: TestModule -> seq<TestCase>)
    ensures SuiteOf([name], importErrors, load) == if name in importErrors then [] else load(name)
  {
    assert [name][..0] == [];
  }

  /** The suite of the three modules is the suites of each, in declared order. */
  lemma SuiteOfThree(importErrors: map<TestModule, string>, load: TestModule -> seq<TestCase>)
    ensures SuiteOf(TestModules, importErrors, load) ==
            SuiteOf([ComposeModule], importErrors, load) + SuiteOf([ConfigModule], importErrors, load) +
            SuiteOf([ShellModule], importErrors, load)
  {
    assert TestModules == [ComposeModule] + [ConfigModule] + [ShellModule];
    SuiteOfConcat([ComposeModule] + [ConfigModule], [ShellModule], importErrors, load);
    SuiteOfConcat([ComposeModule], [ConfigModule], importErrors, load);
  }

  /** With every import succeeding, the suite is the compose tests, then the config file
      tests, then the shell script tests. */
  lemma LoadOrder(importErrors: map<TestModule, string>)
    requires forall i :: 0 <= i < |TestModules| ==> TestModules[i] !in importErrors
    ensures SuiteOf(TestModules, importErrors, ModuleTests) ==
            ModuleTests(ComposeModule) + ModuleTests(ConfigModule) + ModuleTests(ShellModule)
    ensures |SuiteOf(TestModules, importErrors, ModuleTests)| ==
            |DockerCompose.Tests| + |ConfigFiles.Tests| + |ShellScripts.Tests|
  {
    SuiteOfThree(importErrors, ModuleTests);
    SuiteOfOne(ComposeModule, importErrors, ModuleTests);
    SuiteOfOne(ConfigModule, importErrors, ModuleTests);
    SuiteOfOne(ShellModule, importErrors, ModuleTests);
  }

  /** A module whose import fails is left out and the modules on both sides of it still
      load, in order. */
  lemma SkippedModule(importErrors: map<TestModule, string>, load: TestModule -> seq<TestCase>, k: nat)
    requires k < |TestModules| && TestModules[k] in importErrors
    ensures SuiteOf(TestModules, importErrors, load) ==
            SuiteOf(TestModules[..k], importErrors, load) + SuiteOf(TestModules[k + 1..], importErrors, load)
  {
    var before, after := TestModules[..k], TestModules[k + 1..];
    assert TestModules == before + [TestModules[k]] + after;
    SuiteOfConcat(before + [TestModules[k]], after, importErrors, load);
    SuiteOfConcat(before, [TestModules[k]], importErrors, load);
    SuiteOfOne(TestModules[k], importErrors, load);
    assert SuiteOf(before + [TestModules[k]], importErrors, load) == SuiteOf(before, importErrors, load) + [];
  }

  /** `runner.run(suite)`: every test of the suite runs, in suite order. */
  function RunSuite(suite: seq<TestCase>, w: Workspace): (o: seq<Outcome>)
    ensures |o| == |suite|
    ensures forall i :: 0 <= i < |suite| ==> o[i].test == CaseName(suite[i]) && o[i].verdict == RunCase(suite[i], w)
  {
    seq(|suite|, i requires 0 <= i < |suite| => Outcome(CaseName(suite[i]), RunCase(suite[i], w)))
  }

  /** When every import fails the suite is empty, whatever the modules hold. */
  lemma NoModuleLoads(importErrors: map<TestModule, string>, load: TestModule -> seq<TestCase>)
    requires forall i :: 0 <= i < |TestModules| ==> TestModules[i] in importErrors
    ensures SuiteOf(TestModules, importErrors, load) == []
  {
    SuiteOfThree(importErrors, load);
    SuiteOfOne(ComposeModule, importErrors, load);
    SuiteOfOne(ConfigModule, importErrors, load);
    SuiteOfOne(ShellModule, importErrors, load);
  }

  /** When every import fails the suite is empty, and the run exits 0. */
  lemma EmptySuite(importErrors: map<TestModule, string>, w: Workspace)
    requires forall i :: 0 <= i < |TestModules| ==> TestModules[i] in importErrors
    ensures SuiteOf(TestModules, importErrors, ModuleTests) == []
    ensures ExitCode(Tally(RunSuite(SuiteOf(TestModules, importErrors, ModuleTests), w))) == 0
  {
    NoModuleLoads(importErrors, ModuleTests);
    assert RunSuite([], w) == [];
  }

  /** `run_deployment_tests`: load, run, summarise, and return the exit status. */
  method RunDeploymentTests(importErrors: map<TestModule, string>, w: Workspace)
    returns (code: int, summary: Summary, log: seq<LoadEvent>)
    ensures var suite := SuiteOf(TestModules, importErrors, ModuleTests);
            code == 0 <==> forall i :: 0 <= i < |suite| ==> RunCase(suite[i], w).Pass?
    ensures code == 0 || code == 1
    ensures var o := RunSuite(SuiteOf(TestModules, importErrors, ModuleTests), w);
            summary == Summarize(Tally(o)) && summary.successes == PassCount(o) &&
            summary.testsRun == |SuiteOf(TestModules, importErrors, ModuleTests)|
    ensures |log| == |TestModules| && forall i :: 0 <= i < |log| ==> log[i] == EventOf(TestModules[i], importErrors)
  {
    var suite;
    suite, log := LoadSuite(importErrors, ModuleTests);
    var outcomes := RunSuite(suite, w);
    var result := Tally(outcomes);
    summary := Summarize(result);
    code := ExitCode(result);
    ExitCodeIff(outcomes);
    SuccessesArePasses(outcomes);
  }
}
