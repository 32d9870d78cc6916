/** The result object of a unittest run: one outcome per test, the failures and errors it
    records, the four numbers the deployment runner prints and the exit status it derives
    from them. */
module Results {
  import opened Outcomes

  /** A test and its verdict, as the result object records them. */
  datatype Outcome = Outcome(test: string, verdict: Verdict)

  /** What one outcome contributes to each report: its name to the passes, or an entry to
      the failures or to the errors. */
  function PassEntry(x: Outcome): seq<string> {
    if x.verdict.Pass? then [x.test] else []
  }

  function FailureEntry(x: Outcome): seq<Problem> {
    if x.verdict.Fail? then [Problem(x.test, x.verdict.reason)] else []
  }

  function ErrorEntry(x: Outcome): seq<Problem> {
    if x.verdict.Error? then [Problem(x.test, x.verdict.cause)] else []
  }

  /** The tests that passed, in run order. */
  function PassedOf(o: seq<Outcome>): seq<string> {
    if o == [] then [] else PassEntry(o[0]) + PassedOf(o[1..])
  }

  /** The failures a run reports, in run order: each failed test with its message. */
  function FailuresOf(o: seq<Outcome>): seq<Problem> {
    if o == [] then [] else FailureEntry(o[0]) + FailuresOf(o[1..])
  }

  /** The errors a run reports, in run order: each erring test with its exception. */
  function ErrorsOf(o: seq<Outcome>): seq<Problem> {
    if o == [] then [] else ErrorEntry(o[0]) + ErrorsOf(o[1..])
  }

  /** Splitting a run in two splits each of its reports in two. */
  lemma {:induction false} PassedOfConcat(a: seq<Outcome>, b: seq<Outcome>)
    ensures PassedOf(a + b) == PassedOf(a) + PassedOf(b)
    decreases |a|
  {
    if a == [] {
      assert a + b == b;
    } else {
      var e, x, y := PassEntry(a[0]), PassedOf(a[1..]), PassedOf(b);
      assert PassedOf(a + b) == e + PassedOf(a[1..] + b) by {
        assert (a + b)[0] == a[0] && (a + b)[1..] == a[1..] + b;
      }
      assert PassedOf(a[1..] + b) == x + y by {
        PassedOfConcat(a[1..], b);
      }
      assert e + (x + y) == (e + x) + y;
    }
  }

  lemma {:induction false} FailuresOfConcat(a: seq<Outcome>, b: seq<Outcome>)
    ensures FailuresOf(a + b) == FailuresOf(a) + FailuresOf(b)
    decreases |a|
  {
    if a == [] {
      assert a + b == b;
    } else {
      var e, x, y := FailureEntry(a[0]), FailuresOf(a[1..]), FailuresOf(b);
      assert FailuresOf(a + b) == e + FailuresOf(a[1..] + b) by {
        assert (a + b)[0] == a[0] && (a + b)[1..] == a[1..] + b;
      }
      assert FailuresOf(a[1..] + b) == x + y by {
        FailuresOfConcat(a[1..], b);
      }
      assert e + (x + y) == (e + x) + y;
    }
  }

  lemma {:induction false} ErrorsOfConcat(a: seq<Outcome>, b: seq<Outcome>)
    ensures ErrorsOf(a + b) == ErrorsOf(a) + ErrorsOf(b)
    decreases |a|
  {
    if a == [] {
      assert a + b == b;
    } else {
      var e, x, y := ErrorEntry(a[0]), ErrorsOf(a[1..]), ErrorsOf(b);
      assert ErrorsOf(a + b) == e + ErrorsOf(a[1..] + b) by {
        assert (a + b)[0] == a[0] && (a + b)[1..] == a[1..] + b;
      }
      assert ErrorsOf(a[1..] + b) == x + y by {
        ErrorsOfConcat(a[1..], b);
      }
      assert e + (x + y) == (e + x) + y;
    }
  }

  /** Appending one outcome adds it to the one report its verdict belongs to. */
  lemma ReportsOfSnoc(a: seq<Outcome>, x: Outcome)
    ensures PassedOf(a + [x]) == PassedOf(a) + PassEntry(x)
    ensures FailuresOf(a + [x]) == FailuresOf(a) + FailureEntry(x)
    ensures ErrorsOf(a + [x]) == ErrorsOf(a) + ErrorEntry(x)
  {
    PassedOfConcat(a, [x]);
    FailuresOfConcat(a, [x]);
    ErrorsOfConcat(a, [x]);
    assert [x][1..] == [];
    assert PassEntry(x) + [] == PassEntry(x);
    assert FailureEntry(x) + [] == FailureEntry(x);
    assert ErrorEntry(x) + [] == ErrorEntry(x);
  }

  /** The number of tests that passed. */
  function PassCount(o: seq<Outcome>): (n: nat)
    decreases |o|
    ensures n <= |o|
    ensures n == |PassedOf(o)|
    ensures n == |o| <==> forall i :: 0 <= i < |o| ==> o[i].verdict.Pass?
  {
    if o == [] then 0
    else
      var n := PassCount(o[..|o| - 1]);
      assert forall i :: 0 <= i < |o| - 1 ==> o[..|o| - 1][i] == o[i];
      assert o == o[..|o| - 1] + [o[|o| - 1]];
      ReportsOfSnoc(o[..|o| - 1], o[|o| - 1]);
      n + (if o[|o| - 1].verdict.Pass? then 1 else 0)
  }

  /** One entry of `result.failures` or `result.errors`: the test and what it reported. */
  datatype Problem = Problem(test: string, detail: string)

  /** The counters of a unittest result object. */
  datatype TestResult = TestResult(testsRun: nat, failures: seq<Problem>, errors: seq<Problem>)

  /** What the result object does with one verdict. */
  function Record(r: TestResult, o: Outcome): TestResult {
    match o.verdict
    case Pass => r.(testsRun := r.testsRun + 1)
    case Fail(reason) => r.(testsRun := r.testsRun + 1, failures := r.failures + [Problem(o.test, reason)])
    case Error(cause) => r.(testsRun := r.testsRun + 1, errors := r.errors + [Problem(o.test, cause)])
  }

  /** Every outcome lands in exactly one of the three reports. */
  lemma {:induction false} ReportsPartition(o: seq<Outcome>)
    ensures |PassedOf(o)| + |FailuresOf(o)| + |ErrorsOf(o)| == |o|
    decreases |o|
  {
    if o != [] {
      ReportsPartition(o[1..]);
    }
  }

  /** Every reported failure or error is an outcome of the run, with its message. */
  lemma {:induction false} ReportsAreOutcomes(o: seq<Outcome>)
    ensures forall k :: 0 <= k < |FailuresOf(o)| ==> Outcome(FailuresOf(o)[k].test, Fail(FailuresOf(o)[k].detail)) in o
    ensures forall k :: 0 <= k < |ErrorsOf(o)| ==> Outcome(ErrorsOf(o)[k].test, Error(ErrorsOf(o)[k].detail)) in o
    decreases |o|
  {
    if o != [] {
      var tail := o[1..];
      ReportsAreOutcomes(tail);
      assert forall x :: x in tail ==> x in o;
      var fe, ee := FailureEntry(o[0]), ErrorEntry(o[0]);
      forall k | 0 <= k < |FailuresOf(o)|
        ensures Outcome(FailuresOf(o)[k].test, Fail(FailuresOf(o)[k].detail)) in o
      {
        if k < |fe| {
          assert FailuresOf(o)[k] == fe[k];
        } else {
          assert FailuresOf(o)[k] == FailuresOf(tail)[k - |fe|];
        }
      }
      forall k | 0 <= k < |ErrorsOf(o)|
        ensures Outcome(ErrorsOf(o)[k].test, Error(ErrorsOf(o)[k].detail)) in o
      {
        if k < |ee| {
          assert ErrorsOf(o)[k] == ee[k];
        } else {
          assert ErrorsOf(o)[k] == ErrorsOf(tail)[k - |ee|];
        }
      }
    }
  }

  /** Recording one more outcome keeps the result equal to the reports of the run so far. */
  lemma RecordStep(done: seq<Outcome>, x: Outcome, before: TestResult)
    requires before.testsRun == |done| && before.failures == FailuresOf(done) && before.errors == ErrorsOf(done)
    ensures Record(before, x).testsRun == |done| + 1
    ensures Record(before, x).failures == FailuresOf(done + [x])
    ensures Record(before, x).errors == ErrorsOf(done + [x])
  {
    ReportsOfSnoc(done, x);
  }

  /** The result after the given run, starting from an empty result. */
  function Tally(o: seq<Outcome>): (r: TestResult)
    decreases |o|
    ensures r.testsRun == |o|
    ensures r.failures == FailuresOf(o) && r.errors == ErrorsOf(o)
    ensures |r.failures| + |r.errors| + PassCount(o) == |o|
    ensures forall k :: 0 <= k < |r.failures| ==> Outcome(r.failures[k].test, Fail(r.failures[k].detail)) in o
    ensures forall k :: 0 <= k < |r.errors| ==> Outcome(r.errors[k].test, Error(r.errors[k].detail)) in o
  {
    ReportsPartition(o);
    ReportsAreOutcomes(o);
    if o == [] then TestResult(0, [], [])
    else
      var done, last := o[..|o| - 1], o[|o| - 1];
      var before := Tally(done);
      RecordStep(done, last, before);
      assert done + [last] == o;
      Record(before, last)
  }

  /** The four counts the runner prints. */
  datatype Summary = Summary(testsRun: int, successes: int, failures: int, errors: int)

  function Summarize(r: TestResult): Summary {
    Summary(r.testsRun, r.testsRun - |r.failures| - |r.errors|, |r.failures|, |r.errors|)
  }

  /** `result.wasSuccessful()`: no failure and no error. */
  predicate WasSuccessful(r: TestResult) {
    |r.failures| == 0 && |r.errors| == 0
  }

  /** The value `run_deployment_tests` returns, which becomes the exit status. */
  function ExitCode(r: TestResult): (code: int)
    ensures code == 0 || code == 1
    ensures code == 0 <==> WasSuccessful(r)
  {
    if WasSuccessful(r) then 0 else 1
  }

  /** The printed successes equal the number of tests that passed. */
  lemma SuccessesArePasses(o: seq<Outcome>)
    ensures Summarize(Tally(o)).successes == PassCount(o)
    ensures Summarize(Tally(o)).successes >= 0
  {
  }

  /** The run exits 0 exactly when every test of the suite passed. */
  lemma ExitCodeIff(o: seq<Outcome>)
    ensures ExitCode(Tally(o)) == 0 <==> forall i :: 0 <= i < |o| ==> o[i].verdict.Pass?
  {
  }
}
