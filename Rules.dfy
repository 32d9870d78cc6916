/** The shapes most tests share: a run of assertions over an artefact's whole text, each a
    presence, absence, count or pattern condition, and the first that does not hold
    decides the failure. */
module Rules {
  import opened Outcomes
  import opened Text
  import opened Patterns

  /** A condition on the text of an artefact. */
  datatype Cond =
    | NonBlank                      // len(content.strip()) > 0
    | Has(lit: string)              // lit in content
    | HasLower(lit: string)         // lit in content.lower()
    | FirstLineHas(lit: string)     // lit in f.readline()
    | AtLeast(lit: string, n: nat)  // content.count(lit) >= n
    | Matches(pattern: Pattern)     // re.search(pattern, content) is not None
    | Not(c: Cond)
    | And(left: Cond, right: Cond)
    | Or(left: Cond, right: Cond)

  predicate Holds(c: Cond, s: string) {
    match c
    case NonBlank => |Strip(s)| > 0
    case Has(lit) => Contains(s, lit)
    case HasLower(lit) => Contains(Lower(s), lit)
    case FirstLineHas(lit) => Contains(FirstLine(s), lit)
    case AtLeast(lit, n) => Count(s, lit) >= n
    case Matches(p) => Search(p, s)
    case Not(c) => !Holds(c, s)
    case And(l, r) => Holds(l, s) && Holds(r, s)
    case Or(l, r) => Holds(l, s) || Holds(r, s)
  }

  /** `self.assertX(..., message)`: the condition it checks and the message it fails with. */
  datatype Assertion = Assertion(cond: Cond, message: string)

  /** A test body made of assertions run in order: it stops at the first that fails. */
  function CheckAll(asserts: seq<Assertion>, s: string): (v: Verdict)
    decreases |asserts|
    ensures v.Pass? <==> forall i :: 0 <= i < |asserts| ==> Holds(asserts[i].cond, s)
    ensures !v.Error?
    ensures v.Fail? ==>
              exists i :: (0 <= i < |asserts| && !Holds(asserts[i].cond, s) &&
                           v.reason == asserts[i].message &&
                           forall j :: 0 <= j < i ==> Holds(asserts[j].cond, s))
  {
    if asserts == [] then Pass
    else if !Holds(asserts[0].cond, s) then Fail(asserts[0].message)
    else
      var v := CheckAll(asserts[1..], s);
      assert forall i :: 1 <= i < |asserts| ==> asserts[i] == asserts[1..][i - 1];
      v
  }

  /** A test that opens its artefact first: a missing file raises, so the test errs. */
  function OnText(file: string, artefact: Option<string>, asserts: seq<Assertion>): (v: Verdict)
    ensures artefact.None? ==> v.Error?
    ensures artefact.Some? ==> v == CheckAll(asserts, artefact.value)
  {
    match artefact
    case None => Error(MissingFile(file))
    case Some(s) => CheckAll(asserts, s)
  }

  /** The exception `open` raises for a missing file. */
  function MissingFile(file: string): string {
    "FileNotFoundError: No such file or directory: '" + file + "'"
  }

  /** A test that only asks whether its artefact exists: absence is an assertion failure. */
  function ExistsCheck(artefact: Option<string>, message: string): (v: Verdict)
    ensures v.Pass? <==> artefact.Some?
    ensures artefact.None? ==> v == Fail(message)
  {
    Check(artefact.Some?, message)
  }

  /** A single presence assertion passes iff the literal occurs at some index. */
  lemma PresenceIff(lit: string, message: string, s: string)
    ensures CheckAll([Assertion(Has(lit), message)], s) == Pass <==> exists k :: OccursAt(s, k, lit)
    ensures CheckAll([Assertion(Has(lit), message)], s) != Pass ==>
            CheckAll([Assertion(Has(lit), message)], s) == Fail(message)
  {
    assert [Assertion(Has(lit), message)][1..] == [];
    ContainsIff(s, lit);
  }

  /** An absence assertion fails iff the literal occurs at some index. */
  lemma AbsenceIff(lit: string, message: string, s: string)
    ensures CheckAll([Assertion(Not(Has(lit)), message)], s) == Fail(message) <==> exists k :: OccursAt(s, k, lit)
    ensures CheckAll([Assertion(Not(Has(lit)), message)], s).Pass? <==> !exists k :: OccursAt(s, k, lit)
  {
    assert [Assertion(Not(Has(lit)), message)][1..] == [];
    assert Holds(Not(Has(lit)), s) == !Contains(s, lit);
    ContainsIff(s, lit);
  }

  /** A disjunction of presences passes iff one of the literals occurs. */
  function AnyOf(lits: seq<string>): (c: Cond)
    requires lits != []
    decreases |lits|
    ensures forall s :: Holds(c, s) <==> exists i :: 0 <= i < |lits| && Contains(s, lits[i])
  {
    if |lits| == 1 then Has(lits[0])
    else
      var rest := AnyOf(lits[1..]);
      assert forall i :: 1 <= i < |lits| ==> lits[i] == lits[1..][i - 1];
      Or(Has(lits[0]), rest)
  }
}
