/**
 Exploit predicates (src/verifierlab/exploits/dimensions.py) and the minimization
 report built on them (src/verifierlab/minimization/delta.py). A trajectory varies
 only in its steps here; its verifier, ground truth and dimension evaluator are
 deterministic functions of them.
 */
module Exploits {
  import opened Prelude
  import opened DeltaDebug

  datatype Validity = Pass | Fail | Unknown | Abstain

  datatype ValidityDimension =
    | Outcome | Process | Authorization | SideEffect | Evidence | Resource | VerifierAvailability | Rubric

  datatype IntentClause = IntentClause(dimension: ValidityDimension, expectedStatus: Validity, observed: Validity) {
    predicate Violated() {
      (expectedStatus == Pass && observed == Fail) || (expectedStatus == Fail && observed == Pass)
    }
  }

  datatype ExploitPredicate = ExploitPredicate(clauses: seq<IntentClause>, hiddenInvalid: bool) {

    predicate AnyViolated() {
      exists i :: 0 <= i < |clauses| && clauses[i].Violated()
    }

    /** A violated clause whose dimension still shows the violation. */
    predicate Reproduced(status: map<ValidityDimension, Validity>) {
      exists i :: 0 <= i < |clauses| && clauses[i].Violated() && Shows(clauses[i], status)
    }

    predicate Holds(publicAccepted: bool, dimensionStatus: Option<map<ValidityDimension, Validity>>) {
      if !publicAccepted then false
      else if !hiddenInvalid && clauses == [] then false
      else
        var status := match dimensionStatus case None => map[] case Some(m) => m;
        if clauses != [] then Reproduced(status) || (status == map[] && AnyViolated())
        else hiddenInvalid
    }
  }

  predicate Shows(c: IntentClause, status: map<ValidityDimension, Validity>) {
    var seen := if c.dimension in status then status[c.dimension] else c.observed;
    (c.expectedStatus == Pass && seen == Fail) || (c.expectedStatus == Fail && seen == Pass)
  }

  predicate PublicAcceptHiddenInvalid(accepted: bool, valid: bool) {
    accepted && !valid
  }

  /** A predicate holds only on an accepted trajectory, and leaving a status out never
      makes it stop holding: a clause that is not overridden shows its own violation. */
  lemma HoldsWithoutStatus(p: ExploitPredicate, accepted: bool, status: map<ValidityDimension, Validity>)
    requires p.Holds(accepted, Some(status))
    ensures accepted && p.Holds(accepted, None)
  {
    if p.clauses != [] {
      var i :| 0 <= i < |p.clauses| && p.clauses[i].Violated();
      assert Shows(p.clauses[i], map[]);
    }
  }

  /** With every dimension evaluated, a predicate with clauses holds exactly when some
      clause violated on record is violated again. */
  lemma HoldsOnFullStatus(p: ExploitPredicate, accepted: bool, status: map<ValidityDimension, Validity>)
    requires p.clauses != [] && forall c :: c in p.clauses ==> c.dimension in status
    ensures p.Holds(accepted, Some(status)) <==>
      accepted && exists c :: c in p.clauses && c.Violated() && status[c.dimension] == c.observed
  {
    assert p.clauses[0] in p.clauses && p.clauses[0].dimension in status;
    if p.Holds(accepted, Some(status)) {
      var i :| 0 <= i < |p.clauses| && p.clauses[i].Violated() && Shows(p.clauses[i], status);
      assert p.clauses[i] in p.clauses;
    }
    if accepted && exists c :: c in p.clauses && c.Violated() && status[c.dimension] == c.observed {
      var c :| c in p.clauses && c.Violated() && status[c.dimension] == c.observed;
      var i :| 0 <= i < |p.clauses| && p.clauses[i] == c;
      assert Shows(p.clauses[i], status);
    }
  }

  /** How a trajectory is judged; `evaluator` is the optional dimension evaluator. */
  datatype Judge<!T> = Judge(
    verifier: seq<T> -> bool,
    isValid: seq<T> -> bool,
    evaluator: Option<seq<T> -> map<ValidityDimension, Validity>>,
    goal: Option<ExploitPredicate>)
  {
    /** What the search keeps: an unevaluated trajectory has its outcome set either way. */
    predicate Interesting(subset: seq<T>) {
      var accepted, valid := verifier(subset), isValid(subset);
      if goal.None? then PublicAcceptHiddenInvalid(accepted, valid)
      else goal.value.Holds(accepted, Some(SearchStatus(subset)))
    }

    function SearchStatus(subset: seq<T>): map<ValidityDimension, Validity> {
      if evaluator.Some? then evaluator.value(subset)
      else if !isValid(subset) then map[Outcome := Fail]
      else map[Outcome := Pass]
    }

    /** What the report looks at: a valid trajectory gets no status at all. */
    function ReportStatus(subset: seq<T>): Option<map<ValidityDimension, Validity>> {
      if evaluator.Some? then Some(evaluator.value(subset))
      else if !isValid(subset) then Some(map[Outcome := Fail])
      else None
    }
  }

  datatype Report<T> = Report(
    minimized: seq<T>,
    necessary: seq<nat>,
    publicAcceptPreserved: bool,
    hiddenInvalidPreserved: bool,
    classicHolds: bool,
    predicateHolds: Option<bool>,
    stable: bool)

  function AsOracle<T>(judge: Judge<T>): Oracle<T> {
    (call, subset) => judge.Interesting(subset)
  }

  /** Minimize and report. An interesting original always gets a report that says the
      failure is preserved: by the classic flags without a goal, by `predicateHolds`
      with one, although the report computes the status differently from the search. */
  method MinimizeExploit<T(!new, ==)>(steps: seq<T>, judge: Judge<T>, stochasticReruns: int)
    returns (report: Report<T>, ghost kept: seq<nat>)
    ensures IsSelection(kept, |steps|) && report.minimized == Select(steps, kept)
    ensures report.publicAcceptPreserved == judge.verifier(report.minimized)
    ensures report.classicHolds == report.hiddenInvalidPreserved == report.stable
            == PublicAcceptHiddenInvalid(judge.verifier(report.minimized), judge.isValid(report.minimized))
    ensures steps != [] && judge.Interesting(steps) ==>
      && report.minimized != [] && report.publicAcceptPreserved
      && OneMinimal(report.minimized, AsOracle(judge))
      && (judge.goal.None? ==> report.classicHolds && report.stable)
      && (judge.goal.Some? ==> report.predicateHolds == Some(true))
    ensures forall k :: 0 <= k < |steps| ==> (k in report.necessary <==> Needed(steps, k, AsOracle(judge)))
    ensures steps != [] && judge.Interesting(steps) && Monotone(steps, AsOracle(judge)) ==>
      forall k :: k in report.necessary && k < |steps| ==> k in kept
  {
    var oracle := AsOracle(judge);
    var minimized, calls;
    minimized, calls, kept := Ddmin(steps, oracle);
    var necessary := CausalBranchAnalysis(steps, oracle);
    var accepted, valid := judge.verifier(minimized), judge.isValid(minimized);
    var classic := PublicAcceptHiddenInvalid(accepted, valid);
    var holds := None;
    if judge.goal.Some? {
      holds := Some(judge.goal.value.Holds(accepted, judge.ReportStatus(minimized)));
    }
    var reruns := if stochasticReruns > 1 then stochasticReruns else 1;
    var stable := true;
    var run := 0;
    while run < reruns
      invariant 0 <= run <= reruns
      invariant stable == (run == 0 || classic)
    {
      stable := stable && PublicAcceptHiddenInvalid(judge.verifier(minimized), judge.isValid(minimized));
      run := run + 1;
    }
    report := Report(minimized, necessary, accepted, if accepted then !valid else false, classic, holds, stable);
    assert Steady(oracle);
    if steps != [] && judge.Interesting(steps) {
      assert judge.Interesting(minimized);
      if judge.goal.Some? {
        HoldsWithoutStatus(judge.goal.value, accepted, judge.SearchStatus(minimized));
      }
      if Monotone(steps, oracle) {
        forall k | k in necessary && k < |steps|
          ensures k in kept
        {
          NecessaryStepsSurvive(steps, oracle, kept, k);
        }
      }
    }
  }
}
