/** The AgentRun object as the reconcilers see it. */
module AgentRuns {
  import opened Prelude
  import opened Scheduler
  import opened Sorting

  type Uid = string

  /** `Requested` is the empty phase of a run that no controller has observed yet. */
  datatype Phase = Requested | Pending | Running | Succeeded | Failed | BudgetExceeded {
    predicate IsTerminal() { Succeeded? || Failed? || BudgetExceeded? }
  }

  /**
   `owner` is the UID of the controlling Agent ("" for none), `delivered` says whether
   `spec.delivery` is set, `slot` and `sequence` are the parsed scheduling annotations.
   */
  datatype Run = Run(
    name: string,
    owner: Uid,
    delivered: bool,
    slot: Option<Time>,
    sequence: Option<nat>,
    phase: Phase,
    createdAt: Time,
    completedAt: Option<Time>)

  /** How an API write ends: `Lost` took effect but reported an error. */
  datatype Write = Applied | Rejected | Lost

  /** A duration or an instant in nanoseconds, where whole seconds are too coarse. */
  type Nanos = int

  const SECOND: Nanos := 1_000_000_000

  /** A run's wallclock budget as parsed. */
  datatype Budget = NoBudget | Wallclock(limit: Nanos) | InvalidBudget

  ghost predicate DistinctNames(runs: seq<Run>) {
    forall i, j :: 0 <= i < j < |runs| ==> runs[i].name != runs[j].name
  }

  predicate ByName(a: Run, b: Run) { StrLess(a.name, b.name) }

  lemma ByNameTotal(runs: seq<Run>)
    requires DistinctNames(runs)
    ensures TotalOn(ByName, runs) && Distinct(runs)
  {
    forall x | x in runs ensures !ByName(x, x) { StrLessIrreflexive(x.name); }
    forall x, y | x in runs && y in runs ensures ByName(x, y) || x == y || ByName(y, x) {
      StrLessTotal(x.name, y.name);
    }
    forall x, y, z | x in runs && y in runs && z in runs && ByName(x, y) && ByName(y, z)
      ensures ByName(x, z)
    {
      StrLessTransitive(x.name, y.name, z.name);
    }
  }
}
