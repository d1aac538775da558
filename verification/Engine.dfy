/** The deployment engine as far as the repository relies on it: resources form a dependency graph, and
    the engine may start any resource whose dependencies have finished, any number of them at once. */
module Engine {

  /** `g[i]` are the resources that resource `i` depends on; a program can only refer to earlier ones. */
  type Graph = seq<set<nat>>

  ghost predicate WellFormed(g: Graph)
  {
    forall i, d :: 0 <= i < |g| && d in g[i] ==> d < i
  }

  /** Resource `i` is, directly or not, a dependency of resource `j`. */
  ghost predicate Precedes(g: Graph, i: nat, j: nat)
    requires WellFormed(g) && j < |g|
    decreases j
  {
    exists d :: d in g[j] && (d == i || Precedes(g, i, d))
  }

  lemma {:induction false} PrecedesIsEarlier(g: Graph, i: nat, j: nat)
    requires WellFormed(g) && j < |g| && Precedes(g, i, j)
    ensures i < j
    decreases j
  {
    var d :| d in g[j] && (d == i || Precedes(g, i, d));
    if d != i { PrecedesIsEarlier(g, i, d); }
  }

  /** Adding resources does not change the order of the existing ones. */
  lemma {:induction false} PrecedesIsStable(g: Graph, g': Graph, i: nat, j: nat)
    requires WellFormed(g) && WellFormed(g') && g <= g' && j < |g|
    ensures Precedes(g, i, j) <==> Precedes(g', i, j)
    decreases j
  {
    assert g[j] == g'[j];
    forall d | d in g[j] ensures Precedes(g, i, d) <==> Precedes(g', i, d) {
      PrecedesIsStable(g, g', i, d);
    }
  }

  // ---------------------------------------------------------------- Schedules

  datatype Status = Waiting | Running | Done
  datatype Step = Start(id: nat) | Finish(id: nat)

  ghost predicate Enabled(g: Graph, s: seq<Status>, step: Step)
    requires WellFormed(g) && |s| == |g|
  {
    && step.id < |g|
    && match step
       case Start(i) => s[i] == Waiting && forall d :: d in g[i] ==> s[d] == Done
       case Finish(i) => s[i] == Running
  }

  /** Every step of the schedule was allowed when it happened. */
  ghost predicate Schedule(g: Graph, run: seq<Step>)
    requires WellFormed(g)
    decreases |run|, 0
  {
    run == [] || (Schedule(g, run[..|run| - 1]) && Enabled(g, After(g, run[..|run| - 1]), run[|run| - 1]))
  }

  ghost function After(g: Graph, run: seq<Step>): (s: seq<Status>)
    requires WellFormed(g) && Schedule(g, run)
    ensures |s| == |g|
    decreases |run|, 1
  {
    if run == [] then seq(|g|, _ => Waiting) else
      var s, step := After(g, run[..|run| - 1]), run[|run| - 1];
      s[step.id := if step.Start? then Running else Done]
  }

  lemma AddStep(g: Graph, run: seq<Step>, step: Step)
    requires WellFormed(g) && Schedule(g, run) && Enabled(g, After(g, run), step)
    ensures Schedule(g, run + [step])
    ensures After(g, run + [step]) == After(g, run)[step.id := if step.Start? then Running else Done]
  {
    assert (run + [step])[..|run|] == run;
  }

  /** Whatever has started has all its direct dependencies finished. */
  lemma {:induction false} DependenciesDone(g: Graph, run: seq<Step>)
    requires WellFormed(g) && Schedule(g, run)
    ensures forall j, d :: 0 <= j < |g| && After(g, run)[j] != Waiting && d in g[j] ==> After(g, run)[d] == Done
    decreases |run|
  {
    if run != [] {
      DependenciesDone(g, run[..|run| - 1]);
    }
  }

  /** In every schedule a resource starts only after everything that precedes it has finished. */
  lemma {:induction false} OrderIsKept(g: Graph, run: seq<Step>, i: nat, j: nat)
    requires WellFormed(g) && Schedule(g, run) && j < |g| && Precedes(g, i, j)
    ensures i < j
    ensures After(g, run)[j] != Waiting ==> After(g, run)[i] == Done
    decreases j
  {
    PrecedesIsEarlier(g, i, j);
    DependenciesDone(g, run);
    var d :| d in g[j] && (d == i || Precedes(g, i, d));
    if d != i { OrderIsKept(g, run, i, d); }
  }

  // ---------------------------------------------------------------- Mutual exclusion

  ghost predicate Ordered(g: Graph, i: nat, j: nat)
    requires WellFormed(g) && i < |g| && j < |g|
  {
    Precedes(g, i, j) || Precedes(g, j, i)
  }

  /** In some schedule both resources run at the same time. */
  ghost predicate CanOverlap(g: Graph, i: nat, j: nat)
    requires WellFormed(g) && i < |g| && j < |g|
  {
    exists run: seq<Step> :: Schedule(g, run) && After(g, run)[i] == After(g, run)[j] == Running
  }

  ghost predicate Needed(g: Graph, i: nat, j: nat, m: nat)
    requires WellFormed(g) && i < |g| && j < |g|
  {
    Precedes(g, m, i) || Precedes(g, m, j)
  }

  lemma {:induction false} NeededIsClosed(g: Graph, m: nat, d: nat, j: nat)
    requires WellFormed(g) && j < |g| && m < |g| && Precedes(g, m, j) && d in g[m]
    ensures Precedes(g, d, j)
    decreases j
  {
    var e :| e in g[j] && (e == m || Precedes(g, m, e));
    if e == m {
      assert Precedes(g, d, e);
    } else {
      NeededIsClosed(g, m, d, e);
    }
  }

  lemma StartAndFinish(g: Graph, run: seq<Step>, i: nat) returns (longer: seq<Step>)
    requires WellFormed(g) && Schedule(g, run) && i < |g| && After(g, run)[i] == Waiting
    requires forall d :: d in g[i] ==> After(g, run)[d] == Done
    ensures Schedule(g, longer) && After(g, longer) == After(g, run)[i := Done]
  {
    AddStep(g, run, Start(i));
    AddStep(g, run + [Start(i)], Finish(i));
    longer := run + [Start(i)] + [Finish(i)];
  }

  /** A schedule that finishes exactly those of the first `k` resources that `i` or `j` needs. */
  lemma {:induction false} FinishNeeded(g: Graph, i: nat, j: nat, k: nat) returns (run: seq<Step>)
    requires WellFormed(g) && i < |g| && j < |g| && k <= |g|
    ensures Schedule(g, run)
    ensures forall m :: 0 <= m < |g| ==> After(g, run)[m] == if m < k && Needed(g, i, j, m) then Done else Waiting
    decreases k
  {
    if k == 0 {
      run := [];
    } else {
      run := FinishNeeded(g, i, j, k - 1);
      if Needed(g, i, j, k - 1) {
        forall d | d in g[k - 1] ensures After(g, run)[d] == Done {
          if Precedes(g, k - 1, i) { NeededIsClosed(g, k - 1, d, i); } else { NeededIsClosed(g, k - 1, d, j); }
        }
        run := StartAndFinish(g, run, k - 1);
      }
    }
  }

  lemma UnorderedOverlap(g: Graph, i: nat, j: nat)
    requires WellFormed(g) && i < |g| && j < |g| && i != j && !Ordered(g, i, j)
    ensures CanOverlap(g, i, j)
  {
    var run := FinishNeeded(g, i, j, |g|);
    if Precedes(g, i, i) { PrecedesIsEarlier(g, i, i); }
    if Precedes(g, j, j) { PrecedesIsEarlier(g, j, j); }
    forall d | d in g[i] ensures Needed(g, i, j, d) { assert Precedes(g, d, i); }
    forall d | d in g[j] ensures Needed(g, i, j, d) { assert Precedes(g, d, j); }
    AddStep(g, run, Start(i));
    AddStep(g, run + [Start(i)], Start(j));
    var both := run + [Start(i)] + [Start(j)];
    assert After(g, both)[i] == After(g, both)[j] == Running;
  }

  /** Two resources exclude each other in all schedules exactly when the graph orders them. */
  lemma ExclusiveIffOrdered(g: Graph, i: nat, j: nat)
    requires WellFormed(g) && i < |g| && j < |g| && i != j
    ensures CanOverlap(g, i, j) <==> !Ordered(g, i, j)
  {
    if Ordered(g, i, j) {
      forall run: seq<Step> | Schedule(g, run)
        ensures !(After(g, run)[i] == After(g, run)[j] == Running)
      {
        if Precedes(g, i, j) { OrderIsKept(g, run, i, j); } else { OrderIsKept(g, run, j, i); }
      }
    } else {
      UnorderedOverlap(g, i, j);
    }
  }

  /** The last two resources overlap unless the last depends directly on the other. */
  lemma LastTwoOverlap(g: Graph)
    requires WellFormed(g) && |g| >= 2 && |g| - 2 !in g[|g| - 1]
    ensures CanOverlap(g, |g| - 2, |g| - 1)
  {
    var i, j := |g| - 2, |g| - 1;
    if Precedes(g, j, i) { PrecedesIsEarlier(g, j, i); }
    if Precedes(g, i, j) {
      var d :| d in g[j] && (d == i || Precedes(g, i, d));
      PrecedesIsEarlier(g, i, d);
    }
    UnorderedOverlap(g, i, j);
  }

  // ---------------------------------------------------------------- Progress

  /** A schedule that is not finished can always take another step. */
  lemma Progress(g: Graph, run: seq<Step>)
    requires WellFormed(g) && Schedule(g, run)
    ensures (exists i :: 0 <= i < |g| && After(g, run)[i] != Done) <==>
            (exists step: Step :: Enabled(g, After(g, run), step))
  {
    var s := After(g, run);
    if i :| 0 <= i < |g| && s[i] != Done {
      var m := FirstUnfinished(s, i);
      var step := if s[m] == Running then Finish(m) else Start(m);
      assert Enabled(g, s, step);
    }
  }

  lemma {:induction false} FirstUnfinished(s: seq<Status>, i: nat) returns (m: nat)
    requires i < |s| && s[i] != Done
    ensures m < |s| && s[m] != Done && forall k :: 0 <= k < m ==> s[k] == Done
    decreases i
  {
    if k :| 0 <= k < i && s[k] != Done {
      m := FirstUnfinished(s, k);
    } else {
      m := i;
    }
  }

  function StepsTaken(s: seq<Status>): (n: nat)
  {
    if s == [] then 0 else
      StepsTaken(s[..|s| - 1]) + match s[|s| - 1] case Waiting => 0 case Running => 1 case Done => 2
  }

  lemma {:induction false} StepsTakenUpdate(s: seq<Status>, i: nat, v: Status)
    requires i < |s| && ((s[i] == Waiting && v == Running) || (s[i] == Running && v == Done))
    ensures StepsTaken(s[i := v]) == StepsTaken(s) + 1
    decreases |s|
  {
    var n := |s| - 1;
    if i == n {
      assert s[i := v][..n] == s[..n];
    } else {
      assert s[i := v][..n] == s[..n][i := v];
      StepsTakenUpdate(s[..n], i, v);
    }
  }

  lemma {:induction false} StepsTakenRange(s: seq<Status>)
    ensures StepsTaken(s) <= 2 * |s|
    ensures (forall i :: 0 <= i < |s| ==> s[i] == Waiting) ==> StepsTaken(s) == 0
    decreases |s|
  {
    if s != [] { StepsTakenRange(s[..|s| - 1]); }
  }

  /** Every schedule ends: two steps per resource at most. */
  lemma {:induction false} SchedulesEnd(g: Graph, run: seq<Step>)
    requires WellFormed(g) && Schedule(g, run)
    ensures |run| == StepsTaken(After(g, run)) <= 2 * |g|
    decreases |run|
  {
    StepsTakenRange(After(g, run));
    if run != [] {
      var before := run[..|run| - 1];
      SchedulesEnd(g, before);
      StepsTakenUpdate(After(g, before), run[|run| - 1].id, if run[|run| - 1].Start? then Running else Done);
    }
  }
}
