/** What the package managers do to the dependency graph, on values: one step per call. */
module Serialisation {
  import opened Wrappers
  import opened Engine

  datatype Kind = UpdateDB | Install | Uninstall

  /** `mine` are the commands of this package manager; `opts` and `updateDB` are its fields;
      `handles` are the resources that calling code can name in a dependency. */
  datatype World = World(graph: Graph, mine: map<nat, Kind>, opts: set<nat>, updateDB: Option<nat>, handles: set<nat>)

  /** One call, with the outcome of everything that is decided elsewhere. `user` are the dependencies
      that the caller asks for. `Other` is a resource registered by any other code. */
  datatype Call =
    | Ensure(user: set<nat>, optionsFail: bool, updateFails: bool, commandFails: bool)
    | EnsureUninstalled(user: set<nat>, optionsFail: bool, noCommand: bool, commandFails: bool)
    | Other(user: set<nat>)

  /** `base` are the dependencies that the runner adds to every command. */
  datatype Config = Config(base: set<nat>, hasUpdate: bool)

  function Issue(w: World, kind: Kind, deps: set<nat>): World
  {
    w.(graph := w.graph + [deps], mine := w.mine[|w.graph| := kind])
  }

  /** The command just issued is returned to the caller and becomes a dependency of all later ones. */
  function Publish(w: World, id: nat): World
  {
    w.(opts := w.opts + {id}, handles := w.handles + {id})
  }

  /** Issues the DB update, unless that has been done or there is none. */
  function Updated(c: Config, w: World, deps: set<nat>): World
  {
    if c.hasUpdate && w.updateDB.None? then Issue(w, UpdateDB, deps).(updateDB := Some(|w.graph|)) else w
  }

  function InstallDeps(c: Config, w: World, deps: set<nat>): set<nat>
  {
    deps + if c.hasUpdate && w.updateDB.Some? then {w.updateDB.value} else {}
  }

  function Apply(c: Config, w: World, call: Call): World
  {
    var deps := c.base + call.user + w.opts;
    match call
    case Ensure(_, optionsFail, updateFails, commandFails) =>
      if optionsFail then w
      else if c.hasUpdate && w.updateDB.None? && updateFails then w
      else
        var w1 := Updated(c, w, deps);
        if commandFails then w1 else Publish(Issue(w1, Install, InstallDeps(c, w1, deps)), |w1.graph|)
    case EnsureUninstalled(_, optionsFail, noCommand, commandFails) =>
      if optionsFail || noCommand || commandFails then w
      else Publish(Issue(w, Uninstall, deps), |w.graph|)
    case Other(user) =>
      w.(graph := w.graph + [user], handles := w.handles + {|w.graph|})
  }

  ghost predicate Within(ids: set<nat>, g: Graph)
  {
    forall i :: i in ids ==> i < |g|
  }

  ghost predicate Initial(c: Config, w: World)
  {
    && WellFormed(w.graph)
    && w.mine == map[] && w.opts == {} && w.updateDB.None?
    && c.base <= w.handles && Within(w.handles, w.graph)
  }

  /** The DB update has been issued, but no install: an earlier `Ensure` issued it and then failed. */
  ghost predicate Exposed(w: World)
    requires Within(w.opts, w.graph)
  {
    w.updateDB.Some? && forall o :: o in w.opts ==> w.updateDB.value !in w.graph[o]
  }

  ghost predicate Inv(c: Config, w: World)
  {
    && WellFormed(w.graph)
    && c.base <= w.handles && Within(w.handles, w.graph)
    && w.opts <= w.handles
    && w.mine.Keys == w.opts + (if w.updateDB.Some? then {w.updateDB.value} else {})
    && (w.updateDB.Some? ==> c.hasUpdate && w.updateDB.value < |w.graph|)
    // The DB update is issued at most once, and every install depends on it.
    && (forall m :: m in w.mine ==> (w.mine[m] == UpdateDB <==> w.updateDB == Some(m)))
    && (c.hasUpdate ==> forall m :: m in w.mine && w.mine[m] == Install ==>
          w.updateDB.Some? && w.updateDB.value in w.graph[m])
    // Until an install depends on it, nothing that callers can name depends on the DB update.
    && (Exposed(w) ==> forall h :: h in w.handles ==>
          h != w.updateDB.value && !Precedes(w.graph, w.updateDB.value, h))
  }

  /** The graph orders any two commands of this package manager. */
  ghost predicate Serial(w: World)
    requires WellFormed(w.graph) && Within(w.mine.Keys, w.graph)
  {
    forall i, j :: i in w.mine && j in w.mine && i != j ==> Ordered(w.graph, i, j)
  }

  /** How far the DB update has got, as a caller can tell from the outcomes of the calls so far. */
  datatype Phase = NotIssued | OnlyUpdated | Installed

  function Next(hasUpdate: bool, p: Phase, call: Call): Phase
  {
    if !hasUpdate || !call.Ensure? || call.optionsFail || (p.NotIssued? && call.updateFails) then p
    else if !call.commandFails then Installed
    else if p.NotIssued? then OnlyUpdated
    else p
  }

  ghost function PhaseOf(w: World): Phase
    requires Within(w.opts, w.graph)
  {
    if w.updateDB.None? then NotIssued else if Exposed(w) then OnlyUpdated else Installed
  }

  /** The one unsafe call: it issues an uninstall while no install has followed the DB update. */
  predicate Unsafe(p: Phase, call: Call)
  {
    p.OnlyUpdated? && call.EnsureUninstalled? && !call.optionsFail && !call.noCommand && !call.commandFails
  }

  // ---------------------------------------------------------------- One step

  lemma GraphGrows(g: Graph, deps: set<nat>)
    requires WellFormed(g) && forall d :: d in deps ==> d < |g|
    ensures WellFormed(g + [deps])
    ensures forall i: nat, j: nat {:trigger Precedes(g + [deps], i, j)} :: j < |g| ==>
      (Precedes(g + [deps], i, j) <==> Precedes(g, i, j))
  {
    forall i: nat, j: nat | j < |g| ensures Precedes(g + [deps], i, j) <==> Precedes(g, i, j) {
      PrecedesIsStable(g, g + [deps], i, j);
    }
  }

  /** A new command keeps the commands in order exactly when it comes after each of them. */
  lemma IssueSerial(c: Config, w: World, kind: Kind, deps: set<nat>)
    requires Inv(c, w) && Within(deps, w.graph)
    ensures WellFormed(Issue(w, kind, deps).graph)
    ensures Serial(Issue(w, kind, deps)) <==>
      Serial(w) && forall m :: m in w.mine ==> Precedes(w.graph + [deps], m, |w.graph|)
  {
    GraphGrows(w.graph, deps);
    var g, n := w.graph + [deps], |w.graph|;
    forall m | m in w.mine && Precedes(g, n, m) ensures false {
      PrecedesIsEarlier(g, n, m);
    }
    if Serial(Issue(w, kind, deps)) {
      forall i, j | i in w.mine && j in w.mine && i != j ensures Ordered(w.graph, i, j) {
        assert Ordered(g, i, j);
      }
      forall m | m in w.mine ensures Precedes(g, m, n) {
        assert Ordered(g, m, n);
      }
    }
  }

  /** A command that depends on all of `opts` comes after every command but an exposed DB update. */
  lemma AfterAllButExposed(c: Config, w: World, deps: set<nat>, m: nat)
    requires Inv(c, w) && w.opts <= deps && Within(deps, w.graph)
    requires m in w.mine && (m in deps || !Exposed(w) || Some(m) != w.updateDB)
    ensures WellFormed(w.graph + [deps])
    ensures Precedes(w.graph + [deps], m, |w.graph|)
  {
    GraphGrows(w.graph, deps);
    var g := w.graph + [deps];
    assert g[|w.graph|] == deps;
    if m !in deps {
      assert w.updateDB == Some(m);
      var o :| o in w.opts && m in w.graph[o];
      assert m in g[o] && o in g[|w.graph|];
      assert Precedes(g, m, o);
    }
  }

  /** A command that depends only on what callers can name is unordered with an exposed DB update. */
  lemma NotAfterExposed(c: Config, w: World, deps: set<nat>)
    requires Inv(c, w) && Exposed(w) && deps <= w.handles
    ensures WellFormed(w.graph + [deps])
    ensures !Precedes(w.graph + [deps], w.updateDB.value, |w.graph|)
  {
    GraphGrows(w.graph, deps);
  }

  lemma OtherStep(c: Config, w: World, user: set<nat>)
    requires Inv(c, w) && user <= w.handles
    ensures Inv(c, Apply(c, w, Other(user)))
    ensures Serial(Apply(c, w, Other(user))) <==> Serial(w)
    ensures Exposed(Apply(c, w, Other(user))) <==> Exposed(w)
  {
    GraphGrows(w.graph, user);
    var w' := Apply(c, w, Other(user));
    assert forall i, j :: i in w.mine && j in w.mine ==> (Ordered(w'.graph, i, j) <==> Ordered(w.graph, i, j));
    assert Exposed(w') == Exposed(w);
    if Exposed(w) { NotAfterExposed(c, w, user); }
  }

  /** Issuing the DB update: it comes after everything, and from now on it is exposed. */
  lemma UpdateStep(c: Config, w: World, deps: set<nat>)
    requires Inv(c, w) && c.hasUpdate && w.updateDB.None? && w.opts <= deps <= w.handles
    ensures var w' := Updated(c, w, deps);
            Inv(c, w') && Exposed(w') && (Serial(w') <==> Serial(w))
  {
    GraphGrows(w.graph, deps);
    IssueSerial(c, w, UpdateDB, deps);
    var w' := Updated(c, w, deps);
    forall m | m in w.mine ensures Precedes(w'.graph, m, |w.graph|) {
      AfterAllButExposed(c, w, deps, m);
    }
    forall h | h in w.handles ensures !Precedes(w'.graph, |w.graph|, h) {
      if Precedes(w'.graph, |w.graph|, h) { PrecedesIsEarlier(w'.graph, |w.graph|, h); }
    }
    assert Serial(w') <==> Serial(Issue(w, UpdateDB, deps));
  }

  /** What an install must depend on, and what an uninstall can depend on. */
  ghost predicate CommandDeps(c: Config, w: World, kind: Kind, deps: set<nat>)
  {
    && w.opts <= deps && Within(deps, w.graph)
    && (kind == Install || kind == Uninstall)
    && (if c.hasUpdate && kind == Install then w.updateDB.Some? && w.updateDB.value in deps else deps <= w.handles)
  }

  lemma CommandExposed(c: Config, w: World, kind: Kind, deps: set<nat>)
    requires Inv(c, w) && CommandDeps(c, w, kind, deps)
    ensures var w' := Publish(Issue(w, kind, deps), |w.graph|);
            && w'.opts == w.opts + {|w.graph|}
            && Within(w'.opts, w'.graph)
            && (Exposed(w') <==> Exposed(w) && kind == Uninstall)
  {
    var w' := Publish(Issue(w, kind, deps), |w.graph|);
    assert w'.opts == w.opts + {|w.graph|};
    assert w'.graph[|w.graph|] == deps;
    if Exposed(w) && kind == Install {
      assert |w.graph| in w'.opts && w.updateDB.value in w'.graph[|w.graph|];
    }
    if w.updateDB.Some? && !Exposed(w) {
      var o :| o in w.opts && w.updateDB.value in w.graph[o];
      assert o in w'.opts && w'.graph[o] == w.graph[o];
    }
  }

  lemma CommandInv(c: Config, w: World, kind: Kind, deps: set<nat>)
    requires Inv(c, w) && CommandDeps(c, w, kind, deps)
    ensures Inv(c, Publish(Issue(w, kind, deps), |w.graph|))
  {
    CommandExposed(c, w, kind, deps);
    GraphGrows(w.graph, deps);
    if kind == Uninstall && Exposed(w) {
      NotAfterExposed(c, w, deps);
    }
  }

  /** Issuing an install or an uninstall, which becomes a dependency of all later commands. */
  lemma CommandSerial(c: Config, w: World, kind: Kind, deps: set<nat>)
    requires Inv(c, w) && CommandDeps(c, w, kind, deps)
    ensures var w' := Publish(Issue(w, kind, deps), |w.graph|);
            && Inv(c, w') && (Serial(w') <==> Serial(w) && !(kind == Uninstall && Exposed(w)))
  {
    CommandInv(c, w, kind, deps);
    IssueSerial(c, w, kind, deps);
    if kind == Uninstall && Exposed(w) {
      NotAfterExposed(c, w, deps);
    } else {
      forall m | m in w.mine ensures Precedes(w.graph + [deps], m, |w.graph|) {
        AfterAllButExposed(c, w, deps, m);
      }
    }
    assert Serial(Publish(Issue(w, kind, deps), |w.graph|)) <==> Serial(Issue(w, kind, deps));
  }

  lemma StepSerial(c: Config, w: World, call: Call)
    requires Inv(c, w) && call.user <= w.handles
    ensures Inv(c, Apply(c, w, call))
    ensures PhaseOf(Apply(c, w, call)) == Next(c.hasUpdate, PhaseOf(w), call)
    ensures Serial(Apply(c, w, call)) <==> Serial(w) && !Unsafe(PhaseOf(w), call)
  {
    var deps := c.base + call.user + w.opts;
    match call
    case Other(user) =>
      OtherStep(c, w, user);
    case EnsureUninstalled(user, optionsFail, noCommand, commandFails) =>
      if !optionsFail && !noCommand && !commandFails {
        CommandExposed(c, w, Uninstall, deps);
        CommandSerial(c, w, Uninstall, deps);
      }
    case Ensure(user, optionsFail, updateFails, commandFails) =>
      if !optionsFail && !(c.hasUpdate && w.updateDB.None? && updateFails) {
        var w1 := Updated(c, w, deps);
        if c.hasUpdate && w.updateDB.None? { UpdateStep(c, w, deps); }
        if !commandFails {
          CommandExposed(c, w1, Install, InstallDeps(c, w1, deps));
          CommandSerial(c, w1, Install, InstallDeps(c, w1, deps));
        }
      }
  }

  // ---------------------------------------------------------------- What a call registers

  /** The call returns no error, given what has been issued before. */
  predicate Succeeds(c: Config, w: World, call: Call)
  {
    match call
    case Ensure(_, optionsFail, updateFails, commandFails) =>
      !optionsFail && !commandFails && !(updateFails && c.hasUpdate && w.updateDB.None?)
    case EnsureUninstalled(_, optionsFail, noCommand, commandFails) => !optionsFail && !noCommand && !commandFails
    case Other(_) => true
  }

  /** A call that succeeds registers its resource last and hands it out; a command has the kind asked for. */
  ghost predicate Delivers(w: World, w': World, call: Call)
  {
    var id := |w'.graph| - 1;
    && |w'.graph| > |w.graph| && w'.handles == w.handles + {id}
    && match call
       case Ensure(_, _, _, _) => id in w'.mine && w'.mine[id] == Install
       case EnsureUninstalled(_, _, _, _) => id in w'.mine && w'.mine[id] == Uninstall
       case Other(_) => w'.mine == w.mine
  }

  /** A call that fails leaves nothing behind, except that an `Ensure` may have issued the DB update. */
  ghost predicate LeavesAtMostUpdate(c: Config, w: World, w': World, call: Call)
  {
    if call.Ensure? && !call.optionsFail && c.hasUpdate && w.updateDB.None? && !call.updateFails then
      && |w'.graph| == |w.graph| + 1 && w'.mine == w.mine[|w.graph| := UpdateDB]
      && w'.opts == w.opts && w'.handles == w.handles
    else w' == w
  }

  /** What the caller named and, for a command, what the runner adds to all of them. */
  function Asked(c: Config, call: Call): set<nat>
  {
    if call.Other? then call.user else c.base + call.user
  }

  /** Whatever a call registers depends on what was asked for, and otherwise only on commands of the package manager. */
  ghost predicate DependsAsAsked(c: Config, w: World, w': World, call: Call)
  {
    forall id :: |w.graph| <= id < |w'.graph| ==> Asked(c, call) <= w'.graph[id] <= Asked(c, call) + w'.mine.Keys
  }

  lemma CallRegisters(c: Config, w: World, call: Call)
    requires Inv(c, w) && call.user <= w.handles
    ensures var w' := Apply(c, w, call);
            && w.graph <= w'.graph && DependsAsAsked(c, w, w', call)
            && (forall m :: m in w.mine ==> m in w'.mine && w'.mine[m] == w.mine[m])
            && (if Succeeds(c, w, call) then Delivers(w, w', call) else LeavesAtMostUpdate(c, w, w', call))
  {
  }

  // ---------------------------------------------------------------- Any sequence of calls

  /** Callers depend only on resources they hold. */
  ghost predicate Allowed(c: Config, w: World, calls: seq<Call>)
    decreases |calls|
  {
    calls == [] || (calls[0].user <= w.handles && Allowed(c, Apply(c, w, calls[0]), calls[1..]))
  }

  function Run(c: Config, w: World, calls: seq<Call>): World
    decreases |calls|
  {
    if calls == [] then w else Run(c, Apply(c, w, calls[0]), calls[1..])
  }

  /** Some call uninstalls a package after a failed `Ensure` had issued the DB update and before a
      successful one. */
  predicate SomeUnsafe(hasUpdate: bool, p: Phase, calls: seq<Call>)
    decreases |calls|
  {
    calls != [] && (Unsafe(p, calls[0]) || SomeUnsafe(hasUpdate, Next(hasUpdate, p, calls[0]), calls[1..]))
  }

  lemma {:induction false} RunSerial(c: Config, w: World, calls: seq<Call>)
    requires Inv(c, w) && Allowed(c, w, calls)
    ensures Inv(c, Run(c, w, calls))
    ensures Serial(Run(c, w, calls)) <==> Serial(w) && !SomeUnsafe(c.hasUpdate, PhaseOf(w), calls)
    decreases |calls|
  {
    if calls != [] {
      StepSerial(c, w, calls[0]);
      RunSerial(c, Apply(c, w, calls[0]), calls[1..]);
    }
  }

  lemma {:induction false} RunSplit(c: Config, w: World, calls: seq<Call>, i: nat)
    requires Inv(c, w) && Allowed(c, w, calls) && i <= |calls|
    ensures var mid := Run(c, w, calls[..i]);
            && Inv(c, mid) && Allowed(c, mid, calls[i..]) && Run(c, mid, calls[i..]) == Run(c, w, calls)
            && w.graph <= mid.graph
    decreases i
  {
    if i == 0 {
      assert calls[0..] == calls;
    } else {
      StepSerial(c, w, calls[0]);
      CallRegisters(c, w, calls[0]);
      RunSplit(c, Apply(c, w, calls[0]), calls[1..], i - 1);
      assert calls[..i][0] == calls[0] && calls[..i][1..] == calls[1..][..i - 1] && calls[1..][i - 1..] == calls[i..];
    }
  }

  lemma RunNext(c: Config, w: World, calls: seq<Call>, i: nat)
    requires Inv(c, w) && Allowed(c, w, calls) && i < |calls|
    ensures Run(c, w, calls[..i + 1]) == Apply(c, Run(c, w, calls[..i]), calls[i])
    ensures calls[i].user <= Run(c, w, calls[..i]).handles
  {
    RunSplit(c, w, calls, i);
    RunSplit(c, w, calls, i + 1);
    var front := calls[..i + 1];
    AllowedFront(c, w, calls, i + 1);
    RunSplit(c, w, front, i);
    assert front[..i] == calls[..i] && front[i..] == [calls[i]] && [calls[i]][1..] == [];
  }

  lemma {:induction false} AllowedFront(c: Config, w: World, calls: seq<Call>, i: nat)
    requires Allowed(c, w, calls) && i <= |calls|
    ensures Allowed(c, w, calls[..i])
    decreases i
  {
    if i > 0 {
      AllowedFront(c, Apply(c, w, calls[0]), calls[1..], i - 1);
      assert calls[..i][1..] == calls[1..][..i - 1];
    }
  }

  /** In the final graph too, whatever a call registered depends on what was asked for. */
  lemma AskedInTheEnd(c: Config, w: World, calls: seq<Call>, i: nat, id: nat)
    requires Inv(c, w) && Allowed(c, w, calls) && i < |calls|
    requires |Run(c, w, calls[..i]).graph| <= id < |Run(c, w, calls[..i + 1]).graph|
    ensures id < |Run(c, w, calls).graph| && Asked(c, calls[i]) <= Run(c, w, calls).graph[id]
  {
    var after, rest := Run(c, w, calls[..i + 1]), calls[i + 1..];
    RunNext(c, w, calls, i);
    RunSplit(c, w, calls, i);
    CallRegisters(c, Run(c, w, calls[..i]), calls[i]);
    RunSplit(c, w, calls, i + 1);
    assert rest[..|rest|] == rest;
    RunSplit(c, after, rest, |rest|);
    assert Run(c, w, calls).graph[id] == after.graph[id];
  }

  /** After any calls, in every schedule: whatever a call registered, DB update included, starts only after everything
      that its caller named, and everything that the runner adds, is done. */
  lemma StartsAfterWhatWasAsked(c: Config, w: World, calls: seq<Call>, i: nat, id: nat, run: seq<Step>)
    requires Initial(c, w) && Allowed(c, w, calls) && i < |calls|
    requires |Run(c, w, calls[..i]).graph| <= id < |Run(c, w, calls[..i + 1]).graph|
    requires WellFormed(Run(c, w, calls).graph) && Schedule(Run(c, w, calls).graph, run)
    ensures var g := Run(c, w, calls).graph;
            && id < |g| && (forall d :: d in Asked(c, calls[i]) ==> d < |g|)
            && (After(g, run)[id] != Waiting ==> forall d :: d in Asked(c, calls[i]) ==> After(g, run)[d] == Done)
  {
    AskedInTheEnd(c, w, calls, i, id);
    DependenciesDone(Run(c, w, calls).graph, run);
  }

  /** In every schedule at most one command of this package manager, DB update included, runs at a time. */
  ghost predicate Exclusive(w: World)
    requires WellFormed(w.graph) && Within(w.mine.Keys, w.graph)
  {
    forall i, j :: i in w.mine && j in w.mine && i != j ==> !CanOverlap(w.graph, i, j)
  }

  /** The package manager never runs in parallel exactly when no call was unsafe. */
  lemma NeverInParallel(c: Config, w: World, calls: seq<Call>)
    requires Initial(c, w) && Allowed(c, w, calls)
    ensures Inv(c, Run(c, w, calls))
    ensures Exclusive(Run(c, w, calls)) <==> !SomeUnsafe(c.hasUpdate, NotIssued, calls)
  {
    RunSerial(c, w, calls);
    var end := Run(c, w, calls);
    forall i, j | i in end.mine && j in end.mine && i != j
      ensures CanOverlap(end.graph, i, j) <==> !Ordered(end.graph, i, j)
    {
      ExclusiveIffOrdered(end.graph, i, j);
    }
  }

  /** A call that returns no error. */
  predicate ErrorFree(call: Call)
  {
    match call
    case Ensure(_, optionsFail, updateFails, commandFails) => !optionsFail && !updateFails && !commandFails
    case EnsureUninstalled(_, optionsFail, noCommand, commandFails) => !optionsFail && !noCommand && !commandFails
    case Other(_) => true
  }

  /** Without errors, or without a DB update, there are no unsafe calls. */
  lemma {:induction false} ErrorFreeIsSafe(hasUpdate: bool, p: Phase, calls: seq<Call>)
    requires !p.OnlyUpdated?
    requires !hasUpdate || forall i :: 0 <= i < |calls| ==> ErrorFree(calls[i])
    ensures !SomeUnsafe(hasUpdate, p, calls)
    decreases |calls|
  {
    if calls != [] {
      ErrorFreeIsSafe(hasUpdate, Next(hasUpdate, p, calls[0]), calls[1..]);
    }
  }

  /** The DB update is issued at most once, and every schedule finishes it before any install starts. */
  ghost predicate UpdatedFirst(w: World)
    requires WellFormed(w.graph) && Within(w.mine.Keys, w.graph)
  {
    && (forall u, v :: u in w.mine && v in w.mine && w.mine[u] == w.mine[v] == UpdateDB ==> u == v)
    && (forall m, run ::
          m in w.mine && w.mine[m] == Install && Schedule(w.graph, run) && After(w.graph, run)[m] != Waiting ==>
            exists u :: u in w.mine && w.mine[u] == UpdateDB && After(w.graph, run)[u] == Done)
  }

  lemma UpdateOnceAndFirst(c: Config, w: World, calls: seq<Call>)
    requires Initial(c, w) && Allowed(c, w, calls) && c.hasUpdate
    ensures Inv(c, Run(c, w, calls)) && UpdatedFirst(Run(c, w, calls))
  {
    RunSerial(c, w, calls);
    var end := Run(c, w, calls);
    forall m, run |
      m in end.mine && end.mine[m] == Install && Schedule(end.graph, run) && After(end.graph, run)[m] != Waiting
      ensures end.updateDB.Some? && end.updateDB.value in end.mine && end.mine[end.updateDB.value] == UpdateDB
      ensures After(end.graph, run)[end.updateDB.value] == Done
    {
      DependenciesDone(end.graph, run);
    }
  }

  /** The two calls that break the rule: an `Ensure` whose install fails after the update, then an uninstall. */
  function FailedThenUninstalled(user: set<nat>): seq<Call>
  {
    [Ensure(user, false, false, true), EnsureUninstalled(user, false, false, false)]
  }

  lemma RunOfTwo(c: Config, w: World, first: Call, second: Call)
    ensures Run(c, w, [first, second]) == Apply(c, Apply(c, w, first), second)
    ensures first.user <= w.handles && second.user <= Apply(c, w, first).handles ==> Allowed(c, w, [first, second])
  {
    var w1 := Apply(c, w, first);
    assert [first, second][1..] == [second] && [second][1..] == [];
    assert Run(c, w1, [second]) == Apply(c, w1, second);
    assert second.user <= w1.handles ==> Allowed(c, w1, [second]);
  }

  /** Wherever a package manager with a DB update starts, the two commands then overlap in some schedule. */
  lemma FailedThenUninstalledOverlaps(c: Config, w: World, user: set<nat>)
    requires Initial(c, w) && c.hasUpdate && user <= w.handles
    ensures var calls, end, u := FailedThenUninstalled(user), Run(c, w, FailedThenUninstalled(user)), |w.graph|;
            && Allowed(c, w, calls) && SomeUnsafe(c.hasUpdate, NotIssued, calls)
            && WellFormed(end.graph) && |end.graph| == u + 2
            && end.mine == map[u := UpdateDB, u + 1 := Uninstall]
            && CanOverlap(end.graph, u, u + 1)
  {
    var first, second := Ensure(user, false, false, true), EnsureUninstalled(user, false, false, false);
    var deps := c.base + user;
    var end := Apply(c, Apply(c, w, first), second);
    RunOfTwo(c, w, first, second);
    assert end.graph == w.graph + [deps + w.opts] + [deps + w.opts];
    LastTwoOverlap(end.graph);
    NeverInParallel(c, w, [first, second]);
    assert !Exclusive(end);
  }
}
