/** The objects that issue commands on a remote host: the runner and the package managers. */
module PackageManagers {
  import opened Wrappers
  import opened Engine
  import opened Serialisation

  /** The options that matter for the order of resources, and all the others. */
  datatype ResourceOption = DependsOn(ids: set<nat>) | OtherOption

  function DepsOf(opts: seq<ResourceOption>): set<nat>
  {
    if opts == [] then {} else
      DepsOf(opts[..|opts| - 1]) + if opts[|opts| - 1].DependsOn? then opts[|opts| - 1].ids else {}
  }

  lemma {:induction false} DepsOfAppend(a: seq<ResourceOption>, b: seq<ResourceOption>)
    ensures DepsOf(a + b) == DepsOf(a) + DepsOf(b)
    decreases |b|
  {
    if b == [] {
      assert a + b == a;
    } else {
      assert (a + b)[..|a + b| - 1] == a + b[..|b| - 1];
      DepsOfAppend(a, b[..|b| - 1]);
    }
  }

  lemma DepsOfAdd(opts: seq<ResourceOption>, id: nat)
    ensures DepsOf(opts + [DependsOn({id})]) == DepsOf(opts) + {id}
  {
  }

  /** The program's view of the engine: the resources registered so far. */
  class Context {
    var graph: Graph
    ghost var handles: set<nat>

    ghost predicate Valid()
      reads this
    {
      WellFormed(graph) && Within(handles, graph)
    }

    /** `refused` is the engine's answer. */
    method Register(opts: seq<ResourceOption>, refused: bool) returns (r: Outcome<nat>)
      requires Valid() && Within(DepsOf(opts), graph)
      modifies this`graph
      ensures Valid()
      ensures r == if refused then Error else Ok(|old(graph)|)
      ensures graph == if refused then old(graph) else old(graph) + [DepsOf(opts)]
    {
      if refused { return Error; }
      graph := graph + [DepsOf(opts)];
      return Ok(|graph| - 1);
    }

    /** From now on other code can depend on the resource. */
    ghost method Publish(id: nat)
      requires Valid() && id < |graph|
      modifies this`handles
      ensures Valid() && handles == old(handles) + {id}
    {
      handles := handles + {id};
    }
  }

  // ---------------------------------------------------------------- runner.go

  class RemoteRunner {
    const ctx: Context
    var options: seq<ResourceOption>
    var waitCommand: Option<nat>
    ghost var issued: set<nat>

    ghost predicate Valid()
      reads this, ctx
    {
      && ctx.Valid() && DepsOf(options) <= ctx.handles
      && (waitCommand.Some? ==> waitCommand.value in DepsOf(options))
      && forall i :: i in issued ==> i < |ctx.graph| && (waitCommand.Some? ==> waitCommand.value in ctx.graph[i])
    }

    constructor Empty(ctx: Context, hasParent: bool)
      requires ctx.Valid()
      ensures this.ctx == ctx && Valid() && DepsOf(options) == {} && waitCommand.None? && issued == {}
    {
      this.ctx := ctx;
      options, waitCommand, issued := [OtherOption], None, {};
      new;
      if hasParent {
        DepsOfAppend(options, [OtherOption]);
        DepsOfAppend(options + [OtherOption], [OtherOption]);
        options := options + [OtherOption] + [OtherOption];
      }
    }

    /** `local` says that the arguments carry local-only fields, which a remote command refuses. */
    method Command(opts: seq<ResourceOption>, local: bool, refused: bool) returns (r: Outcome<nat>)
      requires Valid() && Within(DepsOf(opts), ctx.graph)
      modifies this`issued, ctx`graph
      ensures Valid() && issued == old(issued) + if local || refused then {} else {|old(ctx.graph)|}
      ensures r == if local || refused then Error else Ok(|old(ctx.graph)|)
      ensures ctx.graph == if local || refused then old(ctx.graph)
                           else old(ctx.graph) + [DepsOf(options) + DepsOf(opts)]
    {
      if local { return Error; }
      DepsOfAppend(options, opts);
      r := ctx.Register(options + opts, refused);
      if r.Ok? { issued := issued + {r.value}; }
    }
  }

  /** What a ready function does: the options of the commands that it issues on the runner under construction, in
      order, and the resource that it returns, or nothing if it returns an error. */
  datatype Ready = Ready(issues: seq<seq<ResourceOption>>, answer: Option<nat>)

  /** The resources registered while a graph grows from `n` to `m`. */
  function Ids(n: nat, m: nat): (ids: set<nat>)
    ensures forall i :: i in ids <==> n <= i < m
  {
    if m <= n then {} else Ids(n, m - 1) + {m - 1}
  }

  /** The resources that it registers. */
  function Registered(issues: seq<seq<ResourceOption>>): (g: Graph)
    ensures |g| == |issues| && forall i :: 0 <= i < |g| ==> g[i] == DepsOf(issues[i])
  {
    seq(|issues|, i requires 0 <= i < |issues| => DepsOf(issues[i]))
  }

  /** A command may depend on the earlier ones, and the answer is a resource that the function can name. */
  ghost predicate Callable(ready: Ready, n: nat, handles: set<nat>)
  {
    && (forall i :: 0 <= i < |ready.issues| ==> DepsOf(ready.issues[i]) <= handles + Ids(n, n + i))
    && (ready.answer.Some? ==> ready.answer.value in handles + Ids(n, n + |ready.issues|))
  }

  method CallReady(runner: RemoteRunner, ready: Ready)
    requires runner.Valid() && runner.waitCommand.None? && DepsOf(runner.options) == {}
    requires Callable(ready, |runner.ctx.graph|, runner.ctx.handles)
    modifies runner`issued, runner.ctx
    ensures runner.Valid()
    ensures runner.ctx.graph == old(runner.ctx.graph) + Registered(ready.issues)
    ensures runner.ctx.handles == old(runner.ctx.handles) + Ids(|old(runner.ctx.graph)|, |runner.ctx.graph|)
  {
    ghost var g, n := runner.ctx.graph, |runner.ctx.graph|;
    for k := 0 to |ready.issues|
      invariant runner.Valid()
      invariant runner.ctx.graph == g + Registered(ready.issues)[..k]
      invariant runner.ctx.handles == old(runner.ctx.handles) + Ids(n, n + k)
    {
      var c := runner.Command(ready.issues[k], false, false);
      assert DepsOf(runner.options) + DepsOf(ready.issues[k]) == DepsOf(ready.issues[k]);
      runner.ctx.Publish(c.value);
    }
  }

  /** The ready function, if there is one, runs before its answer becomes a dependency of everything that the
      runner issues later. An error leaves what it issued. */
  method NewRemoteRunner(ctx: Context, hasParent: bool, ready: Option<Ready>) returns (r: Outcome<RemoteRunner>)
    requires ctx.Valid() && (ready.Some? ==> Callable(ready.value, |ctx.graph|, ctx.handles))
    modifies ctx
    ensures ctx.Valid() && old(ctx.handles) <= ctx.handles
    ensures !r.Panic? && (r.Error? <==> ready.Some? && ready.value.answer.None?)
    ensures r.Ok? ==> fresh(r.value) && r.value.ctx == ctx && r.value.Valid() && r.value.issued == {}
    ensures r.Ok? ==> r.value.waitCommand == if ready.Some? then ready.value.answer else None
    ensures ctx.graph == old(ctx.graph) + if ready.Some? then Registered(ready.value.issues) else []
  {
    var runner := new RemoteRunner.Empty(ctx, hasParent);
    if ready.Some? {
      CallReady(runner, ready.value);
      if ready.value.answer.None? { return Error; }
      var waitCommand := ready.value.answer.value;
      runner.waitCommand := Some(waitCommand);
      DepsOfAdd(runner.options, waitCommand);
      runner.options := runner.options + [DependsOn({waitCommand})];
      runner.issued := {};
    }
    return Ok(runner);
  }

  /** In every schedule, whatever options callers added: no command of the runner starts before the host is ready. */
  lemma ReadyBeforeCommands(runner: RemoteRunner, run: seq<Step>, i: nat)
    requires runner.Valid() && runner.waitCommand.Some? && i in runner.issued
    requires Schedule(runner.ctx.graph, run)
    ensures After(runner.ctx.graph, run)[i] != Waiting ==>
              After(runner.ctx.graph, run)[runner.waitCommand.value] == Done
  {
    DependenciesDone(runner.ctx.graph, run);
    assert runner.waitCommand.value in runner.ctx.graph[i];
  }

  // ---------------------------------------------------------------- Requests

  /** What calling code asks for, in any order: packages, or a resource that has nothing to do with them. The flags
      are the answers of the caller's options and of the engine. */
  datatype Request =
    | Present(opts: seq<ResourceOption>, optionsFail: bool, updateFails: bool, commandFails: bool)
    | Absent(checkBinary: string, opts: seq<ResourceOption>, optionsFail: bool, commandFails: bool)
    | Elsewhere(opts: seq<ResourceOption>)

  /** The calls of a package manager; `alwaysUninstalls` says that it does not need an uninstall command. */
  function CallOf(alwaysUninstalls: bool, uninstallCmd: string, request: Request): Call
  {
    match request
    case Present(opts, optionsFail, updateFails, commandFails) =>
      Call.Ensure(DepsOf(opts), optionsFail, updateFails, commandFails)
    case Absent(checkBinary, opts, optionsFail, commandFails) =>
      var noCommand := !alwaysUninstalls && checkBinary == "" && uninstallCmd == "";
      Call.EnsureUninstalled(DepsOf(opts), optionsFail, noCommand, commandFails)
    case Elsewhere(opts) => Other(DepsOf(opts))
  }

  function CallsOf(alwaysUninstalls: bool, uninstallCmd: string, requests: seq<Request>): (calls: seq<Call>)
    ensures |calls| == |requests|
  {
    seq(|requests|, i requires 0 <= i < |requests| => CallOf(alwaysUninstalls, uninstallCmd, requests[i]))
  }

  /** Code that has nothing to do with packages registers a resource, on which others can then depend. */
  method RegisterElsewhere(ctx: Context, opts: seq<ResourceOption>)
    requires ctx.Valid() && DepsOf(opts) <= ctx.handles
    modifies ctx
    ensures ctx.Valid() && ctx.graph == old(ctx.graph) + [DepsOf(opts)]
    ensures ctx.handles == old(ctx.handles) + {|old(ctx.graph)|}
  {
    var r := ctx.Register(opts, false);
    ctx.Publish(r.value);
  }

  // ---------------------------------------------------------------- generic_packagemanager.go

  class GenericPackageManager {
    const runner: RemoteRunner
    const updateCmd: string
    const uninstallCmd: string
    var opts: seq<ResourceOption>
    var updateDBCommand: Option<nat>
    ghost var mine: map<nat, Kind>

    ghost function Abstract(): World
      reads this, runner, runner.ctx
    {
      World(runner.ctx.graph, mine, DepsOf(opts), updateDBCommand, runner.ctx.handles)
    }

    ghost function Settings(): Config
      reads runner
    {
      Config(DepsOf(runner.options), updateCmd != "")
    }

    /** The fields agree with their abstraction. That the commands stay serialised is proved about
        `Abstract`, over whole runs, by `NeverInParallel`. */
    ghost predicate Valid()
      reads this, runner, runner.ctx
    {
      && runner.Valid() && DepsOf(opts) <= runner.ctx.handles
      && (updateDBCommand.Some? ==> updateDBCommand.value < |runner.ctx.graph|)
    }

    constructor (runner: RemoteRunner, updateCmd: string, uninstallCmd: string)
      requires runner.Valid()
      ensures Valid() && this.runner == runner
      ensures this.updateCmd == updateCmd && this.uninstallCmd == uninstallCmd
      ensures Initial(Settings(), Abstract())
    {
      this.runner, this.updateCmd, this.uninstallCmd := runner, updateCmd, uninstallCmd;
      opts, updateDBCommand, mine := [], None, map[];
    }

    /** `optionsFail` and `commandFails` are the answers of the caller's options and of the engine. */
    method EnsureUninstalled(checkBinary: string, userOpts: seq<ResourceOption>, optionsFail: bool, commandFails: bool)
      returns (r: Outcome<nat>)
      requires Valid() && DepsOf(userOpts) <= runner.ctx.handles
      modifies this, runner`issued, runner.ctx
      ensures Valid()
      ensures var noCommand := checkBinary == "" && uninstallCmd == "";
              var call := Call.EnsureUninstalled(DepsOf(userOpts), optionsFail, noCommand, commandFails);
              && Abstract() == Apply(Settings(), old(Abstract()), call)
              && r == if ErrorFree(call) then Ok(|old(runner.ctx.graph)|) else Error
      ensures r.Ok? ==>
        && r.value < |runner.ctx.graph| && r.value in mine && mine[r.value] == Kind.Uninstall
        && DepsOf(runner.options) + DepsOf(userOpts) <= runner.ctx.graph[r.value]
    {
      if optionsFail { return Error; }
      var pulumiOpts := userOpts + opts;
      DepsOfAppend(userOpts, opts);
      if checkBinary == "" && uninstallCmd == "" {
        return Error;
      }
      ghost var c, w := Settings(), Abstract();
      ghost var w' := Apply(c, w, Call.EnsureUninstalled(DepsOf(userOpts), false, false, false));
      assert c.base + DepsOf(pulumiOpts) == c.base + DepsOf(userOpts) + w.opts;
      r := Issue(Uninstall, pulumiOpts, commandFails);
      assert r.Ok? ==> Abstract() == w' && Settings() == c;
    }

    method Ensure(userOpts: seq<ResourceOption>, optionsFail: bool, updateFails: bool, commandFails: bool)
      returns (r: Outcome<nat>)
      requires Valid() && DepsOf(userOpts) <= runner.ctx.handles
      modifies this, runner`issued, runner.ctx
      ensures Valid()
      ensures var call := Call.Ensure(DepsOf(userOpts), optionsFail, updateFails, commandFails);
              && Abstract() == Apply(Settings(), old(Abstract()), call)
              && (r.Ok? <==>
                    !optionsFail && !commandFails && !(updateFails && updateCmd != "" && old(updateDBCommand).None?))
              && (r.Ok? ==> r.value == |runner.ctx.graph| - 1)
      ensures r.Ok? ==>
        && r.value < |runner.ctx.graph| && r.value in mine && mine[r.value] == Kind.Install
        && DepsOf(runner.options) + DepsOf(userOpts) <= runner.ctx.graph[r.value]
    {
      ghost var c, w := Settings(), Abstract();
      ghost var call := Call.Ensure(DepsOf(userOpts), optionsFail, updateFails, commandFails);
      ghost var deps := c.base + call.user + w.opts;
      if optionsFail { return Error; }
      var pulumiOpts := userOpts + opts;
      DepsOfAppend(userOpts, opts);
      assert c.base + DepsOf(pulumiOpts) == deps;
      if updateCmd != "" {
        var updateDB := UpdateDB(pulumiOpts, updateFails);
        if updateDB.Error? { return Error; }
        DepsOfAppend(pulumiOpts, [DependsOn({updateDB.value})]);
        assert DepsOf([DependsOn({updateDB.value})]) == {updateDB.value};
        pulumiOpts := pulumiOpts + [DependsOn({updateDB.value})];
      }
      assert Abstract() == Updated(c, w, deps);
      assert c.base + DepsOf(pulumiOpts) == InstallDeps(c, Abstract(), deps);
      r := Issue(Install, pulumiOpts, commandFails);
      assert Abstract() == Apply(c, w, call);
    }

    method UpdateDB(pulumiOpts: seq<ResourceOption>, updateFails: bool) returns (r: Outcome<nat>)
      requires Valid() && updateCmd != "" && Within(DepsOf(pulumiOpts), runner.ctx.graph)
      modifies this`updateDBCommand, this`mine, runner`issued, runner.ctx`graph
      ensures Valid()
      ensures r == if updateDBCommand.Some? then Ok(updateDBCommand.value) else Error
      ensures Abstract() ==
        if updateFails then old(Abstract())
        else Updated(Settings(), old(Abstract()), Settings().base + DepsOf(pulumiOpts))
    {
      if updateDBCommand.Some? {
        return Ok(updateDBCommand.value);
      }
      var c := runner.Command(pulumiOpts, false, updateFails);
      if c.Ok? {
        updateDBCommand := Some(c.value);
        mine := mine[c.value := Kind.UpdateDB];
      }
      return c;
    }

    /** Issues the command and makes all later ones depend on it, so that the package manager never
        runs in parallel: the common end of `Ensure` and `EnsureUninstalled`. */
    method Issue(kind: Kind, pulumiOpts: seq<ResourceOption>, commandFails: bool) returns (r: Outcome<nat>)
      requires Valid() && Within(DepsOf(pulumiOpts), runner.ctx.graph)
      modifies this, runner`issued, runner.ctx
      ensures Valid()
      ensures r == if commandFails then Error else Ok(|old(runner.ctx.graph)|)
      ensures var w, deps := old(Abstract()), Settings().base + DepsOf(pulumiOpts);
              Abstract() == if commandFails then w else Publish(Serialisation.Issue(w, kind, deps), |w.graph|)
    {
      ghost var w, deps := Abstract(), Settings().base + DepsOf(pulumiOpts);
      r := runner.Command(pulumiOpts, false, commandFails);
      if r.Error? { return; }
      runner.ctx.Publish(r.value);
      DepsOfAdd(opts, r.value);
      opts, mine := opts + [DependsOn({r.value})], mine[r.value := kind];
      assert Abstract() == Publish(Serialisation.Issue(w, kind, deps), r.value);
    }

    /** One request, whatever it asks for. */
    method Handle(request: Request)
      requires Valid() && DepsOf(request.opts) <= runner.ctx.handles
      modifies this, runner`issued, runner.ctx
      ensures Valid()
      ensures Abstract() == Apply(Settings(), old(Abstract()), CallOf(false, uninstallCmd, request))
    {
      match request
      case Present(userOpts, optionsFail, updateFails, commandFails) =>
        var _ := Ensure(userOpts, optionsFail, updateFails, commandFails);
      case Absent(checkBinary, userOpts, optionsFail, commandFails) =>
        var _ := EnsureUninstalled(checkBinary, userOpts, optionsFail, commandFails);
      case Elsewhere(userOpts) =>
        RegisterElsewhere(runner.ctx, userOpts);
    }

    /** Any sequence of requests. The object goes through the abstract run; a new package manager then never runs
        two commands in parallel exactly when no request was unsafe, and updates once, before every install. */
    method Serve(requests: seq<Request>)
      requires Valid() && Allowed(Settings(), Abstract(), CallsOf(false, uninstallCmd, requests))
      modifies this, runner`issued, runner.ctx
      ensures Valid() && Settings() == old(Settings())
      ensures Abstract() == Run(old(Settings()), old(Abstract()), CallsOf(false, uninstallCmd, requests))
      ensures old(Initial(Settings(), Abstract())) ==>
        && Inv(Settings(), Abstract())
        && (Exclusive(Abstract()) <==> !SomeUnsafe(updateCmd != "", NotIssued, CallsOf(false, uninstallCmd, requests)))
        && (updateCmd != "" ==> UpdatedFirst(Abstract()))
    {
      ghost var c, w, calls := Settings(), Abstract(), CallsOf(false, uninstallCmd, requests);
      for i := 0 to |requests|
        invariant Valid() && Settings() == c
        invariant Allowed(c, Abstract(), calls[i..]) && Run(c, Abstract(), calls[i..]) == Run(c, w, calls)
      {
        assert calls[i..][0] == calls[i] && calls[i..][1..] == calls[i + 1..];
        Handle(requests[i]);
      }
      if Initial(c, w) {
        NeverInParallel(c, w, calls);
        if c.hasUpdate { UpdateOnceAndFirst(c, w, calls); }
      }
    }
  }

  // ---------------------------------------------------------------- linux_zypper_packagemanager.go

  /** The same discipline without a DB update, and with an uninstall command that always exists. */
  class ZypperPackageManager {
    const runner: RemoteRunner
    var pulumiOpts: seq<ResourceOption>
    ghost var mine: map<nat, Kind>

    ghost function Abstract(): World
      reads this, runner, runner.ctx
    {
      World(runner.ctx.graph, mine, DepsOf(pulumiOpts), None, runner.ctx.handles)
    }

    ghost function Settings(): Config
      reads runner
    {
      Config(DepsOf(runner.options), false)
    }

    ghost predicate Valid()
      reads this, runner, runner.ctx
    {
      runner.Valid() && DepsOf(pulumiOpts) <= runner.ctx.handles
    }

    constructor (runner: RemoteRunner)
      requires runner.Valid()
      ensures Valid() && this.runner == runner && Initial(Settings(), Abstract())
    {
      this.runner := runner;
      pulumiOpts, mine := [], map[];
    }

    method Ensure(userOpts: seq<ResourceOption>, optionsFail: bool, commandFails: bool) returns (r: Outcome<nat>)
      requires Valid() && DepsOf(userOpts) <= runner.ctx.handles
      modifies this, runner`issued, runner.ctx
      ensures Valid()
      ensures var call := Call.Ensure(DepsOf(userOpts), optionsFail, false, commandFails);
              && Abstract() == Apply(Settings(), old(Abstract()), call)
              && r == if ErrorFree(call) then Ok(|old(runner.ctx.graph)|) else Error
      ensures r.Ok? ==>
        && r.value < |runner.ctx.graph| && r.value in mine && mine[r.value] == Kind.Install
        && DepsOf(runner.options) + DepsOf(userOpts) <= runner.ctx.graph[r.value]
    {
      if optionsFail { return Error; }
      DepsOfAppend(userOpts, pulumiOpts);
      ghost var deps := Settings().base + DepsOf(userOpts) + DepsOf(pulumiOpts);
      assert Settings().base + DepsOf(userOpts + pulumiOpts) == deps == InstallDeps(Settings(), Abstract(), deps);
      r := Issue(Install, userOpts + pulumiOpts, commandFails);
    }

    method EnsureUninstalled(userOpts: seq<ResourceOption>, optionsFail: bool, commandFails: bool)
      returns (r: Outcome<nat>)
      requires Valid() && DepsOf(userOpts) <= runner.ctx.handles
      modifies this, runner`issued, runner.ctx
      ensures Valid()
      ensures var call := Call.EnsureUninstalled(DepsOf(userOpts), optionsFail, false, commandFails);
              && Abstract() == Apply(Settings(), old(Abstract()), call)
              && r == if ErrorFree(call) then Ok(|old(runner.ctx.graph)|) else Error
      ensures r.Ok? ==>
        && r.value < |runner.ctx.graph| && r.value in mine && mine[r.value] == Kind.Uninstall
        && DepsOf(runner.options) + DepsOf(userOpts) <= runner.ctx.graph[r.value]
    {
      if optionsFail { return Error; }
      DepsOfAppend(userOpts, pulumiOpts);
      assert Settings().base + DepsOf(userOpts + pulumiOpts) == Settings().base + DepsOf(userOpts) + DepsOf(pulumiOpts);
      r := Issue(Uninstall, userOpts + pulumiOpts, commandFails);
    }

    method Issue(kind: Kind, opts: seq<ResourceOption>, commandFails: bool) returns (r: Outcome<nat>)
      requires Valid() && Within(DepsOf(opts), runner.ctx.graph)
      modifies this, runner`issued, runner.ctx
      ensures Valid()
      ensures r == if commandFails then Error else Ok(|old(runner.ctx.graph)|)
      ensures var w, deps := old(Abstract()), Settings().base + DepsOf(opts);
              Abstract() == if commandFails then w else Publish(Serialisation.Issue(w, kind, deps), |w.graph|)
    {
      r := runner.Command(opts, false, commandFails);
      if r.Error? { return; }
      runner.ctx.Publish(r.value);
      DepsOfAdd(pulumiOpts, r.value);
      pulumiOpts, mine := pulumiOpts + [DependsOn({r.value})], mine[r.value := kind];
    }

    method Handle(request: Request)
      requires Valid() && DepsOf(request.opts) <= runner.ctx.handles
      modifies this, runner`issued, runner.ctx
      ensures Valid()
      ensures Abstract() == Apply(Settings(), old(Abstract()), CallOf(true, "", request))
    {
      match request
      case Present(userOpts, optionsFail, _, commandFails) =>
        var _ := Ensure(userOpts, optionsFail, commandFails);
      case Absent(_, userOpts, optionsFail, commandFails) =>
        var _ := EnsureUninstalled(userOpts, optionsFail, commandFails);
      case Elsewhere(userOpts) =>
        RegisterElsewhere(runner.ctx, userOpts);
    }

    /** Any sequence of requests: without a DB update the package manager never runs two commands in parallel. */
    method Serve(requests: seq<Request>)
      requires Valid() && Allowed(Settings(), Abstract(), CallsOf(true, "", requests))
      modifies this, runner`issued, runner.ctx
      ensures Valid() && Settings() == old(Settings())
      ensures Abstract() == Run(old(Settings()), old(Abstract()), CallsOf(true, "", requests))
      ensures old(Initial(Settings(), Abstract())) ==> Inv(Settings(), Abstract()) && Exclusive(Abstract())
    {
      ghost var c, w, calls := Settings(), Abstract(), CallsOf(true, "", requests);
      for i := 0 to |requests|
        invariant Valid() && Settings() == c
        invariant Allowed(c, Abstract(), calls[i..]) && Run(c, Abstract(), calls[i..]) == Run(c, w, calls)
      {
        assert calls[i..][0] == calls[i] && calls[i..][1..] == calls[i + 1..];
        Handle(requests[i]);
      }
      if Initial(c, w) {
        NeverInParallel(c, w, calls);
        ErrorFreeIsSafe(false, NotIssued, calls);
      }
    }
  }
}
