/** The registry of lazily created providers, `common/config/providers.go`, under any interleaving of the
    threads that use it. */
module Providers {
  import opened Wrappers

  type ProviderId = string
  type Provider = int
  type Thread = int

  /** The providers that can be created on demand. */
  const FACTORIES: set<ProviderId> := {"random", "tls", "command", "awsx", "eks", "docker", "gcp"}

  /** Of all providers, those of the two clouds with credentials must be registered before they are used. */
  lemma CloudsMustBeRegistered()
    ensures FACTORIES == {"random", "tls", "command", "aws", "awsx", "eks", "azure", "docker", "gcp"} - {"aws", "azure"}
  {
    assert "aws"[0] == 'a' && "azure"[1] == 'z' && |"awsx"| == 4 && |"aws"| == 3;
  }

  // ---------------------------------------------------------------- Any interleaving of threads

  datatype Task = Get(id: ProviderId) | Register(id: ProviderId, provider: Provider)

  /** Where a thread is. From `Holding` to `Leaving` or `Panicking` it holds the mutex. */
  datatype Pc =
    | Idle
    | Locking(task: Task)
    | Holding(task: Task)
    | Creating(id: ProviderId)
    | Storing(id: ProviderId, provider: Provider)
    | Leaving
    | Panicking
    | Crashed

  /** A factory succeeded, a provider was registered, or a get determined its result. */
  datatype Event =
    | Made(id: ProviderId, provider: Provider)
    | Registered(id: ProviderId, provider: Provider)
    | Returned(id: ProviderId, provider: Provider)

  datatype State =
    State(lock: Option<Thread>, providers: map<ProviderId, Provider>, pcs: map<Thread, Pc>, log: seq<Event>)

  function At(s: State, t: Thread): Pc
  {
    if t in s.pcs then s.pcs[t] else Idle
  }

  /** A thread's next step; `Call` and `Factory` carry what the caller and the factory decide. */
  datatype Step =
    | Call(t: Thread, task: Task)
    | Lock(t: Thread)
    | Act(t: Thread)
    | Factory(t: Thread, made: Option<Provider>)
    | Store(t: Thread)
    | Unlock(t: Thread)

  predicate Enabled(s: State, step: Step)
  {
    var pc := At(s, step.t);
    match step
    case Call(_, _) => pc.Idle?
    case Lock(_) => pc.Locking? && s.lock.None?
    case Act(_) => pc.Holding?
    case Factory(_, _) => pc.Creating?
    case Store(_) => pc.Storing?
    case Unlock(_) => pc.Leaving? || pc.Panicking?
  }

  function Goto(s: State, t: Thread, pc: Pc): State
  {
    s.(pcs := s.pcs[t := pc])
  }

  function Next(s: State, step: Step): State
    requires Enabled(s, step)
  {
    var pc := At(s, step.t);
    match step
    case Call(t, task) => Goto(s, t, Locking(task))
    case Lock(t) => Goto(s, t, Holding(pc.task)).(lock := Some(t))
    case Act(t) =>
      (match pc.task
       case Register(id, p) =>
         Goto(s, t, Leaving).(providers := s.providers[id := p], log := s.log + [Registered(id, p)])
       case Get(id) =>
         if id in s.providers then Goto(s, t, Leaving).(log := s.log + [Returned(id, s.providers[id])])
         else if id in FACTORIES then Goto(s, t, Creating(id))
         else Goto(s, t, Panicking))
    case Factory(t, made) =>
      (match made
       case Some(p) => Goto(s, t, Storing(pc.id, p)).(log := s.log + [Made(pc.id, p)])
       case None => Goto(s, t, Panicking))
    case Store(t) =>
      Goto(s, t, Leaving).(
        providers := s.providers[pc.id := pc.provider], log := s.log + [Returned(pc.id, pc.provider)])
    case Unlock(t) => Goto(s, t, if pc.Panicking? then Crashed else Idle).(lock := None)
  }

  const START := State(None, map[], map[], [])

  ghost predicate Run(steps: seq<Step>)
    decreases |steps|, 0
  {
    steps == [] || (Run(steps[..|steps| - 1]) && Enabled(After(steps[..|steps| - 1]), steps[|steps| - 1]))
  }

  ghost function After(steps: seq<Step>): State
    requires Run(steps)
    decreases |steps|, 1
  {
    if steps == [] then START else Next(After(steps[..|steps| - 1]), steps[|steps| - 1])
  }

  // ---------------------------------------------------------------- What every step keeps

  predicate Critical(pc: Pc)
  {
    pc.Holding? || pc.Creating? || pc.Storing? || pc.Leaving? || pc.Panicking?
  }

  /** The last provider made or registered for an id. */
  function Latest(log: seq<Event>, id: ProviderId): Option<Provider>
  {
    if log == [] then None
    else
      var e := log[|log| - 1];
      if e.id == id && !e.Returned? then Some(e.provider) else Latest(log[..|log| - 1], id)
  }

  /** The log so far is as it should be: a factory succeeds only for an id without a provider, and a get
      returns the provider of the moment. */
  ghost predicate Lawful(log: seq<Event>)
  {
    forall i :: 0 <= i < |log| ==>
      && (log[i].Made? ==> Latest(log[..i], log[i].id) == None)
      && (log[i].Returned? ==> Latest(log[..i], log[i].id) == Some(log[i].provider))
  }

  /** The provider of an id, counting one that its maker has not stored yet. */
  function Current(s: State, id: ProviderId): Option<Provider>
  {
    if s.lock.Some? && At(s, s.lock.value).Storing? && At(s, s.lock.value).id == id
    then Some(At(s, s.lock.value).provider)
    else if id in s.providers then Some(s.providers[id])
    else None
  }

  ghost predicate Inv(s: State)
  {
    && (forall t :: Critical(At(s, t)) <==> s.lock == Some(t))
    && (forall t :: At(s, t).Creating? || At(s, t).Storing? ==> At(s, t).id !in s.providers)
    && (forall id :: Latest(s.log, id) == Current(s, id))
    && Lawful(s.log)
  }

  lemma LogGrows(log: seq<Event>, e: Event)
    requires Lawful(log)
    requires e.Made? ==> Latest(log, e.id) == None
    requires e.Returned? ==> Latest(log, e.id) == Some(e.provider)
    ensures Lawful(log + [e])
    ensures forall id ::
      Latest(log + [e], id) == if e.id == id && !e.Returned? then Some(e.provider) else Latest(log, id)
  {
    assert (log + [e])[..|log|] == log;
    forall i | 0 <= i < |log| ensures (log + [e])[..i] == log[..i] && (log + [e])[i] == log[i] {
    }
  }

  lemma StepKeepsLock(s: State, step: Step)
    requires Inv(s) && Enabled(s, step)
    ensures var s' := Next(s, step);
            && (forall t :: Critical(At(s', t)) <==> s'.lock == Some(t))
            && (forall t :: At(s', t).Creating? || At(s', t).Storing? ==> At(s', t).id !in s'.providers)
  {
    var s', t := Next(s, step), step.t;
    assert forall u :: At(s', u) == if u == t then s'.pcs[t] else At(s, u);
  }

  lemma StepKeepsInv(s: State, step: Step)
    requires Inv(s) && Enabled(s, step)
    ensures Inv(Next(s, step))
  {
    StepKeepsLock(s, step);
    var s', t := Next(s, step), step.t;
    if s'.log == s.log {
      assert forall id :: Current(s', id) == Current(s, id);
    } else {
      var e := s'.log[|s.log|];
      assert s'.log == s.log + [e];
      assert e.Returned? ==> Current(s, e.id) == Some(e.provider);
      LogGrows(s.log, e);
      assert forall id :: Current(s', id) == if e.id == id && !e.Returned? then Some(e.provider) else Current(s, id);
    }
  }

  lemma {:induction false} RunKeepsInv(steps: seq<Step>)
    requires Run(steps)
    ensures Inv(After(steps))
    decreases |steps|
  {
    if steps != [] {
      RunKeepsInv(steps[..|steps| - 1]);
      StepKeepsInv(After(steps[..|steps| - 1]), steps[|steps| - 1]);
    }
  }

  // ---------------------------------------------------------------- What callers rely on

  lemma LatestStep(log: seq<Event>, i: nat, id: ProviderId)
    requires i < |log|
    ensures Latest(log[..i + 1], id) ==
      if log[i].id == id && !log[i].Returned? then Some(log[i].provider) else Latest(log[..i], id)
  {
    assert log[..i + 1][..i] == log[..i];
  }

  lemma {:induction false} LatestStays(log: seq<Event>, i: nat, j: nat, id: ProviderId)
    requires Lawful(log) && i <= j <= |log| && Latest(log[..i], id).Some?
    requires forall k :: i <= k < j ==> !(log[k].Registered? && log[k].id == id)
    ensures Latest(log[..j], id) == Latest(log[..i], id)
    decreases j
  {
    if i < j {
      LatestStays(log, i, j - 1, id);
      LatestStep(log, j - 1, id);
    }
  }

  lemma {:induction false} LatestSome(log: seq<Event>, i: nat, j: nat)
    requires i < j <= |log| && !log[i].Returned?
    ensures Latest(log[..j], log[i].id).Some?
    decreases j
  {
    assert log[..j][..j - 1] == log[..j - 1];
    if i < j - 1 { LatestSome(log, i, j - 1); }
  }

  /** In every interleaving a factory succeeds at most once for each id, and never after the id was registered. */
  lemma MadeOnce(steps: seq<Step>, i: nat, j: nat)
    requires Run(steps) && i < j < |After(steps).log|
    requires After(steps).log[j].Made? && After(steps).log[i].id == After(steps).log[j].id
    ensures !After(steps).log[i].Made? && !After(steps).log[i].Registered?
  {
    RunKeepsInv(steps);
    var log := After(steps).log;
    if !log[i].Returned? { LatestSome(log, i, j); }
  }

  /** Two gets of an id return the same provider unless it is registered in between. */
  lemma GetsAgree(steps: seq<Step>, i: nat, j: nat)
    requires Run(steps) && i < j < |After(steps).log|
    requires var log := After(steps).log;
             && log[i].Returned? && log[j].Returned? && log[i].id == log[j].id
             && forall k :: i < k < j ==> !(log[k].Registered? && log[k].id == log[i].id)
    ensures After(steps).log[i].provider == After(steps).log[j].provider
  {
    RunKeepsInv(steps);
    LatestStays(After(steps).log, i, j, After(steps).log[i].id);
  }

  /** A get after a registration returns what was registered, until the next registration. */
  lemma GetsSeeRegistrations(steps: seq<Step>, i: nat, j: nat)
    requires Run(steps) && i < j < |After(steps).log|
    requires var log := After(steps).log;
             && log[i].Registered? && log[j].Returned? && log[i].id == log[j].id
             && forall k :: i < k < j ==> !(log[k].Registered? && log[k].id == log[i].id)
    ensures After(steps).log[i].provider == After(steps).log[j].provider
  {
    RunKeepsInv(steps);
    var log := After(steps).log;
    assert Latest(log[..i + 1], log[i].id) == Some(log[i].provider);
    LatestStays(log, i + 1, j, log[i].id);
  }

  // ---------------------------------------------------------------- The lock is given back

  /** The steps that a thread inside needs at most before it has released the lock. */
  function StepsToRelease(pc: Pc): nat
  {
    match pc
    case Holding(_) => 4
    case Creating(_) => 3
    case Storing(_, _) => 2
    case Leaving => 1
    case Panicking => 1
    case _ => 0
  }

  /** The next step of a thread that is inside, if its factory makes `made`. */
  function OwnStep(t: Thread, pc: Pc, made: Option<Provider>): Step
    requires Critical(pc)
  {
    match pc
    case Holding(_) => Act(t)
    case Creating(_) => Factory(t, made)
    case Storing(_, _) => Store(t)
    case _ => Unlock(t)
  }

  lemma AddStep(steps: seq<Step>, step: Step)
    requires Run(steps) && Enabled(After(steps), step)
    ensures Run(steps + [step]) && After(steps + [step]) == Next(After(steps), step)
  {
    assert (steps + [step])[..|steps|] == steps;
  }

  lemma OwnStepProgress(s: State, t: Thread, made: Option<Provider>)
    requires Critical(At(s, t))
    ensures var pc, step := At(s, t), OwnStep(t, At(s, t), made);
            && Enabled(s, step)
            && if step.Unlock? then Next(s, step).lock.None?
               else Critical(At(Next(s, step), t)) && StepsToRelease(At(Next(s, step), t)) < StepsToRelease(pc)
  {
  }

  /** From every reachable state, whatever its factory does, the holder of the lock releases it within four steps of
      its own. */
  lemma {:induction false} HolderReleases(steps: seq<Step>, t: Thread, made: Option<Provider>)
    returns (longer: seq<Step>)
    requires Run(steps) && Critical(At(After(steps), t))
    ensures steps <= longer && |longer| <= |steps| + StepsToRelease(At(After(steps), t)) <= |steps| + 4
    ensures forall i :: |steps| <= i < |longer| ==> longer[i].t == t
    ensures Run(longer) && After(longer).lock.None?
    decreases StepsToRelease(At(After(steps), t))
  {
    var step := OwnStep(t, At(After(steps), t), made);
    OwnStepProgress(After(steps), t, made);
    AddStep(steps, step);
    longer := steps + [step];
    if !step.Unlock? { longer := HolderReleases(longer, t, made); }
  }

  /** There is no deadlock: as long as some call is under way, some thread can take a step. */
  lemma NoDeadlock(steps: seq<Step>, t: Thread)
    requires Run(steps) && !At(After(steps), t).Idle? && !At(After(steps), t).Crashed?
    ensures exists step: Step :: !step.Call? && Enabled(After(steps), step)
  {
    RunKeepsInv(steps);
    var s := After(steps);
    if s.lock.Some? {
      assert Critical(At(s, s.lock.value));
      assert Enabled(s, OwnStep(s.lock.value, At(s, s.lock.value), None));
    } else {
      assert Enabled(s, Lock(t));
    }
  }

  // ---------------------------------------------------------------- The methods

  /** Event `i` is about this id, which has not been registered since. */
  ghost predicate Standing(log: seq<Event>, i: int, id: ProviderId)
  {
    0 <= i < |log| && log[i].id == id && forall k :: i < k < |log| ==> !(log[k].Registered? && log[k].id == id)
  }

  lemma StandingIsLatest(log: seq<Event>, i: int, id: ProviderId)
    requires Lawful(log) && Standing(log, i, id)
    ensures Latest(log, id) == Some(log[i].provider)
  {
    assert log[..i + 1][..i] == log[..i] && log[..|log|] == log;
    LatestStays(log, i + 1, |log|, id);
  }

  lemma StandingIsStored(steps: seq<Step>, i: int, id: ProviderId)
    requires Run(steps) && After(steps).lock.None? && Standing(After(steps).log, i, id)
    ensures id in After(steps).providers && After(steps).providers[id] == After(steps).log[i].provider
  {
    RunKeepsInv(steps);
    StandingIsLatest(After(steps).log, i, id);
    assert Current(After(steps), id) == Latest(After(steps).log, id);
  }

  /** The object, together with the steps that all threads have taken on it. */
  class ProviderRegistry {
    var providers: map<ProviderId, Provider>
    ghost var steps: seq<Step>

    ghost predicate Valid()
      reads this
    {
      Run(steps) && After(steps).lock.None? && After(steps).providers == providers
    }

    ghost function Log(): seq<Event>
      requires Valid()
      reads this
    {
      After(steps).log
    }

    ghost predicate CanCall(t: Thread)
      requires Valid()
      reads this
    {
      At(After(steps), t).Idle?
    }

    constructor ()
      ensures Valid() && providers == map[] && steps == []
    {
      providers, steps := map[], [];
    }

    /** A statement of the methods is a step of the thread that executes it. */
    ghost method Do(step: Step)
      requires Run(steps) && Enabled(After(steps), step)
      modifies this`steps
      ensures steps == old(steps) + [step] && Run(steps) && After(steps) == Next(old(After(steps)), step)
    {
      AddStep(steps, step);
      steps := steps + [step];
    }

    ghost method Enter(t: Thread, task: Task)
      requires Valid() && CanCall(t)
      modifies this`steps
      ensures Run(steps) && At(After(steps), t) == Holding(task)
      ensures After(steps).providers == providers && After(steps).log == old(Log())
    {
      Do(Call(t, task));
      Do(Lock(t));
    }

    ghost method Leave(t: Thread)
      requires Run(steps) && After(steps).providers == providers
      requires At(After(steps), t).Leaving? || At(After(steps), t).Panicking?
      modifies this`steps
      ensures Valid() && Log() == old(After(steps).log)
      ensures CanCall(t) <==> old(At(After(steps), t)).Leaving?
    {
      Do(Unlock(t));
    }

    /** One registration in the life of the object: every get that follows returns it, until the next one. */
    method RegisterProvider(ghost t: Thread, id: ProviderId, provider: Provider)
      requires Valid() && CanCall(t)
      modifies this
      ensures Valid() && CanCall(t)
      ensures providers == old(providers)[id := provider]
      ensures Log() == old(Log()) + [Registered(id, provider)]
    {
      Enter(t, Register(id, provider));
      providers := providers[id := provider];
      Do(Act(t));
      Leave(t);
    }

    /** It succeeds exactly if a provider is stored or can be made, and returns what any earlier get of the id has
        returned since its last registration, or what was registered then. The deferred unlock runs on a panic too. */
    method GetProvider(ghost t: Thread, id: ProviderId, made: Option<Provider>) returns (r: Outcome<Provider>)
      requires Valid() && CanCall(t)
      modifies this
      ensures Valid() && !r.Error? && (CanCall(t) <==> r.Ok?)
      ensures r.Ok? <==> id in old(providers) || (id in FACTORIES && made.Some?)
      ensures forall i :: r.Ok? && Standing(old(Log()), i, id) ==> r.value == old(Log())[i].provider
      ensures id in old(providers) ==> providers == old(providers) && r == Ok(providers[id])
      ensures id !in old(providers) && r.Ok? ==> Some(r.value) == made && providers == old(providers)[id := r.value]
      ensures r.Panic? ==> providers == old(providers) && Log() == old(Log())
      ensures r.Ok? ==>
        Log() == (if id in old(providers) then old(Log()) else old(Log()) + [Made(id, r.value)])
                 + [Returned(id, r.value)]
    {
      forall i | Standing(Log(), i, id) ensures id in providers && providers[id] == Log()[i].provider {
        StandingIsStored(steps, i, id);
      }
      Enter(t, Get(id));
      if id in providers {
        r := Ok(providers[id]);
        Do(Act(t));
      } else if id in FACTORIES {
        Do(Act(t));
        Do(Factory(t, made));
        if made.None? {
          r := Panic;
        } else {
          providers := providers[id := made.value];
          r := Ok(made.value);
          Do(Store(t));
        }
      } else {
        Do(Act(t));
        r := Panic;
      }
      Leave(t);
    }
  }
  /** Call `i` determined the provider of the id, and no registration up to call `n` has changed it. */
  ghost predicate InForce(calls: seq<(Task, Option<Provider>)>, i: int, n: int)
  {
    0 <= i < n <= |calls| && forall k :: i < k < n ==> !(calls[k].0.Register? && calls[k].0.id == calls[i].0.id)
  }

  /** Every get has returned what any call in force at the time had determined. */
  ghost predicate Consistent(calls: seq<(Task, Option<Provider>)>, results: seq<Provider>)
    requires |results| <= |calls|
  {
    forall i, j :: InForce(calls, i, j) && j < |results| && calls[j].0 == Get(calls[i].0.id) ==>
      results[j] == results[i]
  }

  ghost predicate Remembered(
    calls: seq<(Task, Option<Provider>)>, results: seq<Provider>, providers: map<ProviderId, Provider>)
    requires |results| <= |calls|
  {
    forall i :: InForce(calls, i, |results|) ==>
      calls[i].0.id in providers && providers[calls[i].0.id] == results[i]
  }

  lemma RecordCall(
    calls: seq<(Task, Option<Provider>)>, results: seq<Provider>, before: map<ProviderId, Provider>, p: Provider)
    requires |results| < |calls| && Consistent(calls, results) && Remembered(calls, results, before)
    requires calls[|results|].0.Get? && calls[|results|].0.id in before ==> before[calls[|results|].0.id] == p
    ensures Consistent(calls, results + [p])
    ensures Remembered(calls, results + [p], before[calls[|results|].0.id := p])
  {
    var n, after := |results|, before[calls[|results|].0.id := p];
    forall i | InForce(calls, i, n + 1)
      ensures calls[i].0.id in after && after[calls[i].0.id] == (results + [p])[i]
    {
      if i < n { assert InForce(calls, i, n); }
    }
  }

  /** Any sequence of calls, until one panics. A get returns what the last registration of its id, or any earlier get
      since then, was given; `results` holds what each call returned or registered. */
  method Serve(registry: ProviderRegistry, ghost t: Thread, calls: seq<(Task, Option<Provider>)>)
    returns (results: seq<Provider>)
    requires registry.Valid() && registry.CanCall(t)
    modifies registry
    ensures registry.Valid() && |results| <= |calls| && Consistent(calls, results)
    ensures forall k :: 0 <= k < |results| && calls[k].0.Register? ==> results[k] == calls[k].0.provider
    ensures |results| < |calls| ==> calls[|results|].0.Get? && calls[|results|].0.id !in registry.providers
  {
    results := [];
    for n := 0 to |calls|
      invariant registry.Valid() && registry.CanCall(t) && |results| == n
      invariant Consistent(calls, results) && Remembered(calls, results, registry.providers)
      invariant forall k :: 0 <= k < n && calls[k].0.Register? ==> results[k] == calls[k].0.provider
    {
      ghost var before := registry.providers;
      var p;
      match calls[n].0 {
        case Register(id, provider) =>
          registry.RegisterProvider(t, id, provider);
          p := provider;
        case Get(id) =>
          var r := registry.GetProvider(t, id, calls[n].1);
          if !r.Ok? { return; }
          p := r.value;
      }
      RecordCall(calls, results, before, p);
      assert registry.providers == before[calls[n].0.id := p];
      results := results + [p];
    }
  }
}
