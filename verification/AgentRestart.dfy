/** Restarting the Agent after its files have changed: `installAgent` and
    `installIntegrationConfigsAndFiles` of `components/datadog/agent/host.go`. */
module AgentRestart {
  import opened Wrappers
  import opened AgentConfig

  /** The resources of one host. `Prepare` uploads the local package or uninstalls the previous one, `Removal` is
      the restart command that runs when it is deleted, `Dir` and `Perm` create the directory of a file and set its
      permissions. */
  datatype Id =
    | Prepare | Install | Config(name: string) | Removal
    | Dir(path: string) | File(path: string) | Perm(path: string)
    | Restart

  datatype Content = Text(text: string) | Yaml(doc: Doc)

  type Disk = map<Id, Content>

  /** What the program asks for. `core` is the merged core configuration, `coreBase` the base it was
      merged from; `hash` is the trigger computed from the integrations and files. */
  datatype Host = Host(version: string, coreBase: Doc, core: Doc, systemProbe: string, securityAgent: string,
                       files: map<string, string>, hash: string)

  const CONFIGS: set<Id> := {Config("datadog.yaml"), Config("system-probe.yaml"), Config("security-agent.yaml")}

  function Written(h: Host): (ids: set<Id>)
  {
    CONFIGS + set p | p in h.files :: File(p)
  }

  function ContentOf(h: Host, id: Id): Content
    requires id in Written(h)
  {
    if id == Config("datadog.yaml") then Yaml(h.core)
    else if id == Config("system-probe.yaml") then Text(h.systemProbe)
    else if id == Config("security-agent.yaml") then Text(h.securityAgent)
    else Text(h.files[id.path])
  }

  /** The files of the host once `h` is deployed over the files `orig` that were there before. */
  function DiskOf(h: Host, orig: Disk): Disk
  {
    orig + map id | id in Written(h) :: ContentOf(h, id)
  }

  /** The triggers of the restart command: the base of the core configuration, not the merged one. */
  datatype Triggers =
    Triggers(coreBase: Doc, systemProbe: string, securityAgent: string, hash: string, version: string)

  function TriggersOf(h: Host): Triggers
  {
    Triggers(h.coreBase, h.systemProbe, h.securityAgent, h.hash, h.version)
  }

  predicate SameRestart(a: Host, b: Host)
  {
    TriggersOf(a) == TriggersOf(b)
  }

  /** The restart command depends on the whole component, to which `Removal` and the permission commands do not
      belong. */
  predicate DependsOn(id: Id, dep: Id)
  {
    match id
    case Prepare => false
    case Install => dep == Prepare
    case Removal => false
    case Config(_) => dep == Install
    case Dir(_) => dep == Install || dep == Removal
    case File(path) => dep == Install || dep == Removal || dep == Dir(path)
    case Perm(path) => dep == File(path)
    case Restart => dep != Restart && dep != Removal && !dep.Perm?
  }

  // ---------------------------------------------------------------- One update

  /** `Replace` deletes a file before its replacement is created; it belongs to the first phase. */
  datatype Op = Create(id: Id) | Replace(id: Id) | Delete(id: Id)

  /** From `before` (nothing on the first deployment) to `after`. A written file is replaced when its content
      changes. `also` are steps that happen for reasons outside the model, any set of them: files rewritten without
      a change, and what happens to the resources that neither write files nor restart the Agent. */
  datatype Update = Update(before: Option<Host>, after: Host, also: set<Op>)

  predicate Rewritten(u: Update, id: Id)
    requires u.before.Some? && id in Written(u.before.value) && id in Written(u.after)
  {
    Replace(id) in u.also || ContentOf(u.before.value, id) != ContentOf(u.after, id)
  }

  /** The steps of the update. Commands other than file copies are deleted after they are replaced. */
  predicate Planned(u: Update, op: Op)
  {
    match op
    case Create(id) =>
      (match id
       case Install => u.before.None? || u.before.value.version != u.after.version
       case Removal => u.before.None? || u.before.value.hash != u.after.hash
       case Restart => u.before.None? || !SameRestart(u.before.value, u.after)
       case Config(_) | File(_) =>
         id in Written(u.after) && (u.before.None? || id !in Written(u.before.value) || Rewritten(u, id))
       case _ => op in u.also)
    case Replace(id) =>
      (match id
       case Install | Removal | Restart => false
       case Config(_) | File(_) =>
         u.before.Some? && id in Written(u.before.value) && id in Written(u.after) && Rewritten(u, id)
       case _ => op in u.also)
    case Delete(id) =>
      (match id
       case Install => u.before.Some? && u.before.value.version != u.after.version
       case Removal => u.before.Some? && u.before.value.hash != u.after.hash
       case Restart => u.before.Some? && !SameRestart(u.before.value, u.after)
       case Config(_) | File(_) => u.before.Some? && id in Written(u.before.value) && id !in Written(u.after)
       case _ => op in u.also)
  }

  /** The resource did not exist before the update, or may not have existed in the case of permissions. */
  predicate IsNew(u: Update, id: Id)
  {
    u.before.None? ||
    match id
    case Config(_) => id !in Written(u.before.value)
    case Dir(path) => path !in u.before.value.files
    case File(path) => path !in u.before.value.files
    case Perm(_) => true
    case _ => false
  }

  /** What the engine's order guarantees: deletes come last, in reverse dependency order; creates and
      replaces come in dependency order, whether they form one phase or new resources are created before
      others are replaced. (Then a new resource may be created before one it depends on is replaced.) */
  predicate MustPrecede(u: Update, a: Op, b: Op)
  {
    || (!a.Delete? && b.Delete?)
    || (a.Create? && b.Create? && DependsOn(b.id, a.id) && (IsNew(u, a.id) || !IsNew(u, b.id)))
    || (a.Replace? && b == Create(a.id))
    || (a.Delete? && b.Delete? && DependsOn(a.id, b.id))
  }

  ghost predicate Schedule(u: Update, s: seq<Op>)
  {
    && (forall op :: op in s <==> Planned(u, op))
    && (forall i, j :: 0 <= i < j < |s| ==> s[i] != s[j])
    && (forall i, j :: 0 <= i < j < |s| ==> !MustPrecede(u, s[j], s[i]))
  }

  predicate IsWrite(op: Op)
  {
    op.id.Config? || op.id.File?
  }

  /** Creating the restart command restarts the Agent, and so does deleting `Removal`. */
  predicate IsRestart(op: Op)
  {
    op == Create(Restart) || op == Delete(Removal)
  }

  /** The files of the host after the first `n` steps; deleting a copied file puts back what it replaced. */
  function DiskAfter(u: Update, orig: Disk, s: seq<Op>, n: nat): Disk
    requires n <= |s|
  {
    if n == 0 then (if u.before.None? then orig else DiskOf(u.before.value, orig)) else
      var disk, op := DiskAfter(u, orig, s, n - 1), s[n - 1];
      if !IsWrite(op) then disk
      else if op.Create? && op.id in Written(u.after) then disk[op.id := ContentOf(u.after, op.id)]
      else if op.id in orig then disk[op.id := orig[op.id]]
      else disk - {op.id}
  }

  /** What the Agent has loaded: the files of the host at its last restart. */
  function LoadedAfter(u: Update, orig: Disk, s: seq<Op>, n: nat, loaded: Disk): Disk
    requires n <= |s|
  {
    if n == 0 then loaded
    else if IsRestart(s[n - 1]) then DiskAfter(u, orig, s, n)
    else LoadedAfter(u, orig, s, n - 1, loaded)
  }

  // ---------------------------------------------------------------- One file over the schedule

  function Get(disk: Disk, id: Id): Option<Content>
  {
    if id in disk then Some(disk[id]) else None
  }

  lemma {:induction false} Untouched(u: Update, orig: Disk, s: seq<Op>, i: nat, n: nat, id: Id)
    requires i <= n <= |s| && forall k :: i <= k < n ==> s[k].id != id || !IsWrite(s[k])
    ensures Get(DiskAfter(u, orig, s, i), id) == Get(DiskAfter(u, orig, s, n), id)
    decreases n
  {
    if i < n { Untouched(u, orig, s, i, n - 1, id); }
  }

  lemma {:induction false} AllUntouched(u: Update, orig: Disk, s: seq<Op>, i: nat, n: nat)
    requires i <= n <= |s| && forall k :: i <= k < n ==> !IsWrite(s[k])
    ensures DiskAfter(u, orig, s, i) == DiskAfter(u, orig, s, n)
    decreases n
  {
    if i < n { AllUntouched(u, orig, s, i, n - 1); }
  }

  /** Once the first phase is past a file of the new program, the file holds its new content. */
  lemma NewContent(u: Update, orig: Disk, s: seq<Op>, n: nat, id: Id)
    requires Schedule(u, s) && n <= |s| && id in Written(u.after)
    requires Create(id) in s ==> Create(id) in s[..n]
    ensures Get(DiskAfter(u, orig, s, n), id) == Some(ContentOf(u.after, id))
  {
    assert !Planned(u, Delete(id));
    if Create(id) in s {
      var i :| 0 <= i < n && s[i] == Create(id);
      forall k | i < k < n ensures s[k].id != id {
        assert s[k] in s && !MustPrecede(u, s[k], s[i]);
      }
      Untouched(u, orig, s, i + 1, n, id);
    } else {
      assert !Planned(u, Create(id)) && !Planned(u, Replace(id));
      forall k | 0 <= k < n ensures s[k].id != id { assert s[k] in s; }
      Untouched(u, orig, s, 0, n, id);
    }
  }

  /** A removed file keeps its old content until its delete step, and then holds what was there before. */
  lemma OldContent(u: Update, orig: Disk, s: seq<Op>, n: nat, id: Id)
    requires Schedule(u, s) && n <= |s| && id !in Written(u.after) && (id.File? || id.Config?)
    ensures Get(DiskAfter(u, orig, s, n), id) ==
      if Delete(id) !in s[..n] && u.before.Some? && id in Written(u.before.value)
      then Some(ContentOf(u.before.value, id)) else Get(orig, id)
  {
    assert !Planned(u, Create(id)) && !Planned(u, Replace(id));
    forall k | 0 <= k < n && s[k].id == id ensures s[k] == Delete(id) { assert s[k] in s; }
    if Delete(id) in s[..n] {
      var i :| 0 <= i < n && s[i] == Delete(id);
      assert s[i] in s;
      forall k | i < k < n ensures s[k].id != id { assert s[k] != s[i]; }
      Untouched(u, orig, s, i + 1, n, id);
    } else {
      forall k | 0 <= k < n ensures s[k].id != id { assert s[k] in s[..n]; }
      Untouched(u, orig, s, 0, n, id);
    }
  }

  /** Whatever the order of the steps, the update leaves the files that the new program asks for. */
  lemma UpdateReachesDisk(u: Update, orig: Disk, s: seq<Op>)
    requires Schedule(u, s)
    ensures DiskAfter(u, orig, s, |s|) == DiskOf(u.after, orig)
  {
    var end, want := DiskAfter(u, orig, s, |s|), DiskOf(u.after, orig);
    assert s[..|s|] == s;
    forall id ensures Get(end, id) == Get(want, id) {
      if id in Written(u.after) {
        NewContent(u, orig, s, |s|, id);
      } else if id.File? || id.Config? {
        OldContent(u, orig, s, |s|, id);
        if u.before.Some? && id in Written(u.before.value) { assert Planned(u, Delete(id)); }
      } else {
        Untouched(u, orig, s, 0, |s|, id);
      }
    }
    SameDisk(end, want);
  }

  lemma ConfigsHold(h: Host, orig: Disk)
    ensures Get(DiskOf(h, orig), Config("datadog.yaml")) == Some(Yaml(h.core))
    ensures Get(DiskOf(h, orig), Config("system-probe.yaml")) == Some(Text(h.systemProbe))
    ensures Get(DiskOf(h, orig), Config("security-agent.yaml")) == Some(Text(h.securityAgent))
  {
    var core, probe, security := Config("datadog.yaml"), Config("system-probe.yaml"), Config("security-agent.yaml");
    assert core in Written(h) && probe in Written(h) && security in Written(h);
    assert "datadog.yaml"[0] == 'd' && "system-probe.yaml"[1] == 'y' && "security-agent.yaml"[1] == 'e';
    assert core != probe && probe != security && core != security;
  }

  lemma FileHolds(h: Host, orig: Disk, p: string)
    ensures Get(DiskOf(h, orig), File(p)) == if p in h.files then Some(Text(h.files[p])) else Get(orig, File(p))
  {
    assert File(p) in Written(h) <==> p in h.files;
  }

  /** The files of the host after an update, one by one. */
  lemma HostHolds(u: Update, orig: Disk, s: seq<Op>)
    requires Schedule(u, s)
    ensures var end, h := DiskAfter(u, orig, s, |s|), u.after;
            && Get(end, Config("datadog.yaml")) == Some(Yaml(h.core))
            && Get(end, Config("system-probe.yaml")) == Some(Text(h.systemProbe))
            && Get(end, Config("security-agent.yaml")) == Some(Text(h.securityAgent))
            && forall p :: Get(end, File(p)) == if p in h.files then Some(Text(h.files[p])) else Get(orig, File(p))
  {
    UpdateReachesDisk(u, orig, s);
    ConfigsHold(u.after, orig);
    forall p {
      FileHolds(u.after, orig, p);
    }
  }

  lemma SameDisk(a: Disk, b: Disk)
    requires forall id :: Get(a, id) == Get(b, id)
    ensures a == b
  {
    assert forall id :: id in a <==> Get(a, id).Some?;
    assert forall id :: id in b <==> Get(b, id).Some?;
    assert forall id :: id in a ==> Get(a, id) == Some(a[id]);
  }

  // ---------------------------------------------------------------- Has the Agent loaded it?

  lemma {:induction false} LoadedSince(u: Update, orig: Disk, s: seq<Op>, j: nat, n: nat, loaded: Disk)
    requires j < n <= |s| && IsRestart(s[j]) && forall k :: j < k < n ==> !IsRestart(s[k])
    ensures LoadedAfter(u, orig, s, n, loaded) == DiskAfter(u, orig, s, j + 1)
    decreases n
  {
    if j + 1 < n { LoadedSince(u, orig, s, j, n - 1, loaded); }
  }

  lemma {:induction false} NeverRestarted(u: Update, orig: Disk, s: seq<Op>, n: nat, loaded: Disk)
    requires n <= |s| && forall k :: 0 <= k < n ==> !IsRestart(s[k])
    ensures LoadedAfter(u, orig, s, n, loaded) == loaded
  {
    if n > 0 { NeverRestarted(u, orig, s, n - 1, loaded); }
  }

  /** A restart after the last write settles it. */
  lemma {:induction false} Settled(u: Update, orig: Disk, s: seq<Op>, j: nat, n: nat, loaded: Disk)
    requires j < n <= |s| && IsRestart(s[j]) && forall k :: j < k < n ==> !IsWrite(s[k])
    ensures LoadedAfter(u, orig, s, n, loaded) == DiskAfter(u, orig, s, n)
    decreases n
  {
    if j + 1 < n { Settled(u, orig, s, j, n - 1, loaded); }
  }

  /** Files that the update removes without effect: what they replaced had the same content. */
  ghost predicate RemovalsHaveNoEffect(u: Update, orig: Disk)
    requires u.before.Some?
  {
    forall id :: id in Written(u.before.value) && id !in Written(u.after) ==>
      Get(orig, id) == Some(ContentOf(u.before.value, id))
  }

  /** A change of the integrations or files shows in the hash; then one of the two commands restarts the
      Agent after the last write. When the hash stays the same, the Agent can only be up to date if the
      other triggers made it restart and no file was removed, or if it was up to date all along. */
  ghost predicate WillBeLoaded(u: Update, orig: Disk, loaded: Disk)
  {
    || u.before.None?
    || u.before.value.hash != u.after.hash
    || (if SameRestart(u.before.value, u.after) then loaded == DiskOf(u.after, orig) else RemovalsHaveNoEffect(u, orig))
  }

  /** In every schedule the Agent ends up having loaded what is on the host exactly under that condition. */
  lemma {:induction false} LoadedIff(u: Update, orig: Disk, s: seq<Op>, loaded: Disk)
    requires Schedule(u, s)
    ensures LoadedAfter(u, orig, s, |s|, loaded) == DiskAfter(u, orig, s, |s|) <==> WillBeLoaded(u, orig, loaded)
  {
    if u.before.None? {
      LoadedOnFirstDeployment(u, orig, s, loaded);
    } else if u.before.value.hash != u.after.hash {
      LoadedOnNewHash(u, orig, s, loaded);
    } else if SameRestart(u.before.value, u.after) {
      forall k | 0 <= k < |s| ensures !IsRestart(s[k]) { assert s[k] in s; }
      NeverRestarted(u, orig, s, |s|, loaded);
      UpdateReachesDisk(u, orig, s);
    } else {
      LoadedOnOtherTrigger(u, orig, s, loaded);
    }
  }

  lemma LoadedOnFirstDeployment(u: Update, orig: Disk, s: seq<Op>, loaded: Disk)
    requires Schedule(u, s) && u.before.None?
    ensures LoadedAfter(u, orig, s, |s|, loaded) == DiskAfter(u, orig, s, |s|)
  {
    assert Planned(u, Create(Restart));
    var j :| 0 <= j < |s| && s[j] == Create(Restart);
    forall k | 0 <= k < |s| ensures IsWrite(s[k]) ==> k < j {
      assert s[k] in s;
      assert IsWrite(s[k]) ==> MustPrecede(u, s[k], s[j]);
    }
    Settled(u, orig, s, j, |s|, loaded);
  }

  lemma LoadedOnNewHash(u: Update, orig: Disk, s: seq<Op>, loaded: Disk)
    requires Schedule(u, s) && u.before.Some? && u.before.value.hash != u.after.hash
    ensures LoadedAfter(u, orig, s, |s|, loaded) == DiskAfter(u, orig, s, |s|)
  {
    assert Planned(u, Delete(Removal));
    var j :| 0 <= j < |s| && s[j] == Delete(Removal);
    forall k | j < k < |s| ensures !IsWrite(s[k]) {
      assert s[k] in s && !MustPrecede(u, s[k], s[j]);
    }
    Settled(u, orig, s, j, |s|, loaded);
  }

  lemma LoadedOnOtherTrigger(u: Update, orig: Disk, s: seq<Op>, loaded: Disk)
    requires Schedule(u, s) && u.before.Some? && u.before.value.hash == u.after.hash
    requires !SameRestart(u.before.value, u.after)
    ensures LoadedAfter(u, orig, s, |s|, loaded) == DiskAfter(u, orig, s, |s|) <==> RemovalsHaveNoEffect(u, orig)
  {
    assert Planned(u, Create(Restart));
    var j :| 0 <= j < |s| && s[j] == Create(Restart);
    forall k | j < k < |s| ensures !IsRestart(s[k]) { assert s[k] in s && s[k] != s[j]; }
    LoadedSince(u, orig, s, j, |s|, loaded);
    UpdateReachesDisk(u, orig, s);
    var atRestart, end := DiskAfter(u, orig, s, j + 1), DiskOf(u.after, orig);
    forall id ensures Get(atRestart, id) == Get(end, id) <==>
      !(id in Written(u.before.value) && id !in Written(u.after)
        && Get(orig, id) != Some(ContentOf(u.before.value, id)))
    {
      AtRestart(u, orig, s, j, id);
    }
    if RemovalsHaveNoEffect(u, orig) { SameDisk(atRestart, end); }
    assert atRestart == end ==> forall id :: Get(atRestart, id) == Get(end, id);
  }

  /** When the restart command is created, all files are written and none is deleted yet. */
  lemma AtRestart(u: Update, orig: Disk, s: seq<Op>, j: nat, id: Id)
    requires Schedule(u, s) && u.before.Some? && j < |s| && s[j] == Create(Restart)
    ensures Get(DiskAfter(u, orig, s, j + 1), id) ==
      if id in Written(u.after) then Some(ContentOf(u.after, id))
      else if id in Written(u.before.value) then Some(ContentOf(u.before.value, id))
      else Get(orig, id)
  {
    if id in Written(u.after) {
      if Create(id) in s {
        var i :| 0 <= i < |s| && s[i] == Create(id);
        assert DependsOn(Restart, id) && MustPrecede(u, s[i], s[j]);
        assert s[..j + 1][i] == Create(id);
      }
      NewContent(u, orig, s, j + 1, id);
    } else if id.File? || id.Config? {
      if Delete(id) in s[..j + 1] {
        var i :| 0 <= i <= j && s[i] == Delete(id);
        assert MustPrecede(u, s[j], s[i]);
      }
      OldContent(u, orig, s, j + 1, id);
    } else {
      Untouched(u, orig, s, 0, j + 1, id);
    }
  }

  /** The hash and the base of the core configuration do not hide a change of the files or of the configuration. */
  predicate TriggersTell(a: Host, b: Host)
  {
    (a.hash == b.hash ==> a.files == b.files) && (a.coreBase == b.coreBase ==> a.core == b.core)
  }

  /** When the triggers tell every change apart, an up-to-date Agent stays up to date. */
  lemma LoadedWhenTriggersTell(u: Update, orig: Disk, s: seq<Op>, loaded: Disk)
    requires Schedule(u, s) && (u.before.Some? ==> loaded == DiskOf(u.before.value, orig))
    requires u.before.Some? ==> TriggersTell(u.before.value, u.after)
    ensures LoadedAfter(u, orig, s, |s|, loaded) == DiskOf(u.after, orig)
  {
    LoadedIff(u, orig, s, loaded);
    UpdateReachesDisk(u, orig, s);
  }

  /** A new version is installed, and the Agent restarted after that. */
  lemma UpgradeRestarts(u: Update, s: seq<Op>)
    requires Schedule(u, s) && u.before.Some? && u.before.value.version != u.after.version
    ensures exists i, j :: 0 <= i < j < |s| && s[i] == Create(Install) && s[j] == Create(Restart)
  {
    assert Planned(u, Create(Install)) && Planned(u, Create(Restart));
    var i :| 0 <= i < |s| && s[i] == Create(Install);
    var j :| 0 <= j < |s| && s[j] == Create(Restart);
    assert MustPrecede(u, s[i], s[j]);
  }

  /** The resource must be there before the other is created, and stay until the other is deleted. */
  predicate Supports(first: Id, later: Id)
  {
    match later
    case Install => first == Prepare
    case Config(_) => first == Install
    case Dir(_) => first == Install || first == Removal
    case File(path) => first == Install || first == Removal || first == Dir(path)
    case Perm(path) => first == File(path)
    case Restart => first in {Prepare, Install} || first.Config? || first.Dir? || first.File?
    case _ => false
  }

  /** What the dependencies mean for the order of a first deployment and of any deletion. */
  lemma CommandsAreOrdered(u: Update, s: seq<Op>, i: nat, j: nat)
    requires Schedule(u, s) && i < |s| && j < |s| && Supports(s[i].id, s[j].id)
    ensures u.before.None? && s[i].Create? && s[j].Create? ==> i < j
    ensures s[i].Delete? && s[j].Delete? ==> j < i
  {
    if s[i].Create? && s[j].Create? && u.before.None? { assert MustPrecede(u, s[i], s[j]); }
    if s[i].Delete? && s[j].Delete? { assert MustPrecede(u, s[j], s[i]); }
  }

  /** What the Agent has loaded after the last of `hosts` has been deployed, one after the other. */
  ghost function LoadedOver(hosts: seq<Host>, also: seq<set<Op>>, runs: seq<seq<Op>>, orig: Disk, loaded: Disk): Disk
    requires |hosts| == |also| == |runs|
  {
    if hosts == [] then loaded else
      var n := |hosts| - 1;
      LoadedAfter(Nth(hosts, also, n), orig, runs[n], |runs[n]|,
                  LoadedOver(hosts[..n], also[..n], runs[..n], orig, loaded))
  }

  function Nth(hosts: seq<Host>, also: seq<set<Op>>, n: nat): Update
    requires n < |hosts| == |also|
  {
    Update(if n == 0 then None else Some(hosts[n - 1]), hosts[n], also[n])
  }

  /** Every deployment follows one of its schedules, and no trigger hides a change. */
  ghost predicate History(hosts: seq<Host>, also: seq<set<Op>>, runs: seq<seq<Op>>)
  {
    && |hosts| == |also| == |runs|
    && (forall i :: 0 <= i < |hosts| ==> Schedule(Nth(hosts, also, i), runs[i]))
    && (forall i :: 0 < i < |hosts| ==> TriggersTell(hosts[i - 1], hosts[i]))
  }

  lemma HistoryFront(hosts: seq<Host>, also: seq<set<Op>>, runs: seq<seq<Op>>, n: nat)
    requires History(hosts, also, runs) && n <= |hosts|
    ensures History(hosts[..n], also[..n], runs[..n])
  {
    forall i | 0 <= i < n ensures Schedule(Nth(hosts[..n], also[..n], i), runs[..n][i]) {
      assert Nth(hosts[..n], also[..n], i) == Nth(hosts, also, i) && Schedule(Nth(hosts, also, i), runs[i]);
    }
    forall i | 0 < i < n ensures TriggersTell(hosts[..n][i - 1], hosts[..n][i]) {
      assert TriggersTell(hosts[i - 1], hosts[i]);
    }
  }

  /** Over any history of deployments whose triggers tell every change apart, in any schedules, the Agent has
      always loaded what is on the host. */
  lemma {:induction false} UpToDateThroughout(
    hosts: seq<Host>, also: seq<set<Op>>, runs: seq<seq<Op>>, orig: Disk, loaded: Disk)
    requires hosts != [] && History(hosts, also, runs)
    ensures LoadedOver(hosts, also, runs, orig, loaded) == DiskOf(hosts[|hosts| - 1], orig)
  {
    var n := |hosts| - 1;
    var before := LoadedOver(hosts[..n], also[..n], runs[..n], orig, loaded);
    if n > 0 {
      HistoryFront(hosts, also, runs, n);
      UpToDateThroughout(hosts[..n], also[..n], runs[..n], orig, loaded);
      assert before == DiskOf(hosts[n - 1], orig);
    }
    LoadedWhenTriggersTell(Nth(hosts, also, n), orig, runs[n], before);
  }

  /** A change of the files that no trigger shows reaches the host but not the Agent. */
  lemma UnseenChangeIsNotLoaded(u: Update, orig: Disk, s: seq<Op>, id: Id)
    requires Schedule(u, s) && u.before.Some? && SameRestart(u.before.value, u.after)
    requires Get(DiskOf(u.before.value, orig), id) != Get(DiskOf(u.after, orig), id)
    ensures LoadedAfter(u, orig, s, |s|, DiskOf(u.before.value, orig)) != DiskAfter(u, orig, s, |s|)
    ensures DiskAfter(u, orig, s, |s|) == DiskOf(u.after, orig)
  {
    LoadedIff(u, orig, s, DiskOf(u.before.value, orig));
    UpdateReachesDisk(u, orig, s);
  }

  /** A new API key, or any other change that only the merged configuration shows, reaches the host but not
      the Agent: the restart is triggered by the base alone. */
  lemma {:induction false} RotatedKeyIsNotLoaded(
    u: Update, orig: Disk, s: seq<Op>, extra: seq<Doc>, oldKey: string, newKey: string)
    requires Schedule(u, s) && u.before.Some? && oldKey != newKey
    requires u.before.value.(core := u.after.core) == u.after
    requires Fold(u.after.coreBase, Extras(extra, oldKey, false), true) == Ok(u.before.value.core)
    requires Fold(u.after.coreBase, Extras(extra, newKey, false), true) == Ok(u.after.core)
    ensures LoadedAfter(u, orig, s, |s|, DiskOf(u.before.value, orig)) != DiskAfter(u, orig, s, |s|)
    ensures DiskAfter(u, orig, s, |s|) == DiskOf(u.after, orig)
  {
    KeyAlwaysWins(u.after.coreBase, oldKey, extra);
    KeyAlwaysWins(u.after.coreBase, newKey, extra);
    UnseenChangeIsNotLoaded(u, orig, s, Config("datadog.yaml"));
  }

  // ---------------------------------------------------------------- Schedules exist

  function Rank(op: Op): nat
  {
    match op
    case Replace(_) => 0
    case Create(Prepare) => 1
    case Create(Install) => 2
    case Create(Removal) => 2
    case Create(Dir(_)) => 3
    case Create(Perm(_)) => 5
    case Create(Restart) => 5
    case Create(_) => 4
    case Delete(Restart) => 6
    case Delete(Perm(_)) => 6
    case Delete(Dir(_)) => 8
    case Delete(Removal) => 9
    case Delete(Install) => 9
    case Delete(Prepare) => 10
    case Delete(_) => 7
  }

  lemma {:induction false} ByRank(ops: set<Op>) returns (s: seq<Op>)
    ensures forall op :: op in s <==> op in ops
    ensures forall i, j :: 0 <= i < j < |s| ==> s[i] != s[j] && Rank(s[i]) <= Rank(s[j])
    decreases |ops|
  {
    if ops == {} {
      s := [];
    } else {
      var first := Lowest(ops);
      var rest := ByRank(ops - {first});
      s := [first] + rest;
      assert forall i :: 0 <= i < |rest| ==> rest[i] in rest;
    }
  }

  lemma {:induction false} Lowest(ops: set<Op>) returns (first: Op)
    requires ops != {}
    ensures first in ops && forall op :: op in ops ==> Rank(first) <= Rank(op)
    decreases |ops|
  {
    first :| first in ops;
    if ops != {first} {
      var other := Lowest(ops - {first});
      if Rank(other) < Rank(first) { first := other; }
    }
  }

  lemma RankOrders(u: Update, a: Op, b: Op)
    ensures Planned(u, a) && Planned(u, b) && MustPrecede(u, a, b) ==> Rank(a) < Rank(b)
  {
  }

  lemma PlannedOps(u: Update) returns (ops: set<Op>)
    ensures forall op :: op in ops <==> Planned(u, op)
  {
    var earlier := if u.before.Some? then Written(u.before.value) else {};
    var ids := {Install, Removal, Restart} + Written(u.after) + earlier;
    var all := (set id | id in ids :: Create(id)) + (set id | id in ids :: Replace(id))
               + (set id | id in ids :: Delete(id));
    ops := set op | op in all + u.also && Planned(u, op);
    forall op | Planned(u, op) ensures op in all + u.also {
      assert op.id in ids || op in u.also;
    }
  }

  /** The engine's order is never contradictory: every update has a schedule. */
  lemma SomeSchedule(u: Update) returns (s: seq<Op>)
    ensures Schedule(u, s)
  {
    var ops := PlannedOps(u);
    s := ByRank(ops);
    forall i, j | 0 <= i < j < |s| ensures !MustPrecede(u, s[j], s[i]) {
      assert s[i] in s && s[j] in s;
      RankOrders(u, s[j], s[i]);
    }
  }

  /** Such updates exist: whatever else the program asks for, with an empty base and no other documents. */
  lemma RotatedKeyHappens(h: Host, orig: Disk, oldKey: string, newKey: string) returns (u: Update, s: seq<Op>)
    requires oldKey != newKey
    ensures Schedule(u, s) && u.before == Some(h.(coreBase := Blank, core := KeyDoc(oldKey)))
    ensures u.after == h.(coreBase := Blank, core := KeyDoc(newKey))
    ensures Fold(Blank, Extras([], oldKey, false), true) == Ok(KeyDoc(oldKey))
    ensures Fold(Blank, Extras([], newKey, false), true) == Ok(KeyDoc(newKey))
    ensures LoadedAfter(u, orig, s, |s|, DiskOf(u.before.value, orig)) != DiskAfter(u, orig, s, |s|)
  {
    var before := h.(coreBase := Blank, core := KeyDoc(oldKey));
    u := Update(Some(before), before.(core := KeyDoc(newKey)), {});
    s := SomeSchedule(u);
    KeyOverBlank(oldKey);
    KeyOverBlank(newKey);
    RotatedKeyIsNotLoaded(u, orig, s, [], oldKey, newKey);
  }

  // ---------------------------------------------------------------- installIntegrationConfigsAndFiles

  function Flatten(parts: seq<(string, string)>): string
  {
    if parts == [] then "" else Flatten(parts[..|parts| - 1]) + parts[|parts| - 1].0 + parts[|parts| - 1].1
  }

  lemma Regroup(a: string, b: string, c: string, d: string)
    ensures a + b + c + d == a + (b + c + d)
  {
  }

  /** The text behind the trigger is all parts, one after the other. */
  lemma {:induction false} FlattenAppend(a: seq<(string, string)>, b: seq<(string, string)>)
    ensures Flatten(a + b) == Flatten(a) + Flatten(b)
    decreases |b|
  {
    if b == [] {
      assert a + b == a;
    } else {
      var front, last := b[..|b| - 1], b[|b| - 1];
      FlattenAppend(a, front);
      assert b == front + [last] && a + b == a + front + [last];
      FlattenOneMore(a + front, last);
      Regroup(Flatten(a), Flatten(front), last.0, last.1);
    }
  }

  lemma FlattenOneMore(parts: seq<(string, string)>, part: (string, string))
    ensures Flatten(parts + [part]) == Flatten(parts) + part.0 + part.1
  {
    assert (parts + [part])[..|parts|] == parts;
  }

  lemma FlattenTo(parts: seq<(string, string)>, k: nat)
    requires k < |parts|
    ensures Flatten(parts[..k + 1]) == Flatten(parts[..k]) + parts[k].0 + parts[k].1
  {
    assert parts[..k + 1] == parts[..k] + [parts[k]];
    FlattenOneMore(parts[..k], parts[k]);
  }

  lemma FlattenAt(parts: seq<(string, string)>, k: nat)
    requires k < |parts|
    ensures Flatten(parts) == Flatten(parts[..k]) + parts[k].0 + parts[k].1 + Flatten(parts[k + 1..])
  {
    assert parts == parts[..k + 1] + parts[k + 1..];
    FlattenAppend(parts[..k + 1], parts[k + 1..]);
    FlattenTo(parts, k);
  }

  /** A change of any one file shows in the text, whatever the other files are. */
  lemma ChangedFileShows(a: seq<(string, string)>, k: nat, content: string)
    requires k < |a| && content != a[k].1
    ensures Flatten(a) != Flatten(a[k := (a[k].0, content)])
  {
    var b := a[k := (a[k].0, content)];
    FlattenAt(a, k);
    FlattenAt(b, k);
    assert b[..k] == a[..k] && b[k + 1..] == a[k + 1..];
    if Flatten(a) == Flatten(b) {
      Cancel(Flatten(a[..k]) + a[k].0, a[k].1, content, Flatten(a[k + 1..]));
    }
  }

  lemma Cancel(front: string, x: string, y: string, back: string)
    requires front + x + back == front + y + back
    ensures x == y
  {
    var all := front + x + back;
    assert all[|front|..|front| + |x|] == x;
    assert all[|front|..|front| + |y|] == y;
  }

  /** So the Agent loads it, if the digest tells the two texts apart. */
  lemma ChangedFileIsLoaded(
    u: Update, orig: Disk, s: seq<Op>, loaded: Disk, digest: string -> string,
    parts: seq<(string, string)>, k: nat, content: string)
    requires Schedule(u, s) && u.before.Some? && k < |parts| && content != parts[k].1
    requires u.before.value.hash == digest(Flatten(parts))
    requires u.after.hash == digest(Flatten(parts[k := (parts[k].0, content)]))
    requires var x, y := Flatten(parts), Flatten(parts[k := (parts[k].0, content)]); x != y ==> digest(x) != digest(y)
    ensures LoadedAfter(u, orig, s, |s|, loaded) == DiskAfter(u, orig, s, |s|) == DiskOf(u.after, orig)
  {
    ChangedFileShows(parts, k, content);
    LoadedOnNewHash(u, orig, s, loaded);
    UpdateReachesDisk(u, orig, s);
  }

  predicate IsPathAbsolute(path: string)
  {
    path != [] && path[0] == '/'
  }

  /** `join` puts a path into the configuration folder and cleans it, so that different paths can become one. */
  ghost predicate Distinct(join: string -> string, paths: set<string>)
  {
    forall p, q :: p in paths && q in paths && p != q ==> join(p) != join(q)
  }

  /** The integrations by the full paths of their files. */
  ghost function Placed(join: string -> string, integrations: map<string, string>): map<string, string>
    requires Distinct(join, integrations.Keys)
  {
    map p | p in integrations :: join(p) := integrations[p]
  }

  /** `parts` lists the entries of `m`, each once, in any order. */
  ghost predicate Lists(parts: seq<(string, string)>, m: map<string, string>)
  {
    && |parts| == |m|
    && (forall i :: 0 <= i < |parts| ==> parts[i].0 in m && parts[i].1 == m[parts[i].0])
    && (forall i, j :: 0 <= i < j < |parts| ==> parts[i].0 != parts[j].0)
  }

  /** The loops that collect the parts visit a map in no particular order. */
  method Collect(m: map<string, string>) returns (parts: seq<(string, string)>)
    ensures Lists(parts, m)
  {
    parts := [];
    var todo := m.Keys;
    while todo != {}
      invariant todo <= m.Keys && |parts| + |todo| == |m|
      invariant forall i :: 0 <= i < |parts| ==> parts[i].0 in m && parts[i].0 !in todo && parts[i].1 == m[parts[i].0]
      invariant forall i, j :: 0 <= i < j < |parts| ==> parts[i].0 != parts[j].0
      decreases todo
    {
      var path :| path in todo;
      todo := todo - {path};
      parts := parts + [(path, m[path])];
    }
  }

  /** A registered resource: what it depends on, and whether its create or its delete command restarts the Agent. */
  datatype Command = Command(deps: set<Id>, onCreate: bool, onDelete: bool)

  function CommandFor(id: Id, opts: set<Id>): Command
  {
    match id
    case File(path) => Command(opts + {Dir(path)}, false, false)
    case Perm(path) => Command({File(path)}, false, false)
    case _ => Command(opts, false, false)
  }

  /** The commands that copy exactly the given files: each with its directory, and with its permissions if it has
      any. */
  ghost predicate Copies(
    commands: map<Id, Command>, written: map<string, string>, permissions: set<string>, opts: set<Id>)
  {
    && (forall id :: id in commands <==>
          (id.Dir? || id.File? || id.Perm?) && id.path in written && (id.Perm? ==> id.path in permissions))
    && (forall id :: id in commands ==> commands[id] == CommandFor(id, opts))
  }

  method WriteFileDefinition(
    fullPath: string, content: string, permissions: set<string>, opts: set<Id>,
    written: map<string, string>, issued: map<Id, Command>)
    returns (files: map<string, string>, commands: map<Id, Command>)
    requires Copies(issued, written, permissions, opts)
    ensures files == written[fullPath := content] && Copies(commands, files, permissions, opts)
  {
    files := written[fullPath := content];
    commands := issued[Dir(fullPath) := Command(opts, false, false)];
    commands := commands[File(fullPath) := Command(opts + {Dir(fullPath)}, false, false)];
    if fullPath in permissions {
      commands := commands[Perm(fullPath) := Command({File(fullPath)}, false, false)];
    }
  }

  lemma PlacedStep(join: string -> string, integrations: map<string, string>, todo: set<string>, path: string)
    requires path in todo && todo <= integrations.Keys && Distinct(join, integrations.Keys - todo)
    requires join(path) !in Placed(join, integrations - todo)
    ensures Distinct(join, integrations.Keys - (todo - {path}))
    ensures Placed(join, integrations - (todo - {path})) ==
      Placed(join, integrations - todo)[join(path) := integrations[path]]
  {
    var done, more := integrations - todo, integrations - (todo - {path});
    assert more.Keys == done.Keys + {path};
    forall p | p in done.Keys ensures join(p) != join(path) { assert join(p) in Placed(join, done); }
  }

  lemma CollisionIsNotDistinct(
    join: string -> string, integrations: map<string, string>, todo: set<string>, path: string)
    requires path in todo && todo <= integrations.Keys && Distinct(join, integrations.Keys - todo)
    requires join(path) in Placed(join, integrations - todo)
    ensures !Distinct(join, integrations.Keys)
  {
    var p :| p in integrations - todo && join(p) == join(path);
    assert p in integrations.Keys && p != path;
  }

  /** The engine refuses a second copy to one path; `taken` are the paths of the configuration files. */
  method WriteIntegrations(
    join: string -> string, integrations: map<string, string>, permissions: set<string>, opts: set<Id>,
    taken: set<string>)
    returns (r: Outcome<map<string, string>>, commands: map<Id, Command>)
    ensures !r.Panic?
    ensures r.Ok? <==> Distinct(join, integrations.Keys) && forall p :: p in integrations ==> join(p) !in taken
    ensures r.Ok? ==> r.value == Placed(join, integrations) && Copies(commands, r.value, permissions, opts)
  {
    var written, todo := map[], integrations.Keys;
    commands := map[];
    while todo != {}
      invariant todo <= integrations.Keys && Distinct(join, integrations.Keys - todo)
      invariant forall p :: p in integrations && p !in todo ==> join(p) !in taken
      invariant written == Placed(join, integrations - todo)
      invariant Copies(commands, written, permissions, opts)
      decreases todo
    {
      var path :| path in todo;
      var fullPath := join(path);
      if fullPath in written {
        CollisionIsNotDistinct(join, integrations, todo, path);
        return Error, commands;
      }
      if fullPath in taken { return Error, commands; }
      PlacedStep(join, integrations, todo, path);
      todo := todo - {path};
      written, commands := WriteFileDefinition(fullPath, integrations[path], permissions, opts, written, commands);
    }
    assert integrations - {} == integrations;
    r := Ok(written);
  }

  method WriteFiles(
    files: map<string, string>, permissions: set<string>, opts: set<Id>, taken: set<string>,
    placed: map<string, string>, copies: map<Id, Command>)
    returns (r: Outcome<map<string, string>>, commands: map<Id, Command>)
    requires Copies(copies, placed, permissions, opts)
    ensures !r.Panic?
    ensures r.Ok? <==> placed.Keys + taken !! files.Keys && forall p :: p in files ==> IsPathAbsolute(p)
    ensures r.Ok? ==> r.value == placed + files && Copies(commands, r.value, permissions, opts)
  {
    var written, todo := placed, files.Keys;
    commands := copies;
    while todo != {}
      invariant todo <= files.Keys && placed.Keys + taken !! files.Keys - todo
      invariant written == placed + (files - todo)
      invariant forall p :: p in files && p !in todo ==> IsPathAbsolute(p)
      invariant Copies(commands, written, permissions, opts)
      decreases todo
    {
      var path :| path in todo;
      if !IsPathAbsolute(path) || path in written || path in taken {
        assert path in files;
        return Error, commands;
      }
      todo := todo - {path};
      written, commands := WriteFileDefinition(path, files[path], permissions, opts, written, commands);
    }
    assert files - {} == files;
    r := Ok(written);
  }

  /** The restart on removal, and the copies that depend on it. */
  ghost predicate Issued(
    commands: map<Id, Command>, written: map<string, string>, permissions: set<string>, opts: set<Id>)
  {
    && Removal in commands && commands[Removal] == Command({}, false, true)
    && Copies(commands - {Removal}, written, permissions, opts + {Removal})
  }

  lemma WithRemoval(copies: map<Id, Command>, written: map<string, string>, permissions: set<string>, opts: set<Id>)
    requires Copies(copies, written, permissions, opts + {Removal})
    ensures Issued(copies[Removal := Command({}, false, true)], written, permissions, opts)
  {
    assert copies[Removal := Command({}, false, true)] - {Removal} == copies;
  }

  /** No two files go to one path, and those that are not relative to the configuration folder are absolute. */
  ghost predicate Installable(
    join: string -> string, integrations: map<string, string>, files: map<string, string>, taken: set<string>)
  {
    && Distinct(join, integrations.Keys)
    && (forall p :: p in integrations ==> join(p) !in taken && join(p) !in files)
    && (forall p :: p in files ==> p !in taken && p != "" && p[0] == '/')
  }

  lemma InstallableIff(
    join: string -> string, integrations: map<string, string>, files: map<string, string>, taken: set<string>)
    requires Distinct(join, integrations.Keys) && forall p :: p in integrations ==> join(p) !in taken
    ensures Installable(join, integrations, files, taken) <==>
      Placed(join, integrations).Keys + taken !! files.Keys && forall p :: p in files ==> IsPathAbsolute(p)
  {
    var placed := Placed(join, integrations);
    assert forall p :: p in integrations ==> join(p) in placed;
    assert forall f :: f in placed ==> exists p :: p in integrations && f == join(p);
  }

  /** Issues the restart on removal and the copies, which depend on it, and returns the trigger with the files that
      will be written. `permissions` are the full paths of the files that have any. */
  method InstallIntegrationConfigsAndFiles(
    join: string -> string, integrations: map<string, string>, files: map<string, string>, permissions: set<string>,
    opts: set<Id>, taken: set<string>, digest: string -> string)
    returns (r: Outcome<map<string, string>>, commands: map<Id, Command>, hash: string,
             ghost ofIntegrations: seq<(string, string)>, ghost ofFiles: seq<(string, string)>)
    ensures Lists(ofIntegrations, integrations) && Lists(ofFiles, files)
    ensures hash == digest(Flatten(ofIntegrations + ofFiles))
    ensures !r.Panic? && (r.Ok? <==> Installable(join, integrations, files, taken))
    ensures r.Ok? ==> r.value == Placed(join, integrations) + files && Issued(commands, r.value, permissions, opts)
  {
    var first := Collect(integrations);
    var second := Collect(files);
    ofIntegrations, ofFiles := first, second;
    hash := digest(Flatten(first + second));
    r, commands := WriteIntegrations(join, integrations, permissions, opts + {Removal}, taken);
    if !r.Ok? { return; }
    InstallableIff(join, integrations, files, taken);
    r, commands := WriteFiles(files, permissions, opts + {Removal}, taken, r.value, commands);
    if r.Ok? { WithRemoval(commands, r.value, permissions, opts); }
    commands := commands[Removal := Command({}, false, true)];
  }

  /** The commands are the resources of the model. */
  ghost predicate SameResources(commands: map<Id, Command>, h: Host, permissions: set<string>)
  {
    forall id :: id in commands <==>
      || id in {Prepare, Install, Removal, Restart} || id in Written(h)
      || (id.Dir? && id.path in h.files) || (id.Perm? && id.path in h.files && id.path in permissions)
  }

  ghost predicate SameDependencies(commands: map<Id, Command>)
  {
    forall id, dep :: id in commands && dep in commands ==> (dep in commands[id].deps <==> DependsOn(id, dep))
  }

  ghost predicate SameRestarts(commands: map<Id, Command>)
  {
    forall id :: id in commands ==>
      commands[id].onCreate == IsRestart(Create(id)) && commands[id].onDelete == IsRestart(Delete(id))
  }

  /** The commands are the resources of the model, with its dependencies and its restarts. */
  ghost predicate AsModelled(commands: map<Id, Command>, h: Host, permissions: set<string>)
  {
    SameResources(commands, h, permissions) && SameDependencies(commands) && SameRestarts(commands)
  }

  /** All commands of an installation: the two that install, the three configurations, what was issued for the files,
      and the restart that depends on all that belong to the component. */
  function AllCommands(issued: map<Id, Command>): (commands: map<Id, Command>)
  {
    var all := map id | id in CONFIGS + {Prepare, Install} + issued.Keys ::
      if id in issued then issued[id]
      else if id == Prepare then Command({}, false, false)
      else if id == Install then Command({Prepare}, false, false)
      else Command({Install}, false, false);
    var ofComponent := set id | id in all.Keys && id != Removal && !id.Perm?;
    all[Restart := Command(ofComponent, true, false)]
  }

  lemma ResourcesAsModelled(issued: map<Id, Command>, h: Host, permissions: set<string>)
    requires Issued(issued, h.files, permissions, {Install})
    ensures SameResources(AllCommands(issued), h, permissions)
  {
    assert forall id :: id in issued <==> id == Removal || id in issued - {Removal};
  }

  lemma DependenciesOf(issued: map<Id, Command>, h: Host, permissions: set<string>, id: Id)
    requires Issued(issued, h.files, permissions, {Install}) && id in AllCommands(issued)
    ensures forall dep :: dep in AllCommands(issued) ==> (dep in AllCommands(issued)[id].deps <==> DependsOn(id, dep))
  {
    if id in issued && id != Removal {
      assert id in issued - {Removal} && issued[id] == CommandFor(id, {Install} + {Removal});
    }
  }

  lemma DependenciesAsModelled(issued: map<Id, Command>, h: Host, permissions: set<string>)
    requires Issued(issued, h.files, permissions, {Install})
    ensures SameDependencies(AllCommands(issued))
  {
    forall id | id in AllCommands(issued)
      ensures forall dep :: dep in AllCommands(issued) ==> (dep in AllCommands(issued)[id].deps <==> DependsOn(id, dep))
    {
      DependenciesOf(issued, h, permissions, id);
    }
  }

  lemma RestartsAsModelled(issued: map<Id, Command>, h: Host, permissions: set<string>)
    requires Issued(issued, h.files, permissions, {Install})
    ensures SameRestarts(AllCommands(issued))
  {
    assert forall id :: id in issued ==>
      id == Removal || (id in issued - {Removal} && issued[id] == (issued - {Removal})[id]);
  }

  lemma CommandsAsModelled(issued: map<Id, Command>, h: Host, permissions: set<string>)
    requires Issued(issued, h.files, permissions, {Install})
    ensures AsModelled(AllCommands(issued), h, permissions)
  {
    ResourcesAsModelled(issued, h, permissions);
    DependenciesAsModelled(issued, h, permissions);
    RestartsAsModelled(issued, h, permissions);
  }

  /** The full paths of the three configuration files. */
  function ConfigPaths(join: string -> string): set<string>
  {
    {join("datadog.yaml"), join("system-probe.yaml"), join("security-agent.yaml")}
  }

  /** The whole installation: the commands it issues, what it writes, and what it puts in the triggers. `version`
      stands for the fields of the package version; `installFails` is the outcome of the commands that install. */
  method InstallAgent(
    version: string, installFails: bool, base: Doc, key: string, extra: seq<Doc>, skipKey: bool,
    systemProbe: string, securityAgent: string, join: string -> string, integrations: map<string, string>,
    files: map<string, string>, permissions: set<string>, digest: string -> string)
    returns (r: Outcome<Host>, commands: map<Id, Command>, triggers: Triggers,
             ghost ofIntegrations: seq<(string, string)>, ghost ofFiles: seq<(string, string)>)
    ensures r.Ok? <==>
      && !installFails && Fold(base, Extras(extra, key, skipKey), true).Ok?
      && Installable(join, integrations, files, ConfigPaths(join))
    ensures r.Ok? ==>
      && r.value.version == version && r.value.coreBase == base
      && Fold(base, Extras(extra, key, skipKey), true) == Ok(r.value.core)
      && r.value.systemProbe == systemProbe && r.value.securityAgent == securityAgent
      && r.value.files == Placed(join, integrations) + files
    ensures r.Ok? ==> Lists(ofIntegrations, integrations) && Lists(ofFiles, files)
    ensures r.Ok? ==> r.value.hash == digest(Flatten(ofIntegrations + ofFiles))
    ensures r.Ok? ==> AsModelled(commands, r.value, permissions)
    ensures r.Ok? ==> triggers == TriggersOf(r.value)
  {
    commands, ofIntegrations, ofFiles := map[], [], [];
    triggers := Triggers(base, systemProbe, securityAgent, "", version);
    if installFails {
      r := Error;
      return;
    }
    var core, content := UpdateCoreAgentConfig(base, key, extra, skipKey);
    if !core.Ok? {
      r := if core.Panic? then Panic else Error;
      return;
    }
    var written, issued, hash;
    written, issued, hash, ofIntegrations, ofFiles := InstallIntegrationConfigsAndFiles(
      join, integrations, files, permissions, {Install}, ConfigPaths(join), digest);
    if !written.Ok? {
      r := Error;
      return;
    }
    r := Ok(Host(version, content, core.value, systemProbe, securityAgent, written.value, hash));
    triggers := Triggers(content, systemProbe, securityAgent, hash, version);
    commands := AllCommands(issued);
    CommandsAsModelled(issued, r.value, permissions);
  }

  /** The order in which Go visits a map shows as well, so files that do not change can restart the Agent. */
  lemma ListingOrderShows()
    ensures var a, b, m := [("/a", "1"), ("/b", "2")], [("/b", "2"), ("/a", "1")], map["/a" := "1", "/b" := "2"];
            Lists(a, m) && Lists(b, m) && Flatten(a) != Flatten(b)
  {
    var a, b := [("/a", "1"), ("/b", "2")], [("/b", "2"), ("/a", "1")];
    var m := map["/a" := "1", "/b" := "2"];
    assert m.Keys == {"/a", "/b"} && "/a"[1] == 'a' && "/b"[1] == 'b';
    assert |m| == |m.Keys| == 2;
    FlattenAt(a, 0);
    FlattenAt(b, 0);
    assert Flatten(a)[1] == 'a' && Flatten(b)[1] == 'b' by {
      assert a[..0] == [] && b[..0] == [];
    }
  }

  /** The parts are concatenated without separators, so different files can share a trigger. */
  lemma ConcatenationCollides(path: string, c: string, d: string)
    ensures Flatten([(path, c + d)]) == Flatten([(path + c, d)])
  {
    assert [(path, c + d)][..0] == [] && [(path + c, d)][..0] == [];
    assert "" + path + (c + d) == "" + (path + c) + d;
  }

  /** Whatever the digest, such a change is not loaded by the Agent. */
  lemma {:induction false} CollidingTriggersAreMissed(
    u: Update, orig: Disk, s: seq<Op>, digest: string -> string, path: string, c: string, d: string)
    requires Schedule(u, s) && u.before.Some? && c != "" && File(path) !in orig
    requires u.before.value.files == map[path := c + d] && u.before.value.hash == digest(Flatten([(path, c + d)]))
    requires u.after == u.before.value.(files := map[path + c := d], hash := digest(Flatten([(path + c, d)])))
    ensures LoadedAfter(u, orig, s, |s|, DiskOf(u.before.value, orig)) != DiskAfter(u, orig, s, |s|)
  {
    ConcatenationCollides(path, c, d);
    assert |path + c| > |path|;
    assert path in u.before.value.files && path !in u.after.files;
    assert File(path) in Written(u.before.value) && File(path) !in Written(u.after);
    UnseenChangeIsNotLoaded(u, orig, s, File(path));
  }
}
