/** Choosing the local Agent package to install: `GetPackagePath` of `components/datadog/agent/package.go`. */
module Packages {
  import opened Wrappers
  import opened Descriptors

  datatype Entry = Entry(name: string, isDir: bool)

  /** What is asked for. */
  datatype Query = Query(flavor: Flavor, arch: string, pipelineId: string)

  predicate Contains(s: string, sub: string)
  {
    exists i :: 0 <= i <= |s| && sub <= s[i..]
  }

  /** The text occurs somewhere. */
  lemma ContainsIff(s: string, sub: string)
    ensures Contains(s, sub) <==> exists a, b :: s == a + sub + b
  {
    if i :| 0 <= i <= |s| && sub <= s[i..] {
      assert s == s[..i] + sub + s[i + |sub|..];
    }
    forall a, b | s == a + sub + b ensures Contains(s, sub) {
      assert sub <= s[|a|..];
    }
  }

  predicate HasSuffix(s: string, suffix: string)
  {
    |s| >= |suffix| && s[|s| - |suffix|..] == suffix
  }

  /** Extension and sub-folder of the packages for a flavor. */
  function Wanted(f: Flavor): Option<(string, string)>
  {
    match f
    case Suse => Some((".rpm", "/suse"))
    case Debian => Some((".deb", ""))
    case Ubuntu => Some((".deb", ""))
    case WindowsServer => Some((".msi", ""))
    case WindowsClient => None
    case MacosOS => None
    case Unknown => None
    case _ => Some((".rpm", ""))
  }

  /** The entries that reach the test of the extension. */
  predicate Considered(q: Query, e: Entry)
  {
    && !e.isDir
    && !Contains(e.name, "-dbg_") && !Contains(e.name, "-dbg-")
    && (if q.flavor == WindowsServer then
          && !Contains(e.name, "upgrade-test")
          && !(q.pipelineId != "" && Contains(e.name, "pipeline.") && !Contains(e.name, q.pipelineId))
        else if q.arch == AMD64 then Contains(e.name, "x86_64") || Contains(e.name, "amd64")
        else Contains(e.name, q.arch))
  }

  predicate IsFips(name: string, ext: string)
    requires HasSuffix(name, ext)
  {
    Contains(name[..|name| - |ext|], "fips")
  }

  predicate Eligible(q: Query, fips: bool, ext: string, e: Entry)
  {
    Considered(q, e) && HasSuffix(e.name, ext) && IsFips(e.name, ext) == fips
  }

  function Filter(p: Entry -> bool, entries: seq<Entry>): (r: seq<Entry>)
    ensures forall i :: 0 <= i < |r| ==> p(r[i]) && r[i] in entries
  {
    if entries == [] then [] else
      Filter(p, entries[..|entries| - 1]) + if p(entries[|entries| - 1]) then [entries[|entries| - 1]] else []
  }

  function Select(q: Query, fips: bool, ext: string, entries: seq<Entry>): seq<Entry>
  {
    Filter(e => Eligible(q, fips, ext, e), entries)
  }

  /** Windows has no arm64 package: the first considered entry panics. */
  predicate Unsupported(q: Query, entries: seq<Entry>)
  {
    q.flavor == WindowsServer && q.arch == ARM64 && exists e :: e in entries && Considered(q, e)
  }

  function Picked(q: Query, fips: bool, ext: string, folder: string, entries: seq<Entry>): Outcome<string>
  {
    if Unsupported(q, entries) then Panic
    else
      var matches := Select(q, fips, ext, entries);
      if |matches| == 1 then Ok(folder + "/" + matches[0].name) else Error
  }

  /** The files of the machine: `Some(true)` for a directory, and the entries of each directory. */
  method GetPackagePath(
    localPath: string, q: Query, fips: bool, isDirectory: Option<bool>, directories: map<string, seq<Entry>>)
    returns (r: Outcome<string>)
    ensures Wanted(q.flavor).None? || isDirectory.None? ==> r.Error?
    ensures Wanted(q.flavor).Some? && isDirectory == Some(false) ==>
      r == if HasSuffix(localPath, Wanted(q.flavor).value.0) then Ok(localPath) else Error
    ensures Wanted(q.flavor).Some? && isDirectory == Some(true) ==>
      var ext, folder := Wanted(q.flavor).value.0, Folder(localPath, q, directories);
      r == if folder in directories then Picked(q, fips, ext, folder, directories[folder]) else Error
  {
    if Wanted(q.flavor).None? || isDirectory.None? { return Error; }
    var ext := Wanted(q.flavor).value.0;
    if !isDirectory.value {
      return if HasSuffix(localPath, ext) then Ok(localPath) else Error;
    }
    var folder := Folder(localPath, q, directories);
    if folder !in directories { return Error; }
    var entries := directories[folder];
    var matches := [];
    for i := 0 to |entries|
      invariant matches == Select(q, fips, ext, entries[..i])
      invariant !Unsupported(q, entries[..i])
    {
      var entry := entries[i];
      assert entries[..i + 1][..i] == entries[..i] && entries[..i + 1][i] == entry;
      if !Considered(q, entry) { continue; }
      if q.flavor == WindowsServer && q.arch == ARM64 {
        assert entry in entries;
        return Panic;
      }
      if HasSuffix(entry.name, ext) && IsFips(entry.name, ext) == fips {
        matches := matches + [entry];
      }
    }
    assert entries[..|entries|] == entries;
    if |matches| != 1 { return Error; }
    return Ok(folder + "/" + matches[0].name);
  }

  /** The folder that is listed: on Windows the one of the pipeline, if there is one. */
  function Folder(localPath: string, q: Query, directories: map<string, seq<Entry>>): string
    requires Wanted(q.flavor).Some?
  {
    var pkg := localPath + Wanted(q.flavor).value.1 + "/pkg";
    var ofPipeline := pkg + "/pipeline-" + q.pipelineId;
    if q.flavor == WindowsServer && ofPipeline in directories then ofPipeline else pkg
  }

  /** What is looked for, and where: Debian packages, RPMs or installers; for SUSE in a folder of its own. */
  lemma WantedIn(localPath: string, q: Query, directories: map<string, seq<Entry>>)
    ensures q.flavor in {Unknown, MacosOS, WindowsClient} <==> Wanted(q.flavor).None?
    ensures q.flavor in {Debian, Ubuntu} ==> Wanted(q.flavor) == Some((".deb", ""))
    ensures q.flavor in {AmazonLinux, AmazonLinuxECS, RedHat, Fedora, CentOS, RockyLinux} ==>
      Wanted(q.flavor) == Some((".rpm", ""))
    ensures q.flavor == Suse ==>
      && Wanted(q.flavor).Some? && Wanted(q.flavor).value.0 == ".rpm"
      && Folder(localPath, q, directories) == localPath + "/suse/pkg"
    ensures q.flavor == WindowsServer ==>
      Wanted(q.flavor).Some? && Wanted(q.flavor).value.0 == ".msi" &&
      var ofPipeline := localPath + "/pkg/pipeline-" + q.pipelineId;
      Folder(localPath, q, directories) == if ofPipeline in directories then ofPipeline else localPath + "/pkg"
    ensures Wanted(q.flavor).Some? && q.flavor != WindowsServer && q.flavor != Suse ==>
      Folder(localPath, q, directories) == localPath + "/pkg"
  {
    assert localPath + "" + "/pkg" == localPath + "/pkg";
    assert localPath + "/suse" + "/pkg" == localPath + "/suse/pkg";
    assert localPath + "/pkg" + "/pipeline-" == localPath + "/pkg/pipeline-";
  }

  /** A package that is picked is one of the entries, of the kind, flavor and architecture asked for. */
  lemma PickedFits(q: Query, fips: bool, ext: string, folder: string, entries: seq<Entry>)
    requires Picked(q, fips, ext, folder, entries).Ok?
    ensures exists e ::
      e in entries && Fits(q, fips, ext, e) && Picked(q, fips, ext, folder, entries).value == folder + "/" + e.name
  {
    var e := Select(q, fips, ext, entries)[0];
    assert e in entries && Eligible(q, fips, ext, e);
    assert !Unsupported(q, entries);
  }

  ghost predicate Fits(q: Query, fips: bool, ext: string, e: Entry)
  {
    && !e.isDir && HasSuffix(e.name, ext) && !Contains(e.name, "-dbg_") && !Contains(e.name, "-dbg-")
    && (fips <==> Contains(e.name[..|e.name| - |ext|], "fips"))
    && (q.flavor != WindowsServer ==> Contains(e.name, q.arch) || (q.arch == "x86_64" && Contains(e.name, "amd64")))
    && (q.flavor == WindowsServer ==>
          && q.arch != "arm64" && !Contains(e.name, "upgrade-test")
          && (q.pipelineId == "" || !Contains(e.name, "pipeline.") || Contains(e.name, q.pipelineId)))
  }

  /** Nothing else is asked of a package: the only entry that fits is picked. */
  lemma OnlyFitIsPicked(q: Query, fips: bool, ext: string, folder: string, entries: seq<Entry>, e: Entry)
    requires multiset(entries)[e] == 1 && Fits(q, fips, ext, e)
    requires forall e' :: e' in entries && Fits(q, fips, ext, e') ==> e' == e
    ensures Picked(q, fips, ext, folder, entries) == Ok(folder + "/" + e.name)
  {
    assert forall e' :: Eligible(q, fips, ext, e') ==> Fits(q, fips, ext, e');
    assert OnlyEligible(q, fips, ext, entries, e);
    OnlyEligibleIsSelected(q, fips, ext, entries, e);
  }

  lemma {:induction false} FilterCounts(p: Entry -> bool, entries: seq<Entry>, e: Entry)
    ensures multiset(Filter(p, entries))[e] == if p(e) then multiset(entries)[e] else 0
  {
    if entries != [] {
      FilterCounts(p, entries[..|entries| - 1], e);
      assert entries == entries[..|entries| - 1] + [entries[|entries| - 1]];
    }
  }

  lemma SelectCounts(q: Query, fips: bool, ext: string, entries: seq<Entry>, e: Entry)
    ensures multiset(Select(q, fips, ext, entries))[e] == if Eligible(q, fips, ext, e) then multiset(entries)[e] else 0
  {
    FilterCounts(e => Eligible(q, fips, ext, e), entries, e);
  }

  /** `e` is the one and only eligible entry. */
  ghost predicate OnlyEligible(q: Query, fips: bool, ext: string, entries: seq<Entry>, e: Entry)
  {
    && Eligible(q, fips, ext, e) && multiset(entries)[e] == 1
    && forall e' :: e' in entries && Eligible(q, fips, ext, e') ==> e' == e
  }

  lemma SelectedIsOnlyEligible(q: Query, fips: bool, ext: string, entries: seq<Entry>)
    requires |Select(q, fips, ext, entries)| == 1
    ensures OnlyEligible(q, fips, ext, entries, Select(q, fips, ext, entries)[0])
  {
    var matches := Select(q, fips, ext, entries);
    assert matches == [matches[0]];
    SelectCounts(q, fips, ext, entries, matches[0]);
    forall e | e in entries && Eligible(q, fips, ext, e) ensures e == matches[0] {
      SelectCounts(q, fips, ext, entries, e);
      assert multiset(matches)[e] > 0;
    }
  }

  lemma OnlyEligibleIsSelected(q: Query, fips: bool, ext: string, entries: seq<Entry>, e: Entry)
    requires OnlyEligible(q, fips, ext, entries, e)
    ensures Select(q, fips, ext, entries) == [e]
  {
    var matches := Select(q, fips, ext, entries);
    forall e' ensures multiset(matches)[e'] == multiset{e}[e'] {
      SelectCounts(q, fips, ext, entries, e');
    }
    assert multiset(matches) == multiset{e};
    assert |matches| == |multiset(matches)| == 1;
    assert matches[0] in multiset(matches);
  }

  /** The package is found exactly when one entry is eligible, and it is that entry. */
  lemma FoundIffOneEligible(q: Query, fips: bool, ext: string, folder: string, entries: seq<Entry>)
    requires !Unsupported(q, entries)
    ensures Picked(q, fips, ext, folder, entries).Ok? <==> exists e :: OnlyEligible(q, fips, ext, entries, e)
    ensures forall e :: OnlyEligible(q, fips, ext, entries, e) ==>
      Picked(q, fips, ext, folder, entries) == Ok(folder + "/" + e.name)
  {
    if |Select(q, fips, ext, entries)| == 1 { SelectedIsOnlyEligible(q, fips, ext, entries); }
    forall e | OnlyEligible(q, fips, ext, entries, e) ensures Select(q, fips, ext, entries) == [e] {
      OnlyEligibleIsSelected(q, fips, ext, entries, e);
    }
  }

  lemma FilterIgnoresOrder(p: Entry -> bool, a: seq<Entry>, b: seq<Entry>)
    requires multiset(a) == multiset(b)
    ensures multiset(Filter(p, a)) == multiset(Filter(p, b))
    ensures |Filter(p, a)| == |Filter(p, b)|
    ensures |Filter(p, a)| == 1 ==> Filter(p, a)[0] == Filter(p, b)[0]
  {
    var x, y := Filter(p, a), Filter(p, b);
    forall e ensures multiset(x)[e] == multiset(y)[e] {
      FilterCounts(p, a, e);
      FilterCounts(p, b, e);
    }
    assert multiset(x) == multiset(y);
    assert |x| == |multiset(x)| == |multiset(y)| == |y|;
    if |x| == 1 {
      assert y == [y[0]] && x[0] in multiset(y);
    }
  }

  /** The order in which the directory is read does not matter. */
  lemma OrderDoesNotMatter(q: Query, fips: bool, ext: string, folder: string, a: seq<Entry>, b: seq<Entry>)
    requires multiset(a) == multiset(b)
    ensures Picked(q, fips, ext, folder, a) == Picked(q, fips, ext, folder, b)
  {
    FilterIgnoresOrder(e => Eligible(q, fips, ext, e), a, b);
    assert forall e :: e in a <==> e in multiset(a);
  }

  lemma FilterSplits(p: Entry -> bool, left: Entry -> bool, right: Entry -> bool, entries: seq<Entry>)
    requires forall e :: (p(e) <==> left(e) || right(e)) && !(left(e) && right(e))
    ensures multiset(Filter(left, entries)) !! multiset(Filter(right, entries))
    ensures multiset(Filter(left, entries)) + multiset(Filter(right, entries)) == multiset(Filter(p, entries))
  {
    var l, r, all := multiset(Filter(left, entries)), multiset(Filter(right, entries)), multiset(Filter(p, entries));
    forall e ensures (l[e] == 0 || r[e] == 0) && l[e] + r[e] == all[e] {
      FilterCounts(left, entries, e);
      FilterCounts(right, entries, e);
      FilterCounts(p, entries, e);
    }
  }

  /** Asking for FIPS and not asking for FIPS split the considered packages of the extension. */
  lemma FipsSplitsPackages(q: Query, ext: string, entries: seq<Entry>)
    ensures var fips, plain := Select(q, true, ext, entries), Select(q, false, ext, entries);
            var all := Filter(e => Considered(q, e) && HasSuffix(e.name, ext), entries);
            multiset(fips) !! multiset(plain) && multiset(fips) + multiset(plain) == multiset(all)
  {
    FilterSplits(e => Considered(q, e) && HasSuffix(e.name, ext), e => Eligible(q, true, ext, e),
                 e => Eligible(q, false, ext, e), entries);
  }
}
