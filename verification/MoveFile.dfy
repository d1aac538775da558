/** Copying a file to its place on a remote host, and undoing it: the create and delete commands of
    `MoveFile` in `components/command/unixOSCommand.go`, by what they do to the files of the host. */
module MoveFile {
  type Path = string
  type Files = map<Path, string>

  const BACKUP_EXTENSION := ".pulumi.backup"

  function BackupOf(dst: Path): Path
  {
    dst + BACKUP_EXTENSION
  }

  lemma BackupIsElsewhere(dst: Path)
    ensures BackupOf(dst) != dst
  {
    assert |BackupOf(dst)| > |dst|;
  }

  /** `mv -f from to`, after a check that `from` is there. */
  function Moved(fs: Files, from: Path, to: Path): Files
    requires from in fs
  {
    (fs - {from})[to := fs[from]]
  }

  /** `if [ -f dst ]; then mv -f dst backup; fi; cp src dst` */
  function Created(fs: Files, src: Path, dst: Path): Files
  {
    var fs1 := if dst in fs then Moved(fs, dst, BackupOf(dst)) else fs;
    if src in fs1 then fs1[dst := fs1[src]] else fs1
  }

  /** `if [ -f backup ]; then mv -f backup dst; else rm -f dst; fi` */
  function Deleted(fs: Files, dst: Path): Files
  {
    if BackupOf(dst) in fs then Moved(fs, BackupOf(dst), dst) else fs - {dst}
  }

  class RemoteHost {
    var files: Files

    method Create(src: Path, dst: Path) returns (copied: bool)
      modifies this
      ensures files == Created(old(files), src, dst)
      ensures copied ==> src in files && dst in files && files[dst] == files[src]
    {
      if dst in files {
        files := (files - {dst})[BackupOf(dst) := files[dst]];
      }
      copied := src in files;
      if copied {
        files := files[dst := files[src]];
      }
    }

    method Delete(dst: Path)
      modifies this
      ensures files == Deleted(old(files), dst)
      ensures BackupOf(dst) !in files
    {
      BackupIsElsewhere(dst);
      if BackupOf(dst) in files {
        files := (files - {BackupOf(dst)})[dst := files[BackupOf(dst)]];
      } else {
        files := files - {dst};
      }
    }

    /** The life of one copied file: uploaded and created, then replaced by each later content. The
        resource is deleted before it is replaced. */
    method Deploy(src: Path, dst: Path, contents: seq<string>)
      requires contents != [] && src != dst && src != BackupOf(dst)
      modifies this
      ensures files == Deployed(old(files), src, dst, contents)
    {
      files := files[src := contents[0]];
      var _ := Create(src, dst);
      for i := 1 to |contents|
        invariant files == Deployed(old(files), src, dst, contents[..i])
      {
        assert contents[..i + 1][..i] == contents[..i];
        files := files[src := contents[i]];
        Delete(dst);
        var _ := Create(src, dst);
      }
      assert contents[..|contents|] == contents;
    }
  }

  // ---------------------------------------------------------------- Any replacement history

  /** The files after a creation and any number of replacements, each a delete followed by a create. */
  function Deployed(fs: Files, src: Path, dst: Path, contents: seq<string>): Files
    requires contents != []
  {
    var last := contents[|contents| - 1];
    if |contents| == 1 then Created(fs[src := last], src, dst)
    else Created(Deleted(Deployed(fs, src, dst, contents[..|contents| - 1])[src := last], dst), src, dst)
  }

  /** The files while `current` is deployed over a host that had the files `fs`, and `kept` is the backup. */
  function Holding(fs: Files, src: Path, dst: Path, current: string, kept: Files): Files
  {
    fs[src := current][dst := current] + kept
  }

  /** The backup of what was at the destination before anything was deployed. */
  function Original(fs: Files, dst: Path): (kept: Files)
  {
    if dst in fs then map[BackupOf(dst) := fs[dst]] else map[]
  }

  ghost predicate Separate(fs: Files, src: Path, dst: Path)
  {
    src != dst && src != BackupOf(dst) && BackupOf(dst) !in fs
  }

  lemma FirstCreate(fs: Files, src: Path, dst: Path, c: string)
    requires Separate(fs, src, dst)
    ensures Created(fs[src := c], src, dst) == Holding(fs, src, dst, c, Original(fs, dst))
  {
    BackupIsElsewhere(dst);
  }

  lemma DeleteUndoes(fs: Files, src: Path, dst: Path, current: string, c: string)
    requires Separate(fs, src, dst)
    ensures Deleted(Holding(fs, src, dst, current, Original(fs, dst))[src := c], dst) == fs[src := c]
  {
    BackupIsElsewhere(dst);
  }

  /** While deployed: the destination holds the latest content, the backup holds exactly the original,
      and nothing else but the uploaded source differs. */
  lemma {:induction false} DeployedState(fs: Files, src: Path, dst: Path, contents: seq<string>)
    requires contents != [] && Separate(fs, src, dst)
    ensures Deployed(fs, src, dst, contents) == Holding(fs, src, dst, contents[|contents| - 1], Original(fs, dst))
  {
    var last := contents[|contents| - 1];
    if |contents| > 1 {
      var before := Deployed(fs, src, dst, contents[..|contents| - 1]);
      assert Deleted(before[src := last], dst) == fs[src := last] by {
        DeployedState(fs, src, dst, contents[..|contents| - 1]);
        DeleteUndoes(fs, src, dst, contents[|contents| - 2], last);
      }
    }
    FirstCreate(fs, src, dst, last);
  }

  /** The files of the host as a deployment treats them: a file at the backup path counts as the original, unless
      there is one at the destination, which takes its place. */
  function Regarded(fs: Files, dst: Path): Files
  {
    if BackupOf(dst) !in fs then fs
    else if dst in fs then fs - {BackupOf(dst)}
    else Moved(fs, BackupOf(dst), dst)
  }

  lemma CreatedAsRegarded(fs: Files, src: Path, dst: Path, c: string)
    requires src != dst && src != BackupOf(dst)
    ensures Created(fs[src := c], src, dst) == Created(Regarded(fs, dst)[src := c], src, dst)
  {
    BackupIsElsewhere(dst);
  }

  lemma {:induction false} DeployedAsRegarded(fs: Files, src: Path, dst: Path, contents: seq<string>)
    requires contents != [] && src != dst && src != BackupOf(dst)
    ensures Deployed(fs, src, dst, contents) == Deployed(Regarded(fs, dst), src, dst, contents)
  {
    if |contents| == 1 {
      CreatedAsRegarded(fs, src, dst, contents[0]);
    } else {
      DeployedAsRegarded(fs, src, dst, contents[..|contents| - 1]);
    }
  }

  /** What removing the deployment leaves, on any host and for any history. */
  lemma UndeployLeaves(fs: Files, src: Path, dst: Path, contents: seq<string>)
    requires contents != [] && src != dst && src != BackupOf(dst)
    ensures Deleted(Deployed(fs, src, dst, contents), dst) == Regarded(fs, dst)[src := contents[|contents| - 1]]
  {
    BackupIsElsewhere(dst);
    var host, last := Regarded(fs, dst), contents[|contents| - 1];
    DeployedAsRegarded(fs, src, dst, contents);
    DeployedState(host, src, dst, contents);
    DeleteUndoes(host, src, dst, last, last);
    assert Deployed(host, src, dst, contents)[src := last] == Deployed(host, src, dst, contents);
  }

  /** Removing the deployment restores every file, for any history, exactly when nothing sat at the
      backup path before. */
  lemma UndeployRestoresIff(fs: Files, src: Path, dst: Path, contents: seq<string>)
    requires contents != [] && src != dst && src != BackupOf(dst)
    ensures Deleted(Deployed(fs, src, dst, contents), dst) == fs[src := contents[|contents| - 1]]
            <==> BackupOf(dst) !in fs
  {
    BackupIsElsewhere(dst);
    UndeployLeaves(fs, src, dst, contents);
    assert BackupOf(dst) !in Regarded(fs, dst)[src := contents[|contents| - 1]];
  }

  /** A file that happens to sit at the backup path ends up at the destination. */
  lemma StaleBackupIsRestored(fs: Files, src: Path, dst: Path, stale: string, c: string)
    requires src != dst && src != BackupOf(dst) && fs == map[BackupOf(dst) := stale]
    ensures Deleted(Deployed(fs, src, dst, [c]), dst) == map[src := c, dst := stale] != fs[src := c]
  {
    BackupIsElsewhere(dst);
    assert dst !in fs[src := c];
  }

  /** A missing source: the destination is moved away and nothing takes its place, until a delete puts it back. */
  lemma MissingSource(fs: Files, src: Path, dst: Path)
    requires Separate(fs, src, dst) && src !in fs
    ensures Created(fs, src, dst) == if dst in fs then (fs - {dst})[BackupOf(dst) := fs[dst]] else fs
    ensures Deleted(Created(fs, src, dst), dst) == fs
  {
    BackupIsElsewhere(dst);
  }

  /** Creations on top of one another, without the deletes in between. */
  function Stacked(fs: Files, src: Path, dst: Path, contents: seq<string>): Files
    requires contents != []
  {
    var last := contents[|contents| - 1];
    if |contents| == 1 then Created(fs[src := last], src, dst)
    else Created(Stacked(fs, src, dst, contents[..|contents| - 1])[src := last], src, dst)
  }

  /** A creation on top of another keeps what the other put there, not the original. */
  lemma CreateOnTop(fs: Files, src: Path, dst: Path, current: string, kept: Files, c: string)
    requires Separate(fs, src, dst) && kept.Keys <= {BackupOf(dst)}
    ensures Created(Holding(fs, src, dst, current, kept)[src := c], src, dst) ==
      Holding(fs, src, dst, c, map[BackupOf(dst) := current])
  {
    BackupIsElsewhere(dst);
  }

  /** The backup after stacked creations. */
  function Kept(fs: Files, dst: Path, contents: seq<string>): Files
  {
    if |contents| > 1 then map[BackupOf(dst) := contents[|contents| - 2]] else Original(fs, dst)
  }

  lemma {:induction false} StackedState(fs: Files, src: Path, dst: Path, contents: seq<string>)
    requires contents != [] && Separate(fs, src, dst)
    ensures Stacked(fs, src, dst, contents) ==
      Holding(fs, src, dst, contents[|contents| - 1], Kept(fs, dst, contents))
  {
    var last, front := contents[|contents| - 1], contents[..|contents| - 1];
    FirstCreate(fs, src, dst, last);
    if front != [] {
      StackedState(fs, src, dst, front);
      CreateOnTop(fs, src, dst, contents[|contents| - 2], Kept(fs, dst, front), last);
    }
  }

  lemma DeleteBringsBack(fs: Files, src: Path, dst: Path, current: string, kept: string)
    requires Separate(fs, src, dst)
    ensures Deleted(Holding(fs, src, dst, current, map[BackupOf(dst) := kept]), dst) == fs[src := current][dst := kept]
  {
    BackupIsElsewhere(dst);
  }

  /** Why the resource must be deleted before it is replaced: after stacked creations a delete brings back the
      content before the last one. The original returns only if there was a single creation, or by accident. */
  lemma {:induction false} StackedRestoresIff(fs: Files, src: Path, dst: Path, contents: seq<string>)
    requires contents != [] && Separate(fs, src, dst)
    ensures Deleted(Stacked(fs, src, dst, contents), dst) == fs[src := contents[|contents| - 1]] <==>
      |contents| == 1 || (dst in fs && fs[dst] == contents[|contents| - 2])
  {
    var last := contents[|contents| - 1];
    if |contents| == 1 {
      UndeployRestoresIff(fs, src, dst, contents);
    } else {
      var want, previous := fs[src := last], contents[|contents| - 2];
      assert Deleted(Stacked(fs, src, dst, contents), dst) == want[dst := previous] by {
        StackedState(fs, src, dst, contents);
        DeleteBringsBack(fs, src, dst, last, previous);
      }
      assert want[dst := previous][dst] == previous;
      if dst in fs && fs[dst] == previous { assert want[dst := previous] == want; }
    }
  }
}
