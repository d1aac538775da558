/** Container image references: `common/utils/docker.go`, and the split of an image path in
    `components/datadog/agent/kubernetes_helm.go`. */
module Images {
  import opened Wrappers
  import opened Text

  function BuildDockerImagePath(repository: string, version: string): string
  {
    repository + ":" + version
  }

  /** The colon that starts a tag: the last one, unless it is at either end or a port is meant. */
  predicate HasTag(ref: string)
  {
    var i := LastIndex(ref, ':');
    0 < i < |ref| - 1 && '/' !in ref[i..]
  }

  /** The reference without its tag. */
  function Untagged(ref: string): string
  {
    if HasTag(ref) then ref[..LastIndex(ref, ':')] else ref
  }

  function StripColon(path: string): string
  {
    if path != "" && path[|path| - 1] == ':' then path[..|path| - 1] else path
  }

  /** Slicing the last character off an empty reference panics. */
  function ParseImageReference(ref: string): Outcome<(string, string)>
  {
    if ref == "" then Panic
    else Ok((StripColon(Untagged(ref)), if HasTag(ref) then ref[LastIndex(ref, ':') + 1..] else "latest"))
  }

  lemma ColonBeforeTag(repository: string, version: string)
    requires ':' !in version
    ensures LastIndex(BuildDockerImagePath(repository, version), ':') == |repository|
  {
    var ref := BuildDockerImagePath(repository, version);
    assert ref[|repository|] == ':';
    assert forall j :: |repository| < j < |ref| ==> ref[j] == version[j - |repository| - 1];
  }

  /** Parsing a built reference gives its two parts back exactly for these parts. */
  lemma ParseBuiltIff(repository: string, version: string)
    ensures ParseImageReference(BuildDockerImagePath(repository, version)) == Ok((repository, version)) <==>
      && repository != "" && repository[|repository| - 1] != ':'
      && version != "" && ':' !in version && '/' !in version
  {
    var ref := BuildDockerImagePath(repository, version);
    var i := LastIndex(ref, ':');
    assert ref[|repository|] == ':' && i >= |repository|;
    if ':' in version {
      var k :| 0 <= k < |version| && version[k] == ':';
      assert ref[|repository| + 1 + k] == ':';
      assert i > |repository|;
      assert HasTag(ref) ==> |ref[i + 1..]| < |version|;
      assert version != "latest";
    } else {
      ColonBeforeTag(repository, version);
      assert ref[..i] == repository && ref[i + 1..] == version;
      assert '/' in ref[i..] <==> '/' in version by {
        if '/' in version {
          var k :| 0 <= k < |version| && version[k] == '/';
          assert ref[i..][k + 1] == '/';
        }
      }
    }
  }

  // ---------------------------------------------------------------- The parse by the text alone

  /** The text is a path, a colon and a tag. */
  ghost predicate Tagged(ref: string, path: string, tag: string)
  {
    ref == path + ":" + tag && path != "" && tag != "" && ':' !in tag && '/' !in tag
  }

  /** The text without one final colon. */
  function WithoutColon(s: string): (r: string)
    ensures r == s || r + ":" == s
    ensures r == s <==> s == "" || s[|s| - 1] != ':'
  {
    if s == "" || s[|s| - 1] != ':' then s else s[..|s| - 1]
  }

  lemma HasTagIsTagged(ref: string)
    requires HasTag(ref)
    ensures Tagged(ref, ref[..LastIndex(ref, ':')], ref[LastIndex(ref, ':') + 1..])
  {
    var i := LastIndex(ref, ':');
    assert ref == ref[..i] + ":" + ref[i + 1..];
    assert ref[i + 1..] == ref[i..][1..];
  }

  lemma TaggedHasTag(ref: string, path: string, tag: string)
    requires Tagged(ref, path, tag)
    ensures HasTag(ref) && path == ref[..LastIndex(ref, ':')] && tag == ref[LastIndex(ref, ':') + 1..]
  {
    ColonBeforeTag(path, tag);
    assert ref == BuildDockerImagePath(path, tag);
    assert ref[|path|..] == ":" + tag;
  }

  /** A reference with a tag parses to the path before it, without one final colon, and the tag. Any other reference,
      a registry with a port included, is a path, without one final colon, and gets the tag "latest". */
  lemma ParseByText(ref: string)
    ensures ParseImageReference(ref).Panic? <==> ref == ""
    ensures forall path, tag :: Tagged(ref, path, tag) ==>
      ParseImageReference(ref) == Ok((WithoutColon(path), tag))
    ensures ref != "" && (forall path, tag :: !Tagged(ref, path, tag)) ==>
      ParseImageReference(ref) == Ok((WithoutColon(ref), "latest"))
  {
    if HasTag(ref) { HasTagIsTagged(ref); }
    forall path, tag | Tagged(ref, path, tag)
      ensures HasTag(ref) && path == ref[..LastIndex(ref, ':')] && tag == ref[LastIndex(ref, ':') + 1..]
    {
      TaggedHasTag(ref, path, tag);
    }
  }

  /** The colon before the port of a registry does not start a tag. */
  lemma PortIsNoTag(host: string, port: string, image: string)
    requires ':' !in port && ':' !in image
    ensures var ref := host + ":" + port + "/" + image; ParseImageReference(ref) == Ok((ref, "latest"))
  {
    var ref, rest := host + ":" + port + "/" + image, port + "/" + image;
    assert ref == host + ":" + rest;
    ColonBeforeTag(host, rest);
    assert ref[|host|..][1 + |port|] == '/';
    assert ref[|ref| - 1] == rest[|rest| - 1];
  }

  /** Building what was parsed and parsing again gives the same parts exactly if a path was left that does not end in
      a colon. */
  lemma ParseIsStableIff(ref: string)
    requires ref != ""
    ensures ParseImageReference(ref).Ok?
    ensures var (path, tag) := ParseImageReference(ref).value;
            ParseImageReference(BuildDockerImagePath(path, tag)) == Ok((path, tag)) <==>
            path != "" && path[|path| - 1] != ':'
  {
    var (path, tag) := ParseImageReference(ref).value;
    TagIsPlain(ref);
    ParseBuiltIff(path, tag);
  }

  /** A reference that is parsed differently the second time. */
  lemma ThreeColonsAreUnstable()
    ensures ParseImageReference("a:::x") == Ok(("a:", "x"))
    ensures ParseImageReference(BuildDockerImagePath("a:", "x")) == Ok(("a", "x"))
  {
    assert "a:::x"[3] == ':' && "a::x"[2] == ':';
    assert LastIndex("a:::x", ':') == 3 && LastIndex("a::x", ':') == 2;
    assert BuildDockerImagePath("a:", "x") == "a::x";
    assert "a:::x"[..3] == "a::" && "a:::x"[4..] == "x" && "a:::x"[3..] == ":x" && "a::"[..2] == "a:";
    assert "a::x"[..2] == "a:" && "a::x"[3..] == "x" && "a::x"[2..] == ":x" && "a:"[..1] == "a";
  }

  lemma TagIsPlain(ref: string)
    requires ref != ""
    ensures var r := ParseImageReference(ref); r.Ok? && r.value.1 != "" && ':' !in r.value.1 && '/' !in r.value.1
  {
    var i := LastIndex(ref, ':');
    if HasTag(ref) { assert ref[i + 1..] == ref[i..][1..]; }
  }

  // ---------------------------------------------------------------- buildLinuxHelmValues

  /** Registry and image name of an image path. */
  function SplitImagePath(path: string): (string, string)
  {
    if '/' in path then
      var elems := Split(path, '/');
      (Join(elems[..|elems| - 1], '/'), elems[|elems| - 1])
    else ("", path)
  }

  /** The two parts make the path again, and the split is the one at the last slash. */
  lemma SplitImagePathRejoins(path: string)
    ensures var (registry, name) := SplitImagePath(path);
            && '/' !in name
            && path == if '/' in path then registry + "/" + name else name
  {
    JoinSplit(path, '/');
    SplitOne(path, '/');
  }
}
