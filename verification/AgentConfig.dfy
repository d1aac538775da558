/** Configuration documents built by repeated merging: `mergeYAML` of `common/utils/yaml.go`, the core
    Agent configuration of `components/datadog/agent/host.go`, and the OTel configuration of
    `components/datadog/agent/kubernetes_helm.go`. */
module AgentConfig {
  import opened Wrappers
  import opened YamlTree

  /** A YAML text by what decoding it into a map gives: `Blank` is the text without any character,
      `Malformed` does not decode, and a text of comments only decodes to no map at all (`None`). */
  datatype Doc = Blank | Malformed | Parsed(root: Option<Fields>)

  function MergeDocs(oldDoc: Doc, newDoc: Doc, mergeSlices: bool): Outcome<Doc>
  {
    if oldDoc.Blank? then Ok(newDoc)
    else if newDoc.Blank? then Ok(oldDoc)
    else if oldDoc.Malformed? || newDoc.Malformed? then Error
    else if newDoc.root.None? || newDoc.root.value == map[] then
      Ok(Parsed(Some(if oldDoc.root.None? then map[] else oldDoc.root.value)))
    else if oldDoc.root.None? then Panic
    else Ok(Parsed(Some(Merge(oldDoc.root.value, newDoc.root.value, mergeSlices))))
  }

  /** Merging into the clone of a nil map panics at the first key; an encoded map decodes to itself. */
  method MergeYaml(oldDoc: Doc, newDoc: Doc, mergeSlices: bool) returns (r: Outcome<Doc>)
    ensures r == MergeDocs(oldDoc, newDoc, mergeSlices)
  {
    if oldDoc.Blank? { return Ok(newDoc); }
    if newDoc.Blank? { return Ok(oldDoc); }
    if oldDoc.Malformed? { return Error; }
    if newDoc.Malformed? { return Error; }
    var a := if oldDoc.root.Some? then oldDoc.root.value else map[];
    var b := if newDoc.root.Some? then newDoc.root.value else map[];
    if oldDoc.root.None? && b != map[] { return Panic; }
    var merged := MergeMaps(a, b, mergeSlices);
    assert b == map[] ==> merged == a;
    return Ok(Parsed(Some(merged)));
  }

  // ---------------------------------------------------------------- host.go: updateCoreAgentConfig

  const API_KEY := "api_key"

  /** The document `api_key: <key>`; API keys are plain scalars. */
  function KeyDoc(key: string): Doc
  {
    Parsed(Some(map[API_KEY := Scalar(key)]))
  }

  function Extras(extra: seq<Doc>, key: string, skip: bool): seq<Doc>
  {
    extra + if skip then [] else [KeyDoc(key)]
  }

  function Fold(base: Doc, extras: seq<Doc>, mergeSlices: bool): Outcome<Doc>
  {
    if extras == [] then Ok(base) else
      match Fold(base, extras[..|extras| - 1], mergeSlices)
      case Ok(doc) => MergeDocs(doc, extras[|extras| - 1], mergeSlices)
      case failure => failure
  }

  lemma {:induction false} FoldStops(base: Doc, extras: seq<Doc>, mergeSlices: bool, n: nat)
    requires n <= |extras| && !Fold(base, extras[..n], mergeSlices).Ok?
    ensures Fold(base, extras, mergeSlices) == Fold(base, extras[..n], mergeSlices)
    decreases |extras|
  {
    if n < |extras| {
      assert extras[..|extras| - 1][..n] == extras[..n];
      FoldStops(base, extras[..|extras| - 1], mergeSlices, n);
    } else {
      assert extras[..n] == extras;
    }
  }

  /** What is written to the host, and what is handed back for the restart trigger: the base alone. */
  method UpdateCoreAgentConfig(base: Doc, key: string, extra: seq<Doc>, skip: bool)
    returns (written: Outcome<Doc>, content: Doc)
    ensures written == Fold(base, Extras(extra, key, skip), true)
    ensures content == base
  {
    content := base;
    var extraConfigs := extra;
    if !skip {
      extraConfigs := extraConfigs + [KeyDoc(key)];
    }
    assert extraConfigs == Extras(extra, key, skip);
    written := Ok(base);
    for i := 0 to |extraConfigs|
      invariant written.Ok? && written == Fold(base, extraConfigs[..i], true)
    {
      assert extraConfigs[..i + 1][..i] == extraConfigs[..i];
      written := MergeYaml(written.value, extraConfigs[i], true);
      if !written.Ok? {
        FoldStops(base, extraConfigs, true, i + 1);
        return;
      }
    }
    assert extraConfigs[..|extraConfigs|] == extraConfigs;
  }

  /** Unless skipped, the environment's key ends up in the file, whatever the documents say. */
  lemma KeyAlwaysWins(base: Doc, key: string, extra: seq<Doc>)
    ensures var r := Fold(base, Extras(extra, key, false), true);
            r.Ok? ==> r.value.Parsed? && r.value.root.Some? && "api_key" in r.value.root.value
                      && r.value.root.value["api_key"] == Scalar(key)
  {
    var extras := Extras(extra, key, false);
    assert extras[..|extras| - 1] == extra && extras[|extras| - 1] == KeyDoc(key);
    var front := Fold(base, extra, true);
    if front.Ok? && front.value.Parsed? && front.value.root.Some? {
      var a, b := front.value.root.value, map[API_KEY := Scalar(key)];
      assert API_KEY in b && b[API_KEY] == Scalar(key);
      if API_KEY in a { assert Combine(a[API_KEY], b[API_KEY], true) == Scalar(key); }
    }
  }

  // ---------------------------------------------------------------- When the fold succeeds

  /** The documents that are merged at all. */
  function Present(docs: seq<Doc>): (r: seq<Doc>)
    ensures forall i :: 0 <= i < |r| ==> !r[i].Blank?
  {
    if docs == [] then [] else
      Present(docs[..|docs| - 1]) + if docs[|docs| - 1].Blank? then [] else [docs[|docs| - 1]]
  }

  predicate HasKeys(doc: Doc)
  {
    doc.Parsed? && doc.root.Some? && doc.root.value != map[]
  }

  /** A single document is passed through undecoded. Several must all decode, and the first must not be
      nothing but comments when the second has keys. */
  predicate Foldable(docs: seq<Doc>)
  {
    |docs| <= 1 ||
    ((forall i :: 0 <= i < |docs| ==> docs[i].Parsed?) && !(docs[0].root.None? && HasKeys(docs[1])))
  }

  function AsValue(doc: Doc): Value
  {
    Map(if doc.Parsed? && doc.root.Some? then doc.root.value else map[])
  }

  function AsValues(docs: seq<Doc>): (vs: seq<Value>)
    ensures |vs| == |docs| && forall i :: 0 <= i < |docs| ==> vs[i] == AsValue(docs[i])
  {
    seq(|docs|, i requires 0 <= i < |docs| => AsValue(docs[i]))
  }

  lemma {:induction false} PresentFront(base: Doc, extras: seq<Doc>)
    requires extras != []
    ensures Present([base] + extras) ==
      Present([base] + extras[..|extras| - 1]) + if extras[|extras| - 1].Blank? then [] else [extras[|extras| - 1]]
  {
    assert ([base] + extras)[..|extras|] == [base] + extras[..|extras| - 1];
  }

  /** The merge of the first two documents panics. */
  predicate PanicsAtOnce(docs: seq<Doc>)
  {
    |docs| > 1 && docs[0].Parsed? && docs[1].Parsed? && docs[0].root.None? && HasKeys(docs[1])
  }

  /** The fold succeeds exactly on mergeable documents, and then the file holds their merge. Otherwise it panics or
      returns an error. */
  lemma {:induction false} FoldIff(base: Doc, extras: seq<Doc>, mergeSlices: bool)
    ensures Fold(base, extras, mergeSlices).Ok? <==> Foldable(Present([base] + extras))
    ensures Fold(base, extras, mergeSlices).Ok? ==>
      Result(Present([base] + extras), mergeSlices, Fold(base, extras, mergeSlices).value)
    ensures Fold(base, extras, mergeSlices).Panic? <==> PanicsAtOnce(Present([base] + extras))
  {
    var docs := Present([base] + extras);
    if extras == [] {
      assert ([base] + extras)[..0] == [];
    } else {
      var front, last := extras[..|extras| - 1], extras[|extras| - 1];
      FoldIff(base, front, mergeSlices);
      PresentFront(base, extras);
      var before := Present([base] + front);
      if last.Blank? {
        assert docs == before;
      } else {
        assert docs == before + [last];
        if Fold(base, front, mergeSlices).Ok? {
          if before == [] {
            assert docs == [last] && Fold(base, extras, mergeSlices) == Ok(last);
          } else {
            MergeStep(before, mergeSlices, Fold(base, front, mergeSlices).value, last);
          }
        } else {
          FoldableFront(before, last);
        }
      }
    }
  }

  lemma FoldableFront(docs: seq<Doc>, last: Doc)
    requires !Foldable(docs)
    ensures !Foldable(docs + [last]) && (PanicsAtOnce(docs + [last]) <==> PanicsAtOnce(docs))
  {
    var all := docs + [last];
    assert all[0] == docs[0] && all[1] == docs[1];
    if i :| 0 <= i < |docs| && !docs[i].Parsed? { assert all[i] == docs[i]; }
  }

  /** `doc` is what merging `docs` one after the other leaves. */
  ghost predicate Result(docs: seq<Doc>, mergeSlices: bool, doc: Doc)
  {
    if |docs| == 0 then doc == Blank
    else if |docs| == 1 then doc == docs[0]
    else doc.Parsed? && doc.root.Some? && AsValue(doc) == MergeAll(AsValues(docs), mergeSlices)
  }

  lemma MergeStep(docs: seq<Doc>, mergeSlices: bool, doc: Doc, last: Doc)
    requires docs != [] && Foldable(docs) && Result(docs, mergeSlices, doc) && !last.Blank? && !docs[0].Blank?
    ensures MergeDocs(doc, last, mergeSlices).Ok? <==> Foldable(docs + [last])
    ensures MergeDocs(doc, last, mergeSlices).Panic? <==> PanicsAtOnce(docs + [last])
    ensures MergeDocs(doc, last, mergeSlices).Ok? ==>
      Result(docs + [last], mergeSlices, MergeDocs(doc, last, mergeSlices).value)
  {
    var all := docs + [last];
    assert AsValues(all)[..|docs|] == AsValues(docs);
    if |docs| == 1 { assert AsValues(docs) == [AsValue(doc)]; }
    assert all[0] == docs[0] && all[|docs|] == last;
    if |docs| > 1 { assert all[1] == docs[1]; }
    assert Foldable(all) <==>
      last.Parsed? && (|docs| == 1 ==> docs[0].Parsed? && !(docs[0].root.None? && HasKeys(last)));
    if last.Parsed? && doc.Parsed? {
      var a, b := AsValue(doc).fields, AsValue(last).fields;
      assert b == map[] ==> Merge(a, b, mergeSlices) == a;
    }
  }

  /** What the fold of any documents holds at any path: the merge of what they say there since one of them last
      blocked it. `ListsConcatenate`, `LastSaidWins` and `LastWriterWins` say what that is for lists and scalars. */
  lemma ConfigFileHolds(base: Doc, extras: seq<Doc>, mergeSlices: bool, path: seq<string>)
    requires Fold(base, extras, mergeSlices).Ok? && Present([base] + extras) != []
    ensures var said := Said(AsValues(Present([base] + extras)), path);
            Lookup(AsValue(Fold(base, extras, mergeSlices).value), path) ==
              if said == [] then None else Some(MergeAll(said, mergeSlices))
  {
    var docs := Present([base] + extras);
    FoldIff(base, extras, mergeSlices);
    if |docs| == 1 { assert AsValues(docs) == [AsValue(docs[0])]; }
    LookupMergeAll(AsValues(docs), path, mergeSlices);
  }

  /** A list of the new document is appended to one of the old document if lists are merged, and otherwise replaces
      whatever the old document has there. */
  lemma MergedLists(oldDoc: Doc, newDoc: Doc, mergeSlices: bool, path: seq<string>, ys: seq<Value>)
    requires MergeDocs(oldDoc, newDoc, mergeSlices).Ok? && Lookup(AsValue(newDoc), path) == Some(List(ys))
    ensures var was := Lookup(AsValue(oldDoc), path);
            Lookup(AsValue(MergeDocs(oldDoc, newDoc, mergeSlices).value), path) ==
              Some(List(if mergeSlices && was.Some? && was.value.List? then was.value.items + ys else ys))
  {
    NotBlocked(AsValue(newDoc), path);
    LookupMerge(AsValue(oldDoc), AsValue(newDoc), path, mergeSlices);
    assert path != [];
    if oldDoc.Parsed? && newDoc.Parsed? {
      assert newDoc.root.Some? && newDoc.root.value != map[];
    }
  }

  lemma KeyAddsNothingElse(docs: seq<Doc>, key: string, path: seq<string>)
    requires path != [] && path[0] != "api_key"
    ensures Said(AsValues(docs + [KeyDoc(key)]), path) == Said(AsValues(docs), path)
  {
    var all := AsValues(docs + [KeyDoc(key)]);
    assert all[..|docs|] == AsValues(docs) && all[|docs|] == AsValue(KeyDoc(key));
    SaidStep(all, path);
  }

  lemma NothingToMerge(base: Doc, extras: seq<Doc>, path: seq<string>)
    requires Present([base] + extras) == [] && path != []
    ensures Fold(base, extras, true) == Ok(Blank)
    ensures Lookup(AsValue(Blank), path) == None && Said(AsValues([]), path) == []
  {
    FoldIff(base, extras, true);
  }

  /** The written file says everywhere else what the base and the other documents say. */
  lemma ExtrasAreKept(base: Doc, key: string, extra: seq<Doc>, skip: bool, path: seq<string>)
    requires Fold(base, Extras(extra, key, skip), true).Ok? && path != [] && (skip || path[0] != "api_key")
    ensures var said := Said(AsValues(Present([base] + extra)), path);
            Lookup(AsValue(Fold(base, Extras(extra, key, skip), true).value), path) ==
              if said == [] then None else Some(MergeAll(said, true))
  {
    var extras, docs := Extras(extra, key, skip), Present([base] + extra);
    if !skip {
      assert extras[..|extras| - 1] == extra && extras[|extras| - 1] == KeyDoc(key);
      PresentFront(base, extras);
      assert Present([base] + extras) == docs + [KeyDoc(key)];
      KeyAddsNothingElse(docs, key, path);
      ConfigFileHolds(base, extras, true, path);
    } else if docs != [] {
      assert extras == extra;
      ConfigFileHolds(base, extra, true, path);
    } else {
      assert extras == extra;
      NothingToMerge(base, extra, path);
    }
  }

  /** Without a base and other documents, the file holds the key alone. */
  lemma KeyOverBlank(key: string)
    ensures Fold(Blank, Extras([], key, false), true) == Ok(KeyDoc(key))
  {
    assert Extras([], key, false)[..0] == [];
  }

  /** A base of comments only makes the fold panic as soon as the API key is added. */
  lemma CommentsOnlyPanic(key: string)
    ensures Fold(Parsed(None), Extras([], key, false), true) == Panic
  {
    var extras := Extras([], key, false);
    assert extras == [KeyDoc(key)] && extras[..0] == [];
    assert API_KEY in KeyDoc(key).root.value;
  }

  // ---------------------------------------------------------------- kubernetes_helm.go: the OTel configuration

  const SIGNALS := ["metrics", "traces", "logs"]

  function EndpointPath(signal: string): seq<string>
  {
    ["exporters", "datadog", signal, "endpoint"]
  }

  function FakeintakeConfig(url: string): Fields
  {
    var endpoint := Map(map["endpoint" := Scalar(url)]);
    map["exporters" := Map(map["datadog" := Map(map["metrics" := endpoint, "traces" := endpoint, "logs" := endpoint])])]
  }

  method BuildOTelConfigWithFakeintake(user: Fields, url: string) returns (merged: Fields)
    ensures merged == Merge(user, FakeintakeConfig(url), false)
  {
    merged := MergeMaps(user, FakeintakeConfig(url), false);
  }

  /** All three exporters report to the fake intake, whatever the user configured. */
  lemma ExportersReportToFakeintake(user: Fields, url: string)
    ensures var merged := Map(Merge(user, FakeintakeConfig(url), false));
            && Lookup(merged, ["exporters", "datadog", "metrics", "endpoint"]) == Some(Scalar(url))
            && Lookup(merged, ["exporters", "datadog", "traces", "endpoint"]) == Some(Scalar(url))
            && Lookup(merged, ["exporters", "datadog", "logs", "endpoint"]) == Some(Scalar(url))
  {
    assert SIGNALS[0] == "metrics" && SIGNALS[1] == "traces" && SIGNALS[2] == "logs";
    EndpointIsSet(user, url, "metrics");
    EndpointIsSet(user, url, "traces");
    EndpointIsSet(user, url, "logs");
  }

  lemma EndpointIsSet(user: Fields, url: string, signal: string)
    requires signal in SIGNALS
    ensures Lookup(Map(Merge(user, FakeintakeConfig(url), false)), EndpointPath(signal)) == Some(Scalar(url))
  {
    var config, path := Map(FakeintakeConfig(url)), EndpointPath(signal);
    LookupMerge(Map(user), config, path, false);
    assert Lookup(config, path) == Some(Scalar(url)) && !Blocks(config, path) by {
      assert path[1..] == ["datadog", signal, "endpoint"];
      assert path[1..][1..] == [signal, "endpoint"];
      assert path[1..][1..][1..] == ["endpoint"];
    }
  }

  /** What the user says anywhere else is kept: a path that neither leads to nor passes an endpoint. */
  lemma UserConfigIsKept(user: Fields, url: string, path: seq<string>)
    requires forall signal :: signal in SIGNALS ==> !(path <= EndpointPath(signal)) && !(EndpointPath(signal) <= path)
    ensures Lookup(Map(Merge(user, FakeintakeConfig(url), false)), path) == Lookup(Map(user), path)
  {
    LookupMerge(Map(user), Map(FakeintakeConfig(url)), path, false);
    OffTheEndpoints(url, path);
  }

  lemma OffTheEndpoints(url: string, path: seq<string>)
    requires forall signal :: signal in SIGNALS ==> !(path <= EndpointPath(signal)) && !(EndpointPath(signal) <= path)
    ensures Lookup(Map(FakeintakeConfig(url)), path) == None && !Blocks(Map(FakeintakeConfig(url)), path)
  {
    assert SIGNALS[0] in SIGNALS && SIGNALS[1] in SIGNALS && SIGNALS[2] in SIGNALS;
    var c0 := Map(FakeintakeConfig(url));
    if path[0] == "exporters" {
      var c1, p1 := c0.fields["exporters"], path[1..];
      assert Lookup(c0, path) == Lookup(c1, p1) && Blocks(c0, path) == Blocks(c1, p1);
      assert |path| > 1;
      if p1[0] == "datadog" {
        var c2, p2 := c1.fields["datadog"], p1[1..];
        assert Lookup(c1, p1) == Lookup(c2, p2) && Blocks(c1, p1) == Blocks(c2, p2);
        assert |path| > 2 && p2[0] == path[2];
        if p2[0] in SIGNALS {
          var c3, p3 := c2.fields[p2[0]], p2[1..];
          assert Lookup(c2, p2) == Lookup(c3, p3) && Blocks(c2, p2) == Blocks(c3, p3);
          assert |path| > 3 && p3[0] == path[3];
        }
      }
    }
  }
}
