/** Decoded YAML documents and their deep merge: `MergeMaps` of `common/utils/yaml.go`. */
module YamlTree {
  import opened Wrappers

  /** Everything that is neither a list nor a map with string keys counts as a scalar. */
  datatype Value = Scalar(text: string) | List(items: seq<Value>) | Map(fields: Fields)

  type Fields = map<string, Value>

  /** What a key that both documents have is worth after the merge. */
  function Combine(x: Value, y: Value, mergeSlices: bool): Value
    decreases y
  {
    match (x, y)
    case (Map(a), Map(b)) =>
      Map(map k | k in a.Keys + b.Keys ::
        if k !in b then a[k] else if k !in a then b[k] else Combine(a[k], b[k], mergeSlices))
    case (List(xs), List(ys)) => if mergeSlices then List(xs + ys) else y
    case _ => y
  }

  function Merge(a: Fields, b: Fields, mergeSlices: bool): Fields
  {
    Combine(Map(a), Map(b), mergeSlices).fields
  }

  lemma MergeAt(a: Fields, b: Fields, k: string, mergeSlices: bool)
    requires k in b
    ensures k in Merge(a, b, mergeSlices)
    ensures Merge(a, b, mergeSlices)[k] == if k in a then Combine(a[k], b[k], mergeSlices) else b[k]
  {
  }

  /** The loop visits the keys of `b` in no particular order. */
  method MergeMaps(a: Fields, b: Fields, mergeSlices: bool) returns (out: Fields)
    ensures out == Merge(a, b, mergeSlices)
    decreases Map(b)
  {
    out := a;
    var keys := b.Keys;
    ghost var want := Merge(a, b, mergeSlices);
    while keys != {}
      invariant keys <= b.Keys && out.Keys == a.Keys + (b.Keys - keys)
      invariant forall k :: k in out ==> out[k] == if k in keys then a[k] else want[k]
      decreases keys
    {
      var keyB :| keyB in keys;
      keys := keys - {keyB};
      var valueB := b[keyB];
      MergeAt(a, b, keyB, mergeSlices);
      if valueB.Map? && keyB in out && out[keyB].Map? {
        var merged := MergeMaps(out[keyB].fields, valueB.fields, mergeSlices);
        out := out[keyB := Map(merged)];
        continue;
      }
      if mergeSlices && valueB.List? && keyB in out && out[keyB].List? {
        out := out[keyB := List(out[keyB].items + valueB.items)];
        continue;
      }
      out := out[keyB := valueB];
    }
  }

  // ---------------------------------------------------------------- Merging twice

  /** No list that a merge with `y` would append has an item. */
  predicate NoItems(y: Value)
  {
    match y
    case Scalar(_) => true
    case List(ys) => ys == []
    case Map(b) => forall k :: k in b ==> NoItems(b[k])
  }

  /** Merging the same document again changes nothing, unless it appends the document's lists again. */
  lemma {:induction false} MergeTwice(x: Value, y: Value, mergeSlices: bool)
    ensures var once := Combine(x, y, mergeSlices);
            Combine(once, y, mergeSlices) == once <==> !mergeSlices || NoItems(y)
    decreases y
  {
    var once := Combine(x, y, mergeSlices);
    var twice := Combine(once, y, mergeSlices);
    if y.Map? {
      var b, m, m' := y.fields, once.fields, twice.fields;
      forall k | k in b ensures m'[k] == m[k] <==> !mergeSlices || NoItems(b[k]) {
        MergeTwice(if x.Map? && k in x.fields then x.fields[k] else Scalar(""), b[k], mergeSlices);
      }
      assert m'.Keys == m.Keys && forall k :: k in m && k !in b ==> m'[k] == m[k];
      assert m' == m <==> forall k :: k in b ==> m'[k] == m[k];
    } else if y.List? && mergeSlices {
      assert |twice.items| == |once.items| + |y.items|;
      if y.items == [] { assert twice.items == once.items; }
    }
  }

  // ---------------------------------------------------------------- Associativity

  /** `x` adds nothing to `z`. */
  predicate Absorbed(x: Value, z: Value, mergeSlices: bool)
    decreases z
  {
    match (x, z)
    case (Map(a), Map(c)) => forall k :: k in a ==> k in c && Absorbed(a[k], c[k], mergeSlices)
    case (List(xs), List(_)) => mergeSlices ==> xs == []
    case _ => true
  }

  lemma {:induction false} AbsorbedIff(x: Value, z: Value, mergeSlices: bool)
    ensures Absorbed(x, z, mergeSlices) <==> Combine(x, z, mergeSlices) == z
    decreases z
  {
    if x.Map? && z.Map? {
      var a, c := x.fields, z.fields;
      var m := Combine(x, z, mergeSlices).fields;
      forall k | k in a && k in c ensures Absorbed(a[k], c[k], mergeSlices) <==> m[k] == c[k] {
        AbsorbedIff(a[k], c[k], mergeSlices);
      }
      if forall k :: k in a ==> k in c && m[k] == c[k] {
        assert m.Keys == c.Keys;
        assert m == c;
      }
    }
  }

  /** Both values merge with each other rather than one replacing the other. */
  predicate Mergeable(x: Value, y: Value, mergeSlices: bool)
  {
    (x.Map? && y.Map?) || (mergeSlices && x.List? && y.List?)
  }

  /** Wherever the outer documents would merge but the middle one replaces the first, the first adds
      nothing to the last. */
  predicate Regroupable(x: Value, y: Value, z: Value, mergeSlices: bool)
    decreases z
  {
    if x.Map? && y.Map? && z.Map? then
      forall k :: k in x.fields && k in y.fields && k in z.fields ==>
        Regroupable(x.fields[k], y.fields[k], z.fields[k], mergeSlices)
    else if Mergeable(x, z, mergeSlices) && !Mergeable(x, y, mergeSlices) then
      Absorbed(x, z, mergeSlices)
    else true
  }

  /** Merging is associative exactly on these documents. */
  lemma {:induction false} AssociativeIff(x: Value, y: Value, z: Value, mergeSlices: bool)
    ensures Combine(Combine(x, y, mergeSlices), z, mergeSlices) == Combine(x, Combine(y, z, mergeSlices), mergeSlices)
            <==> Regroupable(x, y, z, mergeSlices)
    decreases z, 1
  {
    if x.Map? && y.Map? && z.Map? {
      AssociativeMaps(x.fields, y.fields, z.fields, mergeSlices);
    } else if x.List? && y.List? && z.List? && mergeSlices {
      assert x.items + y.items + z.items == x.items + (y.items + z.items);
    } else {
      AbsorbedIff(x, z, mergeSlices);
    }
  }

  lemma {:induction false} AssociativeMaps(a: Fields, b: Fields, c: Fields, mergeSlices: bool)
    ensures Merge(Merge(a, b, mergeSlices), c, mergeSlices) == Merge(a, Merge(b, c, mergeSlices), mergeSlices)
            <==> forall k :: k in a && k in b && k in c ==> Regroupable(a[k], b[k], c[k], mergeSlices)
    decreases Map(c), 0
  {
    var left := Merge(Merge(a, b, mergeSlices), c, mergeSlices);
    var right := Merge(a, Merge(b, c, mergeSlices), mergeSlices);
    AgreeElsewhere(a, b, c, mergeSlices);
    forall k | k in a && k in b && k in c
      ensures left[k] == right[k] <==> Regroupable(a[k], b[k], c[k], mergeSlices)
    {
      AssociativeIff(a[k], b[k], c[k], mergeSlices);
    }
  }

  /** Keys that one of three documents lacks merge alike in either grouping. */
  lemma AgreeElsewhere(a: Fields, b: Fields, c: Fields, mergeSlices: bool)
    ensures var left := Merge(Merge(a, b, mergeSlices), c, mergeSlices);
            var right := Merge(a, Merge(b, c, mergeSlices), mergeSlices);
            && left.Keys == right.Keys == a.Keys + b.Keys + c.Keys
            && forall k :: k in left && !(k in a && k in b && k in c) ==> left[k] == right[k]
  {
  }

  /** Merging the smallest list twice appends it twice. */
  lemma ListsAppendTwice(v: Value)
    ensures var doc := Map(map["l" := List([v])]);
            Combine(Combine(doc, doc, true), doc, true) != Combine(doc, doc, true)
  {
    var doc := Map(map["l" := List([v])]);
    assert "l" in doc.fields && !NoItems(doc.fields["l"]);
    MergeTwice(doc, doc, true);
  }

  /** The smallest failure: a scalar in between forgets what was there before. */
  lemma NotAssociative(mergeSlices: bool)
    ensures var x, y := Map(map["k" := Map(map["p" := Scalar("1")])]), Map(map["k" := Scalar("")]);
            var z := Map(map["k" := Map(map[])]);
            Combine(Combine(x, y, mergeSlices), z, mergeSlices) != Combine(x, Combine(y, z, mergeSlices), mergeSlices)
  {
    var x, y := Map(map["k" := Map(map["p" := Scalar("1")])]), Map(map["k" := Scalar("")]);
    var z := Map(map["k" := Map(map[])]);
    AssociativeIff(x, y, z, mergeSlices);
    assert "p" in x.fields["k"].fields && "p" !in z.fields["k"].fields;
    assert !Absorbed(x.fields["k"], z.fields["k"], mergeSlices);
    assert !Regroupable(x.fields["k"], y.fields["k"], z.fields["k"], mergeSlices);
    assert "k" in x.fields && "k" in y.fields && "k" in z.fields;
  }

  // ---------------------------------------------------------------- What a path holds

  function Lookup(v: Value, path: seq<string>): Option<Value>
    decreases |path|
  {
    if path == [] then Some(v)
    else if v.Map? && path[0] in v.fields then Lookup(v.fields[path[0]], path[1..])
    else None
  }

  /** `v` holds something other than a map strictly above the path, and so replaces whatever was below. */
  predicate Blocks(v: Value, path: seq<string>)
    decreases |path|
  {
    path != [] && (!v.Map? || (path[0] in v.fields && Blocks(v.fields[path[0]], path[1..])))
  }

  /** The whole merge, seen from one path: what `y` says wins, what `y` does not touch stays. */
  lemma {:induction false} LookupMerge(x: Value, y: Value, path: seq<string>, mergeSlices: bool)
    ensures Lookup(Combine(x, y, mergeSlices), path) ==
              if Blocks(y, path) then None
              else match (Lookup(x, path), Lookup(y, path))
                   case (Some(u), Some(w)) => Some(Combine(u, w, mergeSlices))
                   case (None, w) => w
                   case (u, None) => u
    decreases |path|
  {
    if Lookup(y, path).Some? { NotBlocked(y, path); }
    if path != [] && x.Map? && y.Map? && path[0] in x.fields && path[0] in y.fields {
      LookupMerge(x.fields[path[0]], y.fields[path[0]], path[1..], mergeSlices);
    }
  }

  // ---------------------------------------------------------------- Merging a list of documents

  function MergeAll(docs: seq<Value>, mergeSlices: bool): Value
    requires docs != []
  {
    if |docs| == 1 then docs[0] else Combine(MergeAll(docs[..|docs| - 1], mergeSlices), docs[|docs| - 1], mergeSlices)
  }

  /** What the documents say about a path, in order. */
  function Contributions(docs: seq<Value>, path: seq<string>): seq<Value>
  {
    if docs == [] then [] else
      Contributions(docs[..|docs| - 1], path)
      + match Lookup(docs[|docs| - 1], path) case Some(v) => [v] case None => []
  }

  /** Where the last document that blocks the path is left behind: only later ones have a say. */
  function Since(docs: seq<Value>, path: seq<string>): (n: nat)
    ensures n <= |docs|
  {
    if docs == [] then 0
    else if Blocks(docs[|docs| - 1], path) then |docs|
    else Since(docs[..|docs| - 1], path)
  }

  /** What the documents say about a path since it was last blocked. */
  function Said(docs: seq<Value>, path: seq<string>): seq<Value>
  {
    Contributions(docs[Since(docs, path)..], path)
  }

  /** One more document starts afresh if it blocks the path, and otherwise adds what it says. */
  lemma SaidStep(docs: seq<Value>, path: seq<string>)
    requires docs != []
    ensures var front, last := docs[..|docs| - 1], docs[|docs| - 1];
            Said(docs, path) ==
              if Blocks(last, path) then []
              else match Lookup(last, path)
                   case Some(v) => Said(front, path) + [v]
                   case None => Said(front, path)
  {
    var front, last, n := docs[..|docs| - 1], docs[|docs| - 1], Since(docs, path);
    if n < |docs| { assert docs[n..][..|docs| - n - 1] == front[n..]; }
  }

  lemma MergeAllStep(docs: seq<Value>, last: Value, mergeSlices: bool)
    ensures MergeAll(docs + [last], mergeSlices) ==
      if docs == [] then last else Combine(MergeAll(docs, mergeSlices), last, mergeSlices)
  {
    assert (docs + [last])[..|docs|] == docs;
  }

  /** Looking up a path in the merge of any documents is merging what they say about it since it was last blocked. */
  lemma {:induction false} LookupMergeAll(docs: seq<Value>, path: seq<string>, mergeSlices: bool)
    requires docs != []
    ensures var said := Said(docs, path);
            Lookup(MergeAll(docs, mergeSlices), path) == if said == [] then None else Some(MergeAll(said, mergeSlices))
  {
    var front, last := docs[..|docs| - 1], docs[|docs| - 1];
    SaidStep(docs, path);
    if Lookup(last, path).Some? { NotBlocked(last, path); }
    if front != [] {
      LookupMergeAll(front, path, mergeSlices);
      LookupMerge(MergeAll(front, mergeSlices), last, path, mergeSlices);
    }
    if Lookup(last, path).Some? { MergeAllStep(Said(front, path), Lookup(last, path).value, mergeSlices); }
  }

  /** When everything said about a path since it was last blocked is a list, the merge holds all the items, in order. */
  lemma ListsConcatenate(docs: seq<Value>, path: seq<string>)
    requires docs != [] && Said(docs, path) != [] && forall v :: v in Said(docs, path) ==> v.List?
    ensures Lookup(MergeAll(docs, true), path) == Some(List(Items(Said(docs, path))))
  {
    LookupMergeAll(docs, path, true);
    MergeLists(Said(docs, path));
  }

  lemma {:induction false} MergeLists(said: seq<Value>)
    requires said != [] && forall i :: 0 <= i < |said| ==> said[i].List?
    ensures MergeAll(said, true) == List(Items(said))
  {
    if |said| > 1 {
      MergeLists(said[..|said| - 1]);
    } else {
      assert Items(said[..0]) == [];
    }
  }

  /** Without merging lists, the last thing said about a path replaces what was said before, unless it is a map. */
  lemma LastSaidWins(docs: seq<Value>, path: seq<string>)
    requires docs != [] && Said(docs, path) != [] && !Said(docs, path)[|Said(docs, path)| - 1].Map?
    ensures Lookup(MergeAll(docs, false), path) == Some(Said(docs, path)[|Said(docs, path)| - 1])
  {
    LookupMergeAll(docs, path, false);
  }

  /** A scalar in between makes the merge forget the list that was there before. */
  lemma ScalarForgetsList(x: Value, s: string, z: Value)
    ensures var docs := [Map(map["k" := Map(map["l" := List([x])])]), Map(map["k" := Scalar(s)]),
                         Map(map["k" := Map(map["l" := List([z])])])];
            Lookup(MergeAll(docs, true), ["k", "l"]) == Some(List([z]))
  {
    var first, second := Map(map["k" := Map(map["l" := List([x])])]), Map(map["k" := Scalar(s)]);
    var third := Map(map["k" := Map(map["l" := List([z])])]);
    var docs, path := [first, second, third], ["k", "l"];
    assert docs[..2] == [first, second] && docs[..2][..1] == [first] && path[1..] == ["l"];
    assert MergeAll(docs[..2], true) == Combine(first, second, true);
    assert MergeAll(docs, true) == Combine(MergeAll(docs[..2], true), third, true);
    assert Blocks(second.fields["k"], ["l"]) && Blocks(second, path);
    LookupMerge(first, second, path, true);
    assert Lookup(MergeAll(docs[..2], true), path) == None;
    assert Lookup(third.fields["k"], ["l"]) == Some(List([z]));
    NotBlocked(third, path);
    LookupMerge(MergeAll(docs[..2], true), third, path, true);
  }

  function Items(said: seq<Value>): seq<Value>
    requires forall i :: 0 <= i < |said| ==> said[i].List?
  {
    if said == [] then [] else Items(said[..|said| - 1]) + said[|said| - 1].items
  }

  /** A scalar stays until a later document says something about its path, whatever came before it. */
  lemma {:induction false} LastWriterWins(
    docs: seq<Value>, writer: nat, path: seq<string>, s: string, mergeSlices: bool)
    requires writer < |docs| && Lookup(docs[writer], path) == Some(Scalar(s))
    requires forall i :: writer < i < |docs| ==> Lookup(docs[i], path) == None && !Blocks(docs[i], path)
    ensures Lookup(MergeAll(docs, mergeSlices), path) == Some(Scalar(s))
  {
    var last := |docs| - 1;
    if writer == last { NotBlocked(docs[last], path); }
    if last > 0 {
      if writer < last { LastWriterWins(docs[..last], writer, path, s, mergeSlices); }
      LookupMerge(MergeAll(docs[..last], mergeSlices), docs[last], path, mergeSlices);
    }
  }

  lemma {:induction false} NotBlocked(v: Value, path: seq<string>)
    requires Lookup(v, path).Some?
    ensures !Blocks(v, path)
    decreases |path|
  {
    if path != [] { NotBlocked(v.fields[path[0]], path[1..]); }
  }
}
