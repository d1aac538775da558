/** The parts of Go's `strings` package that the parsers use. */
module Text {

  function LastIndex(s: string, c: char): (i: int)
    ensures -1 <= i < |s|
    ensures i >= 0 ==> s[i] == c
    ensures forall j :: i < j < |s| ==> s[j] != c
  {
    if s == "" then -1 else if s[|s| - 1] == c then |s| - 1 else LastIndex(s[..|s| - 1], c)
  }

  /** `strings.Split` for a separator of one character. */
  function Split(s: string, sep: char): (parts: seq<string>)
    ensures |parts| >= 1
    ensures forall i :: 0 <= i < |parts| ==> sep !in parts[i]
  {
    var i := LastIndex(s, sep);
    if i < 0 then [s] else Split(s[..i], sep) + [s[i + 1..]]
  }

  function Join(parts: seq<string>, sep: char): string
  {
    if parts == [] then ""
    else if |parts| == 1 then parts[0]
    else Join(parts[..|parts| - 1], sep) + [sep] + parts[|parts| - 1]
  }

  lemma JoinOneMore(parts: seq<string>, part: string, sep: char)
    requires parts != []
    ensures Join(parts + [part], sep) == Join(parts, sep) + [sep] + part
  {
    assert (parts + [part])[..|parts|] == parts;
  }

  lemma {:induction false} JoinSplit(s: string, sep: char)
    ensures Join(Split(s, sep), sep) == s
  {
    var i := LastIndex(s, sep);
    if i >= 0 {
      JoinSplit(s[..i], sep);
      JoinOneMore(Split(s[..i], sep), s[i + 1..], sep);
      assert s == s[..i] + [sep] + s[i + 1..];
    }
  }

  lemma {:induction false} SplitJoin(parts: seq<string>, sep: char)
    requires parts != [] && forall i :: 0 <= i < |parts| ==> sep !in parts[i]
    ensures Split(Join(parts, sep), sep) == parts
  {
    var last, s := parts[|parts| - 1], Join(parts, sep);
    if |parts| == 1 {
      assert LastIndex(s, sep) < 0;
    } else {
      var front := Join(parts[..|parts| - 1], sep);
      SplitJoin(parts[..|parts| - 1], sep);
      assert s[|front|] == sep && s[..|front|] == front && s[|front| + 1..] == last;
      assert forall j :: |front| < j < |s| ==> s[j] == last[j - |front| - 1];
      assert LastIndex(s, sep) == |front|;
    }
  }

  /** Splitting a joined list never yields fewer parts than were joined. */
  lemma {:induction false} SplitCount(parts: seq<string>, sep: char)
    requires parts != []
    ensures |Split(Join(parts, sep), sep)| >= |parts|
    ensures |Split(Join(parts, sep), sep)| == |parts| ==> forall i :: 0 <= i < |parts| ==> sep !in parts[i]
  {
    var front, last := parts[..|parts| - 1], parts[|parts| - 1];
    SplitOne(last, sep);
    if front != [] {
      SplitCount(front, sep);
      SplitAppend(Join(front, sep), last, sep);
      assert forall i :: 0 <= i < |front| ==> parts[i] == front[i];
    }
  }

  lemma SplitOne(s: string, sep: char)
    ensures |Split(s, sep)| == 1 <==> sep !in s
  {
    var i := LastIndex(s, sep);
    assert i < 0 ==> sep !in s;
  }

  lemma LastIndexAppend(s: string, t: string, sep: char)
    ensures LastIndex(s + [sep] + t, sep) == |s| + 1 + LastIndex(t, sep)
  {
    var all, k := s + [sep] + t, |s| + 1 + LastIndex(t, sep);
    assert all[k] == sep;
    forall j | k < j < |all| ensures all[j] != sep { assert all[j] == t[j - |s| - 1]; }
  }

  lemma {:induction false} SplitAppend(s: string, t: string, sep: char)
    ensures |Split(s + [sep] + t, sep)| == |Split(s, sep)| + |Split(t, sep)|
    decreases |t|
  {
    var all, i := s + [sep] + t, LastIndex(t, sep);
    LastIndexAppend(s, t, sep);
    if i < 0 {
      assert all[..|s|] == s;
    } else {
      assert all[..|s| + 1 + i] == s + [sep] + t[..i];
      SplitAppend(s, t[..i], sep);
    }
  }
}
