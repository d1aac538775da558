/** The prefix lists of `common/namer/namer.go` as Go slices: a namer must behave like a value even
    though slices share their backing arrays. */
module NamerSlices {
  import opened Wrappers
  import opened Namer

  /** A Go slice that starts at the head of its backing array; its capacity is the array's length. */
  datatype Slice = Slice(arr: array<string>, len: nat) {
    ghost predicate Valid()
    {
      len <= arr.Length
    }

    ghost function Contents(): seq<string>
      requires Valid()
      reads arr
    {
      arr[..len]
    }
  }

  /** Go's `append`: in place when the capacity suffices, else into a new array with some spare room. */
  method Append(s: Slice, xs: seq<string>, spare: nat) returns (r: Slice)
    requires s.Valid()
    modifies if s.len + |xs| <= s.arr.Length then {s.arr} else {}
    ensures r.Valid() && r.len == s.len + |xs| && r.Contents() == old(s.Contents()) + xs
    ensures s.len + |xs| <= s.arr.Length ==> r.arr == s.arr && s.arr[r.len..] == old(s.arr[s.len + |xs|..])
    ensures s.len + |xs| > s.arr.Length ==> fresh(r.arr) && r.arr.Length == r.len + spare
  {
    var arr := s.arr;
    if s.len + |xs| > s.arr.Length {
      arr := new string[s.len + |xs| + spare](_ => "");
      forall i | 0 <= i < s.len {
        arr[i] := s.arr[i];
      }
    }
    forall i | 0 <= i < |xs| {
      arr[s.len + i] := xs[i];
    }
    r := Slice(arr, s.len + |xs|);
  }

  /** What the explicit `make` and `copy` in `WithPrefix` prevent: two appends to a shared slice with
      room left overwrite each other. */
  method SpareCapacityAliases(s: Slice, p: string, q: string) returns (first: Slice, second: Slice)
    requires s.Valid() && s.len < s.arr.Length
    modifies s.arr
    ensures first.Valid() && second.Valid()
    ensures first.Contents() == second.Contents() == old(s.Contents()) + [q]
  {
    first := Append(s, [p], 0);
    second := Append(s, [q], 0);
  }

  /** A namer. Its prefixes fill their array: there is never room to append in place. */
  datatype NamerValue = NamerValue(prefixes: Slice) {
    ghost predicate Valid()
    {
      prefixes.len == prefixes.arr.Length
    }

    ghost function Prefixes(): seq<string>
      requires Valid()
      reads prefixes.arr
    {
      prefixes.Contents()
    }

    /** No `modifies`: nothing that existed before changes. */
    method WithPrefix(prefix: string) returns (n: NamerValue)
      requires Valid()
      ensures n.Valid() && fresh(n.prefixes.arr)
      ensures n.Prefixes() == Prefixes() + [prefix]
    {
      var arr := new string[prefixes.len + 1](_ => "");
      forall i | 0 <= i < prefixes.len {
        arr[i] := prefixes.arr[i];
      }
      var s := Append(Slice(arr, prefixes.len), [prefix], 0);
      n := NamerValue(s);
    }

    /** Writes into no existing array, whatever spare room `append` leaves in the one it allocates. */
    method ResourceName(parts: seq<string>, digest: string -> Word64, spare: nat) returns (r: Outcome<string>)
      requires Valid()
      ensures parts == [] <==> r.Panic?
      ensures parts != [] ==> r == Bounded(MAX_INT, Prefixes() + parts, false, HashOf(Prefixes() + parts, digest))
    {
      if |parts| == 0 {
        return Panic;
      }
      ghost var before := Prefixes();
      var tokens := Append(prefixes, parts, spare);
      NameIsBounded(MAX_INT, before + parts, false, HashOf(before + parts, digest));
      r := JoinWithMaxLength(MAX_INT, tokens.arr[..tokens.len], false, digest);
    }

    /** `args` are the resolved parts; `stack` is the name of the stack. */
    method DisplayName(maxLen: int, stack: string, args: seq<string>, digest: string -> Word64)
      returns (r: Outcome<string>)
      requires Valid()
      ensures var tokens := [stack] + Prefixes() + args;
              r == Bounded(maxLen, tokens, false, HashOf(tokens, digest))
    {
      var arr := new string[1 + prefixes.len + |args|](_ => "");
      arr[0] := stack;
      var strArgs := Slice(arr, 1);
      strArgs := Append(strArgs, prefixes.arr[..], 0);
      for i := 0 to |args|
        invariant strArgs.arr == arr && strArgs.len == 1 + prefixes.len + i
        invariant strArgs.Contents() == [stack] + Prefixes() + args[..i]
      {
        strArgs := Append(strArgs, [args[i]], 0);
        assert args[..i + 1] == args[..i] + [args[i]];
      }
      assert args[..|args|] == args;
      r := JoinWithMaxLength(maxLen, strArgs.arr[..strArgs.len], false, digest);
    }
  }

  method NewNamer(prefix: string) returns (n: NamerValue)
    ensures n.Valid() && fresh(n.prefixes.arr)
    ensures n.Prefixes() == if prefix == "" then [] else [prefix]
  {
    if prefix == "" {
      var arr := new string[0](_ => "");
      n := NamerValue(Slice(arr, 0));
    } else {
      var arr := new string[1](_ => prefix);
      n := NamerValue(Slice(arr, 1));
    }
  }

  // ---------------------------------------------------------------- Any sequence of calls

  datatype Call = Derive(of: nat, prefix: string) | Name(of: nat, parts: seq<string>)

  /** Prefix lists as plain values: each `Derive` adds one, `Name` changes nothing. */
  function Derived(lists: seq<seq<string>>, calls: seq<Call>): (r: seq<seq<string>>)
    ensures lists <= r
    decreases |calls|
  {
    if calls == [] then lists
    else if calls[0].Derive? && calls[0].of < |lists| then
      Derived(lists + [lists[calls[0].of] + [calls[0].prefix]], calls[1..])
    else Derived(lists, calls[1..])
  }

  ghost predicate AllValid(pool: seq<NamerValue>)
  {
    forall i :: 0 <= i < |pool| ==> pool[i].Valid()
  }

  ghost function Lists(pool: seq<NamerValue>): (r: seq<seq<string>>)
    requires AllValid(pool)
    reads set i | 0 <= i < |pool| :: pool[i].prefixes.arr
  {
    seq(|pool|, i requires 0 <= i < |pool| && pool[i].Valid()
                  reads (if 0 <= i < |pool| then {pool[i].prefixes.arr} else {}) => pool[i].Prefixes())
  }

  /** Any calls on any namers of a pool of namers derived from one another: the slices behave like values. */
  method Serve(pool: seq<NamerValue>, calls: seq<Call>, digest: string -> Word64, spare: nat)
    returns (pool': seq<NamerValue>)
    requires AllValid(pool)
    ensures AllValid(pool') && pool <= pool'
    ensures Lists(pool') == Derived(old(Lists(pool)), calls)
  {
    pool' := pool;
    assert calls[0..] == calls;
    for i := 0 to |calls|
      invariant AllValid(pool') && pool <= pool'
      invariant Derived(Lists(pool'), calls[i..]) == Derived(old(Lists(pool)), calls)
    {
      assert calls[i..][1..] == calls[i + 1..];
      var before := pool';
      ghost var lists := Lists(before);
      if calls[i].of < |pool'| {
        var n := pool'[calls[i].of];
        match calls[i]
        case Derive(_, prefix) =>
          var d := n.WithPrefix(prefix);
          pool' := pool' + [d];
          assert Lists(pool') == lists + [lists[calls[i].of] + [prefix]];
        case Name(_, parts) =>
          var _ := n.ResourceName(parts, digest, spare);
          assert Lists(pool') == lists;
      }
    }
    assert calls[|calls|..] == [];
  }
}
