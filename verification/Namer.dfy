/** Length-bounded names: `joinWithMaxLength` of `common/namer/namer.go`. A string is its sequence of bytes. */
module Namer {
  import opened Wrappers
  import opened Line
  import opened Text

  const NAME_SEP := '-'
  const HASH_SIZE_PERCENT := 20
  const HASH_SIZE := 16
  const MAX_INT := 0x7FFF_FFFF_FFFF_FFFF

  type Word64 = n: nat | n < 0x1_0000_0000_0000_0000

  // ---------------------------------------------------------------- Tokens

  function Total(tokens: seq<string>): (n: nat)
  {
    if tokens == [] then 0 else Total(tokens[..|tokens| - 1]) + |tokens[|tokens| - 1]|
  }

  /** Bytes of the first `k` tokens. */
  function Upto(tokens: seq<string>, k: nat): (n: nat)
    requires k <= |tokens|
  {
    Total(tokens[..k])
  }

  function Concat(tokens: seq<string>): string
  {
    if tokens == [] then "" else Concat(tokens[..|tokens| - 1]) + tokens[|tokens| - 1]
  }

  lemma UptoStep(tokens: seq<string>, k: nat)
    requires k < |tokens|
    ensures Upto(tokens, k + 1) == Upto(tokens, k) + |tokens[k]|
  {
    assert tokens[..k + 1][..k] == tokens[..k];
  }

  lemma {:induction false} UptoMono(tokens: seq<string>, j: nat, k: nat)
    requires j <= k <= |tokens|
    ensures Upto(tokens, j) <= Upto(tokens, k)
    decreases k - j
  {
    if j < k {
      UptoMono(tokens, j, k - 1);
      UptoStep(tokens, k - 1);
    }
  }

  lemma UptoEnd(tokens: seq<string>)
    ensures Upto(tokens, |tokens|) == Total(tokens)
  {
    assert tokens[..|tokens|] == tokens;
  }

  lemma {:induction false} ConcatLength(tokens: seq<string>)
    ensures |Concat(tokens)| == Total(tokens)
  {
    if tokens != [] { ConcatLength(tokens[..|tokens| - 1]); }
  }

  /** Every token stands in the concatenation, in full, right behind the ones before it. */
  lemma {:induction false} ConcatHolds(tokens: seq<string>, i: nat)
    requires i < |tokens|
    ensures Upto(tokens, i) <= Upto(tokens, i + 1) <= |Concat(tokens)| == Total(tokens)
    ensures Concat(tokens)[Upto(tokens, i)..Upto(tokens, i + 1)] == tokens[i]
  {
    var n := |tokens| - 1;
    UptoStep(tokens, i);
    ConcatLength(tokens);
    ConcatLength(tokens[..n]);
    if i < n {
      ConcatHolds(tokens[..n], i);
      assert tokens[..n][..i] == tokens[..i] && tokens[..n][..i + 1] == tokens[..i + 1];
    } else {
      UptoEnd(tokens);
    }
  }

  lemma {:induction false} JoinLength(tokens: seq<string>)
    ensures |Join(tokens, NAME_SEP)| == if tokens == [] then 0 else Total(tokens) + |tokens| - 1
  {
    if |tokens| == 1 {
      assert tokens[..0] == [];
    } else if |tokens| > 1 {
      JoinLength(tokens[..|tokens| - 1]);
    }
  }

  // ---------------------------------------------------------------- Hash

  function Pow16(k: nat): (p: nat)
    ensures p > 0
  {
    if k == 0 then 1 else 16 * Pow16(k - 1)
  }

  /** `%016x`: the sixteen hexadecimal digits of a word, most significant first. */
  function Hex(n: Word64): (s: string)
    ensures |s| == HASH_SIZE
  {
    seq(HASH_SIZE, i requires 0 <= i < HASH_SIZE => "0123456789abcdef"[n / Pow16(HASH_SIZE - 1 - i) % 16])
  }

  function Digit(c: char): (d: nat)
  {
    if '0' <= c <= '9' then (c - '0') as int else if 'a' <= c <= 'f' then (c - 'a') as int + 10 else 0
  }

  /** The number that a text of hexadecimal digits stands for. */
  function FromHex(s: string): (n: nat)
  {
    if s == "" then 0 else 16 * FromHex(s[..|s| - 1]) + Digit(s[|s| - 1])
  }

  /** Reading the sixteen digits gives the word back: different words have different hashes. */
  lemma HexRoundTrip(n: Word64)
    ensures FromHex(Hex(n)) == n
  {
    HexPrefix(n, HASH_SIZE);
    assert Hex(n)[..HASH_SIZE] == Hex(n);
    assert Pow16(0) == 1;
  }

  lemma HexAt(n: Word64, i: nat)
    requires i < HASH_SIZE
    ensures Digit(Hex(n)[i]) == n / Pow16(HASH_SIZE - 1 - i) % 16
  {
    DigitOf(n / Pow16(HASH_SIZE - 1 - i) % 16);
  }

  lemma DigitOf(d: nat)
    requires d < 16
    ensures Digit("0123456789abcdef"[d]) == d
  {
  }

  lemma FromHexStep(s: string, k: nat)
    requires k < |s|
    ensures FromHex(s[..k + 1]) == 16 * FromHex(s[..k]) + Digit(s[k])
  {
    assert s[..k + 1][..k] == s[..k];
  }

  lemma {:induction false} HexPrefix(n: Word64, k: nat)
    requires k <= HASH_SIZE
    ensures FromHex(Hex(n)[..k]) == n / Pow16(HASH_SIZE - k)
  {
    if k == 0 {
      SixteenDigits();
      Quotient(n, Pow16(HASH_SIZE), 0, n);
    } else {
      HexPrefix(n, k - 1);
      FromHexStep(Hex(n), k - 1);
      HexAt(n, k - 1);
      DivisionStep(n, Pow16(HASH_SIZE - k));
    }
  }

  lemma SixteenDigits()
    ensures Pow16(HASH_SIZE) == 0x1_0000_0000_0000_0000
  {
    assert Pow16(4) == 0x1_0000;
    assert Pow16(8) == 0x1_0000_0000;
    assert Pow16(12) == 0x1_0000_0000_0000;
  }

  lemma DivisionStep(n: nat, p: nat)
    requires p > 0
    ensures n / p == 16 * (n / (16 * p)) + n / p % 16
  {
    var q, r := n / p, n % p;
    var m, digit := q / 16, q % 16;
    assert n == p * q + r;
    assert p * q == 16 * p * m + p * digit;
    MulMono(p, 0, digit);
    MulMono(p, digit, 15);
    Quotient(n, 16 * p, m, p * digit + r);
  }

  lemma Quotient(n: nat, d: nat, m: nat, r: nat)
    requires d > 0 && n == d * m + r && r < d
    ensures n / d == m
  {
    var q := n / d;
    assert n == d * q + n % d;
    if q < m { MulMono(d, q + 1, m); }
    if m < q { MulMono(d, m + 1, q); }
  }

  /** The digest of the concatenated tokens, as 16 hexadecimal digits. */
  function HashOf(tokens: seq<string>, digest: string -> Word64): (s: string)
    ensures |s| == HASH_SIZE
  {
    Hex(digest(Concat(tokens)))
  }

  /** The hash is the digest of all tokens, from the first byte to the last. */
  lemma HashIsDigest(tokens: seq<string>, digest: string -> Word64)
    ensures FromHex(HashOf(tokens, digest)) == digest(Concat(tokens))
  {
    HexRoundTrip(digest(Concat(tokens)));
  }

  method Hash(tokens: seq<string>, digest: string -> Word64) returns (s: string)
    ensures s == HashOf(tokens, digest)
  {
    var hasher := "";
    for i := 0 to |tokens|
      invariant hasher == Concat(tokens[..i])
    {
      assert tokens[..i + 1][..i] == tokens[..i];
      hasher := hasher + tokens[i];
    }
    assert tokens[..|tokens|] == tokens;
    s := Hex(digest(hasher));
  }

  // ---------------------------------------------------------------- Proportional truncation

  /** Bytes granted to the first `k` tokens when all of them must share `budget` bytes. */
  function Share(tokens: seq<string>, budget: nat, k: nat): (n: nat)
    requires k <= |tokens|
  {
    Rise(Upto(tokens, k), Total(tokens), budget)
  }

  lemma ShareStep(tokens: seq<string>, budget: nat, k: nat)
    requires k < |tokens| && budget <= Total(tokens)
    ensures Share(tokens, budget, k) <= Share(tokens, budget, k + 1) <= Share(tokens, budget, k) + |tokens[k]|
  {
    UptoStep(tokens, k);
    RiseMono(Upto(tokens, k), Upto(tokens, k + 1), Total(tokens), budget);
  }

  /** The first `k` tokens, each cut to its share and followed by the separator. */
  function Pieces(tokens: seq<string>, budget: nat, k: nat): (s: string)
    requires k <= |tokens| && budget <= Total(tokens)
  {
    if k == 0 then "" else
      ShareStep(tokens, budget, k - 1);
      Pieces(tokens, budget, k - 1)
      + tokens[k - 1][..Share(tokens, budget, k) - Share(tokens, budget, k - 1)] + [NAME_SEP]
  }

  lemma {:induction false} PiecesLength(tokens: seq<string>, budget: nat, k: nat)
    requires k <= |tokens| && budget <= Total(tokens) && Total(tokens) > 0
    ensures |Pieces(tokens, budget, k)| == Share(tokens, budget, k) + k
  {
    if k == 0 {
      RiseEnds(Total(tokens), budget);
    } else {
      PiecesLength(tokens, budget, k - 1);
      ShareStep(tokens, budget, k - 1);
    }
  }

  /** Where the piece of token `i` starts; the separator before it is the byte before. */
  function Start(tokens: seq<string>, budget: nat, i: nat): (n: nat)
    requires i <= |tokens|
  {
    Share(tokens, budget, i) + i
  }

  /** The text shows a prefix of token `i`, as long as its share, in its place. */
  ghost predicate Shows(name: string, tokens: seq<string>, budget: nat, i: nat)
    requires i < |tokens|
  {
    && Start(tokens, budget, i) < Start(tokens, budget, i + 1) <= |name| + 1
    && name[Start(tokens, budget, i)..Start(tokens, budget, i + 1) - 1] <= tokens[i]
  }

  ghost predicate Separated(name: string, tokens: seq<string>, budget: nat, i: nat)
    requires i < |tokens|
  {
    0 < Start(tokens, budget, i + 1) <= |name| && name[Start(tokens, budget, i + 1) - 1] == '-'
  }

  /** What a text shows, its long enough prefixes and its extensions show as well. */
  lemma ShowsToo(text: string, name: string, tokens: seq<string>, budget: nat, i: nat)
    requires i < |tokens| && Shows(text, tokens, budget, i) && Separated(text, tokens, budget, i)
    requires (name <= text || text <= name) && Start(tokens, budget, i + 1) <= |name| + 1
    ensures Shows(name, tokens, budget, i)
    ensures Start(tokens, budget, i + 1) <= |name| ==> Separated(name, tokens, budget, i)
  {
    var a, b := Start(tokens, budget, i), Start(tokens, budget, i + 1) - 1;
    assert name[a..b] == text[a..b];
  }

  lemma PiecesStep(tokens: seq<string>, budget: nat, k: nat)
    requires k < |tokens| && budget <= Total(tokens) && Total(tokens) > 0
    ensures 0 <= Share(tokens, budget, k + 1) - Share(tokens, budget, k) <= |tokens[k]|
    ensures Pieces(tokens, budget, k + 1) ==
      Pieces(tokens, budget, k) + tokens[k][..Share(tokens, budget, k + 1) - Share(tokens, budget, k)] + "-"
    ensures |Pieces(tokens, budget, k)| == Start(tokens, budget, k)
    ensures |Pieces(tokens, budget, k + 1)| == Start(tokens, budget, k + 1)
  {
    ShareStep(tokens, budget, k);
    PiecesLength(tokens, budget, k);
    PiecesLength(tokens, budget, k + 1);
  }

  /** Each piece is a prefix of its token, in its place, and a separator follows. */
  lemma {:induction false} PiecesShow(tokens: seq<string>, budget: nat, k: nat, i: nat)
    requires i < k <= |tokens| && budget <= Total(tokens) && Total(tokens) > 0
    ensures Shows(Pieces(tokens, budget, k), tokens, budget, i)
    ensures Separated(Pieces(tokens, budget, k), tokens, budget, i)
  {
    PiecesStep(tokens, budget, k - 1);
    if i < k - 1 {
      PiecesShow(tokens, budget, k - 1, i);
    }
  }

  /** The first `k` pieces together weigh the rounded proportional share of the first `k` tokens,
      and each piece is strictly within one byte of its own exact share. */
  lemma PiecesAreProportional(tokens: seq<string>, budget: nat, k: nat)
    requires k < |tokens| && budget <= Total(tokens) && Total(tokens) > 0
    ensures var piece := Share(tokens, budget, k + 1) - Share(tokens, budget, k);
            && 0 <= piece <= |tokens[k]|
            && 0 - Total(tokens) < Total(tokens) * piece - budget * |tokens[k]| < Total(tokens)
    ensures var total := Total(tokens);
            0 - total < 2 * (total * Share(tokens, budget, k) - budget * Upto(tokens, k)) <= total
  {
    ShareStep(tokens, budget, k);
    UptoStep(tokens, k);
    RiseIsNearest(Upto(tokens, k), Total(tokens), budget);
    RiseIsNearest(Upto(tokens, k + 1), Total(tokens), budget);
    Differences(Total(tokens), budget, Share(tokens, budget, k), Share(tokens, budget, k + 1),
                Upto(tokens, k), Upto(tokens, k + 1));
  }

  lemma Differences(w: int, h: int, s: int, s': int, u: int, u': int)
    ensures w * (s' - s) == w * s' - w * s
    ensures h * (u' - u) == h * u' - h * u
  {
  }

  /** Number of tokens the walk writes: it stops for good at the first empty token after the head. */
  function Reached(tokens: seq<string>, from: nat): (k: nat)
    requires 1 <= from <= |tokens|
    ensures from <= k <= |tokens|
    ensures k < |tokens| ==> tokens[k] == ""
    ensures forall i :: from <= i < k ==> tokens[i] != ""
    decreases |tokens| - from
  {
    if from == |tokens| || tokens[from] == "" then from else Reached(tokens, from + 1)
  }

  // ---------------------------------------------------------------- The plot callback

  /** What the callback remembers between two calls. */
  datatype Cursor = Cursor(tokenIdx: nat, nextX: int, prevY: int, sb: string)

  /** The callback may run at (x,y) from `c`: every index and slice it uses is in range. */
  ghost predicate Safe(tokens: seq<string>, c: Cursor, p: Point)
  {
    p.x == c.nextX ==>
      && c.tokenIdx < |tokens|
      && 0 <= p.y - c.prevY <= |tokens[c.tokenIdx]|
      && (p.x < Total(tokens) ==> c.tokenIdx + 1 < |tokens|)
  }

  function Next(tokens: seq<string>, c: Cursor, p: Point): Cursor
    requires Safe(tokens, c, p)
  {
    if p.x != c.nextX then c else
      var sb := c.sb + tokens[c.tokenIdx][..p.y - c.prevY] + [NAME_SEP];
      if p.x < Total(tokens)
      then Cursor(c.tokenIdx + 1, c.nextX + |tokens[c.tokenIdx + 1]|, p.y, sb)
      else Cursor(c.tokenIdx + 1, c.nextX, c.prevY, sb)
  }

  /** At the end of a token, and only there, the callback writes a prefix of the token as long as the walk has risen
      since the last one, and a separator. */
  lemma NextWrites(tokens: seq<string>, c: Cursor, p: Point)
    requires Safe(tokens, c, p)
    ensures c.sb <= Next(tokens, c, p).sb
    ensures var more := Next(tokens, c, p).sb[|c.sb|..];
            if p.x != c.nextX then more == ""
            else |more| == p.y - c.prevY + 1 && more[|more| - 1] == '-' && more[..|more| - 1] <= tokens[c.tokenIdx]
  {
  }

  ghost predicate SafeRun(tokens: seq<string>, c: Cursor, ps: seq<Point>)
    decreases |ps|
  {
    ps == [] || (Safe(tokens, c, ps[0]) && SafeRun(tokens, Next(tokens, c, ps[0]), ps[1..]))
  }

  /** The callback's memory after it has been called at `ps`, in order. */
  ghost function Run(tokens: seq<string>, c: Cursor, ps: seq<Point>): Cursor
    requires SafeRun(tokens, c, ps)
    decreases |ps|
  {
    if ps == [] then c else Run(tokens, Next(tokens, c, ps[0]), ps[1..])
  }

  /** The closure passed to the line walk, with the variables it captures and a record of its calls. */
  class TokenPlot {
    const tokens: seq<string>
    const sumTokensSize: int
    var tokenIdx: nat
    var nextX: int
    var prevY: int
    var sb: string
    ghost var plotted: seq<Point>

    ghost predicate Valid()
    {
      sumTokensSize == Total(tokens)
    }

    ghost function State(): Cursor
      reads this
    {
      Cursor(tokenIdx, nextX, prevY, sb)
    }

    constructor (tokens: seq<string>)
      requires tokens != []
      ensures Valid() && this.tokens == tokens
      ensures State() == Cursor(0, |tokens[0]|, 0, "") && plotted == []
    {
      this.tokens := tokens;
      sumTokensSize := Total(tokens);
      tokenIdx, nextX, prevY, sb, plotted := 0, |tokens[0]|, 0, "", [];
    }

    method Plot(x: int, y: int)
      requires Valid() && Safe(tokens, State(), Point(x, y))
      modifies this
      ensures State() == Next(tokens, old(State()), Point(x, y))
      ensures plotted == old(plotted) + [Point(x, y)]
    {
      plotted := plotted + [Point(x, y)];
      if x == nextX {
        sb := sb + tokens[tokenIdx][..y - prevY];
        sb := sb + [NAME_SEP];
        tokenIdx := tokenIdx + 1;
        if x < sumTokensSize {
          nextX := nextX + |tokens[tokenIdx]|;
          prevY := y;
        }
      }
    }
  }

  /** The callback has been called at the first `i` of the points `ps`, in addition to `earlier` calls, and
      the rest can follow. */
  ghost predicate Along(tokens: seq<string>, start: Cursor, ps: seq<Point>, earlier: seq<Point>,
                        i: nat, c: Cursor, plotted: seq<Point>)
  {
    && i <= |ps| && plotted == earlier + ps[..i]
    && SafeRun(tokens, start, ps) && SafeRun(tokens, c, ps[i..])
    && Run(tokens, c, ps[i..]) == Run(tokens, start, ps)
  }

  lemma AlongStart(tokens: seq<string>, start: Cursor, ps: seq<Point>, earlier: seq<Point>)
    requires SafeRun(tokens, start, ps)
    ensures Along(tokens, start, ps, earlier, 0, start, earlier)
  {
    assert ps[0..] == ps;
  }

  lemma AlongStep(tokens: seq<string>, start: Cursor, ps: seq<Point>, earlier: seq<Point>,
                  i: nat, c: Cursor, plotted: seq<Point>, p: Point)
    requires i < |ps| && ps[i] == p && Along(tokens, start, ps, earlier, i, c, plotted)
    ensures Safe(tokens, c, p) && Along(tokens, start, ps, earlier, i + 1, Next(tokens, c, p), plotted + [p])
  {
    assert ps[i..][0] == ps[i] && ps[i..][1..] == ps[i + 1..];
  }

  lemma AlongEnd(tokens: seq<string>, start: Cursor, ps: seq<Point>, earlier: seq<Point>,
                 c: Cursor, plotted: seq<Point>)
    requires Along(tokens, start, ps, earlier, |ps|, c, plotted)
    ensures c == Run(tokens, start, ps) && plotted == earlier + ps
  {
    assert ps[..|ps|] == ps;
  }

  /** The walk is about to visit column `x`, and the callback has been called at all columns before. */
  ghost predicate Walking(tokens: seq<string>, start: Cursor, earlier: seq<Point>, x0: int, y0: int, x2: int, y2: int,
                          x: int, y: int, d: int, c: Cursor, plotted: seq<Point>)
  {
    && AtColumn(x0, y0, x2, y2, x, y, d)
    && Along(tokens, start, Points(x0, y0, x2, y2), earlier, x - x0, c, plotted)
  }

  lemma WalkIsSafe(tokens: seq<string>, start: Cursor, earlier: seq<Point>, x0: int, y0: int, x2: int, y2: int,
                   x: int, y: int, d: int, c: Cursor, plotted: seq<Point>)
    requires x <= x2 && Walking(tokens, start, earlier, x0, y0, x2, y2, x, y, d, c, plotted)
    ensures Safe(tokens, c, Point(x, y))
  {
    ColumnStep(x0, y0, x2, y2, x, y, d);
    AlongStep(tokens, start, Points(x0, y0, x2, y2), earlier, x - x0, c, plotted, Point(x, y));
  }

  /** One column further: the callback has been called, and the error term updated. */
  lemma WalkStep(tokens: seq<string>, start: Cursor, earlier: seq<Point>, x0: int, y0: int, x2: int, y2: int,
                 x: int, y: int, d: int, c: Cursor, plotted: seq<Point>,
                 y': int, d': int, c': Cursor, plotted': seq<Point>)
    requires x <= x2 && Walking(tokens, start, earlier, x0, y0, x2, y2, x, y, d, c, plotted)
    requires Safe(tokens, c, Point(x, y)) && c' == Next(tokens, c, Point(x, y)) && plotted' == plotted + [Point(x, y)]
    requires var less := d - 2 * (y2 - y0);
             if less <= 0 then y' == y + 1 && d' == less + 2 * (x2 - x0) else y' == y && d' == less
    ensures Walking(tokens, start, earlier, x0, y0, x2, y2, x + 1, y', d', c', plotted')
  {
    ColumnStep(x0, y0, x2, y2, x, y, d);
    AlongStep(tokens, start, Points(x0, y0, x2, y2), earlier, x - x0, c, plotted, Point(x, y));
  }

  /** Bresenham's algorithm in the first octant. The callback runs once per column, in order, at the
      rounded height of the ideal line; the error term never leaves the range (0, 2 * width]. */
  method Bresenham(x0: int, y0: int, x2: int, y2: int, plot: TokenPlot)
    requires y0 <= y2 && y2 - y0 <= x2 - x0
    requires plot.Valid() && SafeRun(plot.tokens, plot.State(), Points(x0, y0, x2, y2))
    modifies plot
    ensures plot.plotted == old(plot.plotted) + Points(x0, y0, x2, y2)
    ensures plot.State() == Run(plot.tokens, old(plot.State()), Points(x0, y0, x2, y2))
  {
    var x, y := x0, y0;
    var d := x2 - x;
    var dx := 2 * d;
    var dy := 2 * (y2 - y);
    ghost var tokens, start, earlier := plot.tokens, plot.State(), plot.plotted;
    AlongStart(tokens, start, Points(x0, y0, x2, y2), earlier);
    while x <= x2
      invariant x <= x2 + 1
      invariant Walking(tokens, start, earlier, x0, y0, x2, y2, x, y, d, plot.State(), plot.plotted)
    {
      ghost var y', d', c, plotted := y, d, plot.State(), plot.plotted;
      WalkIsSafe(tokens, start, earlier, x0, y0, x2, y2, x, y, d, c, plotted);
      plot.Plot(x, y);
      x := x + 1;
      d := d - dy;
      if d <= 0 {
        y := y + 1;
        d := d + dx;
      }
      WalkStep(tokens, start, earlier, x0, y0, x2, y2, x - 1, y', d', c, plotted, y, d, plot.State(), plot.plotted);
    }
    AlongEnd(tokens, start, Points(x0, y0, x2, y2), earlier, plot.State(), plot.plotted);
  }

  // ---------------------------------------------------------------- The walk writes the pieces

  /** The callback's memory just before column `x`: it has written the pieces of the tokens that end
      before `x`, and it either waits for the end of the next token or has missed it for good. */
  ghost predicate Before(tokens: seq<string>, budget: nat, c: Cursor, x: int)
    requires budget <= Total(tokens)
  {
    && c.tokenIdx <= |tokens|
    && c.sb == Pieces(tokens, budget, c.tokenIdx)
    && (forall i :: 1 <= i < c.tokenIdx ==> tokens[i] != "")
    && (c.tokenIdx == |tokens| ==> Total(tokens) < x)
    && (c.tokenIdx < |tokens| ==> Waiting(tokens, budget, c, x) || Stuck(tokens, c, x))
  }

  ghost predicate Waiting(tokens: seq<string>, budget: nat, c: Cursor, x: int)
    requires c.tokenIdx < |tokens|
  {
    && x <= c.nextX == Upto(tokens, c.tokenIdx + 1)
    && c.prevY == Share(tokens, budget, c.tokenIdx)
    && (c.tokenIdx > 0 ==> Upto(tokens, c.tokenIdx) < x)
  }

  ghost predicate Stuck(tokens: seq<string>, c: Cursor, x: int)
    requires c.tokenIdx < |tokens|
  {
    c.tokenIdx > 0 && tokens[c.tokenIdx] == "" && c.nextX < x
  }

  lemma {:induction false} BeforeStep(tokens: seq<string>, budget: nat, c: Cursor, x: nat)
    requires 0 < Total(tokens) && budget <= Total(tokens) && x <= Total(tokens)
    requires Before(tokens, budget, c, x)
    ensures var p := Point(x, Rise(x, Total(tokens), budget));
            Safe(tokens, c, p) && Before(tokens, budget, Next(tokens, c, p), x + 1)
  {
    var k, n := c.tokenIdx, |tokens|;
    UptoEnd(tokens);
    UptoStep(tokens, k);
    if x == c.nextX {
      ShareStep(tokens, budget, k);
      if k == 0 { RiseEnds(Total(tokens), budget); }
      if k + 1 < n {
        UptoStep(tokens, k + 1);
        UptoMono(tokens, k + 2, n);
      }
    }
  }

  lemma {:induction false} WalkFrom(tokens: seq<string>, budget: nat, c: Cursor, x: nat)
    requires 0 < Total(tokens) && budget <= Total(tokens) && x <= Total(tokens) + 1
    requires Before(tokens, budget, c, x)
    ensures var ps := Points(0, 0, Total(tokens), budget)[x..];
            SafeRun(tokens, c, ps) && Before(tokens, budget, Run(tokens, c, ps), Total(tokens) + 1)
    decreases Total(tokens) + 1 - x
  {
    var ps := Points(0, 0, Total(tokens), budget);
    if x <= Total(tokens) {
      BeforeStep(tokens, budget, c, x);
      SteppedIsRise(x, Total(tokens), budget);
      assert ps[x..][0] == Point(x, Rise(x, Total(tokens), budget));
      assert ps[x..][1..] == ps[x + 1..];
      WalkFrom(tokens, budget, Next(tokens, c, ps[x]), x + 1);
    }
  }

  /** The whole walk is safe, and writes the pieces of the tokens it reaches. */
  lemma WalkWritesPieces(tokens: seq<string>, budget: nat)
    requires 0 < Total(tokens) && budget <= Total(tokens)
    ensures tokens != []
    ensures var start, ps := Cursor(0, |tokens[0]|, 0, ""), Points(0, 0, Total(tokens), budget);
            && SafeRun(tokens, start, ps)
            && Run(tokens, start, ps).sb == Pieces(tokens, budget, Reached(tokens, 1))
  {
    var start, ps := Cursor(0, |tokens[0]|, 0, ""), Points(0, 0, Total(tokens), budget);
    UptoStep(tokens, 0);
    RiseEnds(Total(tokens), budget);
    WalkFrom(tokens, budget, start, 0);
    assert ps[0..] == ps;
    var end := Run(tokens, start, ps);
    UptoEnd(tokens);
    if end.tokenIdx < |tokens| {
      UptoMono(tokens, end.tokenIdx + 1, |tokens|);
    }
    assert end.tokenIdx == Reached(tokens, 1);
  }

  // ---------------------------------------------------------------- joinWithMaxLength

  /** Go's integer division truncates toward zero. */
  function GoDiv(a: int, b: int): (q: int)
    requires b > 0
  {
    if a >= 0 then a / b else -(-a / b)
  }

  /** `s[:n]`, which panics out of range. */
  function SliceTo(s: string, n: int): Outcome<string>
  {
    if 0 <= n <= |s| then Ok(s[..n]) else Panic
  }

  lemma HashSizeBounds(maxLength: int)
    ensures var q := GoDiv(maxLength * HASH_SIZE_PERCENT, 100);
            if maxLength >= 0 then 0 <= q <= maxLength else maxLength < q <= 0
  {
  }

  predicate Fits(maxLength: int, tokens: seq<string>)
  {
    Total(tokens) + |tokens| - 1 <= maxLength
  }

  /** Bytes of the hash suffix; the separator before it is accounted for with the last token. */
  function SuffixSize(maxLength: int, noHash: bool): int
  {
    if noHash then -1 else
      var hashSize := GoDiv(maxLength * HASH_SIZE_PERCENT, 100);
      if HASH_SIZE > hashSize then hashSize else HASH_SIZE
  }

  /** Too many tokens: only the hash can be returned. */
  predicate HashOnly(maxLength: int, tokens: seq<string>, noHash: bool)
  {
    2 * |tokens| + SuffixSize(maxLength, noHash) > maxLength
  }

  /** Bytes that all truncated tokens must share. */
  function Budget(maxLength: int, tokens: seq<string>, noHash: bool): (b: nat)
    requires !Fits(maxLength, tokens) && !HashOnly(maxLength, tokens, noHash)
    ensures 0 <= b < Total(tokens)
  {
    maxLength - |tokens| - SuffixSize(maxLength, noHash)
  }

  /** The name in terms of the shares: what the walk is meant to produce. */
  function Bounded(maxLength: int, tokens: seq<string>, noHash: bool, fullhash: string): Outcome<string>
    requires |fullhash| == HASH_SIZE
  {
    if Fits(maxLength, tokens) then Ok(Join(tokens, NAME_SEP))
    else if maxLength < 0 then Panic
    else if HashOnly(maxLength, tokens, noHash) then
      Ok(if HASH_SIZE > maxLength then fullhash[..maxLength] else fullhash)
    else
      var budget, k := Budget(maxLength, tokens, noHash), Reached(tokens, 1);
      var pieces := Pieces(tokens, budget, k);
      PiecesLength(tokens, budget, k);
      if noHash then Ok(pieces[..|pieces| - 1])
      else Ok(pieces + fullhash[..SuffixSize(maxLength, noHash)])
  }

  /** The walk over the tokens, from the first column to the last. */
  method TruncateAll(tokens: seq<string>, sumTokensSize: nat, sumTruncatedTokensSize: nat) returns (sb: string)
    requires 0 < sumTokensSize == Total(tokens) && sumTruncatedTokensSize <= sumTokensSize
    ensures tokens != [] && sb == Pieces(tokens, sumTruncatedTokensSize, Reached(tokens, 1))
  {
    WalkWritesPieces(tokens, sumTruncatedTokensSize);
    var plot := new TokenPlot(tokens);
    Bresenham(0, 0, sumTokensSize, sumTruncatedTokensSize, plot);
    sb := plot.sb;
    assert sb == plot.State().sb;
  }

  /** The part of `joinWithMaxLength` that truncates all tokens in the same proportion. */
  method TruncateInProportion(
    maxLength: int, tokens: seq<string>, noHash: bool, fullhash: string, hash: string, hashSize: int)
    returns (name: string)
    requires |fullhash| == HASH_SIZE && hashSize == SuffixSize(maxLength, noHash)
    requires !noHash ==> 0 <= hashSize <= HASH_SIZE && hash == fullhash[..hashSize]
    requires !Fits(maxLength, tokens) && !HashOnly(maxLength, tokens, noHash)
    ensures Ok(name) == Bounded(maxLength, tokens, noHash, fullhash)
  {
    var sumTruncatedTokensSize := maxLength - |tokens| - hashSize;
    assert sumTruncatedTokensSize == Budget(maxLength, tokens, noHash);
    name := TruncateAll(tokens, Total(tokens), sumTruncatedTokensSize);
    PiecesLength(tokens, sumTruncatedTokensSize, Reached(tokens, 1));
    name := if noHash then name[..|name| - 1] else name + hash;
  }

  /** `noHash` is the package-level test switch. */
  method JoinWithMaxLength(maxLength: int, tokens: seq<string>, noHash: bool, digest: string -> Word64)
    returns (r: Outcome<string>)
    ensures r == Bounded(maxLength, tokens, noHash, HashOf(tokens, digest))
  {
    var sumTokensSize := Total(tokens);
    if sumTokensSize + |tokens| - 1 <= maxLength {
      return Ok(Join(tokens, NAME_SEP));
    }
    var fullhash := Hash(tokens, digest);
    HashSizeBounds(maxLength);
    var hash := fullhash;
    var hashSize := GoDiv(maxLength * HASH_SIZE_PERCENT, 100);
    if |hash| > hashSize {
      var cut := SliceTo(hash, hashSize);
      if cut.Panic? { return Panic; }
      hash := cut.value;
    } else {
      hashSize := |hash|;
    }
    if noHash {
      hashSize := -1;
    }
    assert hashSize == SuffixSize(maxLength, noHash);
    if |tokens| + |tokens| + hashSize > maxLength {
      if |fullhash| > maxLength {
        return SliceTo(fullhash, maxLength);
      }
      return Ok(fullhash);
    }
    var name := TruncateInProportion(maxLength, tokens, noHash, fullhash, hash, hashSize);
    return Ok(name);
  }

  // ---------------------------------------------------------------- What callers are promised

  /** What the unit tests and the fuzz test of the package demand of every output. */
  predicate OutputOk(maxLength: int, tokens: seq<string>, output: string)
  {
    var full := Join(tokens, NAME_SEP);
    if |full| <= maxLength then output == full else |output| == maxLength
  }

  /** No name ever exceeds the limit, and the function panics only on a negative limit. */
  lemma NameIsBounded(maxLength: int, tokens: seq<string>, noHash: bool, fullhash: string)
    requires |fullhash| == HASH_SIZE
    ensures var r := Bounded(maxLength, tokens, noHash, fullhash);
            && (r.Panic? <==> maxLength < 0 && !(tokens == [] && maxLength == -1))
            && (r.Ok? && maxLength >= 0 ==> |r.value| <= maxLength)
  {
    JoinLength(tokens);
    if maxLength >= 0 && !Fits(maxLength, tokens) && !HashOnly(maxLength, tokens, noHash) {
      TruncatedLength(maxLength, tokens, noHash, fullhash);
    }
  }

  /** A truncated name uses the whole budget exactly when no token after the first is empty. */
  lemma {:induction false} TruncatedLength(maxLength: nat, tokens: seq<string>, noHash: bool, fullhash: string)
    requires |fullhash| == HASH_SIZE
    requires !Fits(maxLength, tokens) && !HashOnly(maxLength, tokens, noHash)
    ensures var r := Bounded(maxLength, tokens, noHash, fullhash);
            && r.Ok? && |r.value| <= maxLength
            && (|r.value| == maxLength <==> forall i :: 1 <= i < |tokens| ==> tokens[i] != "")
  {
    var k, b := Reached(tokens, 1), Budget(maxLength, tokens, noHash);
    PiecesLength(tokens, b, k);
    UptoMono(tokens, k, |tokens|);
    UptoEnd(tokens);
    RiseMono(Upto(tokens, k), Total(tokens), Total(tokens), b);
    RiseEnds(Total(tokens), b);
    if k < |tokens| {
      assert tokens[k] == "";
    }
  }

  /** The bytes for the hash: a fifth of the limit, up to sixteen; the separator is saved when there is none. */
  function BytesForHash(maxLength: nat, noHash: bool): int
  {
    if noHash then -1 else if maxLength >= 80 then 16 else maxLength / 5
  }

  /** Which of the three kinds of name is returned, and the sizes that go with it. */
  lemma KindOfName(maxLength: nat, tokens: seq<string>, noHash: bool, fullhash: string)
    requires |fullhash| == 16
    ensures var full, r := Join(tokens, '-'), Bounded(maxLength, tokens, noHash, fullhash);
            var size := BytesForHash(maxLength, noHash);
            && (|full| <= maxLength ==> r == Ok(full))
            && (|full| > maxLength && 2 * |tokens| + size > maxLength ==>
                  r == Ok(if maxLength < 16 then fullhash[..maxLength] else fullhash))
            && (|full| > maxLength && 2 * |tokens| + size <= maxLength ==>
                  && !Fits(maxLength, tokens) && !HashOnly(maxLength, tokens, noHash)
                  && Budget(maxLength, tokens, noHash) == maxLength - |tokens| - size)
  {
    JoinLength(tokens);
  }

  lemma TruncatedName(maxLength: nat, tokens: seq<string>, noHash: bool, fullhash: string, budget: int)
    requires |fullhash| == 16 && |Join(tokens, '-')| > maxLength
    requires budget == maxLength - |tokens| - BytesForHash(maxLength, noHash) && |tokens| <= budget
    ensures tokens != [] && 0 <= budget < Total(tokens)
    ensures var pieces := Pieces(tokens, budget, Reached(tokens, 1));
            && |pieces| == Start(tokens, budget, Reached(tokens, 1)) > 0
            && Bounded(maxLength, tokens, noHash, fullhash) ==
                 Ok(if noHash then pieces[..|pieces| - 1] else pieces + fullhash[..BytesForHash(maxLength, noHash)])
  {
    KindOfName(maxLength, tokens, noHash, fullhash);
    PiecesLength(tokens, budget, Reached(tokens, 1));
  }

  /** It ends with a prefix of the hash, unless there is none. */
  lemma TruncatedNameEnds(maxLength: nat, tokens: seq<string>, noHash: bool, fullhash: string, budget: int)
    requires |fullhash| == 16 && |Join(tokens, '-')| > maxLength
    requires budget == maxLength - |tokens| - BytesForHash(maxLength, noHash) && |tokens| <= budget
    ensures tokens != [] && 0 <= budget < Total(tokens) && Bounded(maxLength, tokens, noHash, fullhash).Ok?
    ensures var name := Bounded(maxLength, tokens, noHash, fullhash).value;
            var end := Start(tokens, budget, Reached(tokens, 1));
            |name| == end + BytesForHash(maxLength, noHash) && (!noHash ==> name[end..] <= fullhash)
  {
    TruncatedName(maxLength, tokens, noHash, fullhash, budget);
  }

  /** What a truncated name says: of every token up to the first empty one after the head, a prefix that is as long as
      its share, in its place, and a separator behind it. */
  lemma TruncatedNameReads(
    maxLength: nat, tokens: seq<string>, noHash: bool, fullhash: string, budget: int, i: nat)
    requires |fullhash| == 16 && |Join(tokens, '-')| > maxLength
    requires budget == maxLength - |tokens| - BytesForHash(maxLength, noHash) && |tokens| <= budget
    requires tokens != [] && i < Reached(tokens, 1)
    ensures 0 <= budget < Total(tokens) && Bounded(maxLength, tokens, noHash, fullhash).Ok?
    ensures var name := Bounded(maxLength, tokens, noHash, fullhash).value;
            && Shows(name, tokens, budget, i)
            && (i + 1 < Reached(tokens, 1) || !noHash ==> Separated(name, tokens, budget, i))
  {
    TruncatedName(maxLength, tokens, noHash, fullhash, budget);
    var k := Reached(tokens, 1);
    var name, pieces := Bounded(maxLength, tokens, noHash, fullhash).value, Pieces(tokens, budget, k);
    PiecesShow(tokens, budget, k, i);
    if i + 1 < k { PiecesShow(tokens, budget, k, i + 1); }
    assert if noHash then name == pieces[..|pieces| - 1]
           else name == pieces + fullhash[..BytesForHash(maxLength, noHash)];
    ShowsToo(pieces, name, tokens, budget, i);
  }

  /** Resource names have a limit that no string reaches: they are never truncated. */
  lemma ResourceNamesAreWhole(tokens: seq<string>, noHash: bool, fullhash: string)
    requires |fullhash| == 16 && |Join(tokens, '-')| < 0x8000_0000_0000_0000
    ensures Bounded(MAX_INT, tokens, noHash, fullhash) == Ok(Join(tokens, '-'))
  {
    KindOfName(MAX_INT, tokens, noHash, fullhash);
  }

  /** A case of the unit test: five tokens cut to nineteen bytes. */
  lemma FiveTokens(fullhash: string)
    requires |fullhash| == 16 && "100" <= fullhash
    ensures Bounded(19, ["foo", "bar", "baz", "qux", "quux"], false, fullhash) == Ok("fo-ba-ba-qu-quu-100")
  {
    var tokens := ["foo", "bar", "baz", "qux", "quux"];
    FiveSizes(tokens);
    FivePieces(tokens);
    JoinLength(tokens);
    assert BytesForHash(19, false) == 3 && fullhash[..3] == "100";
    TruncatedName(19, tokens, false, fullhash, 11);
    assert "fo-ba-ba-qu-quu-" + "100" == "fo-ba-ba-qu-quu-100";
  }

  lemma FiveSizes(tokens: seq<string>)
    requires tokens == ["foo", "bar", "baz", "qux", "quux"]
    ensures Upto(tokens, 0) == 0 && Upto(tokens, 1) == 3 && Upto(tokens, 2) == 6 && Upto(tokens, 3) == 9
    ensures Upto(tokens, 4) == 12 && Upto(tokens, 5) == Total(tokens) == 16
    ensures Reached(tokens, 1) == 5
  {
    UptoEnd(tokens);
    UptoStep(tokens, 0);
    UptoStep(tokens, 1);
    UptoStep(tokens, 2);
    UptoStep(tokens, 3);
    UptoStep(tokens, 4);
    assert forall i :: 0 <= i < 5 ==> tokens[i] != "";
  }

  lemma FivePieces(tokens: seq<string>)
    requires tokens == ["foo", "bar", "baz", "qux", "quux"]
    requires Upto(tokens, 0) == 0 && Upto(tokens, 1) == 3 && Upto(tokens, 2) == 6 && Upto(tokens, 3) == 9
    requires Upto(tokens, 4) == 12 && Upto(tokens, 5) == Total(tokens) == 16
    ensures Pieces(tokens, 11, 5) == "fo-ba-ba-qu-quu-"
  {
    FiveShares(tokens);
    NextPiece(tokens, 11, 0, "", "fo");
    NextPiece(tokens, 11, 1, "fo-", "ba");
    NextPiece(tokens, 11, 2, "fo-ba-", "ba");
    NextPiece(tokens, 11, 3, "fo-ba-ba-", "qu");
    NextPiece(tokens, 11, 4, "fo-ba-ba-qu-", "quu");
  }

  lemma FiveShares(tokens: seq<string>)
    requires |tokens| == 5 && Total(tokens) == 16
    requires Upto(tokens, 0) == 0 && Upto(tokens, 1) == 3 && Upto(tokens, 2) == 6 && Upto(tokens, 3) == 9
    requires Upto(tokens, 4) == 12 && Upto(tokens, 5) == 16
    ensures Share(tokens, 11, 0) == 0 && Share(tokens, 11, 1) == 2 && Share(tokens, 11, 2) == 4
    ensures Share(tokens, 11, 3) == 6 && Share(tokens, 11, 4) == 8 && Share(tokens, 11, 5) == 11
  {
  }

  lemma NextPiece(tokens: seq<string>, budget: nat, k: nat, before: string, piece: string)
    requires k < |tokens| && budget <= Total(tokens) && Total(tokens) > 0
    requires Pieces(tokens, budget, k) == before && piece <= tokens[k]
    requires |piece| == Share(tokens, budget, k + 1) - Share(tokens, budget, k)
    ensures Pieces(tokens, budget, k + 1) == before + piece + "-"
  {
    PiecesStep(tokens, budget, k);
    assert tokens[k][..|piece|] == piece;
  }

  /** The fuzz test's demand holds exactly on these inputs; the others are the failing families. The fuzz test
      draws negative limits too, and there the function panics or returns more than nothing can be. */
  lemma OutputOkIff(maxLength: int, tokens: seq<string>, noHash: bool, fullhash: string)
    requires |fullhash| == HASH_SIZE
    ensures var r := Bounded(maxLength, tokens, noHash, fullhash);
            r.Ok? && OutputOk(maxLength, tokens, r.value) <==>
              && maxLength >= 0
              && (|| Fits(maxLength, tokens)
                  || (HashOnly(maxLength, tokens, noHash) && maxLength <= HASH_SIZE)
                  || (!HashOnly(maxLength, tokens, noHash) && forall i :: 1 <= i < |tokens| ==> tokens[i] != ""))
  {
    JoinLength(tokens);
    if maxLength >= 0 && !Fits(maxLength, tokens) && !HashOnly(maxLength, tokens, noHash) {
      TruncatedLength(maxLength, tokens, noHash, fullhash);
    }
  }

  /** Ten bytes, an empty token and ten bytes more, cut to fifteen: shorter than the fuzz test demands. */
  lemma EmptyTokenIsTooShort(fullhash: string)
    requires |fullhash| == HASH_SIZE
    ensures var tokens := ["0123456789", "", "0123456789"];
            var r := Bounded(15, tokens, false, fullhash);
            r.Ok? && !OutputOk(15, tokens, r.value)
  {
    var tokens := ["0123456789", "", "0123456789"];
    UptoEnd(tokens);
    UptoStep(tokens, 0);
    UptoStep(tokens, 1);
    UptoStep(tokens, 2);
    assert tokens[1] == "";
    OutputOkIff(15, tokens, false, fullhash);
    NameIsBounded(15, tokens, false, fullhash);
  }

  /** Eight tokens of three bytes cut to seventeen: only the sixteen digits of the hash are left. */
  lemma HashAloneIsTooShort(fullhash: string)
    requires |fullhash| == HASH_SIZE
    ensures var tokens := seq(8, _ => "abc");
            Bounded(17, tokens, false, fullhash) == Ok(fullhash) && !OutputOk(17, tokens, fullhash)
  {
    var tokens := seq(8, _ => "abc");
    TotalOfEqual(tokens, 3);
    OutputOkIff(17, tokens, false, fullhash);
  }

  lemma {:induction false} TotalOfEqual(tokens: seq<string>, n: nat)
    requires forall i :: 0 <= i < |tokens| ==> |tokens[i]| == n
    ensures Total(tokens) == |tokens| * n
  {
    if tokens != [] {
      TotalOfEqual(tokens[..|tokens| - 1], n);
    }
  }

  /** An empty token after the first hides everything behind it: names of token lists that agree up to
      there, and in count and total size, can then differ in the hash suffix only. */
  lemma {:induction false} EmptyTokenHidesTheRest(
    maxLength: nat, s: seq<string>, t: seq<string>, k: nat, noHash: bool, h: string)
    requires |h| == HASH_SIZE && |s| == |t| && Total(s) == Total(t)
    requires 1 <= k < |s| && s[..k + 1] == t[..k + 1] && s[k] == ""
    requires !Fits(maxLength, s)
    ensures Bounded(maxLength, s, noHash, h) == Bounded(maxLength, t, noHash, h)
  {
    assert forall i :: 0 <= i <= k ==> s[i] == s[..k + 1][i] == t[..k + 1][i] == t[i];
    SameReached(s, t, k, 1);
    if !HashOnly(maxLength, s, noHash) {
      SamePieces(s, t, Budget(maxLength, s, noHash), Reached(s, 1));
    }
  }

  lemma {:induction false} SameReached(s: seq<string>, t: seq<string>, k: nat, from: nat)
    requires |s| == |t| && 1 <= from <= k < |s| && s[k] == ""
    requires forall i :: 0 <= i <= k ==> s[i] == t[i]
    ensures Reached(s, from) == Reached(t, from) <= k
    decreases k - from
  {
    if s[from] != "" { SameReached(s, t, k, from + 1); }
  }

  lemma {:induction false} SamePieces(s: seq<string>, t: seq<string>, budget: nat, k: nat)
    requires k <= |s| == |t| && Total(s) == Total(t) && budget <= Total(s)
    requires forall i :: 0 <= i < k ==> s[i] == t[i]
    ensures Pieces(s, budget, k) == Pieces(t, budget, k)
  {
    if k > 0 {
      SamePieces(s, t, budget, k - 1);
      assert s[..k] == t[..k] && s[..k - 1] == t[..k - 1];
    }
  }
}
