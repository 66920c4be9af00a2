/** Byte texts: the structural part of UTF-8 that splitting relies on, flat
    concatenation, and decimal formatting. */
module Text {

  newtype byte = x: int | 0 <= x < 256

  type Text = seq<byte>

  datatype Option<+T> = None | Some(value: T)

  const USIZE_MAX: nat := 0xFFFF_FFFF_FFFF_FFFF

  /** `usize::saturating_add`. */
  function SatAdd(a: nat, b: nat): nat {
    if a + b <= USIZE_MAX then a + b else USIZE_MAX
  }

  function SatSub(a: nat, b: nat): nat {
    if b <= a then a - b else 0
  }

  function Min(a: int, b: int): int {
    if a <= b then a else b
  }

  function Max(a: int, b: int): int {
    if a <= b then b else a
  }

  /** A literal of the source as its bytes; every literal used is ASCII. */
  function Ascii(s: string): (t: Text)
    ensures |t| == |s|
  {
    seq(|s|, i requires 0 <= i < |s| => (s[i] as int % 128) as byte)
  }

  // ----- Character boundaries -----

  predicate IsContinuation(b: byte) {
    0x80 <= b < 0xC0
  }

  /** `str::is_char_boundary`. */
  predicate IsCharBoundary(t: Text, i: int) {
    i == 0 || i == |t| || (0 < i < |t| && !IsContinuation(t[i]))
  }

  /** What every Rust string satisfies: it starts with a lead byte, and no
      character has more than three continuation bytes. */
  predicate ValidText(t: Text) {
    && (|t| > 0 ==> !IsContinuation(t[0]))
    && forall i :: 0 <= i && i + 3 < |t| ==> ShortRun(t, i)
  }

  predicate ShortRun(t: Text, i: int)
    requires 0 <= i && i + 3 < |t|
  {
    !(IsContinuation(t[i]) && IsContinuation(t[i+1]) && IsContinuation(t[i+2]) && IsContinuation(t[i+3]))
  }

  lemma ValidConcat(a: Text, b: Text)
    requires ValidText(a) && ValidText(b)
    ensures ValidText(a + b)
  {
    var t := a + b;
    forall i | 0 <= i && i + 3 < |t| ensures ShortRun(t, i) {
      if i + 3 < |a| {
        assert ShortRun(a, i);
      } else if |a| <= i {
        assert ShortRun(b, i - |a|);
      } else {
        assert t[|a|] == b[0];
      }
    }
  }

  lemma ValidSlice(t: Text, lo: nat, hi: nat)
    requires ValidText(t) && lo <= hi <= |t|
    requires IsCharBoundary(t, lo)
    ensures ValidText(t[lo..hi])
  {
    var s := t[lo..hi];
    forall i | 0 <= i && i + 3 < |s| ensures ShortRun(s, i) {
      assert ShortRun(t, lo + i);
    }
  }

  /** Any four consecutive positions hold a boundary. */
  lemma BoundaryWithinFour(t: Text, at: nat)
    requires ValidText(t) && 3 <= at <= |t|
    ensures IsCharBoundary(t, at) || IsCharBoundary(t, at - 1)
         || IsCharBoundary(t, at - 2) || IsCharBoundary(t, at - 3)
  {
    if at < |t| {
      assert ShortRun(t, at - 3);
    }
  }

  // ----- Concatenation -----

  lemma Assoc<T>(a: seq<T>, b: seq<T>, c: seq<T>)
    ensures a + b + c == a + (b + c)
  {
  }

  function Concat(ts: seq<Text>): Text {
    if ts == [] then [] else ts[0] + Concat(ts[1..])
  }

  lemma {:induction false} ConcatAppend(a: seq<Text>, b: seq<Text>)
    ensures Concat(a + b) == Concat(a) + Concat(b)
  {
    if a == [] {
      assert a + b == b;
    } else {
      assert (a + b)[1..] == a[1..] + b;
      ConcatAppend(a[1..], b);
    }
  }

  lemma ConcatSnoc(ts: seq<Text>, t: Text)
    ensures Concat(ts + [t]) == Concat(ts) + t
  {
    hide Concat;
    ConcatOne(t);
    ConcatAppend(ts, [t]);
  }

  lemma ConcatOne(t: Text)
    ensures Concat([t]) == t
  {
    assert Concat([t]) == t + Concat([]);
  }

  function Flatten<T>(xss: seq<seq<T>>): seq<T> {
    if xss == [] then [] else Flatten(xss[..|xss|-1]) + xss[|xss|-1]
  }

  lemma FlattenSnoc<T>(xss: seq<seq<T>>, xs: seq<T>)
    ensures Flatten(xss + [xs]) == Flatten(xss) + xs
  {
    assert (xss + [xs])[..|xss|] == xss;
  }

  /** The concatenation of `f(xs[i], offset + i)`. */
  function RenderAll<T>(f: (T, nat) -> Text, xs: seq<T>, offset: nat): Text {
    if xs == [] then []
    else RenderAll(f, xs[..|xs|-1], offset) + f(xs[|xs|-1], offset + |xs| - 1)
  }

  /** Rendering distributes over a split of the items. */
  lemma {:induction false} RenderSplit<T>(f: (T, nat) -> Text, a: seq<T>, b: seq<T>, offset: nat)
    ensures RenderAll(f, a + b, offset) == RenderAll(f, a, offset) + RenderAll(f, b, offset + |a|)
  {
    if b == [] {
      assert a + b == a;
    } else {
      var c, d := a + b, b[..|b|-1];
      assert c[..|c|-1] == a + d;
      RenderSplit(f, a, d, offset);
    }
  }

  lemma RenderSnoc<T>(f: (T, nat) -> Text, xs: seq<T>, k: nat, offset: nat)
    requires k < |xs|
    ensures RenderAll(f, xs[..k+1], offset) == RenderAll(f, xs[..k], offset) + f(xs[k], offset + k)
  {
    assert xs[..k+1][..k] == xs[..k];
  }

  lemma RenderCons<T>(f: (T, nat) -> Text, xs: seq<T>, k: nat)
    requires k < |xs|
    ensures RenderAll(f, xs[k..], k) == f(xs[k], k) + RenderAll(f, xs[k+1..], k + 1)
  {
    assert xs[k..] == [xs[k]] + xs[k+1..];
    RenderSplit(f, [xs[k]], xs[k+1..], k);
    assert [xs[k]][..0] == [];
  }

  lemma RenderSuffix<T>(f: (T, nat) -> Text, xs: seq<T>, k: nat)
    requires k <= |xs|
    ensures RenderAll(f, xs, 0) == RenderAll(f, xs[..k], 0) + RenderAll(f, xs[k..], k)
  {
    hide RenderAll;
    assert xs == xs[..k] + xs[k..];
    RenderSplit(f, xs[..k], xs[k..], 0);
  }

  /** The concatenation of `f(xs[i])`. */
  function JoinAll<T>(f: T -> Text, xs: seq<T>): Text {
    if xs == [] then [] else JoinAll(f, xs[..|xs|-1]) + f(xs[|xs|-1])
  }

  lemma {:induction false} JoinSplit<T>(f: T -> Text, a: seq<T>, b: seq<T>)
    ensures JoinAll(f, a + b) == JoinAll(f, a) + JoinAll(f, b)
  {
    if b == [] {
      assert a + b == a;
    } else {
      assert (a + b)[..|a + b|-1] == a + b[..|b|-1];
      JoinSplit(f, a, b[..|b|-1]);
    }
  }

  lemma JoinSnoc<T>(f: T -> Text, xs: seq<T>, x: T)
    ensures JoinAll(f, xs + [x]) == JoinAll(f, xs) + f(x)
  {
    assert (xs + [x])[..|xs|] == xs;
  }

  // ----- Finding text in text -----

  predicate EndsIn(t: Text, end: Text) {
    |end| <= |t| && t[|t| - |end|..] == end
  }

  predicate PieceAt(t: Text, piece: Text, at: nat) {
    at + |piece| <= |t| && t[at..at + |piece|] == piece
  }

  lemma PieceShifted(a: Text, b: Text, piece: Text, at: nat)
    ensures PieceAt(a, piece, at) ==> PieceAt(a + b, piece, at)
    ensures PieceAt(b, piece, at) ==> PieceAt(a + b, piece, |a| + at)
  {
    if PieceAt(a, piece, at) {
      assert (a + b)[at..at + |piece|] == a[at..at + |piece|];
    }
    if PieceAt(b, piece, at) {
      assert (a + b)[|a| + at..|a| + at + |piece|] == b[at..at + |piece|];
    }
  }

  /** Piece `k` stands at `at[k]`; the pieces are in order and apart. */
  ghost predicate StandAt(t: Text, pieces: seq<Text>, at: seq<nat>) {
    && |at| == |pieces|
    && (forall k :: 0 <= k < |pieces| ==> PieceAt(t, pieces[k], at[k]))
    && forall j, k :: 0 <= j < k < |pieces| ==> at[j] + |pieces[j]| <= at[k]
  }

  ghost predicate Quotes(t: Text, pieces: seq<Text>) {
    exists at :: StandAt(t, pieces, at)
  }

  lemma QuotesTwo(a: Text, p: Text, b: Text, q: Text, c: Text)
    ensures Quotes(a + p + b + q + c, [p, q])
  {
    var t := a + p + b + q + c;
    var at: seq<nat> := [|a|, |a + p + b|];
    assert t[|a|..|a| + |p|] == p;
    assert t[|a + p + b|..|a + p + b| + |q|] == q;
    assert StandAt(t, [p, q], at);
  }

  lemma QuotesOne(a: Text, p: Text, b: Text)
    ensures Quotes(a + p + b, [p])
  {
    assert (a + p + b)[|a|..|a| + |p|] == p;
    assert StandAt(a + p + b, [p], [|a|]);
  }

  lemma QuotesNothing(t: Text)
    ensures Quotes(t, [])
  {
    assert StandAt(t, [], []);
  }

  lemma StandBoth(a: Text, ps: seq<Text>, at: seq<nat>, b: Text, qs: seq<Text>, bt: seq<nat>, both: seq<nat>)
    requires StandAt(a, ps, at) && StandAt(b, qs, bt) && |both| == |at| + |bt|
    requires forall k :: 0 <= k < |both| ==> both[k] == if k < |at| then at[k] else |a| + bt[k - |at|]
    ensures StandAt(a + b, ps + qs, both)
  {
    hide PieceAt;
    var pieces := ps + qs;
    forall k | 0 <= k < |pieces|
      ensures PieceAt(a + b, pieces[k], both[k])
    {
      if k < |ps| {
        PieceShifted(a, b, ps[k], at[k]);
      } else {
        PieceShifted(a, b, qs[k - |ps|], bt[k - |ps|]);
      }
    }
    forall j, k | 0 <= j < k < |pieces|
      ensures both[j] + |pieces[j]| <= both[k]
    {
      if j < |ps| <= k {
        PieceWithin(a, ps[j], at[j]);
      }
    }
  }

  lemma PieceWithin(t: Text, piece: Text, at: nat)
    requires PieceAt(t, piece, at)
    ensures at + |piece| <= |t|
  {
  }

  lemma QuotesAppend(a: Text, ps: seq<Text>, b: Text, qs: seq<Text>)
    requires Quotes(a, ps) && Quotes(b, qs)
    ensures Quotes(a + b, ps + qs)
  {
    hide StandAt;
    var at :| StandAt(a, ps, at);
    var bt :| StandAt(b, qs, bt);
    var both := seq(|at| + |bt|, k requires 0 <= k < |at| + |bt| => if k < |at| then at[k] else |a| + bt[k - |at|]);
    StandBoth(a, ps, at, b, qs, bt, both);
  }

  // ----- Decimal formatting -----

  function Decimal(n: nat): (t: Text)
    ensures |t| >= 1
    ensures forall i :: 0 <= i < |t| ==> 48 <= t[i] < 58
  {
    if n < 10 then [(48 + n) as byte] else Decimal(n / 10) + [(48 + n % 10) as byte]
  }

  function DecimalValue(t: Text): int {
    if t == [] then 0 else 10 * DecimalValue(t[..|t|-1]) + (t[|t|-1] as int - 48)
  }

  /** Reading back a formatted number gives the number, so formatting never
      confuses two numbers. */
  lemma {:induction false} DecimalRoundTrip(n: nat)
    ensures DecimalValue(Decimal(n)) == n
  {
    if n >= 10 {
      DecimalRoundTrip(n / 10);
      assert Decimal(n)[..|Decimal(n)|-1] == Decimal(n / 10);
    } else {
      assert Decimal(n)[..0] == [];
    }
  }

  function Pow10(k: nat): (p: nat)
    ensures p >= 1
  {
    if k == 0 then 1 else 10 * Pow10(k - 1)
  }

  lemma {:induction false} DecimalLength(n: nat, k: nat)
    requires k >= 1 && n < Pow10(k)
    ensures |Decimal(n)| <= k
  {
    if n >= 10 {
      assert Pow10(1) == 10 * Pow10(0);
      DecimalLength(n / 10, k - 1);
    }
  }

  /** Any 64-bit number has at most twenty digits. */
  lemma DecimalOf64Bits(n: nat)
    requires n <= USIZE_MAX
    ensures |Decimal(n)| <= 20
  {
    assert Pow10(5) == 100_000;
    Pow10Add(5, 5);
    Pow10Add(10, 10);
    DecimalLength(n, 20);
  }

  lemma {:induction false} Pow10Add(a: nat, b: nat)
    ensures Pow10(a + b) == Pow10(a) * Pow10(b)
  {
    if a > 0 {
      Pow10Add(a - 1, b);
    }
  }

  /** `{n:0width}`: zero-padded to at least `width` digits. */
  function Padded(n: nat, width: nat): (t: Text)
    ensures |t| >= 1
    ensures forall i :: 0 <= i < |t| ==> 48 <= t[i] < 58
  {
    Zeros(SatSub(width, |Decimal(n)|)) + Decimal(n)
  }

  function Zeros(k: nat): Text {
    seq(k, _ => 48 as byte)
  }

  lemma {:induction false} ZerosKeepValue(k: nat, t: Text)
    ensures DecimalValue(Zeros(k) + t) == DecimalValue(t)
    decreases k + |t|
  {
    var s := Zeros(k) + t;
    if t != [] {
      assert s[..|s|-1] == Zeros(k) + t[..|t|-1];
      ZerosKeepValue(k, t[..|t|-1]);
    } else if k > 0 {
      assert s[..|s|-1] == Zeros(k - 1) + t;
      ZerosKeepValue(k - 1, t);
    }
  }

  lemma PaddedInjective(a: nat, b: nat, width: nat)
    requires Padded(a, width) == Padded(b, width)
    ensures a == b
  {
    ZerosKeepValue(SatSub(width, |Decimal(a)|), Decimal(a));
    ZerosKeepValue(SatSub(width, |Decimal(b)|), Decimal(b));
    DecimalRoundTrip(a);
    DecimalRoundTrip(b);
  }
}
