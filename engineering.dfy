/** Feature derivation for the next-close regression (src/features/engineering.py).

    The column semantics are pure functions over a column of cells; the builder
    AddBasicFeatures adds them to a table one statement at a time and in a loop
    over the moving-average windows, and is proved to produce Featurize, the
    specification of the whole derived table.  The lemmas at the end say where
    each derived column is defined (its warm-up) and which rows survive the
    final dropna. */
module Engineering {
  import opened Frames
  import opened Stats

  /** The constant added to the mean loss so that a run without losses does
      not divide by zero (1e-9). */
  const Eps: real := 0.000000001

  const Close: string := "close"
  const Return1: string := "return_1"
  const Volatility10: string := "volatility_10"
  const Target: string := "target_next_close"

  /** Rows in the rolling window of the volatility column. */
  const VolatilityWindow: nat := 10

  datatype FeatureError = MissingClose

  // ---------------------------------------------------------------------------
  // Column names built from a window size: f"ma_{w}" and f"rsi_{w}".

  function DigitChar(d: nat): char
    requires d < 10
  {
    ('0' as int + d) as char
  }

  /** Decimal rendering of a natural number, as Python's str(). */
  function NatToString(n: nat): (s: string)
    ensures |s| >= 1
  {
    if n < 10 then [DigitChar(n)] else NatToString(n / 10) + [DigitChar(n % 10)]
  }

  /** Different window sizes render differently, so their columns never clash. */
  lemma {:induction false} NatToStringInjective(a: nat, b: nat)
    requires NatToString(a) == NatToString(b)
    ensures a == b
  {
    var sa, sb := NatToString(a), NatToString(b);
    if a < 10 && b < 10 {
      assert sa[0] == DigitChar(a) && sb[0] == DigitChar(b);
    } else if 10 <= a && 10 <= b {
      var pa, pb := NatToString(a / 10), NatToString(b / 10);
      assert sa == pa + [DigitChar(a % 10)] && sb == pb + [DigitChar(b % 10)];
      assert |pa| == |pb|;
      assert pa == sa[..|pa|] && pb == sb[..|pb|];
      assert sa[|pa|] == DigitChar(a % 10) && sb[|pb|] == DigitChar(b % 10);
      NatToStringInjective(a / 10, b / 10);
    }
    // One of a, b below 10 and the other not: the renderings differ in length.
  }

  /** f"ma_{w}": the prefix, then the window size in decimal. */
  function MaName(w: nat): (name: string)
    ensures |name| > 3 && name[..3] == "ma_" && name[3..] == NatToString(w)
  {
    "ma_" + NatToString(w)
  }

  /** f"rsi_{w}": the prefix, then the window size in decimal. */
  function RsiName(w: nat): (name: string)
    ensures |name| > 4 && name[..4] == "rsi_" && name[4..] == NatToString(w)
  {
    "rsi_" + NatToString(w)
  }

  /** The default windows (5, 10, 20) name their columns ma_5 .. rsi_20. */
  lemma DefaultWindowNames()
    ensures MaName(5) == "ma_5" && MaName(10) == "ma_10" && MaName(20) == "ma_20"
    ensures RsiName(5) == "rsi_5" && RsiName(10) == "rsi_10" && RsiName(20) == "rsi_20"
  {
    assert NatToString(5) == "5";
    assert NatToString(1) == "1" && NatToString(2) == "2" && NatToString(0) == "0";
    assert NatToString(10) == "10";
    assert NatToString(20) == "20";
  }

  /** Names that the window loop may (over)write. */
  predicate IsWindowName(x: string)
  {
    (|x| >= 3 && x[..3] == "ma_") || (|x| >= 4 && x[..4] == "rsi_")
  }

  /** Names of all derived columns. */
  predicate IsFeatureName(x: string)
  {
    x == Return1 || IsWindowName(x) || x == Volatility10 || x == Target
  }

  /** x is none of the columns that the window loop over ws assigns. */
  predicate SparedByWindows(x: string, ws: seq<nat>)
  {
    forall k :: 0 <= k < |ws| ==> x != MaName(ws[k]) && x != RsiName(ws[k])
  }

  /** x is none of the columns that add_basic_features with windows ws assigns. */
  predicate Untouched(x: string, ws: seq<nat>)
  {
    x != Return1 && x != Volatility10 && x != Target && SparedByWindows(x, ws)
  }

  /** The columns the window loop reads back are not window columns. */
  lemma PlainNames()
    ensures !IsWindowName(Close) && !IsWindowName(Return1)
  {
    assert Close[..3][0] == 'c' && Close[..4][0] == 'c';
    assert Return1[..3][0] == 'r' && Return1[..4][1] == 'e';
  }

  /** Window columns are window names; the two names of one window differ,
      and two different windows never share a name. */
  lemma WindowNames(v: nat, w: nat)
    ensures IsWindowName(MaName(v)) && IsWindowName(RsiName(v))
    ensures MaName(v) != RsiName(w)
    ensures v != w ==> MaName(v) != MaName(w) && RsiName(v) != RsiName(w)
  {
    assert MaName(v)[..3] == "ma_" && RsiName(v)[..4] == "rsi_";
    assert MaName(v)[0] == 'm' && RsiName(w)[0] == 'r';
    if MaName(v) == MaName(w) {
      assert NatToString(v) == MaName(v)[3..] && NatToString(w) == MaName(w)[3..];
      NatToStringInjective(v, w);
    }
    if RsiName(v) == RsiName(w) {
      assert NatToString(v) == RsiName(v)[4..] && NatToString(w) == RsiName(w)[4..];
      NatToStringInjective(v, w);
    }
  }

  // ---------------------------------------------------------------------------
  // Arithmetic on windows of values.

  /** Sample variance (pandas' default ddof = 1); never negative. */
  function SampleVariance(xs: seq<real>): (v: real)
    requires |xs| >= 2
    ensures v >= 0.0
  {
    SumSquaredDeviationNonnegative(xs, Mean(xs));
    SumSquaredDeviation(xs, Mean(xs)) / (|xs| - 1) as real
  }

  // ---------------------------------------------------------------------------
  // Column semantics.

  /** Every cell of the column is defined. */
  predicate Complete(c: seq<Cell>)
  {
    forall k :: 0 <= k < |c| ==> c[k].Some?
  }

  /** The numbers of a complete column. */
  function Values(c: seq<Cell>): (vs: seq<real>)
    requires Complete(c)
    ensures |vs| == |c| && forall k :: 0 <= k < |c| ==> c[k] == Some(vs[k])
  {
    seq(|c|, k requires 0 <= k < |c| => c[k].value)
  }

  /** No defined close is zero (a zero close would make pct_change infinite). */
  predicate NonzeroCells(c: seq<Cell>)
  {
    forall k :: 0 <= k < |c| && c[k].Some? ==> c[k].value != 0.0
  }

  /** The trailing window of `w` rows ending at row `i`, with pandas' default
      min_periods = w: it exists only when all `w` rows are there and defined. */
  function Window(xs: seq<Cell>, w: nat, i: nat): (r: Option<seq<real>>)
    requires w >= 1 && i < |xs|
    ensures r.Some? <==> w <= i + 1 && forall k :: i + 1 - w <= k <= i ==> xs[k].Some?
    ensures r.Some? ==> |r.value| == w && forall k :: 0 <= k < w ==> xs[i + 1 - w + k] == Some(r.value[k])
  {
    if i + 1 < w then None
    else if forall k :: i + 1 - w <= k <= i ==> xs[k].Some? then
      Some(seq(w, k requires 0 <= k < w => xs[i + 1 - w + k].value))
    else None
  }

  /** Applying the relative change to the previous close gives the close back. */
  lemma GrowthRecovers(c: seq<Cell>)
    requires NonzeroCells(c)
    ensures forall i :: 1 <= i < |c| && c[i].Some? && c[i - 1].Some? ==>
      c[i].value == c[i - 1].value * (1.0 + (c[i].value / c[i - 1].value - 1.0))
  {
    forall i | 1 <= i < |c| && c[i].Some? && c[i - 1].Some?
      ensures c[i].value == c[i - 1].value * (1.0 + (c[i].value / c[i - 1].value - 1.0))
    {
      var a, b := c[i].value, c[i - 1].value;
      assert 1.0 + (a / b - 1.0) == a / b;
      assert b * (a / b) == a;
    }
  }

  /** `series.pct_change()`: the one-step relative change, defined where a
      close and its predecessor are; the close is the previous close grown by it. */
  function PctChange(c: seq<Cell>): (r: seq<Cell>)
    requires NonzeroCells(c)
    ensures |r| == |c|
    ensures forall i :: 0 <= i < |c| ==> (r[i].Some? <==> 1 <= i && c[i].Some? && c[i - 1].Some?)
    ensures forall i :: 1 <= i < |c| && c[i].Some? && c[i - 1].Some? && r[i].Some? ==>
      c[i].value == c[i - 1].value * (1.0 + r[i].value)
  {
    GrowthRecovers(c);
    seq(|c|, i requires 0 <= i < |c| =>
      if 1 <= i && c[i].Some? && c[i - 1].Some? then Some(c[i].value / c[i - 1].value - 1.0) else None)
  }

  /** `series.diff()`: the one-step difference, defined where a value and its
      predecessor are; the value is the previous value plus it. */
  function Diff(c: seq<Cell>): (r: seq<Cell>)
    ensures |r| == |c|
    ensures forall i :: 0 <= i < |c| ==> (r[i].Some? <==> 1 <= i && c[i].Some? && c[i - 1].Some?)
    ensures forall i :: 1 <= i < |c| && c[i].Some? && c[i - 1].Some? && r[i].Some? ==>
      c[i].value == c[i - 1].value + r[i].value
  {
    seq(|c|, i requires 0 <= i < |c| =>
      if 1 <= i && c[i].Some? && c[i - 1].Some? then Some(c[i].value - c[i - 1].value) else None)
  }

  /** `delta.clip(lower=0)`: the gains; missing stays missing, and a defined
      cell becomes the larger of the difference and 0. */
  function Gains(d: seq<Cell>): (r: seq<Cell>)
    ensures |r| == |d|
    ensures forall k :: 0 <= k < |d| ==> (r[k].Some? <==> d[k].Some?)
    ensures forall k :: 0 <= k < |d| && r[k].Some? ==> r[k].value >= 0.0
    ensures forall k :: 0 <= k < |d| && d[k].Some? && r[k].Some? ==>
      r[k].value >= d[k].value && (r[k].value == 0.0 || r[k].value == d[k].value)
  {
    seq(|d|, k requires 0 <= k < |d| =>
      match d[k]
      case None => None
      case Some(x) => Some(if x > 0.0 then x else 0.0))
  }

  /** `-delta.clip(upper=0)`: the losses as positive numbers; missing stays
      missing, and a defined cell becomes the larger of the negated difference and 0. */
  function Losses(d: seq<Cell>): (r: seq<Cell>)
    ensures |r| == |d|
    ensures forall k :: 0 <= k < |d| ==> (r[k].Some? <==> d[k].Some?)
    ensures forall k :: 0 <= k < |d| && r[k].Some? ==> r[k].value >= 0.0
    ensures forall k :: 0 <= k < |d| && d[k].Some? && r[k].Some? ==>
      r[k].value >= -d[k].value && (r[k].value == 0.0 || r[k].value == -d[k].value)
  {
    seq(|d|, k requires 0 <= k < |d| =>
      match d[k]
      case None => None
      case Some(x) => Some(if x < 0.0 then -x else 0.0))
  }

  /** Gains and losses split each defined difference into its up and down
      parts: the gain minus the loss is the difference, and one of them is 0. */
  lemma GainsLossesSplit(d: seq<Cell>, k: nat)
    requires k < |d| && d[k].Some?
    ensures Gains(d)[k].Some? && Losses(d)[k].Some?
    ensures Gains(d)[k].value - Losses(d)[k].value == d[k].value
    ensures Gains(d)[k].value == 0.0 || Losses(d)[k].value == 0.0
  {
  }

  /** `series.rolling(w).mean()`: defined where the last `w` cells are, and
      then `w` times it is their total. */
  function RollingMean(xs: seq<Cell>, w: nat): (r: seq<Cell>)
    requires w >= 1
    ensures |r| == |xs|
    ensures forall i :: 0 <= i < |xs| ==>
      (r[i].Some? <==> w <= i + 1 && forall k :: i + 1 - w <= k <= i ==> xs[k].Some?)
    ensures forall i :: 0 <= i < |xs| && r[i].Some? ==> r[i].value * w as real == Sum(Window(xs, w, i).value)
  {
    seq(|xs|, i requires 0 <= i < |xs| =>
      match Window(xs, w, i)
      case None => None
      case Some(v) => Some(Mean(v)))
  }

  /** `series.rolling(w).var()`, sample variance over complete windows; never
      negative.  The volatility column of the source holds its square root. */
  function RollingVariance(xs: seq<Cell>, w: nat): (r: seq<Cell>)
    requires w >= 2
    ensures |r| == |xs|
    ensures forall i :: 0 <= i < |xs| && r[i].Some? ==> r[i].value >= 0.0
  {
    seq(|xs|, i requires 0 <= i < |xs| =>
      match Window(xs, w, i)
      case None => None
      case Some(v) => Some(SampleVariance(v)))
  }

  /** A rolling mean of a column without negative values has no negative value. */
  lemma RollingMeanNonnegative(xs: seq<Cell>, w: nat, i: nat)
    requires w >= 1 && i < |xs|
    requires forall k :: 0 <= k < |xs| && xs[k].Some? ==> xs[k].value >= 0.0
    ensures RollingMean(xs, w)[i].Some? ==> RollingMean(xs, w)[i].value >= 0.0
  {
    var win := Window(xs, w, i);
    if win.Some? {
      forall k | 0 <= k < w
        ensures win.value[k] >= 0.0
      {
        assert xs[i + 1 - w + k] == Some(win.value[k]);
      }
      MeanNonnegative(win.value);
    }
  }

  lemma QuotientNonnegative(a: real, b: real)
    requires a >= 0.0 && b > 0.0
    ensures a / b >= 0.0
  {
  }

  lemma ReciprocalBounds(d: real)
    requires d >= 1.0
    ensures 0.0 < 100.0 / d <= 100.0
  {
    assert 100.0 / d * d == 100.0;
  }

  /** `100 - 100 / (1 + up / (down + 1e-9))` lies in [0, 100) whenever the mean
      gain and the mean loss are non-negative. */
  function RsiFormula(up: real, down: real): (r: real)
    requires up >= 0.0 && down >= 0.0
    ensures 0.0 <= r < 100.0
  {
    var rs := up / (down + Eps);
    QuotientNonnegative(up, down + Eps);
    ReciprocalBounds(1.0 + rs);
    100.0 - 100.0 / (1.0 + rs)
  }

  /** The oscillator at row `i`: simple trailing means of gains and losses,
      undefined where either mean is. */
  function RsiAt(c: seq<Cell>, w: nat, i: nat): (r: Cell)
    requires w >= 1 && i < |c|
    ensures r.Some? ==> 0.0 <= r.value < 100.0
  {
    var d := Diff(c);
    var up := RollingMean(Gains(d), w)[i];
    var down := RollingMean(Losses(d), w)[i];
    if up.Some? && down.Some? then
      RollingMeanNonnegative(Gains(d), w, i);
      RollingMeanNonnegative(Losses(d), w, i);
      Some(RsiFormula(up.value, down.value))
    else None
  }

  /** `rsi(close, window=w)`; every defined value lies in [0, 100). */
  function Rsi(c: seq<Cell>, w: nat): (r: seq<Cell>)
    requires w >= 1
    ensures |r| == |c|
    ensures forall i :: 0 <= i < |c| && r[i].Some? ==> 0.0 <= r[i].value < 100.0
  {
    seq(|c|, i requires 0 <= i < |c| => RsiAt(c, w, i))
  }

  /** `series.shift(-1)`: every row sees the next row's value; the last row
      has none. */
  function Shift(c: seq<Cell>): (r: seq<Cell>)
    ensures |r| == |c|
    ensures |c| > 0 ==> r[..|c| - 1] == c[1..] && r[|c| - 1] == None
  {
    seq(|c|, i requires 0 <= i < |c| => if i + 1 < |c| then c[i + 1] else None)
  }

  // ---------------------------------------------------------------------------
  // Warm-up of each derived column over a complete close column.

  /** `return_1` is undefined at row 0 and is `close[i] / close[i-1] - 1` after. */
  lemma ReturnWarmUp(c: seq<Cell>, i: nat)
    requires Complete(c) && NonzeroCells(c) && i < |c|
    ensures PctChange(c)[i] == if 1 <= i then Some(Values(c)[i] / Values(c)[i - 1] - 1.0) else None
  {
  }

  /** `ma_w` is undefined on rows 0..w-2 and is the mean of the last `w` closes after. */
  lemma MovingAverageWarmUp(c: seq<Cell>, w: nat, i: nat)
    requires Complete(c) && w >= 1 && i < |c|
    ensures RollingMean(c, w)[i] == if w <= i + 1 then Some(Mean(Values(c)[i + 1 - w..i + 1])) else None
  {
    var win := Window(c, w, i);
    if w <= i + 1 {
      assert win.value == Values(c)[i + 1 - w..i + 1];
    }
  }

  /** `rsi_w` is undefined on rows 0..w-1: the difference is undefined at row 0,
      so the first full window of differences ends at row w. */
  lemma RsiWarmUp(c: seq<Cell>, w: nat, i: nat)
    requires Complete(c) && w >= 1 && i < |c|
    ensures Rsi(c, w)[i].Some? <==> w <= i
  {
    var d := Diff(c);
    assert forall k :: 0 <= k < |c| ==> (d[k].Some? <==> 1 <= k);
    var g, l := Gains(d), Losses(d);
    if w <= i {
      assert Window(g, w, i).Some? && Window(l, w, i).Some?;
    } else if w == i + 1 {
      assert !g[0].Some?;
      assert Window(g, w, i).None?;
    }
  }

  /** `volatility_10` is undefined on rows 0..9: ten returns are needed and
      the first return is at row 1. */
  lemma VolatilityWarmUp(c: seq<Cell>, i: nat)
    requires Complete(c) && NonzeroCells(c) && i < |c|
    ensures RollingVariance(PctChange(c), VolatilityWindow)[i].Some? <==> VolatilityWindow <= i
  {
    var r1 := PctChange(c);
    assert forall k :: 0 <= k < |c| ==> (r1[k].Some? <==> 1 <= k);
    if i < VolatilityWindow && VolatilityWindow <= i + 1 {
      assert !r1[0].Some?;
    }
  }

  /** `target_next_close` is the next close, undefined only on the last row. */
  lemma TargetWarmUp(c: seq<Cell>, i: nat)
    requires Complete(c) && i < |c|
    ensures Shift(c)[i].Some? <==> i + 1 < |c|
    ensures i + 1 < |c| ==> Shift(c)[i] == c[i + 1]
  {
  }

  // ---------------------------------------------------------------------------
  // The derived table.

  predicate PositiveWindows(ws: seq<nat>)
  {
    forall k :: 0 <= k < |ws| ==> ws[k] >= 1
  }

  /** What the model asks of add_basic_features' input: a table, window
      sizes of at least 1, and no zero close. */
  predicate FeatureInput(df: Frame, ws: seq<nat>)
  {
    Shaped(df) && PositiveWindows(ws) && (Close in df.names ==> NonzeroCells(Column(df, Close)))
  }

  /** One pass of the window loop: `ma_w`, then `rsi_w`. */
  function AddWindow(f: Frame, c: seq<Cell>, w: nat): (g: Frame)
    requires Shaped(f) && |c| == |f.rows| && w >= 1
    ensures Shaped(g) && |g.rows| == |f.rows| && f.names <= g.names
    ensures forall i :: 0 <= i < |g.rows| ==> g.rows[i].time == f.rows[i].time
  {
    SetColumn(SetColumn(f, MaName(w), RollingMean(c, w)), RsiName(w), Rsi(c, w))
  }

  /** The window loop run over `ws` in order. */
  function WithWindows(f: Frame, c: seq<Cell>, ws: seq<nat>): (g: Frame)
    requires Shaped(f) && |c| == |f.rows| && PositiveWindows(ws)
    ensures Shaped(g) && |g.rows| == |f.rows| && f.names <= g.names
    ensures forall i :: 0 <= i < |g.rows| ==> g.rows[i].time == f.rows[i].time
    decreases |ws|
  {
    if ws == [] then f else AddWindow(WithWindows(f, c, ws[..|ws| - 1]), c, ws[|ws| - 1])
  }

  /** Running the loop over one more window size is one more pass. */
  lemma WithWindowsStep(f: Frame, c: seq<Cell>, ws: seq<nat>, k: nat)
    requires Shaped(f) && |c| == |f.rows| && PositiveWindows(ws) && k < |ws|
    ensures WithWindows(f, c, ws[..k + 1]) == AddWindow(WithWindows(f, c, ws[..k]), c, ws[k])
  {
    assert ws[..k + 1][..k] == ws[..k];
  }

  /** The table add_basic_features builds before its final dropna. */
  function Featurize(df: Frame, ws: seq<nat>): (F: Frame)
    requires FeatureInput(df, ws) && Close in df.names
    ensures Shaped(F) && |F.rows| == |df.rows| && df.names <= F.names
    ensures forall i :: 0 <= i < |F.rows| ==> F.rows[i].time == df.rows[i].time
  {
    var c := Column(df, Close);
    var r1 := PctChange(c);
    var f1 := SetColumn(df, Return1, r1);
    var f2 := WithWindows(f1, c, ws);
    var f3 := SetColumn(f2, Volatility10, RollingVariance(r1, VolatilityWindow));
    SetColumn(f3, Target, Shift(c))
  }

  /** A name that is not a window name is spared by any window loop. */
  lemma PlainNameSpared(x: string, ws: seq<nat>)
    requires !IsWindowName(x)
    ensures SparedByWindows(x, ws)
  {
    forall k | 0 <= k < |ws|
      ensures x != MaName(ws[k]) && x != RsiName(ws[k])
    {
      WindowNames(ws[k], ws[k]);
    }
  }

  /** Every input name that is not derived-looking is untouched, whatever
      the windows. */
  lemma PlainNameUntouched(x: string, ws: seq<nat>)
    requires !IsFeatureName(x)
    ensures Untouched(x, ws)
  {
    PlainNameSpared(x, ws);
  }

  /** A derived-looking name of a window outside the list is untouched too:
      an input column `rsi_7` survives the default windows (5, 10, 20). */
  lemma ForeignWindowUntouched()
    ensures Untouched("rsi_7", [5, 10, 20])
  {
    DefaultWindowNames();
  }

  /** The window loop leaves every column it does not assign as it was; this
      includes names such as `rsi_7` that look derived but are not among ws. */
  lemma {:induction false} WithWindowsKeeps(f: Frame, c: seq<Cell>, ws: seq<nat>, x: string)
    requires Shaped(f) && |c| == |f.rows| && PositiveWindows(ws)
    requires x in f.names && SparedByWindows(x, ws)
    ensures x in WithWindows(f, c, ws).names
    ensures Column(WithWindows(f, c, ws), x) == Column(f, x)
    decreases |ws|
  {
    if ws != [] {
      var p, w := ws[..|ws| - 1], ws[|ws| - 1];
      assert SparedByWindows(x, p) by {
        forall k | 0 <= k < |p|
          ensures x != MaName(p[k]) && x != RsiName(p[k])
        {
          assert p[k] == ws[k];
        }
      }
      WithWindowsKeeps(f, c, p, x);
      var g := WithWindows(f, c, p);
      assert x != MaName(ws[|ws| - 1]) && x != RsiName(ws[|ws| - 1]);
      SetColumnReads(g, MaName(w), RollingMean(c, w), x);
      SetColumnReads(SetColumn(g, MaName(w), RollingMean(c, w)), RsiName(w), Rsi(c, w), x);
    }
  }

  /** The pass for window w writes w's two columns. */
  lemma AddWindowWrites(h: Frame, c: seq<Cell>, w: nat)
    requires Shaped(h) && |c| == |h.rows| && w >= 1
    ensures MaName(w) in AddWindow(h, c, w).names && RsiName(w) in AddWindow(h, c, w).names
    ensures Column(AddWindow(h, c, w), MaName(w)) == RollingMean(c, w)
    ensures Column(AddWindow(h, c, w), RsiName(w)) == Rsi(c, w)
  {
    var h1 := SetColumn(h, MaName(w), RollingMean(c, w));
    WindowNames(w, w);
    SetColumnReads(h, MaName(w), RollingMean(c, w), MaName(w));
    SetColumnReads(h1, RsiName(w), Rsi(c, w), MaName(w));
    SetColumnReads(h1, RsiName(w), Rsi(c, w), RsiName(w));
  }

  /** The pass for window v leaves the columns of any other window w alone. */
  lemma AddWindowSpares(h: Frame, c: seq<Cell>, v: nat, w: nat)
    requires Shaped(h) && |c| == |h.rows| && v >= 1 && v != w
    requires MaName(w) in h.names && RsiName(w) in h.names
    ensures MaName(w) in AddWindow(h, c, v).names && RsiName(w) in AddWindow(h, c, v).names
    ensures Column(AddWindow(h, c, v), MaName(w)) == Column(h, MaName(w))
    ensures Column(AddWindow(h, c, v), RsiName(w)) == Column(h, RsiName(w))
  {
    var h1 := SetColumn(h, MaName(v), RollingMean(c, v));
    WindowNames(v, w);
    WindowNames(w, v);
    SetColumnReads(h, MaName(v), RollingMean(c, v), MaName(w));
    SetColumnReads(h, MaName(v), RollingMean(c, v), RsiName(w));
    SetColumnReads(h1, RsiName(v), Rsi(c, v), MaName(w));
    SetColumnReads(h1, RsiName(v), Rsi(c, v), RsiName(w));
  }

  /** A window size other than the last one occurs among the earlier ones. */
  lemma InEarlierWindows(ws: seq<nat>, w: nat)
    requires w in ws && w != ws[|ws| - 1]
    ensures w in ws[..|ws| - 1]
  {
    assert ws == ws[..|ws| - 1] + [ws[|ws| - 1]];
  }

  /** After the window loop, each window's columns hold that window's mean and
      oscillator, even when a window size is repeated. */
  lemma {:induction false} WithWindowsColumns(f: Frame, c: seq<Cell>, ws: seq<nat>, w: nat)
    requires Shaped(f) && |c| == |f.rows| && PositiveWindows(ws) && w in ws
    ensures MaName(w) in WithWindows(f, c, ws).names && RsiName(w) in WithWindows(f, c, ws).names
    ensures Column(WithWindows(f, c, ws), MaName(w)) == RollingMean(c, w)
    ensures Column(WithWindows(f, c, ws), RsiName(w)) == Rsi(c, w)
    decreases |ws|
  {
    var p, v := ws[..|ws| - 1], ws[|ws| - 1];
    var h := WithWindows(f, c, p);
    assert WithWindows(f, c, ws) == AddWindow(h, c, v);
    if v == w {
      AddWindowWrites(h, c, w);
    } else {
      InEarlierWindows(ws, w);
      WithWindowsColumns(f, c, p, w);
      AddWindowSpares(h, c, v, w);
    }
  }

  /** One pass of the window loop leaves every column that is not a window
      column as it was, also between its two assignments. */
  lemma WindowPassKeeps(f: Frame, c: seq<Cell>, w: nat, x: string)
    requires Shaped(f) && |c| == |f.rows| && w >= 1 && x in f.names && !IsWindowName(x)
    ensures var h := SetColumn(f, MaName(w), RollingMean(c, w));
      x in h.names && Column(h, x) == Column(f, x)
      && x in AddWindow(f, c, w).names && Column(AddWindow(f, c, w), x) == Column(f, x)
  {
    WindowNames(w, w);
    var h := SetColumn(f, MaName(w), RollingMean(c, w));
    SetColumnReads(f, MaName(w), RollingMean(c, w), x);
    SetColumnReads(h, RsiName(w), Rsi(c, w), x);
  }

  /** The last two assignments (volatility, then target) leave every other
      column of the table as it was. */
  lemma TailKeeps(f: Frame, vol: seq<Cell>, target: seq<Cell>, x: string)
    requires Shaped(f) && |vol| == |f.rows| && |target| == |f.rows|
    requires x in f.names && x != Volatility10 && x != Target
    ensures var F := SetColumn(SetColumn(f, Volatility10, vol), Target, target);
      x in F.names && Column(F, x) == Column(f, x)
  {
    SetColumnReads(f, Volatility10, vol, x);
    SetColumnReads(SetColumn(f, Volatility10, vol), Target, target, x);
  }

  /** The input's own columns that add_basic_features does not assign keep
      their cells. */
  lemma FeatureKeepsInput(df: Frame, ws: seq<nat>, x: string)
    requires FeatureInput(df, ws) && Close in df.names
    requires x in df.names && Untouched(x, ws)
    ensures x in Featurize(df, ws).names && Column(Featurize(df, ws), x) == Column(df, x)
  {
    var c := Column(df, Close);
    var r1 := PctChange(c);
    var f1 := SetColumn(df, Return1, r1);
    SetColumnReads(df, Return1, r1, x);
    WithWindowsKeeps(f1, c, ws, x);
    TailKeeps(WithWindows(f1, c, ws), RollingVariance(r1, VolatilityWindow), Shift(c), x);
  }

  /** `return_1` holds the percentage change of `close`. */
  lemma FeatureReturn(df: Frame, ws: seq<nat>)
    requires FeatureInput(df, ws) && Close in df.names
    ensures Return1 in Featurize(df, ws).names
    ensures Column(Featurize(df, ws), Return1) == PctChange(Column(df, Close))
  {
    var c := Column(df, Close);
    var r1 := PctChange(c);
    var f1 := SetColumn(df, Return1, r1);
    SetColumnReads(df, Return1, r1, Return1);
    PlainNames();
    PlainNameSpared(Return1, ws);
    WithWindowsKeeps(f1, c, ws, Return1);
    TailKeeps(WithWindows(f1, c, ws), RollingVariance(r1, VolatilityWindow), Shift(c), Return1);
  }

  /** `ma_w` and `rsi_w` hold the window's moving average and oscillator of `close`. */
  lemma FeatureWindow(df: Frame, ws: seq<nat>, w: nat)
    requires FeatureInput(df, ws) && Close in df.names && w in ws
    ensures MaName(w) in Featurize(df, ws).names
    ensures Column(Featurize(df, ws), MaName(w)) == RollingMean(Column(df, Close), w)
    ensures RsiName(w) in Featurize(df, ws).names
    ensures Column(Featurize(df, ws), RsiName(w)) == Rsi(Column(df, Close), w)
  {
    var c := Column(df, Close);
    var r1 := PctChange(c);
    var f1 := SetColumn(df, Return1, r1);
    WithWindowsColumns(f1, c, ws, w);
    assert MaName(w)[0] == 'm' && RsiName(w)[0] == 'r';
    var f2 := WithWindows(f1, c, ws);
    TailKeeps(f2, RollingVariance(r1, VolatilityWindow), Shift(c), MaName(w));
    TailKeeps(f2, RollingVariance(r1, VolatilityWindow), Shift(c), RsiName(w));
  }

  /** `volatility_10` holds the rolling variance of `return_1`, and
      `target_next_close` the shifted `close`. */
  lemma FeatureTail(df: Frame, ws: seq<nat>)
    requires FeatureInput(df, ws) && Close in df.names
    ensures Volatility10 in Featurize(df, ws).names
    ensures Column(Featurize(df, ws), Volatility10) == RollingVariance(PctChange(Column(df, Close)), VolatilityWindow)
    ensures Target in Featurize(df, ws).names
    ensures Column(Featurize(df, ws), Target) == Shift(Column(df, Close))
  {
    var c := Column(df, Close);
    var r1 := PctChange(c);
    var f2 := WithWindows(SetColumn(df, Return1, r1), c, ws);
    var vol := RollingVariance(r1, VolatilityWindow);
    var f3 := SetColumn(f2, Volatility10, vol);
    SetColumnReads(f2, Volatility10, vol, Volatility10);
    SetColumnReads(f3, Target, Shift(c), Volatility10);
    SetColumnReads(f3, Target, Shift(c), Target);
  }

  /** The columns of the derived table: the input's own columns that are not
      overwritten, and one column per derived quantity with its definition. */
  lemma FeatureColumns(df: Frame, ws: seq<nat>)
    requires FeatureInput(df, ws) && Close in df.names
    ensures var F := Featurize(df, ws); var c := Column(df, Close);
      && (forall x :: x in df.names && Untouched(x, ws) ==> x in F.names && Column(F, x) == Column(df, x))
      && Return1 in F.names && Column(F, Return1) == PctChange(c)
      && (forall w :: w in ws ==> MaName(w) in F.names && Column(F, MaName(w)) == RollingMean(c, w))
      && (forall w :: w in ws ==> RsiName(w) in F.names && Column(F, RsiName(w)) == Rsi(c, w))
      && Volatility10 in F.names && Column(F, Volatility10) == RollingVariance(PctChange(c), VolatilityWindow)
      && Target in F.names && Column(F, Target) == Shift(c)
  {
    forall x | x in df.names && Untouched(x, ws)
      ensures x in Featurize(df, ws).names && Column(Featurize(df, ws), x) == Column(df, x)
    {
      FeatureKeepsInput(df, ws, x);
    }
    FeatureReturn(df, ws);
    forall w | w in ws
      ensures MaName(w) in Featurize(df, ws).names
      ensures Column(Featurize(df, ws), MaName(w)) == RollingMean(Column(df, Close), w)
      ensures RsiName(w) in Featurize(df, ws).names
      ensures Column(Featurize(df, ws), RsiName(w)) == Rsi(Column(df, Close), w)
    {
      FeatureWindow(df, ws, w);
    }
    FeatureTail(df, ws);
  }

  /** One pass of the window loop on the table built so far: it reads back the
      input's close, extends the table to the next prefix of the windows, and
      leaves `close` and `return_1` as they were. */
  lemma WindowPass(f1: Frame, c: seq<Cell>, ws: seq<nat>, k: nat, g: Frame)
    requires Shaped(f1) && |c| == |f1.rows| && PositiveWindows(ws) && k < |ws|
    requires g == WithWindows(f1, c, ws[..k])
    requires Close in g.names && Column(g, Close) == c && Return1 in g.names
    ensures var h := SetColumn(g, MaName(ws[k]), RollingMean(Column(g, Close), ws[k]));
      && Close in h.names && Column(h, Close) == c
      && var g' := SetColumn(h, RsiName(ws[k]), Rsi(Column(h, Close), ws[k]));
      && g' == WithWindows(f1, c, ws[..k + 1])
      && Close in g'.names && Column(g', Close) == c
      && Return1 in g'.names && Column(g', Return1) == Column(g, Return1)
  {
    PlainNames();
    WindowPassKeeps(g, c, ws[k], Close);
    WindowPassKeeps(g, c, ws[k], Return1);
    WithWindowsStep(f1, c, ws, k);
  }

  /** The two assignments after the loop, reading `return_1` and `close` back
      from the table, complete the derived table. */
  lemma FinishFeatures(df: Frame, ws: seq<nat>, g: Frame)
    requires FeatureInput(df, ws) && Close in df.names
    requires g == WithWindows(SetColumn(df, Return1, PctChange(Column(df, Close))), Column(df, Close), ws)
    requires Close in g.names && Column(g, Close) == Column(df, Close)
    requires Return1 in g.names && Column(g, Return1) == PctChange(Column(df, Close))
    ensures var g3 := SetColumn(g, Volatility10, RollingVariance(Column(g, Return1), VolatilityWindow));
      && Close in g3.names
      && SetColumn(g3, Target, Shift(Column(g3, Close))) == Featurize(df, ws)
  {
    var c := Column(df, Close);
    SetColumnReads(g, Volatility10, RollingVariance(PctChange(c), VolatilityWindow), Close);
  }

  /** Builds the derived table the way add_basic_features does: on a copy of
      the input (frames are values), one column per statement, a pass of the
      window loop per window size, reading `close` and `return_1` back from the
      table each time; then drops every row with a missing cell. */
  method AddBasicFeatures(df: Frame, windows: seq<nat>) returns (r: Result<Frame, FeatureError>)
    requires FeatureInput(df, windows)
    ensures Close !in df.names ==> r == Err(MissingClose)
    ensures Close in df.names ==> r == Ok(DropNa(Featurize(df, windows)))
  {
    var g := df;
    if Close !in g.names {
      return Err(MissingClose);
    }
    ghost var c := Column(df, Close);
    g := SetColumn(g, Return1, PctChange(Column(g, Close)));
    SetColumnReads(df, Return1, PctChange(c), Close);
    SetColumnReads(df, Return1, PctChange(c), Return1);
    ghost var f1 := g;
    for k := 0 to |windows|
      invariant g == WithWindows(f1, c, windows[..k])
      invariant Close in g.names && Column(g, Close) == c
      invariant Return1 in g.names && Column(g, Return1) == PctChange(c)
    {
      WindowPass(f1, c, windows, k, g);
      var w := windows[k];
      g := SetColumn(g, MaName(w), RollingMean(Column(g, Close), w));
      g := SetColumn(g, RsiName(w), Rsi(Column(g, Close), w));
    }
    assert windows[..|windows|] == windows;
    FinishFeatures(df, windows, g);
    g := SetColumn(g, Volatility10, RollingVariance(Column(g, Return1), VolatilityWindow));
    g := SetColumn(g, Target, Shift(Column(g, Close)));
    r := Ok(DropNa(g));
  }

  // ---------------------------------------------------------------------------
  // Which rows survive the final dropna.

  /** The largest window size, 0 for none. */
  function MaxOf(ws: seq<nat>): (m: nat)
    ensures forall k :: 0 <= k < |ws| ==> ws[k] <= m
    ensures ws != [] ==> m in ws
    ensures ws == [] ==> m == 0
  {
    if ws == [] then 0
    else
      var t := MaxOf(ws[1..]);
      if ws[0] >= t then ws[0] else t
  }

  /** The first row on which every derived column is defined. */
  function WarmUp(ws: seq<nat>): nat
  {
    if MaxOf(ws) >= VolatilityWindow then MaxOf(ws) else VolatilityWindow
  }

  /** Over a complete table the window loop completes every row at or beyond
      all of its window sizes. */
  lemma {:induction false} WithWindowsDefined(f: Frame, c: seq<Cell>, ws: seq<nat>, i: nat)
    requires Shaped(f) && |c| == |f.rows| && PositiveWindows(ws) && Complete(c)
    requires i < |f.rows| && AllDefined(f.rows[i])
    requires forall k :: 0 <= k < |ws| ==> ws[k] <= i
    ensures AllDefined(WithWindows(f, c, ws).rows[i])
    decreases |ws|
  {
    if ws != [] {
      var p, w := ws[..|ws| - 1], ws[|ws| - 1];
      WithWindowsDefined(f, c, p, i);
      var g := WithWindows(f, c, p);
      MovingAverageWarmUp(c, w, i);
      RsiWarmUp(c, w, i);
      SetColumnKeepsDefined(g, MaName(w), RollingMean(c, w), i);
      SetColumnKeepsDefined(SetColumn(g, MaName(w), RollingMean(c, w)), RsiName(w), Rsi(c, w), i);
    }
  }

  /** An input add_basic_features accepts, with a close column and no
      missing cell. */
  predicate CompleteInput(df: Frame, ws: seq<nat>)
  {
    FeatureInput(df, ws) && Close in df.names && GapFree(df)
  }

  /** Row i of the derived table of a complete input has no missing cell. */
  predicate CompleteDerivedRow(df: Frame, ws: seq<nat>, i: nat)
  {
    CompleteInput(df, ws) && i < |df.rows| && AllDefined(Featurize(df, ws).rows[i])
  }

  /** A complete input has a complete close column. */
  lemma CloseComplete(df: Frame)
    requires Shaped(df) && Close in df.names && GapFree(df)
    ensures Complete(Column(df, Close))
  {
    forall k | 0 <= k < |df.rows|
      ensures Column(df, Close)[k].Some?
    {
      DefinedRowCell(df, Close, k);
    }
  }

  /** A complete derived row is not the last row: its target is defined. */
  lemma CompleteRowHasTarget(df: Frame, ws: seq<nat>, i: nat)
    requires CompleteDerivedRow(df, ws, i)
    ensures i + 1 < |df.rows|
  {
    CloseComplete(df);
    FeatureTail(df, ws);
    DefinedRowCell(Featurize(df, ws), Target, i);
    TargetWarmUp(Column(df, Close), i);
  }

  /** A complete derived row is past the volatility warm-up. */
  lemma CompleteRowHasVolatility(df: Frame, ws: seq<nat>, i: nat)
    requires CompleteDerivedRow(df, ws, i)
    ensures VolatilityWindow <= i
  {
    CloseComplete(df);
    FeatureTail(df, ws);
    DefinedRowCell(Featurize(df, ws), Volatility10, i);
    VolatilityWarmUp(Column(df, Close), i);
  }

  /** A complete derived row is past the oscillator warm-up of every window. */
  lemma CompleteRowHasRsi(df: Frame, ws: seq<nat>, i: nat, w: nat)
    requires CompleteDerivedRow(df, ws, i) && w in ws
    ensures w <= i
  {
    CloseComplete(df);
    FeatureWindow(df, ws, w);
    DefinedRowCell(Featurize(df, ws), RsiName(w), i);
    RsiWarmUp(Column(df, Close), w, i);
  }

  /** A complete row of the derived table lies between the warm-up and the
      last row (exclusive). */
  lemma CompleteRowInRange(df: Frame, ws: seq<nat>, i: nat)
    requires CompleteDerivedRow(df, ws, i)
    ensures WarmUp(ws) <= i < |df.rows| - 1
  {
    CompleteRowHasTarget(df, ws, i);
    CompleteRowHasVolatility(df, ws, i);
    if ws != [] {
      CompleteRowHasRsi(df, ws, i, MaxOf(ws));
    }
  }

  /** Over a complete input every row between the warm-up and the last row
      (exclusive) of the derived table is complete. */
  lemma InRangeRowComplete(df: Frame, ws: seq<nat>, i: nat)
    requires CompleteInput(df, ws)
    requires WarmUp(ws) <= i < |df.rows| - 1
    ensures AllDefined(Featurize(df, ws).rows[i])
  {
    var c := Column(df, Close);
    CloseComplete(df);
    TargetWarmUp(c, i);
    VolatilityWarmUp(c, i);
    var r1 := PctChange(c);
    var f1 := SetColumn(df, Return1, r1);
    ReturnWarmUp(c, i);
    SetColumnKeepsDefined(df, Return1, r1, i);
    WithWindowsDefined(f1, c, ws, i);
    var f2 := WithWindows(f1, c, ws);
    var vol := RollingVariance(r1, VolatilityWindow);
    SetColumnKeepsDefined(f2, Volatility10, vol, i);
    SetColumnKeepsDefined(SetColumn(f2, Volatility10, vol), Target, Shift(c), i);
  }

  /** Over a complete table, a derived row is complete exactly when it lies
      between the warm-up and the last row (exclusive). */
  lemma CompleteIffInRange(df: Frame, ws: seq<nat>)
    requires CompleteInput(df, ws)
    ensures forall i :: 0 <= i < |df.rows| ==>
      (AllDefined(Featurize(df, ws).rows[i]) <==> WarmUp(ws) <= i < |df.rows| - 1)
  {
    forall i | 0 <= i < |df.rows|
      ensures AllDefined(Featurize(df, ws).rows[i]) <==> WarmUp(ws) <= i < |df.rows| - 1
    {
      if AllDefined(Featurize(df, ws).rows[i]) {
        CompleteRowInRange(df, ws, i);
      }
      if WarmUp(ws) <= i < |df.rows| - 1 {
        InRangeRowComplete(df, ws, i);
      }
    }
  }

  /** Over a complete table of n rows with window sizes W, the output of
      add_basic_features is rows max(max W, 10) .. n-2 of the derived table,
      in order: n - max(max W, 10) - 1 rows (none when n is too short). */
  lemma SurvivingRows(df: Frame, ws: seq<nat>)
    requires CompleteInput(df, ws)
    ensures var F := Featurize(df, ws); var n := |df.rows|; var m := WarmUp(ws);
      && DropNa(F).rows == (if m < n then F.rows[m..n - 1] else [])
      && |DropNa(F).rows| == (if m < n then n - m - 1 else 0)
  {
    var F := Featurize(df, ws);
    var n, m := |df.rows|, WarmUp(ws);
    CompleteIffInRange(df, ws);
    if m < n {
      DropNaBlock(F.rows, m, n - 1);
    } else {
      DropNaBlock(F.rows, 0, 0);
    }
  }

  /** 600 complete one-minute candles with the default windows (5, 10, 20)
      leave 579 feature rows. */
  lemma DefaultWindowsOn600Rows(df: Frame)
    requires CompleteInput(df, [5, 10, 20]) && |df.rows| == 600
    ensures |DropNa(Featurize(df, [5, 10, 20])).rows| == 579
  {
    SurvivingRows(df, [5, 10, 20]);
    assert MaxOf([5, 10, 20]) == 20;
  }
}
