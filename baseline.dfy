/** The baseline regression run (src/models/baseline.py): drop incomplete rows,
    select the feature columns and the target, split chronologically with a
    quarter held out, fit on the earlier part, score on the later part.

    The regressor is a parameter: `fit` takes the training matrix and targets
    and returns the prediction function of the fitted model. */
module Baseline {
  import opened Frames
  import opened Stats
  import Engineering

  /** The feature columns used when the caller names none. */
  const FeaturesDefault: seq<string> :=
    ["return_1", "ma_5", "ma_10", "ma_20", "rsi_5", "rsi_10", "rsi_20", "volatility_10"]

  datatype TrainError =
    | MissingColumns    // KeyError when selecting the features or the target
    | EmptyTrainSplit   // ValueError of the splitter: the training part would be empty

  datatype Metrics = Metrics(mae: real, mse: real)

  /** The held-out rows' index labels, true targets and predictions. */
  datatype Holdout = Holdout(index: seq<int>, yTrue: seq<real>, yPred: seq<real>)

  /** What the run hands to the regressor and what it reports. */
  datatype Fit = Fit(trainIndex: seq<int>, trainX: seq<seq<real>>, trainY: seq<real>,
                     metrics: Metrics, holdout: Holdout)

  /** Rows held out of n: `test_size=0.25` rounded up, as the splitter does. */
  function TestSize(n: nat): (k: nat)
    ensures n <= 4 * k < n + 4
    ensures k <= n
  {
    (n + 3) / 4
  }

  /** The non-shuffled split: the first rows train, the last TestSize rows test. */
  function ChronologicalSplit<T>(xs: seq<T>): (split: (seq<T>, seq<T>))
    ensures split.0 + split.1 == xs
    ensures |split.1| == TestSize(|xs|)
  {
    var cut := |xs| - TestSize(|xs|);
    (xs[..cut], xs[cut..])
  }

  /** Forty rows split into thirty for training and ten held out. */
  lemma FortyRowsSplit<T>(xs: seq<T>)
    requires |xs| == 40
    ensures |ChronologicalSplit(xs).0| == 30 && |ChronologicalSplit(xs).1| == 10
  {
  }

  /** The training part is empty exactly when fewer than two rows remain. */
  lemma TrainPartEmpty(n: nat)
    ensures n - TestSize(n) == 0 <==> n <= 1
  {
  }

  /** `df[features]` on a table without missing cells, as numbers row by row. */
  function Matrix(f: Frame, names: seq<string>): (X: seq<seq<real>>)
    requires Shaped(f) && GapFree(f)
    requires forall j :: 0 <= j < |names| ==> names[j] in f.names
    ensures |X| == |f.rows|
    ensures forall i :: 0 <= i < |X| ==> |X[i]| == |names|
    ensures forall i, j :: 0 <= i < |X| && 0 <= j < |names| ==> Some(X[i][j]) == Column(f, names[j])[i]
  {
    seq(|f.rows|, i requires 0 <= i < |f.rows| =>
      seq(|names|, j requires 0 <= j < |names| => f.rows[i].cells[IndexOf(f.names, names[j])].value))
  }

  /** `df[name]` on a table without missing cells, as numbers. */
  function Series(f: Frame, name: string): (y: seq<real>)
    requires Shaped(f) && GapFree(f) && name in f.names
    ensures |y| == |f.rows|
    ensures forall i :: 0 <= i < |y| ==> Some(y[i]) == Column(f, name)[i]
  {
    seq(|f.rows|, i requires 0 <= i < |f.rows| => f.rows[i].cells[IndexOf(f.names, name)].value)
  }

  function Times(rows: seq<Row>): (ts: seq<int>)
    ensures |ts| == |rows| && forall i :: 0 <= i < |rows| ==> ts[i] == rows[i].time
  {
    seq(|rows|, i requires 0 <= i < |rows| => rows[i].time)
  }

  function AbsoluteErrors(y: seq<real>, p: seq<real>): (e: seq<real>)
    requires |y| == |p|
    ensures |e| == |y|
    ensures forall k :: 0 <= k < |e| ==> e[k] >= 0.0 && (e[k] == y[k] - p[k] || e[k] == p[k] - y[k])
    ensures forall k :: 0 <= k < |e| ==> (e[k] == 0.0 <==> y[k] == p[k])
  {
    seq(|y|, k requires 0 <= k < |y| => if y[k] >= p[k] then y[k] - p[k] else p[k] - y[k])
  }

  function SquaredErrors(y: seq<real>, p: seq<real>): (e: seq<real>)
    requires |y| == |p|
    ensures |e| == |y|
    ensures forall k :: 0 <= k < |e| ==> e[k] >= 0.0
  {
    seq(|y|, k requires 0 <= k < |y| =>
      SquareNonnegative(y[k] - p[k]);
      (y[k] - p[k]) * (y[k] - p[k]))
  }

  /** `mean_absolute_error`: the mean of |y - p|; never negative. */
  function MeanAbsoluteError(y: seq<real>, p: seq<real>): (mae: real)
    requires |y| == |p| && |y| >= 1
    ensures mae >= 0.0
  {
    MeanNonnegative(AbsoluteErrors(y, p));
    Mean(AbsoluteErrors(y, p))
  }

  /** `mean_squared_error`: the mean of (y - p)^2; never negative.  The run
      reports its square root. */
  function MeanSquaredError(y: seq<real>, p: seq<real>): (mse: real)
    requires |y| == |p| && |y| >= 1
    ensures mse >= 0.0
  {
    MeanNonnegative(SquaredErrors(y, p));
    Mean(SquaredErrors(y, p))
  }

  /** The mean absolute error is zero exactly when every prediction is exact. */
  lemma MaeZeroIffExact(y: seq<real>, p: seq<real>)
    requires |y| == |p| && |y| >= 1
    ensures MeanAbsoluteError(y, p) == 0.0 <==> y == p
  {
    var e := AbsoluteErrors(y, p);
    SumZeroIffAllZero(e);
    forall k | 0 <= k < |y|
      ensures e[k] == 0.0 <==> y[k] == p[k]
    {
    }
    if y == p {
      assert forall k :: 0 <= k < |e| ==> e[k] == 0.0;
    }
    if MeanAbsoluteError(y, p) == 0.0 {
      assert Sum(e) == MeanAbsoluteError(y, p) * |y| as real;
      assert forall k :: 0 <= k < |y| ==> y[k] == p[k];
    }
  }

  /** The table has every feature column and the target column. */
  predicate HasColumns(names: seq<string>, features: seq<string>)
  {
    (forall j :: 0 <= j < |features| ==> features[j] in names) && Engineering.Target in names
  }

  /** The derived table of the default windows (5, 10, 20) has every default
      feature and the target, so training on it with the default features
      never fails for a missing column. */
  lemma DefaultFeaturesAvailable(df: Frame, fit: (seq<seq<real>>, seq<real>) -> (seq<real> -> real))
    requires Engineering.FeatureInput(df, [5, 10, 20]) && Engineering.Close in df.names
    ensures HasColumns(Engineering.Featurize(df, [5, 10, 20]).names, FeaturesDefault)
    ensures TrainBaseline(DropNa(Engineering.Featurize(df, [5, 10, 20])), FeaturesDefault, fit) != Err(MissingColumns)
  {
    var ws: seq<nat> := [5, 10, 20];
    var names := Engineering.Featurize(df, ws).names;
    Engineering.DefaultWindowNames();
    Engineering.FeatureReturn(df, ws);
    Engineering.FeatureTail(df, ws);
    Engineering.FeatureWindow(df, ws, 5);
    Engineering.FeatureWindow(df, ws, 10);
    Engineering.FeatureWindow(df, ws, 20);
    forall j | 0 <= j < |FeaturesDefault|
      ensures FeaturesDefault[j] in names
    {
    }
  }

  /** train_baseline: dropna, select X and y, split 75/25 without shuffling,
      fit on the first part, predict and score the held-out part. */
  function TrainBaseline(df: Frame, features: seq<string>,
                         fit: (seq<seq<real>>, seq<real>) -> (seq<real> -> real)): (r: Result<Fit, TrainError>)
    requires Shaped(df)
    ensures r == Err(MissingColumns) <==> !HasColumns(df.names, features)
    ensures r == Err(EmptyTrainSplit) <==> HasColumns(df.names, features) && |DropNa(df).rows| <= 1
    ensures r.Ok? ==>
              var n := |DropNa(df).rows|;
              && |r.value.trainY| == |r.value.trainX| == |r.value.trainIndex| == n - TestSize(n)
              && |r.value.holdout.index| == |r.value.holdout.yTrue| == |r.value.holdout.yPred| == TestSize(n)
              && r.value.metrics.mae >= 0.0 && r.value.metrics.mse >= 0.0
  {
    var clean := DropNa(df);
    if !HasColumns(clean.names, features) then Err(MissingColumns)
    else
      var X := Matrix(clean, features);
      var y := Series(clean, Engineering.Target);
      var index := Times(clean.rows);
      var n := |clean.rows|;
      if n - TestSize(n) == 0 then Err(EmptyTrainSplit)
      else
        var (xTrain, xTest) := ChronologicalSplit(X);
        var (yTrain, yTest) := ChronologicalSplit(y);
        var (iTrain, iTest) := ChronologicalSplit(index);
        var predict := fit(xTrain, yTrain);
        var preds := seq(|xTest|, k requires 0 <= k < |xTest| => predict(xTest[k]));
        Ok(Fit(iTrain, xTrain, yTrain,
               Metrics(MeanAbsoluteError(yTest, preds), MeanSquaredError(yTest, preds)),
               Holdout(iTest, yTest, preds)))
  }

  /** The index labels of the training rows and of the held-out rows are the
      two parts of the cleaned table's index. */
  lemma IndexSplit(df: Frame, features: seq<string>,
                   fit: (seq<seq<real>>, seq<real>) -> (seq<real> -> real))
    requires Shaped(df)
    requires TrainBaseline(df, features, fit).Ok?
    ensures var r := TrainBaseline(df, features, fit).value;
      (r.trainIndex, r.holdout.index) == ChronologicalSplit(Times(DropNa(df).rows))
  {
  }

  /** The training data are the first rows of the cleaned table and the
      held-out rows are all the rest, in order: X is exactly the requested
      columns, y the target, and the holdout's index, truths and predictions
      line up row by row. */
  lemma SplitIsPrefixAndSuffix(df: Frame, features: seq<string>,
                               fit: (seq<seq<real>>, seq<real>) -> (seq<real> -> real))
    requires Shaped(df)
    requires TrainBaseline(df, features, fit).Ok?
    ensures var clean := DropNa(df); var r := TrainBaseline(df, features, fit).value;
      var cut := |clean.rows| - TestSize(|clean.rows|);
      && r.trainIndex + r.holdout.index == Times(clean.rows)
      && r.trainY + r.holdout.yTrue == Series(clean, Engineering.Target)
      && r.trainX == Matrix(clean, features)[..cut]
      && (forall i, j :: 0 <= i < |r.trainX| && 0 <= j < |features| ==>
            Some(r.trainX[i][j]) == Column(clean, features[j])[i])
      && (forall k :: 0 <= k < |r.holdout.yPred| ==>
            r.holdout.yPred[k] == fit(r.trainX, r.trainY)(Matrix(clean, features)[cut + k]))
  {
    var clean := DropNa(df);
    var X := Matrix(clean, features);
    var cut := |clean.rows| - TestSize(|clean.rows|);
    forall i, j | 0 <= i < cut && 0 <= j < |features|
      ensures Some(X[..cut][i][j]) == Column(clean, features[j])[i]
    {
      assert AllDefined(clean.rows[i]);
    }
  }

  /** Splitting the index of a strictly time-ordered table puts every
      earlier label in the first part and every later one in the second. */
  lemma SplitOfIncreasing(rows: seq<Row>)
    requires Increasing(rows)
    ensures var split := ChronologicalSplit(Times(rows));
      forall a, b :: 0 <= a < |split.0| && 0 <= b < |split.1| ==> split.0[a] < split.1[b]
  {
    var ts := Times(rows);
    var split := ChronologicalSplit(ts);
    forall a, b | 0 <= a < |split.0| && 0 <= b < |split.1|
      ensures split.0[a] < split.1[b]
    {
      assert split.0[a] == ts[a] == rows[a].time;
      assert split.1[b] == ts[|split.0| + b] == rows[|split.0| + b].time;
    }
  }

  /** On a strictly time-ordered table every training row precedes every
      held-out row: nothing from the future is fitted. */
  lemma TrainPrecedesHoldout(df: Frame, features: seq<string>,
                             fit: (seq<seq<real>>, seq<real>) -> (seq<real> -> real))
    requires Shaped(df) && Increasing(df.rows)
    requires TrainBaseline(df, features, fit).Ok?
    ensures var r := TrainBaseline(df, features, fit).value;
      forall a, b :: 0 <= a < |r.trainIndex| && 0 <= b < |r.holdout.index| ==>
        r.trainIndex[a] < r.holdout.index[b]
  {
    DropNaKeepsOrder(df.rows);
    IndexSplit(df, features, fit);
    SplitOfIncreasing(DropNa(df).rows);
  }

  /** The mean absolute error is the average of |truth - prediction| over the
      held-out rows, and zero only for a perfect holdout. */
  lemma MaeOverHoldout(df: Frame, features: seq<string>,
                       fit: (seq<seq<real>>, seq<real>) -> (seq<real> -> real))
    requires Shaped(df)
    requires TrainBaseline(df, features, fit).Ok?
    ensures var h := TrainBaseline(df, features, fit).value.holdout;
      && TrainBaseline(df, features, fit).value.metrics.mae
           == Sum(AbsoluteErrors(h.yTrue, h.yPred)) / |h.yTrue| as real
      && (TrainBaseline(df, features, fit).value.metrics.mae == 0.0 <==> h.yTrue == h.yPred)
  {
    var h := TrainBaseline(df, features, fit).value.holdout;
    MaeZeroIffExact(h.yTrue, h.yPred);
  }
}
