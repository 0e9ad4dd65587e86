/** The model testing page: the confusion matrix tallied from predictions
    and actual labels with the ratios derived from it, the simulated progress
    bar, the prediction summary and confidence buckets, the ten-row preview
    table, and the predictions CSV. */
module ModelTesting {
  import opened Seqs

  /** A JavaScript value as the page compares it: a number, a string, or
      anything else (null, undefined, booleans, objects). */
  datatype Value = Num(x: real) | Str(s: string) | Other

  /** One row of the predictions the backend returns; `probability` is None
      when the field is absent. */
  datatype Prediction = Prediction(prediction: Value, probability: Option<real>)

  /** `v === 1` and `v === 0`: only the numbers themselves, never "1" or true. */
  predicate IsOne(v: Value)
  {
    v == Num(1.0)
  }

  predicate IsZero(v: Value)
  {
    v == Num(0.0)
  }

  datatype Outcome = TruePositive | FalsePositive | FalseNegative | TrueNegative | Skipped

  /** The if/else-if chain of `generateConfusionMatrix` for one index. */
  function Classify(actual: Value, predicted: Value): (o: Outcome)
    ensures o == TruePositive <==> IsOne(actual) && IsOne(predicted)
    ensures o == FalsePositive <==> IsZero(actual) && IsOne(predicted)
    ensures o == FalseNegative <==> IsOne(actual) && IsZero(predicted)
    ensures o == TrueNegative <==> IsZero(actual) && IsZero(predicted)
    ensures o == Skipped <==> !((IsOne(actual) || IsZero(actual)) && (IsOne(predicted) || IsZero(predicted)))
  {
    if IsOne(actual) && IsOne(predicted) then TruePositive
    else if IsZero(actual) && IsOne(predicted) then FalsePositive
    else if IsOne(actual) && IsZero(predicted) then FalseNegative
    else if IsZero(actual) && IsZero(predicted) then TrueNegative
    else Skipped
  }

  /** `actualValues[index]`: undefined past the end of the labels. */
  function ActualAt(actual: seq<Value>, i: nat): Value
  {
    if i < |actual| then actual[i] else Other
  }

  /** The outcome of every prediction index, in order. */
  function Outcomes(predictions: seq<Prediction>, actual: seq<Value>): (o: seq<Outcome>)
    ensures |o| == |predictions|
    ensures forall i :: 0 <= i < |o| ==> o[i] == Classify(ActualAt(actual, i), predictions[i].prediction)
  {
    seq(|predictions|, i requires 0 <= i < |predictions| =>
      Classify(ActualAt(actual, i), predictions[i].prediction))
  }

  /** The four counters. */
  datatype Tally = Tally(tp: nat, fp: nat, tn: nat, fn: nat)

  function CountOf(outcomes: seq<Outcome>, which: Outcome): nat
  {
    Count(outcomes, o => o == which)
  }

  /** The four counters read off the outcomes directly. */
  function TallyOf(outcomes: seq<Outcome>): Tally
  {
    Tally(CountOf(outcomes, TruePositive), CountOf(outcomes, FalsePositive),
          CountOf(outcomes, TrueNegative), CountOf(outcomes, FalseNegative))
  }

  /** The `forEach` loop of `generateConfusionMatrix`. */
  method ConfusionCounts(predictions: seq<Prediction>, actual: seq<Value>) returns (t: Tally)
    ensures t == TallyOf(Outcomes(predictions, actual))
  {
    var outcomes := Outcomes(predictions, actual);
    var tp, fp, tn, fn := 0, 0, 0, 0;
    for i := 0 to |predictions|
      invariant Tally(tp, fp, tn, fn) == TallyOf(outcomes[..i])
    {
      var a := ActualAt(actual, i);
      var p := predictions[i].prediction;
      if IsOne(a) && IsOne(p) {
        tp := tp + 1;
      } else if IsZero(a) && IsOne(p) {
        fp := fp + 1;
      } else if IsOne(a) && IsZero(p) {
        fn := fn + 1;
      } else if IsZero(a) && IsZero(p) {
        tn := tn + 1;
      }
      TallySnoc(outcomes, i);
    }
    assert outcomes[..|predictions|] == outcomes;
    t := Tally(tp, fp, tn, fn);
  }

  /** One more outcome adds one to its own counter and to no other. */
  lemma TallySnoc(outcomes: seq<Outcome>, i: nat)
    requires i < |outcomes|
    ensures forall w ::
      CountOf(outcomes[..i + 1], w) == CountOf(outcomes[..i], w) + (if outcomes[i] == w then 1 else 0)
  {
    assert outcomes[..i + 1] == outcomes[..i] + [outcomes[i]];
    forall w {
      CountAppend(outcomes[..i], [outcomes[i]], o => o == w);
    }
  }

  /** Every index lands in exactly one of the four counters or in none, so
      the counters add up to the number of predictions minus the skipped
      ones. */
  lemma {:induction false} TallyTotal(outcomes: seq<Outcome>)
    ensures TallyOf(outcomes).tp + TallyOf(outcomes).fp + TallyOf(outcomes).tn + TallyOf(outcomes).fn ==
      |outcomes| - CountOf(outcomes, Skipped)
  {
    if outcomes != [] {
      TallyTotal(outcomes[1..]);
    }
  }

  /** Hence tp + fp + tn + fn never exceeds the number of predictions. */
  lemma TallyBound(predictions: seq<Prediction>, actual: seq<Value>)
    ensures var t := TallyOf(Outcomes(predictions, actual));
      t.tp + t.fp + t.tn + t.fn <= |predictions|
  {
    TallyTotal(Outcomes(predictions, actual));
  }

  /** The number of tallied pairs: the denominator of the accuracy. */
  function Tallied(t: Tally): nat
  {
    t.tp + t.fp + t.tn + t.fn
  }

  /** `(tp + tn) / (tp + tn + fp + fn)`: NaN (None) when nothing was tallied. */
  function Accuracy(t: Tally): (a: Option<real>)
    ensures a.None? <==> Tallied(t) == 0
    ensures a.Some? ==> 0.0 <= a.value <= 1.0
    ensures a == Some(1.0) <==> Tallied(t) > 0 && t.fp == 0 && t.fn == 0
  {
    var total := Tallied(t);
    if total == 0 then None
    else
      Fraction(t.tp + t.tn, t.fp + t.fn);
      assert total == (t.tp + t.tn) + (t.fp + t.fn);
      Some((t.tp + t.tn) as real / total as real)
  }

  /** a / (a + b) for naturals with a positive sum: within [0, 1], zero
      exactly when a is, one exactly when b is zero. */
  lemma Fraction(a: nat, b: nat)
    requires a + b > 0
    ensures 0.0 <= a as real / (a + b) as real <= 1.0
    ensures a as real / (a + b) as real == 0.0 <==> a == 0
    ensures a as real / (a + b) as real == 1.0 <==> b == 0
  {
    var d := (a + b) as real;
    var r := a as real / d;
    assert r * d == a as real;
    if r < 0.0 { ScalePositive(-r, d); }
    if r > 1.0 { ScalePositive(r - 1.0, d); }
    if r == 1.0 { assert a as real == d; }
    if b == 0 { assert d == a as real; }
  }

  lemma ScalePositive(a: real, d: real)
    requires a > 0.0 && d > 0.0
    ensures a * d > 0.0
  {
  }

  /** `tp / (tp + fp) || 0`: NaN and 0 both fall back to 0. */
  function Precision(t: Tally): (p: real)
    ensures 0.0 <= p <= 1.0
    ensures p == 0.0 <==> t.tp == 0
    ensures p == 1.0 <==> t.tp > 0 && t.fp == 0
  {
    Ratio(t.tp, t.fp)
  }

  /** `tp / (tp + fn) || 0`. */
  function Recall(t: Tally): (r: real)
    ensures 0.0 <= r <= 1.0
    ensures r == 0.0 <==> t.tp == 0
    ensures r == 1.0 <==> t.tp > 0 && t.fn == 0
  {
    Ratio(t.tp, t.fn)
  }

  /** `a / (a + b) || 0`. */
  function Ratio(a: nat, b: nat): (r: real)
    ensures 0.0 <= r <= 1.0
    ensures r == 0.0 <==> a == 0
    ensures r == 1.0 <==> a > 0 && b == 0
  {
    if a + b == 0 then 0.0
    else
      Fraction(a, b);
      a as real / (a + b) as real
  }

  /** `2 * (precision * recall) / (precision + recall) || 0`. */
  function F1(p: real, r: real): (f: real)
    ensures p + r == 0.0 ==> f == 0.0
    ensures p + r != 0.0 ==> f * (p + r) == 2.0 * (p * r)
  {
    if p + r == 0.0 then 0.0 else 2.0 * (p * r) / (p + r)
  }

  /** For ratios in [0, 1] the F1 score is their harmonic mean: it lies
      between the smaller and the larger of the two, and is zero exactly when
      one of them is. */
  lemma F1Between(p: real, r: real)
    requires 0.0 <= p <= 1.0 && 0.0 <= r <= 1.0
    ensures 0.0 <= F1(p, r) <= 1.0
    ensures p + r > 0.0 ==> (p <= r ==> p <= F1(p, r) <= r) && (r <= p ==> r <= F1(p, r) <= p)
    ensures F1(p, r) == 0.0 <==> p == 0.0 || r == 0.0
  {
    if p + r > 0.0 {
      var s := p + r;
      var f := 2.0 * (p * r) / s;
      assert f * s == 2.0 * (p * r);
      if p <= r {
        HarmonicBounds(p, r);
      } else {
        HarmonicBounds(r, p);
        assert r * p == p * r;
      }
      if p == 0.0 || r == 0.0 {
        assert p * r == 0.0;
      } else {
        assert p * r > 0.0;
      }
    }
  }

  /** For 0 <= a <= b with a + b > 0: a <= 2ab / (a + b) <= b. */
  lemma HarmonicBounds(a: real, b: real)
    requires 0.0 <= a <= b && a + b > 0.0
    ensures a <= 2.0 * (a * b) / (a + b) <= b
  {
    var s := a + b;
    var f := 2.0 * (a * b) / s;
    assert f * s == 2.0 * (a * b);
    assert a * s <= 2.0 * (a * b) by {
      assert a * s == a * a + a * b;
      assert a * a <= a * b by { assert a * (b - a) >= 0.0; }
    }
    assert 2.0 * (a * b) <= b * s by {
      assert b * s == a * b + b * b;
      assert a * b <= b * b by { assert b * (b - a) >= 0.0; }
    }
  }

  /** The accuracy counts only tallied pairs: predictions [1, "1"] against
      labels [1, 1] score an accuracy of 1 although one of the two
      predictions was never compared. */
  lemma AccuracyIgnoresSkipped(predictions: seq<Prediction>, actual: seq<Value>)
    requires predictions == [Prediction(Num(1.0), None), Prediction(Str("1"), None)]
    requires actual == [Num(1.0), Num(1.0)]
    ensures Accuracy(TallyOf(Outcomes(predictions, actual))) == Some(1.0)
    ensures Tallied(TallyOf(Outcomes(predictions, actual))) == 1 < |predictions|
  {
    var o := Outcomes(predictions, actual);
    assert o == [TruePositive, Skipped];
    assert o[1..] == [Skipped];
    assert o[1..][1..] == [];
    assert TallyOf(o) == Tally(1, 0, 0, 0) by {
      assert CountOf(o, TruePositive) == 1 + CountOf(o[1..], TruePositive);
      assert CountOf(o[1..], TruePositive) == 0;
      assert CountOf(o, FalsePositive) == 0 + CountOf(o[1..], FalsePositive);
      assert CountOf(o[1..], FalsePositive) == 0;
      assert CountOf(o, TrueNegative) == 0 + CountOf(o[1..], TrueNegative);
      assert CountOf(o[1..], TrueNegative) == 0;
      assert CountOf(o, FalseNegative) == 0 + CountOf(o[1..], FalseNegative);
      assert CountOf(o[1..], FalseNegative) == 0;
    }
  }

  /** The progress updater: ten more per tick, held at 90 from 90 on. */
  function Tick(prev: int): (n: int)
    ensures 0 <= prev <= 90 && prev % 10 == 0 ==> prev <= n <= 90 && n % 10 == 0
  {
    if prev >= 90 then 90 else prev + 10
  }

  /** The progress after `k` ticks from 0. */
  function ProgressAfter(k: nat): (n: int)
    ensures 0 <= n <= 90 && n % 10 == 0
  {
    if k == 0 then 0 else Tick(ProgressAfter(k - 1))
  }

  /** From 0 the bar reads min(10 k, 90) after k ticks, so it never passes
      90 before the final assignment of 100. */
  lemma {:induction false} ProgressCapped(k: nat)
    ensures ProgressAfter(k) == if 10 * k <= 90 then 10 * k else 90
    ensures 0 <= ProgressAfter(k) <= 90
  {
    if k > 0 {
      ProgressCapped(k - 1);
    }
  }

  /** `predictions.filter(p => p.prediction === 1).length`. */
  function Positives(predictions: seq<Prediction>): (n: nat)
    ensures n <= |predictions|
  {
    Count(predictions, (p: Prediction) => IsOne(p.prediction))
  }

  /** `predictions.filter(p => p.prediction === 0).length`. */
  function Negatives(predictions: seq<Prediction>): (n: nat)
    ensures n <= |predictions|
  {
    Count(predictions, (p: Prediction) => IsZero(p.prediction))
  }

  /** No prediction is both positive and negative, so the two cards add up
      to at most the total. */
  lemma SummaryBound(predictions: seq<Prediction>)
    ensures Positives(predictions) + Negatives(predictions) <= |predictions|
  {
    CountDisjoint(predictions, (p: Prediction) => IsOne(p.prediction), (p: Prediction) => IsZero(p.prediction));
  }

  /** `p.probability &&`: present and not zero. */
  predicate Truthy(p: Prediction)
  {
    p.probability.Some? && p.probability.value != 0.0
  }

  predicate HighBucket(p: Prediction)
  {
    Truthy(p) && p.probability.value >= 0.8
  }

  predicate MediumBucket(p: Prediction)
  {
    Truthy(p) && 0.6 <= p.probability.value < 0.8
  }

  predicate LowBucket(p: Prediction)
  {
    Truthy(p) && p.probability.value < 0.6
  }

  /** The summary card "High Confidence (>80%)" uses a strict comparison. */
  predicate HighCard(p: Prediction)
  {
    Truthy(p) && p.probability.value > 0.8
  }

  function Bucket(p: Prediction): nat
  {
    if HighBucket(p) then 0 else if MediumBucket(p) then 1 else if LowBucket(p) then 2 else 3
  }

  /** Each truthy probability falls in exactly one bucket; a probability of
      0 or a missing one falls in none. */
  lemma BucketsPartition(p: Prediction)
    ensures Truthy(p) ==> (HighBucket(p) || MediumBucket(p) || LowBucket(p))
    ensures !(HighBucket(p) && MediumBucket(p)) && !(HighBucket(p) && LowBucket(p)) &&
      !(MediumBucket(p) && LowBucket(p))
    ensures !Truthy(p) ==> !HighBucket(p) && !MediumBucket(p) && !LowBucket(p)
  {
  }

  /** The three bucket counts add up to the number of truthy probabilities. */
  lemma {:induction false} BucketCounts(predictions: seq<Prediction>)
    ensures Count(predictions, HighBucket) + Count(predictions, MediumBucket) + Count(predictions, LowBucket) ==
      Count(predictions, Truthy)
  {
    if predictions != [] {
      BucketCounts(predictions[1..]);
    }
  }

  /** The ">80%" card counts the high bucket minus the probabilities equal
      to exactly 0.8. */
  lemma {:induction false} HighCardVersusBucket(predictions: seq<Prediction>)
    ensures Count(predictions, HighCard) + Count(predictions, (p: Prediction) => p.probability == Some(0.8)) ==
      Count(predictions, HighBucket)
  {
    if predictions != [] {
      HighCardVersusBucket(predictions[1..]);
    }
  }

  const TableRows: nat := 10

  /** `predictions.slice(0, 10)`: the rows of the table. */
  function TableShown<T>(predictions: seq<T>): (r: seq<T>)
    ensures |r| == if |predictions| <= TableRows then |predictions| else TableRows
    ensures r == predictions[..|r|]
  {
    if |predictions| <= TableRows then predictions else predictions[..TableRows]
  }

  /** The "Showing first 10 predictions" note. */
  predicate NoteShown<T>(predictions: seq<T>)
  {
    |predictions| > TableRows
  }

  /** The note appears exactly when the table leaves predictions out. */
  lemma NoteIffTruncated<T>(predictions: seq<T>)
    ensures NoteShown(predictions) <==> |TableShown(predictions)| < |predictions|
  {
  }

  /** `parts.join(sep)`. */
  function Join(parts: seq<string>, sep: char): string
  {
    if |parts| == 0 then ""
    else if |parts| == 1 then parts[0]
    else parts[0] + [sep] + Join(parts[1..], sep)
  }

  /** Occurrences of `c` in `s`. */
  function Occurrences(s: string, c: char): nat
  {
    Count(s, x => x == c)
  }

  /** `join` adds exactly one separator between consecutive parts. */
  lemma {:induction false} JoinOccurrences(parts: seq<string>, sep: char)
    requires |parts| > 0
    requires forall k :: 0 <= k < |parts| ==> sep !in parts[k]
    ensures Occurrences(Join(parts, sep), sep) == |parts| - 1
  {
    if |parts| == 1 {
      NoOccurrences(parts[0], sep);
    } else {
      JoinOccurrences(parts[1..], sep);
      NoOccurrences(parts[0], sep);
      CountAppend(parts[0] + [sep], Join(parts[1..], sep), x => x == sep);
      CountAppend(parts[0], [sep], x => x == sep);
    }
  }

  lemma {:induction false} NoOccurrences(s: string, c: char)
    requires c !in s
    ensures Occurrences(s, c) == 0
  {
    if s != [] {
      assert s[0] != c;
      assert c !in s[1..];
      NoOccurrences(s[1..], c);
    }
  }

  /** The lines of `downloadPredictions`: the keys of the first prediction,
      then one line of JSON-encoded values per prediction. `keys` and
      `cells` stand for `Object.keys` and `Object.values(...).map(JSON.stringify)`.
      Nothing is produced when there are no predictions. */
  function CsvLines<P>(predictions: seq<P>, keys: P -> seq<string>, cells: P -> seq<string>): (r: Option<seq<string>>)
    ensures r.None? <==> predictions == []
    ensures r.Some? ==> |r.value| == |predictions| + 1 && r.value[0] == Join(keys(predictions[0]), ',')
    ensures r.Some? ==> forall k :: 0 <= k < |predictions| ==> r.value[k + 1] == Join(cells(predictions[k]), ',')
  {
    if predictions == [] then None
    else Some([Join(keys(predictions[0]), ',')] +
              seq(|predictions|, k requires 0 <= k < |predictions| => Join(cells(predictions[k]), ',')))
  }

  /** The file joins the lines with newlines. Since `JSON.stringify` escapes
      line breaks, a file for n predictions has exactly n line breaks, that
      is n + 1 lines. */
  lemma CsvLineCount<P>(predictions: seq<P>, keys: P -> seq<string>, cells: P -> seq<string>)
    requires predictions != []
    requires forall k :: 0 <= k < |keys(predictions[0])| ==> '\n' !in keys(predictions[0])[k]
    requires forall p, k :: p in predictions && 0 <= k < |cells(p)| ==> '\n' !in cells(p)[k]
    ensures Occurrences(Join(CsvLines(predictions, keys, cells).value, '\n'), '\n') == |predictions|
  {
    var lines := CsvLines(predictions, keys, cells).value;
    forall k | 0 <= k < |lines|
      ensures '\n' !in lines[k]
    {
      if k == 0 {
        JoinKeeps(keys(predictions[0]), ',', '\n');
      } else {
        assert predictions[k - 1] in predictions;
        JoinKeeps(cells(predictions[k - 1]), ',', '\n');
      }
    }
    JoinOccurrences(lines, '\n');
  }

  /** Joining with one character introduces no other character. */
  lemma {:induction false} JoinKeeps(parts: seq<string>, sep: char, c: char)
    requires sep != c
    requires forall k :: 0 <= k < |parts| ==> c !in parts[k]
    ensures c !in Join(parts, sep)
  {
    if |parts| > 1 {
      JoinKeeps(parts[1..], sep, c);
    }
  }
}
