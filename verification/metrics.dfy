/** The slot-filling metric of the evaluation harness (src/life_os/evals/metrics.py):
    `_values_match` and the counting in `slot_fill_f1`. Values are the JSON-like data the
    golden dataset holds; `render` stands for Python's `str` on a value that is not a string. */
module Metrics {
  import opened Wrappers
  import Text

  datatype Json =
    | Null
    | Bool(b: bool)
    | Int(i: int)
    | Float(r: real)
    | Str(s: string)
    | EnumVal(value: string)   // an enum member: anything with a `.value`
    | Obj(fields: map<string, Json>)
    | Arr(items: seq<Json>)

  /** `isinstance(v, (int, float))`: `bool` is a subclass of `int`. */
  function Number(v: Json): Option<real> {
    match v
    case Bool(b) => Some(if b then 1.0 else 0.0)
    case Int(i) => Some(i as real)
    case Float(r) => Some(r)
    case _ => None
  }

  function Abs(x: real): real {
    if x < 0.0 then -x else x
  }

  /** The text the fallback comparison uses: enum members by their value, strings as they are. */
  function Shown(v: Json, render: Json -> string): string {
    match v
    case EnumVal(value) => value
    case Str(s) => s
    case _ => render(v)
  }

  /** `str(v).lower().strip()` */
  function Normal(v: Json, render: Json -> string): string {
    Text.Strip(Text.Lower(Shown(v, render)))
  }

  /** A quotient is within a bound iff the dividend is within the bound scaled by the divisor. */
  lemma DivAtMost(x: real, a: real, t: real)
    requires a > 0.0
    ensures x / a <= t <==> x <= t * a
  {
    assert (x / a) * a == x;
    if x / a <= t {
      assert (x / a) * a <= t * a;
    } else {
      assert (x / a) * a > t * a;
    }
  }

  /** `_values_match(pred, exp, tol)`: numbers within the relative tolerance, dictionaries on the
      expected keys, lists pointwise, anything else by normalised text. */
  function ValuesMatch(pred: Json, exp: Json, tol: real, render: Json -> string): (r: bool)
    ensures r && exp.Obj? && pred.Obj? ==> exp.fields.Keys <= pred.fields.Keys
    ensures r && exp.Arr? && pred.Arr? ==> |exp.items| == |pred.items|
    ensures Number(exp) == Some(0.0) && Number(pred).Some? ==> (r <==> Number(pred) == Some(0.0))
    ensures Number(exp).Some? && Number(exp) != Some(0.0) && Number(pred).Some? ==>
      (r <==> Abs(Number(pred).value - Number(exp).value) <= tol * Abs(Number(exp).value))
    decreases exp
  {
    if Number(exp).Some? && Number(pred).Some? then
      var e := Number(exp).value;
      var p := Number(pred).value;
      if e == 0.0 then p == 0.0
      else
        DivAtMost(Abs(p - e), Abs(e), tol);
        Abs(p - e) / Abs(e) <= tol
    else if exp.Obj? && pred.Obj? then
      forall k | k in exp.fields :: k in pred.fields && ValuesMatch(pred.fields[k], exp.fields[k], tol, render)
    else if exp.Arr? && pred.Arr? then
      |exp.items| == |pred.items|
      && forall i | 0 <= i < |exp.items| :: ValuesMatch(pred.items[i], exp.items[i], tol, render)
    else
      Normal(pred, render) == Normal(exp, render)
  }

  /** Every value matches itself when the tolerance is not negative. */
  lemma {:induction false} MatchReflexive(v: Json, tol: real, render: Json -> string)
    requires tol >= 0.0
    ensures ValuesMatch(v, v, tol, render)
    decreases v
  {
    match v
    case Obj(fs) =>
      forall k | k in fs ensures ValuesMatch(fs[k], fs[k], tol, render) {
        MatchReflexive(fs[k], tol, render);
      }
    case Arr(xs) =>
      forall i | 0 <= i < |xs| ensures ValuesMatch(xs[i], xs[i], tol, render) {
        MatchReflexive(xs[i], tol, render);
      }
    case _ =>
  }

  /** A dictionary match looks only at the expected keys: extra predicted keys never spoil it. */
  lemma ExtraKeysIgnored(pred: map<string, Json>, exp: map<string, Json>, k: string, v: Json, tol: real, render: Json -> string)
    requires k !in exp
    requires ValuesMatch(Obj(pred), Obj(exp), tol, render)
    ensures ValuesMatch(Obj(pred[k := v]), Obj(exp), tol, render)
  {
    var p2 := pred[k := v];
    forall j | j in exp ensures j in p2 && ValuesMatch(p2[j], exp[j], tol, render) {
      assert p2[j] == pred[j];
    }
  }

  /** A predicted dictionary missing an expected key does not match. */
  lemma MissingKeyFails(pred: map<string, Json>, exp: map<string, Json>, k: string, tol: real, render: Json -> string)
    requires k in exp && k !in pred
    ensures !ValuesMatch(Obj(pred), Obj(exp), tol, render)
  {
  }

  /** The fallback comparison: both sides as text, lower-cased and stripped. */
  lemma FallbackCompare(pred: Json, exp: Json, tol: real, render: Json -> string)
    requires Number(exp).None? || Number(pred).None?
    requires !(exp.Obj? && pred.Obj?) && !(exp.Arr? && pred.Arr?)
    ensures ValuesMatch(pred, exp, tol, render) <==> Normal(pred, render) == Normal(exp, render)
  {
  }

  /** An enum member matches the string of its value. */
  lemma EnumMatchesItsValue(name: string, tol: real, render: Json -> string)
    ensures ValuesMatch(EnumVal(name), Str(name), tol, render)
  {
    FallbackCompare(EnumVal(name), Str(name), tol, render);
  }

  /** Leading white space and case do not matter in the fallback comparison. */
  lemma PaddingIgnored(name: string, tol: real, render: Json -> string)
    ensures ValuesMatch(Str(" " + name), Str(name), tol, render)
  {
    FallbackCompare(Str(" " + name), Str(name), tol, render);
    var l := Text.Lower(name);
    var s := " " + name;
    assert s[1..] == name;
    assert Text.Lower(s) == [Text.LowerChar(' ')] + Text.Lower(name);
    assert Text.Lower(s) == " " + l;
    assert (" " + l)[1..] == l;
    assert Text.LStrip(" " + l) == Text.LStrip(l);
  }

  // ---------------------------------------------------------------- slot_fill_f1

  /** `d.get(key)`: Null when the key is absent. */
  function Get(d: map<string, Json>, k: string): Json {
    if k in d then d[k] else Null
  }

  /** The keys with a predicted value, with an expected value, and with a matching pair. */
  function Predicted(pred: map<string, Json>, keys: set<string>): set<string> {
    set k | k in keys && !Get(pred, k).Null?
  }

  function Expected(exp: map<string, Json>, keys: set<string>): set<string> {
    set k | k in keys && !Get(exp, k).Null?
  }

  function Matched(pred: map<string, Json>, exp: map<string, Json>, keys: set<string>, tol: real, render: Json -> string): set<string> {
    set k | k in keys && !Get(pred, k).Null? && !Get(exp, k).Null? && ValuesMatch(Get(pred, k), Get(exp, k), tol, render)
  }

  /** The counts of one key. */
  function Delta(pred: map<string, Json>, exp: map<string, Json>, k: string, tol: real, render: Json -> string): (r: (nat, nat, nat))
    ensures r.0 + r.1 == (if Get(pred, k).Null? then 0 else 1)
    ensures r.0 + r.2 == (if Get(exp, k).Null? then 0 else 1)
    ensures r.0 == 1 <==> !Get(pred, k).Null? && !Get(exp, k).Null? && ValuesMatch(Get(pred, k), Get(exp, k), tol, render)
  {
    var p := Get(pred, k);
    var e := Get(exp, k);
    if e.Null? && p.Null? then (0, 0, 0)
    else if e.Null? then (0, 1, 0)
    else if p.Null? then (0, 0, 1)
    else if ValuesMatch(p, e, tol, render) then (1, 0, 0)
    else (0, 1, 1)
  }

  /** Adding a key to the visited set adds its own contribution to each of the three sets. */
  lemma AddMatched(pred: map<string, Json>, exp: map<string, Json>, seen: set<string>, k: string, tol: real, render: Json -> string)
    requires k !in seen
    ensures |Matched(pred, exp, seen + {k}, tol, render)| == |Matched(pred, exp, seen, tol, render)| + Delta(pred, exp, k, tol, render).0
  {
    var m := Matched(pred, exp, seen, tol, render);
    var m2 := Matched(pred, exp, seen + {k}, tol, render);
    if Delta(pred, exp, k, tol, render).0 == 1 {
      assert m2 == m + {k};
    } else {
      assert m2 == m;
    }
  }

  lemma AddPredicted(pred: map<string, Json>, exp: map<string, Json>, seen: set<string>, k: string, tol: real, render: Json -> string)
    requires k !in seen
    ensures var d := Delta(pred, exp, k, tol, render);
      |Predicted(pred, seen + {k})| == |Predicted(pred, seen)| + d.0 + d.1
  {
    if !Get(pred, k).Null? {
      assert Predicted(pred, seen + {k}) == Predicted(pred, seen) + {k};
    } else {
      assert Predicted(pred, seen + {k}) == Predicted(pred, seen);
    }
  }

  lemma AddExpected(pred: map<string, Json>, exp: map<string, Json>, seen: set<string>, k: string, tol: real, render: Json -> string)
    requires k !in seen
    ensures var d := Delta(pred, exp, k, tol, render);
      |Expected(exp, seen + {k})| == |Expected(exp, seen)| + d.0 + d.2
  {
    if !Get(exp, k).Null? {
      assert Expected(exp, seen + {k}) == Expected(exp, seen) + {k};
    } else {
      assert Expected(exp, seen + {k}) == Expected(exp, seen);
    }
  }

  /** Per-field accuracy over the visited keys: an entry for each key with a value on either
      side, 1 on the matched keys and 0 elsewhere. */
  predicate AccuracyOver(acc: map<string, real>, pred: map<string, Json>, exp: map<string, Json>, seen: set<string>, tol: real, render: Json -> string) {
    && acc.Keys == Predicted(pred, seen) + Expected(exp, seen)
    && forall k | k in acc :: acc[k] == (if k in Matched(pred, exp, seen, tol, render) then 1.0 else 0.0)
  }

  /** `field_acc[key] = ...` for one key, skipped when both sides are None. */
  function Record(acc: map<string, real>, d: (nat, nat, nat), k: string): map<string, real> {
    if d == (0, 0, 0) then acc else acc[k := if d.0 == 1 then 1.0 else 0.0]
  }

  lemma RecordStep(acc: map<string, real>, pred: map<string, Json>, exp: map<string, Json>, seen: set<string>, k: string, tol: real, render: Json -> string)
    requires k !in seen
    requires AccuracyOver(acc, pred, exp, seen, tol, render)
    ensures AccuracyOver(Record(acc, Delta(pred, exp, k, tol, render), k), pred, exp, seen + {k}, tol, render)
  {
    var d := Delta(pred, exp, k, tol, render);
    var acc2 := Record(acc, d, k);
    var seen2 := seen + {k};
    assert Predicted(pred, seen2) == Predicted(pred, seen) + (if Get(pred, k).Null? then {} else {k});
    assert Expected(exp, seen2) == Expected(exp, seen) + (if Get(exp, k).Null? then {} else {k});
    forall j | j in acc2 ensures acc2[j] == (if j in Matched(pred, exp, seen2, tol, render) then 1.0 else 0.0) {
      if j != k {
        assert j in acc;
        assert j in Matched(pred, exp, seen2, tol, render) <==> j in Matched(pred, exp, seen, tol, render);
      }
    }
  }

  /** The counts and accuracies of `slot_fill_f1` over the keys visited so far. */
  predicate Counted(tp: nat, fp: nat, fn: nat, acc: map<string, real>, pred: map<string, Json>, exp: map<string, Json>, seen: set<string>, tol: real, render: Json -> string) {
    && tp == |Matched(pred, exp, seen, tol, render)|
    && tp + fp == |Predicted(pred, seen)|
    && tp + fn == |Expected(exp, seen)|
    && AccuracyOver(acc, pred, exp, seen, tol, render)
  }

  /** What the counters stand for, read off the invariant. */
  lemma CountedSizes(tp: nat, fp: nat, fn: nat, acc: map<string, real>, pred: map<string, Json>, exp: map<string, Json>, seen: set<string>, tol: real, render: Json -> string)
    requires Counted(tp, fp, fn, acc, pred, exp, seen, tol, render)
    ensures tp == |Matched(pred, exp, seen, tol, render)|
    ensures tp + fp == |Predicted(pred, seen)| && tp + fn == |Expected(exp, seen)|
    ensures AccuracyOver(acc, pred, exp, seen, tol, render)
  {
  }

  lemma CountedEmpty(pred: map<string, Json>, exp: map<string, Json>, tol: real, render: Json -> string)
    ensures Counted(0, 0, 0, map[], pred, exp, {}, tol, render)
  {
    assert Matched(pred, exp, {}, tol, render) == {};
    assert Predicted(pred, {}) == {};
    assert Expected(exp, {}) == {};
  }

  /** One iteration of the loop keeps the counts right. */
  lemma CountStep(tp: nat, fp: nat, fn: nat, acc: map<string, real>, pred: map<string, Json>, exp: map<string, Json>, seen: set<string>, k: string, tol: real, render: Json -> string)
    requires k !in seen
    requires Counted(tp, fp, fn, acc, pred, exp, seen, tol, render)
    ensures var d := Delta(pred, exp, k, tol, render);
      Counted(tp + d.0, fp + d.1, fn + d.2, Record(acc, d, k), pred, exp, seen + {k}, tol, render)
  {
    AddMatched(pred, exp, seen, k, tol, render);
    AddPredicted(pred, exp, seen, k, tol, render);
    AddExpected(pred, exp, seen, k, tol, render);
    RecordStep(acc, pred, exp, seen, k, tol, render);
  }

  /** One iteration: the counts and accuracies of `key` added to those of the keys before it. */
  method Visit(tp: nat, fp: nat, fn: nat, acc: map<string, real>, pred: map<string, Json>, exp: map<string, Json>, ghost seen: set<string>, k: string, tol: real, render: Json -> string)
    returns (tp': nat, fp': nat, fn': nat, acc': map<string, real>)
    requires k !in seen
    requires Counted(tp, fp, fn, acc, pred, exp, seen, tol, render)
    ensures Counted(tp', fp', fn', acc', pred, exp, seen + {k}, tol, render)
  {
    var d := Delta(pred, exp, k, tol, render);
    CountStep(tp, fp, fn, acc, pred, exp, seen, k, tol, render);
    tp', fp', fn' := tp + d.0, fp + d.1, fn + d.2;
    acc' := Record(acc, d, k);
  }

  /** The counting loop of `slot_fill_f1`: true positives are the matched keys, true and false
      positives together the keys with a predicted value, true positives and false negatives the
      keys with an expected value; per-field accuracy is 1 exactly on the matched keys and 0 on
      every other key present on either side. */
  method SlotFillCounts(pred: map<string, Json>, exp: map<string, Json>, tol: real, render: Json -> string)
    returns (tp: nat, fp: nat, fn: nat, acc: map<string, real>)
    ensures Counted(tp, fp, fn, acc, pred, exp, pred.Keys + exp.Keys, tol, render)
  {
    var keys := pred.Keys + exp.Keys;
    var todo := keys;
    tp, fp, fn, acc := 0, 0, 0, map[];
    CountedEmpty(pred, exp, tol, render);
    assert keys - todo == {};
    while todo != {}
      invariant todo <= keys
      invariant Counted(tp, fp, fn, acc, pred, exp, keys - todo, tol, render)
      decreases |todo|
    {
      var k :| k in todo;
      tp, fp, fn, acc := Visit(tp, fp, fn, acc, pred, exp, keys - todo, k, tol, render);
      assert (keys - todo) + {k} == keys - (todo - {k});
      todo := todo - {k};
    }
    assert keys - todo == keys;
  }

  /** `a / b if b else 0.0` for the count ratios. */
  function Ratio(part: nat, whole: nat): (r: real)
    ensures 0.0 <= r
    ensures part <= whole ==> r <= 1.0
    ensures whole == 0 ==> r == 0.0
    ensures 0 < part && 0 < whole ==> 0.0 < r
    ensures 0 < whole ==> (r == 1.0 <==> part == whole)
  {
    if whole == 0 then 0.0 else part as real / whole as real
  }

  lemma ProductBounded(a: real, b: real)
    requires 0.0 <= a && 0.0 <= b <= 1.0
    ensures a * b <= a
  {
    assert a - a * b == a * (1.0 - b);
    assert a * (1.0 - b) >= 0.0;
  }

  lemma QuotientAtMostOne(x: real, y: real)
    requires 0.0 <= x <= y && 0.0 < y
    ensures 0.0 <= x / y <= 1.0
  {
    assert (x / y) * y == x;
  }

  /** The harmonic mean of precision and recall, 0 when both are 0. */
  function F1(precision: real, recall: real): (f: real)
    requires 0.0 <= precision <= 1.0 && 0.0 <= recall <= 1.0
    ensures 0.0 <= f <= 1.0
    ensures precision + recall == 0.0 ==> f == 0.0
    ensures precision == 1.0 && recall == 1.0 ==> f == 1.0
  {
    if precision + recall == 0.0 then 0.0
    else
      var both := precision * recall;
      ProductBounded(precision, recall);
      ProductBounded(recall, precision);
      assert both <= precision && both <= recall && 0.0 <= both;
      QuotientAtMostOne(both + both, precision + recall);
      assert 2.0 * precision * recall == both + both;
      2.0 * precision * recall / (precision + recall)
  }

  datatype ExtractionMetrics = ExtractionMetrics(precision: real, recall: real, f1: real, fieldAccuracy: map<string, real>)

  /** Precision, recall and F1 from the three counts. */
  function Scores(tp: nat, fp: nat, fn: nat, acc: map<string, real>): (m: ExtractionMetrics)
    ensures m.precision == Ratio(tp, tp + fp) && 0.0 <= m.precision <= 1.0
    ensures m.recall == Ratio(tp, tp + fn) && 0.0 <= m.recall <= 1.0
    ensures m.f1 == F1(m.precision, m.recall) && m.fieldAccuracy == acc
  {
    var precision := Ratio(tp, tp + fp);
    var recall := Ratio(tp, tp + fn);
    ExtractionMetrics(precision, recall, F1(precision, recall), acc)
  }

  /** `slot_fill_f1` without the final rounding to three places. */
  method SlotFillF1(pred: map<string, Json>, exp: map<string, Json>, tol: real, render: Json -> string)
    returns (m: ExtractionMetrics)
    ensures var keys := pred.Keys + exp.Keys;
      var tp := |Matched(pred, exp, keys, tol, render)|;
      && m.precision == Ratio(tp, |Predicted(pred, keys)|)
      && m.recall == Ratio(tp, |Expected(exp, keys)|)
      && 0.0 <= m.precision <= 1.0 && 0.0 <= m.recall <= 1.0
      && m.f1 == F1(m.precision, m.recall)
      && AccuracyOver(m.fieldAccuracy, pred, exp, keys, tol, render)
  {
    var tp, fp, fn, acc := SlotFillCounts(pred, exp, tol, render);
    CountedSizes(tp, fp, fn, acc, pred, exp, pred.Keys + exp.Keys, tol, render);
    m := Scores(tp, fp, fn, acc);
  }

  /** Predicting exactly what is expected matches every expected key and predicts nothing
      else, so precision and recall are both 1 once there is an expected value (given a
      tolerance that is not negative). */
  lemma PerfectPrediction(exp: map<string, Json>, tol: real, render: Json -> string)
    requires tol >= 0.0
    ensures var keys := exp.Keys;
      Matched(exp, exp, keys, tol, render) == Predicted(exp, keys) == Expected(exp, keys)
    ensures var keys := exp.Keys;
      var tp := |Matched(exp, exp, keys, tol, render)|;
      0 < |Expected(exp, keys)| ==>
        Ratio(tp, |Predicted(exp, keys)|) == 1.0 && Ratio(tp, |Expected(exp, keys)|) == 1.0
  {
    forall k | k in exp.Keys && !Get(exp, k).Null? ensures ValuesMatch(Get(exp, k), Get(exp, k), tol, render) {
      MatchReflexive(Get(exp, k), tol, render);
    }
  }
}
