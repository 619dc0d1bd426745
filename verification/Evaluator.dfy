/**
 Scoring a model's predictions against labelled snapshots (services/detector/src/evaluator.py):
 intersection over union of boxes, and true and false positives and false negatives per class.
 Every snapshot has one labelled box. Scores are exact, where the program rounds to 4 digits.
 */
module Evaluator {

  datatype Box = Box(x1: int, y1: int, x2: int, y2: int)
  datatype Label = Label(class_: string, box: Box)
  datatype Counts = Counts(tp: nat, fp: nat, fn: nat)

  // ---------------------------------------------------------------------------------------
  // Intersection over union
  // ---------------------------------------------------------------------------------------

  function Max(a: int, b: int): int {
    if a >= b then a else b
  }

  function Min(a: int, b: int): int {
    if a <= b then a else b
  }

  function Intersection(a: Box, b: Box): int {
    Max(0, Min(a.x2, b.x2) - Max(a.x1, b.x1)) * Max(0, Min(a.y2, b.y2) - Max(a.y1, b.y1))
  }

  function Area(a: Box): int {
    (a.x2 - a.x1) * (a.y2 - a.y1)
  }

  function Iou(a: Box, b: Box): real {
    var inter := Intersection(a, b);
    var union := Area(a) + Area(b) - inter;
    if union > 0 then inter as real / union as real else 0.0
  }

  predicate Solid(a: Box) {
    a.x1 < a.x2 && a.y1 < a.y2
  }

  lemma Product(w: int, h: int, w': int, h': int)
    requires 0 < w <= w' && 0 < h <= h'
    ensures 0 < w * h <= w' * h'
    ensures w * h == w' * h' ==> w == w' && h == h'
  {
  }

  /** Boxes that overlap are proper boxes, and each is at least as large as the overlap. */
  lemma Overlap(a: Box, b: Box)
    ensures Intersection(a, b) >= 0
    ensures Intersection(a, b) > 0 ==>
              Solid(a) && Solid(b) && Area(a) >= Intersection(a, b) && Area(b) >= Intersection(a, b)
    ensures Intersection(a, b) > 0 && Area(a) == Area(b) == Intersection(a, b) ==> a == b
  {
    var w, h := Min(a.x2, b.x2) - Max(a.x1, b.x1), Min(a.y2, b.y2) - Max(a.y1, b.y1);
    if w <= 0 || h <= 0 {
      assert Max(0, w) * Max(0, h) == 0;
    } else {
      Product(w, h, a.x2 - a.x1, a.y2 - a.y1);
      Product(w, h, b.x2 - b.x1, b.y2 - b.y1);
    }
  }

  lemma Quotient(n: int, d: int)
    requires 0 <= n <= d && d > 0
    ensures 0.0 <= n as real / d as real <= 1.0
    ensures n as real / d as real == 1.0 <==> n == d
  {
  }

  /** For all boxes, even ones whose corners are the wrong way round: the score does not depend
      on the order, lies between 0 and 1, and is 1 exactly for equal boxes that have an area. */
  lemma IouIsScore(a: Box, b: Box)
    ensures Iou(a, b) == Iou(b, a)
    ensures 0.0 <= Iou(a, b) <= 1.0
    ensures Iou(a, b) == 1.0 <==> a == b && Solid(a)
  {
    Symmetric(a, b);
    Overlap(a, b);
    var inter := Intersection(a, b);
    var union := Area(a) + Area(b) - inter;
    if inter > 0 {
      Quotient(inter, union);
    } else if union > 0 {
      Quotient(0, union);
    }
    if a == b && Solid(a) {
      Product(a.x2 - a.x1, a.y2 - a.y1, a.x2 - a.x1, a.y2 - a.y1);
    }
  }

  lemma Symmetric(a: Box, b: Box)
    ensures Iou(a, b) == Iou(b, a)
  {
  }

  // ---------------------------------------------------------------------------------------
  // Counting for one class
  // ---------------------------------------------------------------------------------------

  function OfClass(preds: seq<Label>, c: string): (r: seq<Label>)
    ensures |r| <= |preds| && forall p :: p in r <==> p in preds && p.class_ == c
  {
    if preds == [] then []
    else
      var last := preds[|preds| - 1];
      assert preds == preds[..|preds| - 1] + [last];
      OfClass(preds[..|preds| - 1], c) + if last.class_ == c then [last] else []
  }

  /** Some prediction of the label's class matches its box. */
  ghost predicate Found(gt: Label, preds: seq<Label>) {
    exists p :: p in preds && p.class_ == gt.class_ && Iou(gt.box, p.box) >= 0.5
  }

  /** Over the first `n` snapshots: how many are labelled with the class, ... */
  function Support(gts: seq<Label>, n: nat, c: string): nat
    requires n <= |gts|
  {
    if n == 0 then 0 else Support(gts, n - 1, c) + if gts[n - 1].class_ == c then 1 else 0
  }

  /** ... how many predictions are of the class, ... */
  function Predicted(preds: seq<seq<Label>>, n: nat, c: string): nat
    requires n <= |preds|
  {
    if n == 0 then 0 else Predicted(preds, n - 1, c) + |OfClass(preds[n - 1], c)|
  }

  /** ... and in how many the labelled object of the class is found. */
  ghost function Hits(gts: seq<Label>, preds: seq<seq<Label>>, n: nat, c: string): nat
    requires n <= |gts| && n <= |preds|
  {
    if n == 0 then 0
    else Hits(gts, preds, n - 1, c) + if gts[n - 1].class_ == c && Found(gts[n - 1], preds[n - 1]) then 1 else 0
  }

  /** `zip` stops at the end of the shorter list. */
  function Zipped(gts: seq<Label>, preds: seq<seq<Label>>): nat {
    if |gts| <= |preds| then |gts| else |preds|
  }

  ghost predicate AnyMatch(gt: Label, preds: seq<Label>) {
    exists i :: 0 <= i < |preds| && Iou(gt.box, preds[i].box) >= 0.5
  }

  method Matched(gt: Label, classPreds: seq<Label>) returns (matched: bool)
    ensures matched <==> AnyMatch(gt, classPreds)
  {
    for i := 0 to |classPreds|
      invariant forall k :: 0 <= k < i ==> Iou(gt.box, classPreds[k].box) < 0.5
    {
      if Iou(gt.box, classPreds[i].box) >= 0.5 {
        return true;
      }
    }
    return false;
  }

  /** The true positives are the snapshots of the class in which the object is found; the other
      two counts make up the labels and the predictions of the class. */
  ghost predicate Scored(gts: seq<Label>, preds: seq<seq<Label>>, c: string, k: Counts) {
    var n := Zipped(gts, preds);
    && k.tp == Hits(gts, preds, n, c)
    && k.tp + k.fn == Support(gts, n, c)
    && k.tp + k.fp == Predicted(preds, n, c)
  }

  method CountClass(gts: seq<Label>, preds: seq<seq<Label>>, c: string) returns (k: Counts)
    ensures Scored(gts, preds, c, k)
  {
    hide Found, AnyMatch, OfClass;
    var tp: nat, fp: nat, fn: nat := 0, 0, 0;
    for i := 0 to Zipped(gts, preds)
      invariant tp == Hits(gts, preds, i, c)
      invariant tp + fn == Support(gts, i, c)
      invariant tp + fp == Predicted(preds, i, c)
    {
      var classPreds := OfClass(preds[i], c);
      if gts[i].class_ == c {
        var matched := Matched(gts[i], classPreds);
        FoundInClass(gts[i], preds[i]);
        MatchedSome(gts[i], classPreds);
        if matched {
          tp := tp + 1;
          fp := fp + Max(0, |classPreds| - 1);
        } else {
          fn := fn + 1;
          fp := fp + |classPreds|;
        }
      } else {
        fp := fp + |classPreds|;
      }
    }
    k := Counts(tp, fp, fn);
  }

  lemma MatchedSome(gt: Label, preds: seq<Label>)
    ensures AnyMatch(gt, preds) ==> |preds| > 0
  {
  }

  lemma FoundInClass(gt: Label, preds: seq<Label>)
    ensures Found(gt, preds) <==> AnyMatch(gt, OfClass(preds, gt.class_))
  {
  }

  // ---------------------------------------------------------------------------------------
  // All classes
  // ---------------------------------------------------------------------------------------

  function Classes(gts: seq<Label>): (r: set<string>)
    ensures forall i :: 0 <= i < |gts| ==> gts[i].class_ in r
  {
    if gts == [] then {} else Classes(gts[..|gts| - 1]) + {gts[|gts| - 1].class_}
  }

  method ComputeMetrics(gts: seq<Label>, preds: seq<seq<Label>>) returns (perClass: map<string, Counts>)
    ensures perClass.Keys == Classes(gts)
    ensures forall c :: c in perClass ==> Scored(gts, preds, c, perClass[c])
  {
    hide Scored, Classes;
    perClass := map[];
    var todo := Classes(gts);
    while todo != {}
      invariant perClass.Keys + todo == Classes(gts) && perClass.Keys !! todo
      invariant forall c :: c in perClass ==> Scored(gts, preds, c, perClass[c])
      decreases |todo|
    {
      var c :| c in todo;
      var k := CountClass(gts, preds, c);
      perClass := perClass[c := k];
      todo := todo - {c};
    }
  }

  /** How many of the first `n` labels are of one of the classes. */
  function SupportIn(gts: seq<Label>, n: nat, classes: set<string>): nat
    requires n <= |gts|
  {
    if n == 0 then 0 else SupportIn(gts, n - 1, classes) + if gts[n - 1].class_ in classes then 1 else 0
  }

  lemma {:induction false} SupportSplits(gts: seq<Label>, n: nat, classes: set<string>, c: string)
    requires n <= |gts| && c in classes
    ensures SupportIn(gts, n, classes) == Support(gts, n, c) + SupportIn(gts, n, classes - {c})
    ensures SupportIn(gts, n, {}) == 0
  {
    if n == 0 {
    } else {
      SupportSplits(gts, n - 1, classes, c);
    }
  }

  lemma {:induction false} SupportOfAll(gts: seq<Label>, n: nat, classes: set<string>)
    requires n <= |gts| && forall i :: 0 <= i < |gts| ==> gts[i].class_ in classes
    ensures SupportIn(gts, n, classes) == n
  {
    if n == 0 {
    } else {
      SupportOfAll(gts, n - 1, classes);
    }
  }

  /** The sum of tp + fn over some of the classes. */
  ghost function Total(gts: seq<Label>, preds: seq<seq<Label>>, perClass: map<string, Counts>,
                       classes: set<string>): (r: nat)
    requires classes <= perClass.Keys && forall c :: c in perClass ==> Scored(gts, preds, c, perClass[c])
    ensures r == SupportIn(gts, Zipped(gts, preds), classes)
    decreases |classes|
  {
    if classes == {} then
      SupportSplits(gts, Zipped(gts, preds), {""}, "");
      0
    else
      var c :| c in classes;
      SupportSplits(gts, Zipped(gts, preds), classes, c);
      perClass[c].tp + perClass[c].fn + Total(gts, preds, perClass, classes - {c})
  }

  /** Every compared snapshot is a true positive or a false negative of exactly one class. */
  lemma EverySnapshotCounts(gts: seq<Label>, preds: seq<seq<Label>>, perClass: map<string, Counts>)
    requires perClass.Keys == Classes(gts) && forall c :: c in perClass ==> Scored(gts, preds, c, perClass[c])
    ensures Total(gts, preds, perClass, perClass.Keys) == Zipped(gts, preds)
  {
    SupportOfAll(gts, Zipped(gts, preds), Classes(gts));
  }

  // ---------------------------------------------------------------------------------------
  // Precision, recall and F1
  // ---------------------------------------------------------------------------------------

  function Precision(k: Counts): real {
    if k.tp + k.fp > 0 then k.tp as real / (k.tp + k.fp) as real else 0.0
  }

  function Recall(k: Counts): real {
    if k.tp + k.fn > 0 then k.tp as real / (k.tp + k.fn) as real else 0.0
  }

  function F1(k: Counts): real {
    var p, r := Precision(k), Recall(k);
    if p + r > 0.0 then 2.0 * p * r / (p + r) else 0.0
  }

  lemma Scale(x: real, y: real, d: real)
    requires d > 0.0 && x * d <= y * d
    ensures x <= y
  {
  }

  lemma HarmonicMean(p: real, r: real, f: real)
    requires 0.0 <= p <= r && p + r > 0.0 && f * (p + r) == 2.0 * (p * r)
    ensures p <= f <= r
  {
    Times(p, p, r);
    Times(r, p, r);
    assert r * p == p * r;
    assert p * (p + r) == p * p + p * r;
    assert r * (p + r) == p * r + r * r;
    Scale(p, f, p + r);
    assert f * (p + r) <= r * (p + r) by {
      assert 2.0 * (p * r) == p * r + p * r;
      assert r * r >= p * r;
    }
    Scale(f, r, p + r);
  }

  lemma Times(x: real, p: real, r: real)
    requires 0.0 <= x && p <= r
    ensures x * p <= x * r
  {
  }

  lemma Unit(k: Counts)
    ensures 0.0 <= Precision(k) <= 1.0 && 0.0 <= Recall(k) <= 1.0
  {
  }

  /** The scores lie between 0 and 1, and F1 between the other two. */
  lemma F1Between(k: Counts)
    ensures 0.0 <= Precision(k) <= 1.0 && 0.0 <= Recall(k) <= 1.0
    ensures Precision(k) <= F1(k) <= Recall(k) || Recall(k) <= F1(k) <= Precision(k)
  {
    Unit(k);
    hide Precision, Recall;
    var p, r := Precision(k), Recall(k);
    if p + r > 0.0 {
      Divided(p, r, p + r);
      if p <= r { HarmonicMean(p, r, F1(k)); } else { HarmonicMean(r, p, F1(k)); }
    }
  }

  lemma Divided(p: real, r: real, d: real)
    requires d > 0.0
    ensures (2.0 * p * r / d) * d == 2.0 * (p * r) == 2.0 * (r * p)
  {
  }

  /** F1 weighs the hits against all labels and all predictions, so that it is 1 exactly if
      there are hits and no misses of either kind. */
  lemma F1Formula(k: Counts)
    requires 2 * k.tp + k.fp + k.fn > 0
    ensures F1(k) == (2 * k.tp) as real / (2 * k.tp + k.fp + k.fn) as real
    ensures F1(k) == 1.0 <==> k.fp == 0 && k.fn == 0
  {
    Quotient(2 * k.tp, 2 * k.tp + k.fp + k.fn);
    if k.tp > 0 {
      F1Positive(k);
    } else {
      NoHits(k);
    }
  }

  lemma NoHits(k: Counts)
    requires k.tp == 0
    ensures F1(k) == 0.0
  {
  }

  lemma F1Positive(k: Counts)
    requires k.tp > 0
    ensures F1(k) == (2 * k.tp) as real / (2 * k.tp + k.fp + k.fn) as real
  {
    var t, a, b := k.tp as real, (k.tp + k.fp) as real, (k.tp + k.fn) as real;
    var p, r := Precision(k), Recall(k);
    assert p * a == t && r * b == t;
    Reciprocals(t, a, b, p, r);
  }

  lemma Reciprocals(t: real, a: real, b: real, p: real, r: real)
    requires t > 0.0 && a > 0.0 && b > 0.0 && p * a == t && r * b == t
    ensures p + r > 0.0 && 2.0 * p * r / (p + r) == 2.0 * t / (a + b)
  {
  }
}
