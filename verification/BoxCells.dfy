/**
 What intersection over union means: boxes are sets of unit cells, and the score is the share of
 the cells of either box that belong to both.
 */
module BoxCells {
  import opened Evaluator

  /** The numbers from `lo` up to `hi`. */
  function Span(lo: int, hi: int): (r: set<int>)
    ensures forall x :: x in r <==> lo <= x < hi
    decreases hi - lo
  {
    if hi <= lo then {} else Span(lo, hi - 1) + {hi - 1}
  }

  /** The unit cells of a box, by their lower corners. */
  function Cells(a: Box): set<(int, int)> {
    set x, y | x in Span(a.x1, a.x2) && y in Span(a.y1, a.y2) :: (x, y)
  }

  function Column(x: int, lo: int, hi: int): set<(int, int)> {
    set y | y in Span(lo, hi) :: (x, y)
  }

  lemma {:induction false} ColumnSize(x: int, lo: int, hi: int)
    requires lo <= hi
    ensures |Column(x, lo, hi)| == hi - lo
    decreases hi - lo
  {
    if lo == hi {
      assert Column(x, lo, hi) == {};
    } else {
      ColumnSize(x, lo, hi - 1);
      assert Column(x, lo, hi) == Column(x, lo, hi - 1) + {(x, hi - 1)};
    }
  }

  /** A box has as many cells as its area says. */
  lemma {:induction false} CellsSize(a: Box)
    requires a.x1 <= a.x2 && a.y1 <= a.y2
    ensures |Cells(a)| == Area(a)
    decreases a.x2 - a.x1
  {
    if a.x1 == a.x2 {
      assert Cells(a) == {};
      assert Area(a) == 0;
    } else {
      hide *;
      var rest := a.(x2 := a.x2 - 1);
      CellsSize(rest);
      ColumnSize(rest.x2, a.y1, a.y2);
      LastColumn(a);
      AreaOfRest(a, rest);
    }
  }

  lemma AreaOfRest(a: Box, rest: Box)
    requires rest == a.(x2 := a.x2 - 1)
    ensures Area(a) == Area(rest) + (a.y2 - a.y1)
  {
    OneMoreColumn(a.x2 - a.x1, a.y2 - a.y1);
  }

  lemma LastColumn(a: Box)
    requires a.x1 < a.x2
    ensures var rest, last := a.(x2 := a.x2 - 1), Column(a.x2 - 1, a.y1, a.y2);
      Cells(a) == Cells(rest) + last && Cells(rest) !! last
  {
    var rest, last := a.(x2 := a.x2 - 1), Column(a.x2 - 1, a.y1, a.y2);
    forall c ensures c in Cells(a) <==> c in Cells(rest) || c in last {
    }
  }

  lemma OneMoreColumn(w: int, h: int)
    ensures w * h == (w - 1) * h + h
  {
  }

  /** The cells of both boxes are those of the box between the inner edges, if there is one. */
  lemma SharedCells(a: Box, b: Box)
    ensures |Cells(a) * Cells(b)| == Intersection(a, b)
  {
    var c := Box(Max(a.x1, b.x1), Max(a.y1, b.y1), Min(a.x2, b.x2), Min(a.y2, b.y2));
    assert Cells(a) * Cells(b) == Cells(c);
    if c.x1 <= c.x2 && c.y1 <= c.y2 {
      CellsSize(c);
    } else {
      assert Cells(c) == {};
      Nothing(c.x2 - c.x1, c.y2 - c.y1);
    }
  }

  lemma Nothing(w: int, h: int)
    requires w < 0 || h < 0
    ensures Max(0, w) * Max(0, h) == 0
  {
  }

  lemma UnionSize(s: set<(int, int)>, t: set<(int, int)>)
    ensures |s + t| == |s| + |t| - |s * t|
  {
    assert s + t == s + (t - s * t);
    assert t == (t - s * t) + s * t;
  }

  /** The score of two boxes times the cells of either is the cells of both. */
  lemma IouIsShare(a: Box, b: Box)
    requires Solid(a) && Solid(b)
    ensures |Cells(a) + Cells(b)| > 0
    ensures Iou(a, b) * |Cells(a) + Cells(b)| as real == |Cells(a) * Cells(b)| as real
  {
    hide *;
    UnionCells(a, b);
    var n, m := |Cells(a) + Cells(b)|, |Cells(a) * Cells(b)|;
    IouValue(a, b, n, m);
  }

  lemma UnionCells(a: Box, b: Box)
    requires Solid(a) && Solid(b)
    ensures |Cells(a) + Cells(b)| == Area(a) + Area(b) - Intersection(a, b) > 0
    ensures |Cells(a) * Cells(b)| == Intersection(a, b)
  {
    Ordered(a);
    Ordered(b);
    hide *;
    CellsSize(a);
    CellsSize(b);
    SharedCells(a, b);
    UnionSize(Cells(a), Cells(b));
    UnionLarger(a, b);
  }

  lemma Ordered(a: Box)
    requires Solid(a)
    ensures a.x1 <= a.x2 && a.y1 <= a.y2
  {
  }

  lemma UnionLarger(a: Box, b: Box)
    requires Solid(a) && Solid(b)
    ensures Area(a) + Area(b) > Intersection(a, b)
  {
    AreaPositive(a);
    AreaPositive(b);
    Overlap(a, b);
    hide Area, Intersection;
  }

  lemma IouValue(a: Box, b: Box, n: int, m: int)
    requires n == Area(a) + Area(b) - Intersection(a, b) > 0 && m == Intersection(a, b)
    ensures Iou(a, b) * n as real == m as real
  {
    hide Area, Intersection;
    Fraction(m, n);
  }

  lemma AreaPositive(a: Box)
    requires Solid(a)
    ensures Area(a) > 0
  {
  }

  lemma Fraction(n: int, d: int)
    requires d > 0
    ensures (n as real / d as real) * d as real == n as real
  {
  }

  /** Boxes whose corners are the wrong way round have no cells and score nothing. */
  lemma Degenerate(a: Box, b: Box)
    requires !Solid(a) || !Solid(b)
    ensures Iou(a, b) == 0.0 && Cells(a) * Cells(b) == {}
  {
    Overlap(a, b);
    NoShare(a, b);
  }

  lemma NoShare(a: Box, b: Box)
    requires Intersection(a, b) == 0
    ensures Iou(a, b) == 0.0
  {
    hide Intersection, Area;
  }

  /** So two boxes match exactly if they share at least half of the cells of either, and score
      nothing exactly if they share none. */
  lemma MatchesIff(a: Box, b: Box)
    ensures Iou(a, b) >= 0.5 <==> Solid(a) && Solid(b) && 2 * |Cells(a) * Cells(b)| >= |Cells(a) + Cells(b)|
    ensures Iou(a, b) == 0.0 <==> Cells(a) !! Cells(b)
  {
    hide *;
    Disjoint(Cells(a), Cells(b));
    if Solid(a) && Solid(b) {
      IouIsShare(a, b);
      HalfOrMore(Iou(a, b), |Cells(a) * Cells(b)|, |Cells(a) + Cells(b)|);
    } else {
      Degenerate(a, b);
    }
  }

  lemma Disjoint(s: set<(int, int)>, t: set<(int, int)>)
    ensures s !! t <==> |s * t| == 0
  {
    if s * t == {} {
      forall c | c in s ensures c !in t {
        assert c in t ==> c in s * t;
      }
    } else {
      var c :| c in s * t;
      assert c in s && c in t;
    }
  }

  lemma HalfOrMore(x: real, n: nat, d: nat)
    requires d > 0 && x * d as real == n as real
    ensures x >= 0.5 <==> 2 * n >= d
    ensures x == 0.0 <==> n == 0
  {
    if x >= 0.5 { Product(0.5, x, d as real); } else { Product(x, 0.5, d as real); }
    if n == 0 && x != 0.0 {
      if x > 0.0 { Positive(x, d as real); } else { Positive(-x, d as real); }
    }
  }

  lemma Product(x: real, y: real, d: real)
    requires x <= y && d > 0.0
    ensures x * d <= y * d
    ensures x < y ==> x * d < y * d
  {
  }

  lemma Positive(x: real, d: real)
    requires x > 0.0 && d > 0.0
    ensures x * d > 0.0
  {
  }

  /** Scores are computed for the classes that some label has, and no others. */
  lemma {:induction false} ClassesIff(gts: seq<Label>, c: string)
    ensures c in Classes(gts) <==> exists i :: 0 <= i < |gts| && gts[i].class_ == c
  {
    if gts == [] {
    } else {
      var front, n := gts[..|gts| - 1], |gts| - 1;
      ClassesIff(front, c);
      assert forall i :: 0 <= i < n ==> front[i] == gts[i];
      assert gts[n].class_ == c ==> c in Classes(gts);
    }
  }

  /** Precision is the share of the predictions that hit, recall that of the labels that are hit;
      both are 0 when there is nothing to share. */
  lemma SharesOfHits(k: Counts)
    ensures Precision(k) * (k.tp + k.fp) as real == k.tp as real && (k.tp + k.fp == 0 ==> Precision(k) == 0.0)
    ensures Recall(k) * (k.tp + k.fn) as real == k.tp as real && (k.tp + k.fn == 0 ==> Recall(k) == 0.0)
  {
  }
}
