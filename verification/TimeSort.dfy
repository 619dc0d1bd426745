/**
 Stable sorting of (time, item) pairs by time, as `list.sort(key=lambda x: x[0])` does it.
 A sorted list is determined by what it holds at each time and in which order (`Unique`), so
 nothing here depends on how the sort works.
 */
module TimeSort {

  function Insert<T>(s: seq<(int, T)>, x: (int, T)): seq<(int, T)> {
    if s == [] || s[|s| - 1].0 <= x.0 then s + [x]
    else Insert(s[..|s| - 1], x) + [s[|s| - 1]]
  }

  function Sorted<T>(s: seq<(int, T)>): seq<(int, T)> {
    if s == [] then [] else Insert(Sorted(s[..|s| - 1]), s[|s| - 1])
  }

  ghost predicate Ordered<T>(s: seq<(int, T)>) {
    forall i, j :: 0 <= i < j < |s| ==> s[i].0 <= s[j].0
  }

  /** All times lie in [lo, hi]. */
  ghost predicate Spans<T>(s: seq<(int, T)>, lo: int, hi: int) {
    forall i :: 0 <= i < |s| ==> lo <= s[i].0 <= hi
  }

  lemma OrderedAppend<T>(a: seq<(int, T)>, b: seq<(int, T)>, lo: int, mid: int, hi: int)
    requires Ordered(a) && Ordered(b) && lo <= mid <= hi && Spans(a, lo, mid) && Spans(b, mid, hi)
    ensures Ordered(a + b) && Spans(a + b, lo, hi)
  {
  }

  /** What the list holds at time `t`, in order. */
  function AtTime<T>(s: seq<(int, T)>, t: int): seq<(int, T)> {
    if s == [] then []
    else AtTime(s[..|s| - 1], t) + if s[|s| - 1].0 == t then [s[|s| - 1]] else []
  }

  lemma {:induction false} AtTimeAppend<T>(a: seq<(int, T)>, b: seq<(int, T)>, t: int)
    ensures AtTime(a + b, t) == AtTime(a, t) + AtTime(b, t)
  {
    if b == [] {
      assert a + b == a;
    } else {
      assert (a + b)[..|a + b| - 1] == a + b[..|b| - 1];
      AtTimeAppend(a, b[..|b| - 1], t);
    }
  }

  lemma {:induction false} AtTimeHas<T>(s: seq<(int, T)>, x: (int, T), t: int)
    ensures x in AtTime(s, t) <==> x in s && x.0 == t
  {
    if s == [] {
    } else {
      AtTimeHas(s[..|s| - 1], x, t);
      assert s == s[..|s| - 1] + [s[|s| - 1]];
    }
  }

  lemma {:induction false} InsertAt<T>(s: seq<(int, T)>, x: (int, T), t: int)
    requires Ordered(s)
    ensures AtTime(Insert(s, x), t) == AtTime(s + [x], t)
  {
    AtTimeAppend(s, [x], t);
    if s == [] || s[|s| - 1].0 <= x.0 {
    } else {
      var front, last := s[..|s| - 1], s[|s| - 1];
      InsertAt(front, x, t);
      AtTimeAppend(Insert(front, x), [last], t);
      AtTimeAppend(front, [x], t);
      assert s == front + [last];
      AtTimeAppend(front, [last], t);
    }
  }

  lemma {:induction false} InsertOrdered<T>(s: seq<(int, T)>, x: (int, T), hi: int)
    requires Ordered(s) && x.0 <= hi && (s != [] ==> s[|s| - 1].0 <= hi)
    ensures Ordered(Insert(s, x)) && |Insert(s, x)| == |s| + 1
    ensures Insert(s, x)[|s|].0 <= hi
  {
    if s == [] || s[|s| - 1].0 <= x.0 {
    } else {
      InsertOrdered(s[..|s| - 1], x, s[|s| - 1].0);
    }
  }

  lemma {:induction false} SortedOrdered<T>(s: seq<(int, T)>)
    ensures Ordered(Sorted(s)) && |Sorted(s)| == |s|
  {
    if s == [] {
    } else {
      SortedOrdered(s[..|s| - 1]);
      var r, x := Sorted(s[..|s| - 1]), s[|s| - 1];
      InsertOrdered(r, x, if r != [] && r[|r| - 1].0 > x.0 then r[|r| - 1].0 else x.0);
    }
  }

  lemma {:induction false} SortedAt<T>(s: seq<(int, T)>, t: int)
    ensures AtTime(Sorted(s), t) == AtTime(s, t)
  {
    if s == [] {
    } else {
      var front, last := s[..|s| - 1], s[|s| - 1];
      SortedAt(front, t);
      SortedOrdered(front);
      InsertAt(Sorted(front), last, t);
      assert s == front + [last];
      AtTimeAppend(Sorted(front), [last], t);
      AtTimeAppend(front, [last], t);
    }
  }

  /** Sorting keeps what is in the list. */
  lemma SortedHas<T>(s: seq<(int, T)>, x: (int, T))
    ensures x in Sorted(s) <==> x in s
  {
    SortedAt(s, x.0);
    AtTimeHas(s, x, x.0);
    AtTimeHas(Sorted(s), x, x.0);
  }

  /** Two ordered lists that hold the same at every time are equal. */
  lemma {:induction false} Unique<T>(a: seq<(int, T)>, b: seq<(int, T)>)
    requires Ordered(a) && Ordered(b)
    requires forall t :: AtTime(a, t) == AtTime(b, t)
    ensures a == b
    decreases |a|
  {
    if a == [] {
      if b != [] {
        SameLast(b, a);
        assert false;
      }
    } else {
      SameLast(a, b);
      var front, front' := a[..|a| - 1], b[..|b| - 1];
      forall t ensures AtTime(front, t) == AtTime(front', t) {
        assert AtTime(a, t) == AtTime(b, t);
        LastAt(a, b, t);
      }
      Unique(front, front');
      assert a == front + [a[|a| - 1]] && b == front' + [b[|b| - 1]];
      LastAt(a, b, a[|a| - 1].0);
    }
  }

  /** Lists of which one ends before the other begins are sorted one after the other. */
  lemma SortedAppend<T>(a: seq<(int, T)>, b: seq<(int, T)>, lo: int, mid: int, hi: int)
    requires lo <= mid <= hi && Spans(a, lo, mid) && Spans(b, mid, hi)
    ensures Sorted(a + b) == Sorted(a) + Sorted(b)
  {
    SortedOrdered(a);
    SortedOrdered(b);
    SortedOrdered(a + b);
    SortedSpans(a, lo, mid);
    SortedSpans(b, mid, hi);
    OrderedAppend(Sorted(a), Sorted(b), lo, mid, hi);
    forall t ensures AtTime(Sorted(a + b), t) == AtTime(Sorted(a) + Sorted(b), t) {
      SortedAt(a + b, t);
      SortedAt(a, t);
      SortedAt(b, t);
      AtTimeAppend(a, b, t);
      AtTimeAppend(Sorted(a), Sorted(b), t);
    }
    Unique(Sorted(a + b), Sorted(a) + Sorted(b));
  }

  lemma SortedSpans<T>(s: seq<(int, T)>, lo: int, hi: int)
    requires Spans(s, lo, hi)
    ensures Spans(Sorted(s), lo, hi)
  {
    forall i | 0 <= i < |Sorted(s)| ensures lo <= Sorted(s)[i].0 <= hi {
      SortedHas(s, Sorted(s)[i]);
    }
  }

  lemma BelowLast<T>(a: seq<(int, T)>, b: seq<(int, T)>, x: (int, T))
    requires Ordered(b) && x in a
    requires AtTime(a, x.0) == AtTime(b, x.0)
    ensures b != [] && x.0 <= b[|b| - 1].0
  {
  }

  lemma SameLast<T>(a: seq<(int, T)>, b: seq<(int, T)>)
    requires Ordered(a) && Ordered(b) && a != []
    requires forall t :: AtTime(a, t) == AtTime(b, t)
    ensures b != [] && a[|a| - 1].0 == b[|b| - 1].0
  {
    BelowLast(a, b, a[|a| - 1]);
    BelowLast(b, a, b[|b| - 1]);
  }

  lemma LastAt<T>(a: seq<(int, T)>, b: seq<(int, T)>, t: int)
    requires a != [] && b != [] && a[|a| - 1].0 == b[|b| - 1].0
    requires AtTime(a, t) == AtTime(b, t)
    ensures AtTime(a[..|a| - 1], t) == AtTime(b[..|b| - 1], t)
    ensures t == a[|a| - 1].0 ==> a[|a| - 1] == b[|b| - 1]
  {
    var l := if a[|a| - 1].0 == t then [a[|a| - 1]] else [];
    var l' := if b[|b| - 1].0 == t then [b[|b| - 1]] else [];
    SameTail(AtTime(a[..|a| - 1], t), AtTime(b[..|b| - 1], t), l, l');
  }

  lemma SameTail<T>(a: seq<T>, b: seq<T>, c: seq<T>, d: seq<T>)
    requires |c| == |d| && a + c == b + d
    ensures a == b && c == d
  {
    assert a == (a + c)[..|a|] && b == (b + d)[..|b|];
    assert c == (a + c)[|a|..] && d == (b + d)[|b|..];
  }
}
