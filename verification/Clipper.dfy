/**
 Clips cut from a ring of video segments (services/clipper/src/segmenter.py and the window
 arithmetic of services/clipper/src/main.py).

 ffmpeg writes segments of fixed length one after the other into `size` files, each new
 segment over the oldest file. A clip worker waits until the time after the event has passed
 and collects the files whose modification time lies in a padded window. Times are integers in
 any fixed unit.
 */
module Clipper {
  import opened Wrappers
  import opened TimeSort

  // ---------------------------------------------------------------------------------------
  // Listing the segments of a window
  // ---------------------------------------------------------------------------------------

  /** A directory entry: which segment it holds, whether it is a file with suffix .ts, and its
      modification time unless reading that fails. */
  datatype Entry = Entry(segment: int, isFile: bool, isTs: bool, mtime: Option<int>)

  predicate Selected(e: Entry, start: int, end: int) {
    e.isFile && e.isTs && e.mtime.Some? && start <= e.mtime.value <= end
  }

  function Candidates(entries: seq<Entry>, start: int, end: int): seq<(int, int)> {
    if entries == [] then []
    else
      var e := entries[|entries| - 1];
      Candidates(entries[..|entries| - 1], start, end)
      + if Selected(e, start, end) then [(e.mtime.value, e.segment)] else []
  }

  function Segments(found: seq<(int, int)>): (r: seq<int>)
    ensures |r| == |found| && forall i :: 0 <= i < |r| ==> r[i] == found[i].1
  {
    seq(|found|, i requires 0 <= i < |found| => found[i].1)
  }

  /** The segments of the window in the order of their modification times; none if there is no
      directory. */
  method SegmentsInWindow(dir: Option<seq<Entry>>, start: int, end: int) returns (segments: seq<int>)
    ensures dir.None? ==> segments == []
    ensures dir.Some? ==> segments == Segments(Sorted(Candidates(dir.value, start, end)))
  {
    if dir.None? {
      return [];
    }
    var entries := dir.value;
    var found: seq<(int, int)> := [];
    for i := 0 to |entries|
      invariant found == Candidates(entries[..i], start, end)
    {
      var e := entries[i];
      assert entries[..i + 1][..i] == entries[..i];
      if e.isFile && e.isTs && e.mtime.Some? && start <= e.mtime.value && e.mtime.value <= end {
        found := found + [(e.mtime.value, e.segment)];
      }
    }
    assert entries[..|entries|] == entries;
    segments := Segments(Sorted(found));
  }

  lemma {:induction false} CandidatesHave(entries: seq<Entry>, start: int, end: int, x: (int, int))
    ensures x in Candidates(entries, start, end)
       <==> exists i :: 0 <= i < |entries| && Selected(entries[i], start, end)
                        && x == (entries[i].mtime.value, entries[i].segment)
  {
    if entries == [] {
    } else {
      var front, e := entries[..|entries| - 1], entries[|entries| - 1];
      CandidatesHave(front, start, end, x);
      assert forall i :: 0 <= i < |front| ==> front[i] == entries[i];
      assert Selected(e, start, end) && x == (e.mtime.value, e.segment) ==> entries[|entries| - 1] == e;
    }
  }

  /** What is listed is exactly what the window selects, in time order. */
  lemma ListsTheWindow(entries: seq<Entry>, start: int, end: int, x: (int, int))
    ensures Ordered(Sorted(Candidates(entries, start, end)))
    ensures x in Sorted(Candidates(entries, start, end))
       <==> exists i :: 0 <= i < |entries| && Selected(entries[i], start, end)
                        && x == (entries[i].mtime.value, entries[i].segment)
  {
    var c := Candidates(entries, start, end);
    SortedOrdered(c);
    SortedHas(c, x);
    CandidatesHave(entries, start, end, x);
  }

  // ---------------------------------------------------------------------------------------
  // The ring
  // ---------------------------------------------------------------------------------------

  /** The ring as it is at time `now`: segment j shows the time from origin + j * length on,
      and the one in progress was last written at `written`. */
  datatype Ring = Ring(origin: int, length: int, size: int, now: int, written: int)

  function Start(r: Ring, j: int): int {
    r.origin + j * r.length
  }

  function Current(r: Ring): int
    requires r.length > 0
  {
    (r.now - r.origin) / r.length
  }

  /** Complete and not yet overwritten: the segment in progress has taken one of the files. */
  predicate Kept(r: Ring, j: int)
    requires r.length > 0
  {
    0 <= j < Current(r) && Current(r) - r.size < j
  }

  /** The directory of the ring: its .ts files are the kept segments, written when they ended,
      and the one in progress. It may hold other things as well. */
  ghost predicate Holds(entries: seq<Entry>, r: Ring)
    requires r.length > 0
  {
    && (forall j :: Kept(r, j) ==> Entry(j, true, true, Some(Start(r, j + 1))) in entries)
    && (forall e :: e in entries && e.isFile && e.isTs && e.mtime.Some? ==>
          if e.segment == Current(r) then e.mtime.value == r.written
          else Kept(r, e.segment) && e.mtime.value == Start(r, e.segment + 1))
  }

  // ---------------------------------------------------------------------------------------
  // The clip
  // ---------------------------------------------------------------------------------------

  datatype Settings = Settings(pre: int, post: int, length: int, size: int)

  predicate Sensible(c: Settings) {
    c.pre >= 0 && c.post >= 0 && c.length > 0 && c.size > 0
  }

  /** How long a worker sleeps that takes up the event at time `now`. */
  function Wait(c: Settings, event: int, now: int): int {
    (if event + c.post > now then event + c.post - now else 0) + c.length
  }

  /** After the sleep, the segment with the end of the window is complete; the worker is late
      by the time it took up the event after the window's end. */
  lemma ReadTime(c: Settings, event: int, now: int)
    ensures now + Wait(c, event, now)
         == event + c.post + c.length + if now > event + c.post then now - (event + c.post) else 0
  {
  }

  /** The modification times a clip asks for: a segment length more than it needs on each side. */
  function Window(c: Settings, event: int): (int, int) {
    (event - c.pre - c.length, event + c.post + c.length)
  }

  predicate Shows(r: Ring, j: int, t: int) {
    Start(r, j) <= t <= Start(r, j + 1)
  }

  ghost predicate Shown(segments: seq<int>, r: Ring, t: int) {
    exists j :: j in segments && Shows(r, j, t)
  }

  /** The segments show every instant of the clip. */
  ghost predicate Covers(segments: seq<int>, r: Ring, from: int, to: int) {
    forall t :: from <= t <= to ==> Shown(segments, r, t)
  }

  /** The ring that a worker finds which reads it `late` after the earliest moment. */
  function RingAt(c: Settings, origin: int, event: int, late: int, written: int): Ring {
    Ring(origin, c.length, c.size, event + c.post + c.length + late, written)
  }

  function Clip(c: Settings, entries: seq<Entry>, event: int): seq<int> {
    Segments(Sorted(Candidates(entries, Window(c, event).0, Window(c, event).1)))
  }

  lemma ClipHas(c: Settings, entries: seq<Entry>, event: int, j: int)
    ensures j in Clip(c, entries, event)
       <==> exists e :: e in entries && Selected(e, Window(c, event).0, Window(c, event).1) && e.segment == j
  {
    var start, end := Window(c, event).0, Window(c, event).1;
    var found := Sorted(Candidates(entries, start, end));
    if j in Segments(found) {
      var i :| 0 <= i < |found| && found[i].1 == j;
      ListsTheWindow(entries, start, end, found[i]);
    }
    forall e | e in entries && Selected(e, start, end) && e.segment == j ensures j in Segments(found) {
      var i :| 0 <= i < |entries| && entries[i] == e;
      ListsTheWindow(entries, start, end, (e.mtime.value, j));
      var k :| 0 <= k < |found| && found[k] == (e.mtime.value, j);
      assert Segments(found)[k] == j;
    }
  }

  /** Integer division finds the segment that shows an instant. */
  lemma Showing(r: Ring, t: int) returns (j: int)
    requires r.length > 0 && r.origin <= t
    ensures j >= 0 && Start(r, j) <= t < Start(r, j + 1) == Start(r, j) + r.length
  {
    j := (t - r.origin) / r.length;
    assert (j + 1) * r.length == j * r.length + r.length;
  }

  lemma Slower(a: int, b: int, s: int)
    requires s > 0 && a * s < b * s
    ensures a < b
  {
  }

  /** The instants of the clip are shown by segments that are complete and still there. */
  lemma StillThere(c: Settings, r: Ring, event: int, late: int, t: int, j: int)
    requires Sensible(c) && late >= 0 && r == RingAt(c, r.origin, event, late, r.written)
    requires c.pre + c.post + late <= (c.size - 2) * c.length
    requires r.origin <= event - c.pre <= t <= event + c.post
    requires j >= 0 && Start(r, j) <= t < Start(r, j + 1) == Start(r, j) + r.length
    ensures Kept(r, j)
  {
    var m, s := Current(r), r.length;
    assert m * s <= r.now - r.origin < m * s + s;
    assert (j + c.size) * s == j * s + s + (c.size - 2) * s + s;
    Slower(m, j + c.size, s);
    assert (m + 1) * s == m * s + s;
    Slower(j + 1, m + 1, s);
  }

  lemma CoversClip(c: Settings, entries: seq<Entry>, r: Ring, event: int, late: int)
    requires Sensible(c) && late >= 0 && r == RingAt(c, r.origin, event, late, r.written)
    requires c.pre + c.post + late <= (c.size - 2) * c.length
    requires r.origin <= event - c.pre && Holds(entries, r)
    ensures Covers(Clip(c, entries, event), r, event - c.pre, event + c.post)
  {
    forall t | event - c.pre <= t <= event + c.post ensures Shown(Clip(c, entries, event), r, t) {
      var j := Showing(r, t);
      StillThere(c, r, event, late, t, j);
      var e := Entry(j, true, true, Some(Start(r, j + 1)));
      assert e in entries && Selected(e, Window(c, event).0, Window(c, event).1);
      ClipHas(c, entries, event, j);
      assert Shows(r, j, t);
    }
  }

  /** A directory that holds the ring and nothing else. */
  function Listing(r: Ring): (entries: seq<Entry>)
    requires r.length > 0 && r.size > 0
    ensures Holds(entries, r)
  {
    hide Current;
    var first := if Current(r) - r.size + 1 > 0 then Current(r) - r.size + 1 else 0;
    var n := if Current(r) > first then Current(r) - first else 0;
    var kept := seq(n, i requires 0 <= i => Entry(first + i, true, true, Some(Start(r, first + i + 1))));
    assert forall j :: Kept(r, j) ==> kept[j - first] == Entry(j, true, true, Some(Start(r, j + 1)));
    kept + [Entry(Current(r), true, true, Some(r.written))]
  }

  /** When the segments do not reach back far enough, an event right before the end of a segment
      is too early: its segment has been overwritten by the time the worker reads the ring. */
  lemma Overwritten(c: Settings, late: int, written: int)
    requires Sensible(c) && late >= 0 && c.pre + c.post + late > (c.size - 2) * c.length
    ensures var event := c.pre + c.length - 1;
            var r := RingAt(c, 0, event, late, written);
            !Covers(Clip(c, Listing(r), event), r, event - c.pre, event + c.post)
  {
    var event := c.pre + c.length - 1;
    var r := RingAt(c, 0, event, late, written);
    var t := event - c.pre;
    Filled(c, late, written);
    hide Listing, Clip, Current;
    forall j | j in Clip(c, Listing(r), event) ensures !Shows(r, j, t) {
      ClipHas(c, Listing(r), event, j);
      assert j >= 1;
      AfterFirst(r, j);
    }
    assert !Shown(Clip(c, Listing(r), event), r, t);
  }

  lemma Filled(c: Settings, late: int, written: int)
    requires Sensible(c) && late >= 0 && c.pre + c.post + late > (c.size - 2) * c.length
    ensures Current(RingAt(c, 0, c.pre + c.length - 1, late, written)) >= c.size
  {
    var r, s := RingAt(c, 0, c.pre + c.length - 1, late, written), c.length;
    var m := Current(r);
    assert r.now < (m + 1) * s;
    assert c.size * s == (c.size - 2) * s + s + s;
    Slower(c.size, m + 1, s);
  }

  lemma AfterFirst(r: Ring, j: int)
    requires r.length > 0 && r.origin == 0 && j >= 1
    ensures Start(r, j) >= r.length
  {
  }

  /** Whenever the recording began and whatever else is in the directory, the clip is complete. */
  ghost predicate AlwaysCovers(c: Settings, late: int)
    requires Sensible(c)
  {
    forall origin, event, written, entries ::
      origin <= event - c.pre && Holds(entries, RingAt(c, origin, event, late, written)) ==>
        Covers(Clip(c, entries, event), RingAt(c, origin, event, late, written), event - c.pre, event + c.post)
  }

  /**
   Clips are complete for every alignment of the event with the segments exactly if the time
   before the event, the time after it and the worker's lateness fit into all but two of the
   ring's segments.
   */
  lemma CoverageIff(c: Settings, late: int)
    requires Sensible(c) && late >= 0
    ensures AlwaysCovers(c, late) <==> c.pre + c.post + late <= (c.size - 2) * c.length
  {
    if c.pre + c.post + late <= (c.size - 2) * c.length {
      forall origin, event, written, entries |
        origin <= event - c.pre && Holds(entries, RingAt(c, origin, event, late, written))
        ensures Covers(Clip(c, entries, event), RingAt(c, origin, event, late, written), event - c.pre, event + c.post)
      {
        CoversClip(c, entries, RingAt(c, origin, event, late, written), event, late);
      }
    } else {
      Overwritten(c, late, 0);
      var event := c.pre + c.length - 1;
      var r := RingAt(c, 0, event, late, 0);
      assert Holds(Listing(r), r);
    }
  }

  /** A clip has no more than it asks for: a complete segment is in it exactly if it is still
      there, ended a segment length before the clip begins or later, and began by its end. The
      segment in progress is in it if it was last written to in the padded window. */
  lemma ClipHasIff(c: Settings, entries: seq<Entry>, r: Ring, event: int, j: int)
    requires Sensible(c) && r.length == c.length && Holds(entries, r)
    ensures j in Clip(c, entries, event) && j != Current(r)
       <==> Kept(r, j) && Start(r, j + 1) >= event - c.pre - c.length && Start(r, j) <= event + c.post
    ensures j in Clip(c, entries, event) && j == Current(r) ==>
              event - c.pre - c.length <= r.written <= event + c.post + c.length
  {
    NextStart(r, j);
    ClipHas(c, entries, event, j);
    if Kept(r, j) {
      assert Entry(j, true, true, Some(Start(r, j + 1))) in entries;
    }
    hide Clip, Start, Current;
  }

  lemma NextStart(r: Ring, j: int)
    ensures Start(r, j + 1) == Start(r, j) + r.length
  {
  }

  /** A clip plays in order: if the file in progress was written to after the last segment was
      complete, no segment comes before an earlier one. */
  lemma ClipInOrder(c: Settings, entries: seq<Entry>, r: Ring, event: int, i: nat, k: nat)
    requires Sensible(c) && r.length == c.length && Holds(entries, r) && r.written > Start(r, Current(r))
    requires i < k < |Clip(c, entries, event)|
    ensures Clip(c, entries, event)[i] <= Clip(c, entries, event)[k]
  {
    var start, end := Window(c, event).0, Window(c, event).1;
    var found := Sorted(Candidates(entries, start, end));
    ListsTheWindow(entries, start, end, found[i]);
    ListsTheWindow(entries, start, end, found[k]);
    assert found[i] in found && found[k] in found;
    var a, b := found[i].1, found[k].1;
    assert found[i].0 <= found[k].0;
    if b < a {
      Later(r, b + 1, a);
    }
  }

  lemma Later(r: Ring, a: int, b: int)
    requires r.length > 0 && a <= b
    ensures Start(r, a) <= Start(r, b) < Start(r, b + 1)
  {
  }
}
