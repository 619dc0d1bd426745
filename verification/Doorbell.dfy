/**
 The doorbell's press queue (services/doorbell-firmware/src/button.py): every press starts a
 thread that flushes the queue, next to a periodic flush, so any number of flushers share one
 bounded deque. A flusher looks at the head, posts it without holding the lock, and pops the
 head afterwards if it still equals what it posted.
 */
module Doorbell {
  import opened Wrappers

  const QUEUE_MAX: nat := 16

  datatype Press = Press(timestamp: string, device: string)

  /** Where a flusher is between two of its turns with the lock: it posts the press with the
      given number, or has an answer that lets it drop that press. */
  datatype Phase = Posting(index: nat) | Answered(index: nat)

  /** All presses in order; the queue is what follows the first `gone` of them. The history
      says which presses the host answered and which were pushed out by newer ones. */
  datatype Bell = Bell(
    presses: seq<Press>,
    gone: nat,
    flushers: map<nat, Phase>,
    answered: set<nat>,
    overflowed: set<nat>)

  ghost predicate Fits(b: Bell) {
    b.gone <= |b.presses| <= b.gone + QUEUE_MAX
  }

  function Queue(b: Bell): seq<Press>
    requires b.gone <= |b.presses|
  {
    b.presses[b.gone..]
  }

  /** The queue as restored from disk: the last 16 items of the file. */
  function Restored(items: seq<Press>): Bell {
    Bell(if |items| > QUEUE_MAX then items[|items| - QUEUE_MAX..] else items, 0, map[], {}, {})
  }

  // ---------------------------------------------------------------------------------------
  // The steps
  // ---------------------------------------------------------------------------------------

  function Pressed(b: Bell, p: Press): Bell
    requires b.gone <= |b.presses|
  {
    if |b.presses| - b.gone >= QUEUE_MAX then
      b.(presses := b.presses + [p], gone := b.gone + 1, overflowed := b.overflowed + {b.gone})
    else b.(presses := b.presses + [p])
  }

  function Peeked(b: Bell, f: nat): Bell {
    if b.gone >= |b.presses| then b else b.(flushers := b.flushers[f := Posting(b.gone)])
  }

  /** Success and permanent errors let the press go; no answer or a server error keeps it. */
  predicate Accepts(code: Option<int>) {
    code.Some? && code.value < 500
  }

  function Replied(b: Bell, f: nat, code: Option<int>): Bell
    requires f in b.flushers
  {
    var i := b.flushers[f].index;
    if Accepts(code) then b.(flushers := b.flushers[f := Answered(i)], answered := b.answered + {i})
    else b.(flushers := b.flushers - {f})
  }

  predicate Pops(b: Bell, f: nat)
    requires f in b.flushers
  {
    var i := b.flushers[f].index;
    b.gone < |b.presses| && i < |b.presses| && b.presses[b.gone] == b.presses[i]
  }

  function Committed(b: Bell, f: nat): Bell
    requires f in b.flushers
  {
    b.(flushers := b.flushers - {f}, gone := if Pops(b, f) then b.gone + 1 else b.gone)
  }

  datatype Step = Push(press: Press) | Peek(f: nat) | Reply(f: nat, code: Option<int>) | Commit(f: nat)

  predicate Allowed(b: Bell, s: Step) {
    match s
    case Push(_) => b.gone <= |b.presses|
    case Peek(f) => f !in b.flushers
    case Reply(f, _) => f in b.flushers && b.flushers[f].Posting?
    case Commit(f) => f in b.flushers && b.flushers[f].Answered?
  }

  function Next(b: Bell, s: Step): Bell
    requires Allowed(b, s)
  {
    match s
    case Push(p) => Pressed(b, p)
    case Peek(f) => Peeked(b, f)
    case Reply(f, code) => Replied(b, f, code)
    case Commit(f) => Committed(b, f)
  }

  ghost predicate Leads(b: Bell, run: seq<Step>, r: Bell)
    decreases |run|
  {
    if run == [] then b == r
    else Allowed(b, run[0]) && Leads(Next(b, run[0]), run[1..], r)
  }

  // ---------------------------------------------------------------------------------------
  // What every run keeps
  // ---------------------------------------------------------------------------------------

  ghost predicate Tracks(b: Bell) {
    && Fits(b)
    && (forall f :: f in b.flushers ==> b.flushers[f].index < |b.presses|)
    && (forall f :: f in b.flushers && b.flushers[f].Answered? ==> b.flushers[f].index in b.answered)
    && (forall i :: i in b.overflowed ==> i + QUEUE_MAX < |b.presses|)
  }

  lemma StepTracks(b: Bell, s: Step)
    requires Tracks(b) && Allowed(b, s)
    ensures Tracks(Next(b, s)) && b.presses <= Next(b, s).presses
  {
  }

  lemma {:induction false} RunTracks(b: Bell, run: seq<Step>, r: Bell)
    requires Tracks(b) && Leads(b, run, r)
    ensures Tracks(r) && b.presses <= r.presses
    decreases |run|
  {
    if run == [] {
    } else {
      StepTracks(b, run[0]);
      RunTracks(Next(b, run[0]), run[1..], r);
    }
  }

  /** A press has left the queue only if the host answered that very press, or 16 newer ones
      pushed it out. */
  ghost predicate Delivered(b: Bell) {
    forall i :: 0 <= i < b.gone ==> i in b.answered || i in b.overflowed
  }

  ghost predicate Distinct(presses: seq<Press>) {
    forall i, j :: 0 <= i < j < |presses| ==> presses[i] != presses[j]
  }

  lemma StepDelivers(b: Bell, s: Step)
    requires Tracks(b) && Allowed(b, s) && Delivered(b) && Distinct(Next(b, s).presses)
    ensures Delivered(Next(b, s))
  {
  }

  lemma {:induction false} RunDelivers(b: Bell, run: seq<Step>, r: Bell)
    requires Tracks(b) && Leads(b, run, r) && Delivered(b) && Distinct(r.presses)
    ensures Delivered(r)
    decreases |run|
  {
    if run == [] {
    } else {
      StepTracks(b, run[0]);
      RunTracks(Next(b, run[0]), run[1..], r);
      assert forall i :: 0 <= i < |Next(b, run[0]).presses| ==> r.presses[i] == Next(b, run[0]).presses[i];
      StepDelivers(b, run[0]);
      RunDelivers(Next(b, run[0]), run[1..], r);
    }
  }

  // ---------------------------------------------------------------------------------------
  // Safe exactly for distinct presses
  // ---------------------------------------------------------------------------------------

  /** No interleaving of flushers loses one of these presses. */
  ghost predicate NeverLoses(all: seq<Press>) {
    forall items, run, r :: Leads(Restored(items), run, r) && r.presses <= all ==> Delivered(r)
  }

  /** A press that leaves the queue at a commit is the one that the committing flusher posted
      and had answered, not one that another flusher is still posting. */
  lemma PopsOwn(items: seq<Press>, run: seq<Step>, b: Bell, f: nat)
    requires Leads(Restored(items), run, b) && Distinct(b.presses)
    requires Allowed(b, Commit(f)) && Committed(b, f).gone > b.gone
    ensures b.flushers[f] == Answered(b.gone) && b.gone in b.answered
  {
    RunTracks(Restored(items), run, b);
  }

  /** The queue holds what was pressed last, in press order, and at most 16 presses. */
  lemma QueueIsSuffix(items: seq<Press>, run: seq<Step>, b: Bell)
    requires Leads(Restored(items), run, b)
    ensures b.gone <= |b.presses| && b.presses[..b.gone] + Queue(b) == b.presses && |Queue(b)| <= 16
    ensures forall i :: i in b.overflowed ==> i + 16 < |b.presses|
  {
    RunTracks(Restored(items), run, b);
  }

  lemma {:induction false} Chain(a: Bell, x: seq<Step>, b: Bell, y: seq<Step>, c: Bell)
    requires Leads(a, x, b) && Leads(b, y, c)
    ensures Leads(a, x + y, c)
    decreases |x|
  {
    if x == [] {
      assert x + y == y;
    } else {
      assert (x + y)[1..] == x[1..] + y;
      Chain(Next(a, x[0]), x[1..], b, y, c);
    }
  }

  function Range(lo: nat, hi: nat): (r: set<nat>)
    ensures forall i :: i in r <==> lo <= i < hi
    decreases hi - lo
  {
    if hi <= lo then {} else Range(lo, hi - 1) + {hi - 1}
  }

  /** The state after some presses were each served at once by flusher 0. */
  function Served(b: Bell, ps: seq<Press>): Bell {
    b.(presses := b.presses + ps, gone := b.gone + |ps|,
       answered := b.answered + Range(|b.presses|, |b.presses| + |ps|))
  }

  lemma Extend(a: Bell, run: seq<Step>, b: Bell, s: Step)
    requires Leads(a, run, b) && Allowed(b, s)
    ensures Leads(a, run + [s], Next(b, s))
  {
    assert [s][1..] == [];
    assert Leads(Next(b, s), [], Next(b, s));
    Chain(a, run, b, [s], Next(b, s));
  }

  lemma ServeOne(b: Bell, p: Press) returns (run: seq<Step>)
    requires b.gone == |b.presses| && 0 !in b.flushers
    ensures Leads(b, run, Served(b, [p]))
  {
    var b1 := Pressed(b, p);
    Extend(b, [], b, Push(p));
    var b2 := Peeked(b1, 0);
    Extend(b, [Push(p)], b1, Peek(0));
    var b3 := Replied(b2, 0, Some(200));
    Extend(b, [Push(p)] + [Peek(0)], b2, Reply(0, Some(200)));
    var b4 := Committed(b3, 0);
    Extend(b, [Push(p)] + [Peek(0)] + [Reply(0, Some(200))], b3, Commit(0));
    run := [Push(p)] + [Peek(0)] + [Reply(0, Some(200))] + [Commit(0)];
    assert b4.flushers == b.flushers;
    assert b4.answered == Served(b, [p]).answered;
  }

  lemma {:induction false} ServeAll(b: Bell, ps: seq<Press>) returns (run: seq<Step>)
    requires b.gone == |b.presses| && 0 !in b.flushers
    ensures Leads(b, run, Served(b, ps))
    decreases |ps|
  {
    if ps == [] {
      run := [];
      assert Served(b, ps).answered == b.answered;
      assert b.presses + ps == b.presses;
    } else {
      var p, rest := ps[0], ps[1..];
      var first := ServeOne(b, p);
      var tail := ServeAll(Served(b, [p]), rest);
      assert Served(Served(b, [p]), rest) == Served(b, ps) by {
        assert b.presses + [p] + rest == b.presses + ps;
        assert Served(Served(b, [p]), rest).answered == Served(b, ps).answered;
      }
      Chain(b, first, Served(b, [p]), tail, Served(b, ps));
      run := first + tail;
    }
  }

  /** Two flushers post the same press and the host answers both; one of them pops it, the
      other has yet to take the lock. */
  lemma Race(b: Bell, p: Press) returns (run: seq<Step>, r: Bell)
    requires b.gone == |b.presses| && b.flushers == map[]
    ensures Leads(b, run, r)
    ensures r == b.(presses := b.presses + [p], gone := b.gone + 1, flushers := map[1 := Answered(b.gone)],
                    answered := b.answered + {b.gone})
  {
    var b1 := Pressed(b, p);
    Extend(b, [], b, Push(p));
    var b2 := Peeked(b1, 1);
    Extend(b, [Push(p)], b1, Peek(1));
    var b3 := Replied(b2, 1, Some(200));
    run := [Push(p)] + [Peek(1)];
    Extend(b, run, b2, Reply(1, Some(200)));
    run := run + [Reply(1, Some(200))];
    var b4 := Peeked(b3, 0);
    Extend(b, run, b3, Peek(0));
    run := run + [Peek(0)];
    var b5 := Replied(b4, 0, Some(200));
    Extend(b, run, b4, Reply(0, Some(200)));
    run := run + [Reply(0, Some(200))];
    r := Committed(b5, 0);
    Extend(b, run, b5, Commit(0));
    run := run + [Commit(0)];
    assert b5.flushers == map[1 := Answered(b.gone), 0 := Answered(b.gone)];
    assert r.flushers == map[1 := Answered(b.gone)];
  }

  /** With two equal presses, the late flusher takes the second one unanswered. */
  lemma Collision(all: seq<Press>, i: nat, j: nat) returns (run: seq<Step>, r: Bell)
    requires i < j < |all| && all[i] == all[j]
    ensures Leads(Restored([]), run, r) && r.presses <= all && !Delivered(r)
  {
    var start := Restored([]);
    var b1 := Served(start, all[..i]);
    var before := ServeAll(start, all[..i]);
    var race, b2 := Race(b1, all[i]);
    Chain(start, before, b1, race, b2);
    var b3 := Served(b2, all[i + 1..j]);
    var between := ServeAll(b2, all[i + 1..j]);
    Chain(start, before + race, b2, between, b3);
    run := before + race + between;
    assert b3.presses == all[..j];
    var b4 := Pressed(b3, all[j]);
    Extend(start, run, b3, Push(all[j]));
    run := run + [Push(all[j])];
    assert b4.presses == all[..j + 1] && b4.presses[i] == b4.presses[j];
    r := Committed(b4, 1);
    Extend(start, run, b4, Commit(1));
    run := run + [Commit(1)];
    assert j !in r.answered && j !in r.overflowed;
  }

  /**
   Whatever the number of flushers and however they interleave, no press is lost, exactly if no
   two presses are equal. Equal presses are not ruled out by the queue itself, only by the
   timestamps that presses carry.
   */
  lemma NeverLosesIff(all: seq<Press>)
    ensures NeverLoses(all) <==> Distinct(all)
  {
    if Distinct(all) {
      forall items, run, r | Leads(Restored(items), run, r) && r.presses <= all ensures Delivered(r) {
        RunDelivers(Restored(items), run, r);
      }
    } else {
      var i, j :| 0 <= i < j < |all| && all[i] == all[j];
      var run, r := Collision(all, i, j);
      assert Leads(Restored([]), run, r) && r.presses <= all && !Delivered(r);
    }
  }

  // ---------------------------------------------------------------------------------------
  // The deque
  // ---------------------------------------------------------------------------------------

  /** How many presses a flusher that runs alone gets rid of, given the host's answers. */
  function Accepted(n: nat, answers: nat -> Option<int>, k: nat): (r: nat)
    requires k <= n
    ensures k <= r <= n && (forall j :: k <= j < r ==> Accepts(answers(j))) && (r < n ==> !Accepts(answers(r)))
    decreases n - k
  {
    if k == n || !Accepts(answers(k)) then k else Accepted(n, answers, k + 1)
  }

  /** The first k answers are codes below 500, and the next is none, or 500 or more. */
  ghost predicate StopsAfter(n: nat, answers: nat -> Option<int>, k: nat) {
    && k <= n
    && (forall j :: 0 <= j < k ==> answers(j).Some? && answers(j).value < 500)
    && (k < n ==> answers(k).None? || answers(k).value >= 500)
  }

  /** A flusher that runs alone gets rid of exactly those presses. */
  lemma AcceptedIff(n: nat, answers: nat -> Option<int>, k: nat)
    ensures StopsAfter(n, answers, k) <==> k == Accepted(n, answers, 0)
  {
    var r := Accepted(n, answers, 0);
    if k < r {
      assert Accepts(answers(k));
    }
    if r < k <= n {
      assert !Accepts(answers(r));
    }
  }

  class PressQueue {
    var queue: seq<Press>
    ghost var bell: Bell

    ghost predicate Valid()
      reads this
    {
      Tracks(bell) && queue == Queue(bell)
    }

    constructor (items: seq<Press>)
      ensures Valid() && bell == Restored(items)
    {
      queue := if |items| > QUEUE_MAX then items[|items| - QUEUE_MAX..] else items;
      bell := Restored(items);
    }

    /** `append` on a deque with a maximum length pushes out the head. */
    method OnPress(p: Press)
      requires Valid()
      modifies this
      ensures Valid() && bell == Pressed(old(bell), p)
    {
      if |queue| == QUEUE_MAX {
        queue := queue[1..];
      }
      queue := queue + [p];
      bell := Pressed(bell, p);
    }

    method Peek(ghost f: nat) returns (press: Option<Press>)
      requires Valid() && f !in bell.flushers
      modifies this`bell
      ensures Valid() && bell == Peeked(old(bell), f)
      ensures press.None? <==> f !in bell.flushers
      ensures press.Some? ==> press.value == bell.presses[bell.flushers[f].index]
    {
      if queue == [] { return None; }
      press := Some(queue[0]);
      bell := Peeked(bell, f);
    }

    /** The answer changes nothing in the queue; it decides how the flusher goes on. */
    method Answer(code: Option<int>, ghost f: nat) returns (accepted: bool)
      requires Valid() && f in bell.flushers && bell.flushers[f].Posting?
      modifies this`bell
      ensures Valid() && bell == Replied(old(bell), f, code) && accepted == Accepts(code)
      ensures accepted <==> code.Some? && code.value < 500
    {
      accepted := code.Some? && code.value < 500;
      bell := Replied(bell, f, code);
    }

    method Commit(press: Press, ghost f: nat)
      requires Valid() && f in bell.flushers && bell.flushers[f].Answered?
      requires press == bell.presses[bell.flushers[f].index]
      modifies this
      ensures Valid() && bell == Committed(old(bell), f)
    {
      if queue != [] && queue[0] == press {
        queue := queue[1..];
      }
      bell := Committed(bell, f);
    }

    /** One turn of the flushing loop, without interference. */
    method Turn(answer: Option<int>, ghost f: nat) returns (served: bool)
      requires Valid() && f !in bell.flushers
      modifies this
      ensures Valid() && f !in bell.flushers
      ensures served <==> old(queue) != [] && Accepts(answer)
      ensures queue == if served then old(queue)[1..] else old(queue)
    {
      var press := Peek(f);
      if press.None? { return false; }
      served := Answer(answer, f);
      if !served { return; }
      Commit(press.value, f);
    }

    /** `_flush` when no other flusher interferes: it drops presses from the head up to the
        first one that the host does not accept. */
    method Flush(answers: nat -> Option<int>, ghost f: nat)
      requires Valid() && f !in bell.flushers
      modifies this
      ensures Valid() && f !in bell.flushers
      ensures queue == old(queue)[Accepted(|old(queue)|, answers, 0)..]
      ensures exists k: nat :: StopsAfter(|old(queue)|, answers, k) && queue == old(queue)[k..]
    {
      AcceptedIff(|queue|, answers, Accepted(|queue|, answers, 0));
      var k := 0;
      hide Valid;
      while true
        invariant Valid() && f !in bell.flushers && k <= |old(queue)| && queue == old(queue)[k..]
        invariant Accepted(|old(queue)|, answers, 0) == Accepted(|old(queue)|, answers, k)
        decreases |queue|
      {
        var served := Turn(answers(k), f);
        if !served { return; }
        k := k + 1;
      }
    }
  }
}
