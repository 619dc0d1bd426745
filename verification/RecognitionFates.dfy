/**
 What becomes of a detection in the recognition buffer, told from the steps of a run alone: the
 first step after its submission that concerns it decides.
 */
module RecognitionFates {
  import opened B = RecognitionBuffer

  /** The steps that end an entry's wait: a recognition or a later detection with its token, a
      poll pass at or after its deadline, a flush. */
  predicate Concerns(step: Step, e: Pending) {
    match step
    case DirectStep(_) => false
    case DetectStep(f) => f.event.token == e.event.token
    case RecognitionStep(r) => r.token == e.event.token
    case PollStep(now) => e.deadline <= now
    case FlushStep => true
  }

  /** The entry is submitted by step `d`, and no step after it and before `n` concerns it. */
  ghost predicate Waits(steps: seq<Step>, e: Pending, d: nat, n: nat) {
    d < n <= |steps| && steps[d] == DetectStep(e) && forall m :: d < m < n ==> !Concerns(steps[m], e)
  }

  /** Step `k` is the first to concern the entry after its submission by step `d`. */
  ghost predicate First(steps: seq<Step>, e: Pending, d: nat, k: nat) {
    Waits(steps, e, d, k) && k < |steps| && Concerns(steps[k], e)
  }

  /** The call of the dispatcher that such a step owes to the entry. */
  predicate Owed(step: Step, e: Pending, x: Dispatch) {
    match step
    case RecognitionStep(r) => x == Annotated(e, r)
    case PollStep(now) => x == Bare(e, now)
    case FlushStep => x == Flushed(e)
    case _ => false
  }

  predicate IsOf(x: Dispatch, e: Pending) {
    !x.Direct? && x.entry == e
  }

  // ---------------------------------------------------------------------------------------
  // Until the first step that concerns it, and at that step
  // ---------------------------------------------------------------------------------------

  lemma StepWaits(b: Buffer, step: Step, b': Buffer, e: Pending)
    requires Inv(b) && Next(b, step, b') && Live(b, e) && !Concerns(step, e)
    ensures Live(b', e)
  {
  }

  lemma {:induction false} StaysLive(states: seq<Buffer>, steps: seq<Step>, e: Pending, d: nat, n: nat)
    requires IsRun(states, steps) && Waits(steps, e, d, n)
    ensures |states| == |steps| + 1 && Live(states[n], e)
  {
    hide *;
    WaitsBefore(steps, e, d, n);
    var i := n - 1;
    RunStep(states, steps, i);
    if i == d {
      NewIsLive(states[d], e, states[n]);
    } else {
      StaysLive(states, steps, e, d, i);
      RunKeeps(states, steps, i);
      StepWaits(states[i], steps[i], states[n], e);
    }
  }

  lemma RunStep(states: seq<Buffer>, steps: seq<Step>, i: nat)
    requires IsRun(states, steps) && i < |steps|
    ensures |states| == |steps| + 1 && Next(states[i], steps[i], states[i + 1])
  {
    hide Next;
  }

  lemma WaitsBefore(steps: seq<Step>, e: Pending, d: nat, n: nat)
    requires Waits(steps, e, d, n)
    ensures d < n <= |steps| && steps[d] == DetectStep(e)
    ensures d < n - 1 ==> Waits(steps, e, d, n - 1) && !Concerns(steps[n - 1], e)
  {
  }

  lemma NewIsLive(b: Buffer, e: Pending, b': Buffer)
    requires Next(b, DetectStep(e), b')
    ensures Live(b', e)
  {
  }

  lemma {:induction false} HandedTo(log: seq<Dispatch>, e: Pending)
    requires Handed(log)[e] > 0
    ensures exists i :: 0 <= i < |log| && IsOf(log[i], e)
  {
    var front, last := log[..|log| - 1], log[|log| - 1];
    if IsOf(last, e) {
    } else {
      HandedTo(front, e);
      var i :| 0 <= i < |front| && IsOf(front[i], e);
      assert log[i] == front[i];
    }
  }

  /** A log that has grown by a call about the entry. */
  lemma NewCall(old': seq<Dispatch>, log: seq<Dispatch>, e: Pending) returns (x: Dispatch)
    requires |old'| <= |log| && log[..|old'|] == old' && Handed(log)[e] > Handed(old')[e]
    ensures IsOf(x, e) && x in log && x in log[|old'|..]
  {
    var more := log[|old'|..];
    assert log == old' + more;
    HandedAppend(old', more);
    HandedTo(more, e);
    var i :| 0 <= i < |more| && IsOf(more[i], e);
    x := more[i];
    assert log[|old'| + i] == x;
  }

  /** The deciding step hands the entry over as it owes, or a later detection replaces it. */
  lemma StepDecides(b: Buffer, step: Step, b': Buffer, e: Pending)
    requires Inv(b) && Next(b, step, b') && Live(b, e) && Concerns(step, e)
    ensures !step.DetectStep? ==> exists x :: x in b'.log && Owed(step, e, x)
    ensures step.DetectStep? ==> e in b'.replaced
  {
    match step
    case DirectStep(_) =>
    case DetectStep(_) =>
    case RecognitionStep(r) =>
      assert b'.log == b.log + [Annotated(e, r)];
      assert Annotated(e, r) in b'.log && Owed(step, e, Annotated(e, r));
    case PollStep(now) => PollDecides(b, now, b', e);
    case FlushStep => FlushDecides(b, b', e);
  }

  lemma PollDecides(b: Buffer, now: int, b': Buffer, e: Pending)
    requires Polled(b, now, b') && Live(b, e) && e.deadline <= now
    ensures Bare(e, now) in b'.log
  {
    assert e in Due(b, now);
    var x := NewCall(b.log, b'.log, e);
    var more := b'.log[|b.log|..];
    var i :| 0 <= i < |more| && more[i] == x;
    assert b'.log[|b.log| + i] == x;
  }

  lemma FlushDecides(b: Buffer, b': Buffer, e: Pending)
    requires FlushedAll(b, b') && Live(b, e)
    ensures Flushed(e) in b'.log
  {
    assert e in b.pending.Values;
    var x := NewCall(b.log, b'.log, e);
    var more := b'.log[|b.log|..];
    var i :| 0 <= i < |more| && more[i] == x;
    assert b'.log[|b.log| + i] == x;
  }

  /** A recognition that finds its detection waiting releases it at once, annotated. */
  lemma AnnotatedAtOnce(states: seq<Buffer>, steps: seq<Step>, e: Pending, d: nat, k: nat, r: Recognition)
    requires IsRun(states, steps) && First(steps, e, d, k) && steps[k] == RecognitionStep(r)
    ensures states[k + 1].log == states[k].log + [Annotated(e, r)] && !Live(states[k + 1], e)
  {
    StaysLive(states, steps, e, d, k);
    RunKeeps(states, steps, k);
    assert Next(states[k], steps[k], states[k + 1]);
  }

  // ---------------------------------------------------------------------------------------
  // Nothing is taken back, and nothing happens twice
  // ---------------------------------------------------------------------------------------

  lemma {:induction false} HistoryGrows(states: seq<Buffer>, steps: seq<Step>, m: nat, n: nat, x: Dispatch, e: Pending)
    requires IsRun(states, steps) && m <= n <= |steps|
    ensures x in states[m].log ==> x in states[n].log
    ensures e in states[m].replaced ==> e in states[n].replaced
  {
    if m == n {
    } else {
      HistoryGrows(states, steps, m, n - 1, x, e);
      assert Next(states[n - 1], steps[n - 1], states[n]);
      StepGrows(states[n - 1], steps[n - 1], states[n], x);
    }
  }

  lemma StepGrows(b: Buffer, step: Step, b': Buffer, x: Dispatch)
    requires Next(b, step, b')
    ensures x in b.log ==> x in b'.log
    ensures b.replaced <= b'.replaced
  {
    if x in b.log {
      var i :| 0 <= i < |b.log| && b.log[i] == x;
      assert step.PollStep? || step.FlushStep? ==> b'.log[..|b.log|][i] == x;
    }
  }

  lemma {:induction false} Counted(log: seq<Dispatch>, e: Pending, x: Dispatch)
    requires x in log && IsOf(x, e)
    ensures Handed(log)[e] >= 1
  {
    var front, last := log[..|log| - 1], log[|log| - 1];
    assert log == front + [last];
    if last == x {
    } else {
      Counted(front, e, x);
    }
  }

  lemma {:induction false} CountedTwice(log: seq<Dispatch>, e: Pending, x: Dispatch, y: Dispatch)
    requires x in log && y in log && IsOf(x, e) && IsOf(y, e) && x != y
    ensures Handed(log)[e] >= 2
  {
    var front, last := log[..|log| - 1], log[|log| - 1];
    assert log == front + [last];
    if last == x {
      Counted(front, e, y);
    } else if last == y {
      Counted(front, e, x);
    } else {
      CountedTwice(front, e, x, y);
    }
  }

  lemma {:induction false} SubmittedBy(states: seq<Buffer>, steps: seq<Step>, n: nat, e: Pending) returns (d: nat)
    requires IsRun(states, steps) && n <= |steps| && e in states[n].submitted
    ensures d < n && steps[d] == DetectStep(e)
  {
    if n == 0 {
      assert false;
    } else {
      assert Next(states[n - 1], steps[n - 1], states[n]);
      if e in states[n - 1].submitted {
        d := SubmittedBy(states, steps, n - 1, e);
      } else {
        d := n - 1;
      }
    }
  }

  /** An entry that waits no more met a step that concerns it. */
  lemma {:induction false} FirstConcern(steps: seq<Step>, e: Pending, d: nat, n: nat) returns (k: nat)
    requires d < n <= |steps| && steps[d] == DetectStep(e) && !Waits(steps, e, d, n)
    ensures k < n && First(steps, e, d, k)
  {
    if Waits(steps, e, d, n - 1) {
      k := n - 1;
    } else if n - 1 > d {
      k := FirstConcern(steps, e, d, n - 1);
    } else {
      assert false;
    }
  }

  lemma Decided(states: seq<Buffer>, steps: seq<Step>, n: nat, e: Pending, d: nat, k: nat)
    requires IsRun(states, steps) && k < n <= |steps| && First(steps, e, d, k)
    ensures !steps[k].DetectStep? ==> exists x :: x in states[n].log && Owed(steps[k], e, x)
    ensures steps[k].DetectStep? ==> e in states[n].replaced
  {
    StaysLive(states, steps, e, d, k);
    RunKeeps(states, steps, k);
    RunStep(states, steps, k);
    hide IsRun, Inv, Next, Waits, Live;
    StepDecides(states[k], steps[k], states[k + 1], e);
    if steps[k].DetectStep? {
      HistoryGrows(states, steps, k + 1, n, Flushed(e), e);
    } else {
      var x :| x in states[k + 1].log && Owed(steps[k], e, x);
      HistoryGrows(states, steps, k + 1, n, x, e);
    }
  }

  lemma OwedIsOf(step: Step, e: Pending, x: Dispatch)
    requires Owed(step, e, x)
    ensures IsOf(x, e)
  {
  }

  // ---------------------------------------------------------------------------------------
  // The theorem
  // ---------------------------------------------------------------------------------------

  /** Step `k` is the first to concern the entry, and owes it the call `x`. */
  ghost predicate Owes(steps: seq<Step>, e: Pending, x: Dispatch, d: nat, k: nat) {
    First(steps, e, d, k) && Owed(steps[k], e, x)
  }

  ghost predicate Replaces(steps: seq<Step>, e: Pending, d: nat, k: nat) {
    First(steps, e, d, k) && steps[k].DetectStep?
  }

  /** What is known at the end about an entry that was submitted. */
  lemma Settled(states: seq<Buffer>, steps: seq<Step>, e: Pending) returns (d: nat)
    requires IsRun(states, steps) && e in states[|steps|].submitted
    ensures d < |steps| && steps[d] == DetectStep(e) && Fates(states[|steps|], e) == 1
    ensures Waits(steps, e, d, |steps|) ==> Live(states[|steps|], e)
    ensures !Waits(steps, e, d, |steps|) ==> exists k: nat :: First(steps, e, d, k)
  {
    var n := |steps|;
    d := SubmittedBy(states, steps, n, e);
    RunKeeps(states, steps, n);
    OneFate(states[n], e);
    if Waits(steps, e, d, n) {
      StaysLive(states, steps, e, d, n);
    } else {
      var k := FirstConcern(steps, e, d, n);
    }
  }

  lemma Involved(b: Buffer, e: Pending)
    requires Inv(b) && (Handed(b.log)[e] > 0 || b.replaced[e] > 0 || Live(b, e))
    ensures e in b.submitted
  {
    var all := multiset(b.pending.Values) + Handed(b.log) + b.replaced;
    if Live(b, e) { assert e in b.pending.Values; }
    assert all[e] > 0 && all == multiset(b.submitted);
  }

  /**
   An entry is handed to the dispatcher exactly as the first step that concerns it owes:
   annotated with the recognition that comes first, bare by a poll pass that comes first,
   flushed by a flush that comes first.
   */
  lemma DispatchedIff(states: seq<Buffer>, steps: seq<Step>, e: Pending, x: Dispatch)
    requires IsRun(states, steps) && IsOf(x, e)
    ensures x in states[|steps|].log <==> exists d: nat, k: nat :: Owes(steps, e, x, d, k)
  {
    var b := states[|steps|];
    forall d: nat, k: nat | Owes(steps, e, x, d, k) ensures x in b.log {
      Decided(states, steps, |steps|, e, d, k);
      SameOwed(steps[k], e, x);
    }
    if x in b.log {
      Counted(b.log, e, x);
      RunKeeps(states, steps, |steps|);
      Involved(b, e);
      var d := Settled(states, steps, e);
      var k: nat :| First(steps, e, d, k);
      Decided(states, steps, |steps|, e, d, k);
      var y :| y in b.log && Owed(steps[k], e, y);
      OwedIsOf(steps[k], e, y);
      if x != y { CountedTwice(b.log, e, x, y); }
      assert Owes(steps, e, x, d, k);
    }
  }

  lemma SameOwed(step: Step, e: Pending, x: Dispatch)
    ensures forall y :: Owed(step, e, x) && Owed(step, e, y) ==> x == y
  {
  }

  /** It is replaced exactly if a later detection with its token comes first. */
  lemma ReplacedIff(states: seq<Buffer>, steps: seq<Step>, e: Pending)
    requires IsRun(states, steps)
    ensures e in states[|steps|].replaced <==> exists d: nat, k: nat :: Replaces(steps, e, d, k)
  {
    var b := states[|steps|];
    forall d: nat, k: nat | Replaces(steps, e, d, k) ensures e in b.replaced {
      Decided(states, steps, |steps|, e, d, k);
    }
    if e in b.replaced {
      RunKeeps(states, steps, |steps|);
      Involved(b, e);
      var d := Settled(states, steps, e);
      var k: nat :| First(steps, e, d, k);
      Decided(states, steps, |steps|, e, d, k);
      if !steps[k].DetectStep? {
        var y :| y in b.log && Owed(steps[k], e, y);
        OwedIsOf(steps[k], e, y);
        Counted(b.log, e, y);
      }
      assert Replaces(steps, e, d, k);
    }
  }

  /** And it is pending exactly as long as nothing concerns it. */
  lemma PendingIff(states: seq<Buffer>, steps: seq<Step>, e: Pending)
    requires IsRun(states, steps)
    ensures Live(states[|steps|], e) <==> exists d: nat :: Waits(steps, e, d, |steps|)
  {
    var b := states[|steps|];
    forall d: nat | Waits(steps, e, d, |steps|) ensures Live(b, e) {
      StaysLive(states, steps, e, d, |steps|);
    }
    if Live(b, e) {
      RunKeeps(states, steps, |steps|);
      Involved(b, e);
      var d := Settled(states, steps, e);
      if k: nat :| First(steps, e, d, k) {
        Decided(states, steps, |steps|, e, d, k);
        if !steps[k].DetectStep? {
          var y :| y in b.log && Owed(steps[k], e, y);
          OwedIsOf(steps[k], e, y);
          Counted(b.log, e, y);
        }
      }
      assert Waits(steps, e, d, |steps|);
    }
  }
}
