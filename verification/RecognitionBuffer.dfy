/**
 Holding detections back until their recognition arrives
 (services/notifier/src/recognition_buffer.py).

 Entries are objects and are compared by identity, as the source does with `is not`; their
 fields never change. The heap is a bag from which some entry of least deadline is popped,
 so that the theorems hold for every way a heap may break ties. Times are integers.
 */
module RecognitionBuffer {

  datatype Event = Event(token: string, body: int)

  datatype Recognition = Recognition(token: string, body: int)

  class Pending {
    const event: Event
    const deadline: int

    constructor (event: Event, deadline: int)
      ensures this.event == event && this.deadline == deadline
    {
      this.event, this.deadline := event, deadline;
    }
  }

  /** One call of on_dispatch. */
  datatype Dispatch =
    | Direct(event: Event)                              // no token to correlate by
    | Annotated(entry: Pending, recognition: Recognition)
    | Bare(entry: Pending, at: int)                     // the poll pass at time `at`
    | Flushed(entry: Pending)

  /** `submitted` and `replaced` are history; the rest is the buffer and what it has called. */
  datatype Buffer = Buffer(
    pending: map<string, Pending>,
    heap: multiset<Pending>,
    log: seq<Dispatch>,
    submitted: seq<Pending>,
    replaced: multiset<Pending>)

  // ---- The atomic steps ----------------------------------------------------------------

  ghost predicate Live(b: Buffer, e: Pending) {
    e.event.token in b.pending && b.pending[e.event.token] == e
  }

  ghost function Submitted(b: Buffer, e: Pending): Buffer {
    var token := e.event.token;
    Buffer(b.pending[token := e], b.heap + multiset{e}, b.log, b.submitted + [e],
           if token in b.pending then b.replaced + multiset{b.pending[token]} else b.replaced)
  }

  ghost function Recognized(b: Buffer, r: Recognition): Buffer {
    if r.token == "" || r.token !in b.pending then b
    else b.(pending := b.pending - {r.token}, log := b.log + [Annotated(b.pending[r.token], r)])
  }

  /** The entries handed to the dispatcher, with multiplicity. */
  ghost function Handed(log: seq<Dispatch>): multiset<Pending> {
    if log == [] then multiset{}
    else Handed(log[..|log| - 1]) + HandedBy(log[|log| - 1])
  }

  ghost function HandedBy(d: Dispatch): multiset<Pending> {
    if d.Direct? then multiset{} else multiset{d.entry}
  }

  /** The log has grown by bare dispatches made at `now`, in deadline order. */
  ghost predicate Extends(b: Buffer, now: int, log: seq<Dispatch>) {
    && |b.log| <= |log| && log[..|b.log|] == b.log
    && (forall i :: |b.log| <= i < |log| ==> log[i].Bare? && log[i].at == now && log[i].entry.deadline <= now)
    && (forall i, j :: |b.log| <= i < j < |log| ==> log[i].entry.deadline <= log[j].entry.deadline)
  }

  ghost function Due(b: Buffer, now: int): set<Pending> {
    set e | e in b.pending.Values && e.deadline <= now
  }

  /** A poll pass at `now`: every pending entry that is due is dispatched bare, once and in
      deadline order; the heap loses everything that is due, pending or stale. */
  ghost predicate Polled(b: Buffer, now: int, b': Buffer) {
    && Extends(b, now, b'.log)
    && (forall t :: t in b'.pending <==> t in b.pending && b.pending[t].deadline > now)
    && (forall t :: t in b'.pending ==> b'.pending[t] == b.pending[t])
    && (forall e :: e in b'.heap ==> e in b.heap && e.deadline > now && b'.heap[e] == b.heap[e])
    && (forall e :: e in b.heap && e.deadline > now ==> e in b'.heap)
    && Handed(b'.log) == Handed(b.log) + multiset(Due(b, now))
    && b'.submitted == b.submitted && b'.replaced == b.replaced
  }

  /** _flush_all: nothing stays pending, and each entry that was is dispatched once. */
  ghost predicate FlushedAll(b: Buffer, b': Buffer) {
    && |b.log| <= |b'.log| && b'.log[..|b.log|] == b.log
    && b'.pending == map[] && b'.heap == multiset{}
    && (forall i :: |b.log| <= i < |b'.log| ==> b'.log[i].Flushed?)
    && Handed(b'.log) == Handed(b.log) + multiset(b.pending.Values)
    && b'.submitted == b.submitted && b'.replaced == b.replaced
  }

  // ---- The invariant -------------------------------------------------------------------

  ghost predicate Inv(b: Buffer) {
    Kept(b) && Accounted(b) && Truthful(b) && Succession(b)
  }

  /** Every pending entry is filed under its own token and is in the heap; the heap holds
      submitted entries only, each at most once. */
  ghost predicate Kept(b: Buffer) {
    && (forall t :: t in b.pending ==> t != "" && b.pending[t].event.token == t)
    && (forall t :: t in b.pending ==> b.pending[t] in b.heap)
    && (forall e :: e in b.heap ==> b.heap[e] == 1 && e in b.submitted)
  }

  /** Entries are distinct objects, and each is pending, dispatched or replaced, once. */
  ghost predicate Accounted(b: Buffer) {
    && Distinct(b.submitted)
    && multiset(b.pending.Values) + Handed(b.log) + b.replaced == multiset(b.submitted)
  }

  ghost predicate Distinct(s: seq<Pending>) {
    forall i, j :: 0 <= i < j < |s| ==> s[i] != s[j]
  }

  ghost predicate Truthful(b: Buffer) {
    forall i :: 0 <= i < |b.log| ==> Honest(b.log[i])
  }

  /** Replaced entries have a successor with their token; pending entries have none. */
  ghost predicate Succession(b: Buffer) {
    && (forall i :: 0 <= i < |b.submitted| && b.submitted[i] in b.replaced ==> Superseded(b, i))
    && (forall i :: 0 <= i < |b.submitted| && Live(b, b.submitted[i]) ==> !Superseded(b, i))
  }

  /** Bare dispatches are not early; an annotation belongs to the entry's own token. */
  ghost predicate Honest(d: Dispatch) {
    match d
    case Bare(e, now) => e.deadline <= now
    case Annotated(e, r) => r.token == e.event.token
    case Direct(event) => event.token == ""
    case Flushed(e) => true
  }

  /** A later detection carried the same token. */
  ghost predicate Superseded(b: Buffer, i: nat)
    requires i < |b.submitted|
  {
    exists j :: i < j < |b.submitted| && b.submitted[j].event.token == b.submitted[i].event.token
  }

  // ---- The object ----------------------------------------------------------------------

  function FlushLog(entries: seq<Pending>): seq<Dispatch> {
    if entries == [] then [] else FlushLog(entries[..|entries| - 1]) + [Flushed(entries[|entries| - 1])]
  }

  lemma {:induction false} HandedAppend(a: seq<Dispatch>, b: seq<Dispatch>)
    ensures Handed(a + b) == Handed(a) + Handed(b)
  {
    if b == [] {
      assert a + b == a;
    } else {
      assert (a + b)[..|a + b| - 1] == a + b[..|b| - 1];
      HandedAppend(a, b[..|b| - 1]);
    }
  }

  lemma {:induction false} FlushLogFacts(entries: seq<Pending>)
    ensures Handed(FlushLog(entries)) == multiset(entries)
    ensures forall i :: 0 <= i < |FlushLog(entries)| ==> FlushLog(entries)[i].Flushed?
  {
    if entries == [] {
    } else {
      var front, last := entries[..|entries| - 1], entries[|entries| - 1];
      FlushLogFacts(front);
      assert entries == front + [last];
      assert FlushLog(entries) == FlushLog(front) + [Flushed(last)];
      HandedOneMore(FlushLog(front), Flushed(last));
      OneMoreEntry(front, last);
      hide *;
    }
  }

  lemma OneMoreEntry(front: seq<Pending>, last: Pending)
    ensures multiset(front + [last]) == multiset(front) + multiset{last}
  {
  }

  lemma FlushIsDone(b: Buffer, entries: seq<Pending>)
    requires multiset(entries) == multiset(b.pending.Values)
    ensures FlushedAll(b, b.(pending := map[], heap := multiset{}, log := b.log + FlushLog(entries)))
  {
    FlushLogFacts(entries);
    HandedAppend(b.log, FlushLog(entries));
  }

  class RecognitionBuffer {
    const coalesce: int
    var pending: map<string, Pending>
    var heap: multiset<Pending>
    var log: seq<Dispatch>
    ghost var submitted: seq<Pending>
    ghost var replaced: multiset<Pending>

    ghost function View(): Buffer
      reads this
    {
      Buffer(pending, heap, log, submitted, replaced)
    }

    constructor (coalesce: int)
      ensures Inv(View()) && this.coalesce == coalesce
      ensures View() == Buffer(map[], multiset{}, [], [], multiset{})
    {
      this.coalesce := coalesce;
      pending, heap, log := map[], multiset{}, [];
      submitted, replaced := [], multiset{};
    }

    /** `now` is the clock reading taken before the mutex. */
    method SubmitDetection(event: Event, now: int)
      modifies this
      ensures event.token == "" ==> View() == old(View()).(log := old(log) + [Direct(event)])
      ensures event.token != "" ==>
        exists e: Pending ::
          fresh(e) && e.event == event && e.deadline == now + coalesce && View() == Submitted(old(View()), e)
    {
      if event.token == "" {
        log := log + [Direct(event)];
        return;
      }
      var entry := new Pending(event, now + coalesce);
      if event.token in pending {
        replaced := replaced + multiset{pending[event.token]};
      }
      pending := pending[event.token := entry];
      heap := heap + multiset{entry};
      submitted := submitted + [entry];
    }

    method SubmitRecognition(recognition: Recognition)
      modifies this
      ensures View() == Recognized(old(View()), recognition)
    {
      if recognition.token == "" {
        return;
      }
      if recognition.token in pending {
        var entry := pending[recognition.token];
        pending := pending - {recognition.token};
        log := log + [Annotated(entry, recognition)];
      }
    }

    /** heap[0]: some entry of least deadline. */
    method Least() returns (e: Pending)
      requires heap != multiset{}
      ensures IsLeast(heap, e)
    {
      e :| e in heap;
      var rest: multiset<Pending> := heap[e := 0];
      while rest != multiset{}
        invariant e in heap
        invariant forall f :: f in heap && f !in rest ==> e.deadline <= f.deadline
        decreases rest
      {
        var f :| f in rest;
        if f.deadline < e.deadline {
          e := f;
        }
        rest := rest[f := 0];
      }
    }

    /** Pop `expired` from the heap; dispatch it if it is still the pending entry of its token. */
    method Pop(expired: Pending, now: int)
      requires expired in heap
      modifies this`pending, this`heap, this`log
      ensures View() == Popped(old(View()), expired, now)
    {
      heap := heap - multiset{expired};
      var token := expired.event.token;
      if token !in pending || pending[token] != expired {
        return;
      }
      pending := pending - {token};
      log := log + [Bare(expired, now)];
    }

    /** The test and the body of the polling loop; False when nothing is due any more. */
    method PopDue(ghost b: Buffer, now: int) returns (more: bool)
      requires Inv(b) && Polling(b, now, View())
      modifies this`pending, this`heap, this`log
      ensures Polling(b, now, View())
      ensures more ==> |heap| < |old(heap)|
      ensures !more ==> forall e :: e in heap ==> e.deadline > now
    {
      if heap == multiset{} {
        return false;
      }
      var expired := Least();
      if expired.deadline > now {
        return false;
      }
      PopKeeps(b, now, View(), expired);
      Pop(expired, now);
      return true;
    }

    /** One pass of the polling loop, under the mutex. */
    method PollPass(now: int)
      requires Inv(View())
      modifies this`pending, this`heap, this`log
      ensures Polled(old(View()), now, View())
    {
      ghost var b := View();
      PollStarts(b, now);
      var more := true;
      while more
        invariant Polling(b, now, View())
        invariant !more ==> forall e :: e in heap ==> e.deadline > now
        decreases more, |heap|
      {
        more := PopDue(b, now);
      }
      PollEnds(b, now, View());
    }

    /** list(self._pending.values()) */
    method Values() returns (entries: seq<Pending>)
      requires forall t :: t in pending ==> pending[t].event.token == t
      ensures multiset(entries) == multiset(pending.Values)
    {
      entries := [];
      var all, rest := pending, pending;
      assert rest.Values - rest.Values == {};
      while rest != map[]
        invariant forall t :: t in rest ==> t in all && rest[t] == all[t]
        invariant multiset(entries) == multiset(all.Values - rest.Values)
        decreases |rest|
      {
        var t :| t in rest;
        assert all[t] in all.Values;
        OneMoreMissing(all.Values, rest, t);
        entries := entries + [rest[t]];
        assert |rest.Keys| == |(rest - {t}).Keys| + 1;
        rest := rest - {t};
      }
      assert all.Values - rest.Values == all.Values;
    }

    method DispatchAll(entries: seq<Pending>)
      modifies this`log
      ensures log == old(log) + FlushLog(entries)
    {
      for i := 0 to |entries|
        invariant log == old(log) + FlushLog(entries[..i])
      {
        assert entries[..i + 1][..i] == entries[..i];
        log := log + [Flushed(entries[i])];
      }
      assert entries[..|entries|] == entries;
    }

    method FlushAll()
      requires Kept(View())
      modifies this`pending, this`heap, this`log
      ensures FlushedAll(old(View()), View())
    {
      var entries := Values();
      FlushIsDone(View(), entries);
      pending, heap := map[], multiset{};
      DispatchAll(entries);
    }

    /** stop(flush=...), once the worker has been told to end. */
    method Stop(flush: bool)
      requires Kept(View())
      modifies this`pending, this`heap, this`log
      ensures flush ==> FlushedAll(old(View()), View())
      ensures !flush ==> View() == old(View())
    {
      if flush {
        FlushAll();
      }
    }
  }

  // ---- The poll loop -------------------------------------------------------------------

  ghost function Popped(c: Buffer, e: Pending, now: int): Buffer {
    var rest := c.(heap := c.heap - multiset{e});
    if Live(c, e)
    then rest.(pending := c.pending - {e.event.token}, log := c.log + [Bare(e, now)])
    else rest
  }

  /** Between two pops: what has left the heap was due, no later than anything left in it,
      and has been dispatched if it was pending. */
  ghost predicate Polling(b: Buffer, now: int, c: Buffer) {
    && HeapLeft(b, now, c.heap)
    && PendingLeft(b, c.heap, c.pending)
    && LogLeft(b, now, c)
    && c.submitted == b.submitted && c.replaced == b.replaced
  }

  ghost predicate HeapLeft(b: Buffer, now: int, heap: multiset<Pending>) {
    && (forall e :: e in heap ==> e in b.heap && heap[e] == 1)
    && (forall e :: e in b.heap && e !in heap ==> e.deadline <= now)
    && (forall e, f :: e in b.heap && e !in heap && f in heap ==> e.deadline <= f.deadline)
  }

  ghost predicate PendingLeft(b: Buffer, heap: multiset<Pending>, pending: map<string, Pending>) {
    && (forall t :: t in pending <==> t in b.pending && b.pending[t] in heap)
    && (forall t :: t in pending ==> pending[t] == b.pending[t])
  }

  lemma PollStarts(b: Buffer, now: int)
    requires Inv(b)
    ensures Polling(b, now, b)
  {
  }

  /** `e` is what heap[0] may be. */
  ghost predicate IsLeast(heap: multiset<Pending>, e: Pending) {
    e in heap && forall f :: f in heap ==> e.deadline <= f.deadline
  }

  lemma PopLeaves(b: Buffer, now: int, heap: multiset<Pending>, e: Pending)
    requires HeapLeft(b, now, heap) && IsLeast(heap, e) && e.deadline <= now
    ensures HeapLeft(b, now, heap - multiset{e})
    ensures forall f :: f in heap - multiset{e} <==> f in heap && f != e
  {
  }

  lemma PopKeeps(b: Buffer, now: int, c: Buffer, e: Pending)
    requires Inv(b) && Polling(b, now, c)
    requires IsLeast(c.heap, e) && e.deadline <= now
    ensures Polling(b, now, Popped(c, e, now))
    ensures |c.heap - multiset{e}| < |c.heap|
  {
    PopLeaves(b, now, c.heap, e);
    if Live(c, e) {
      PendingShrinks(b, c, e);
      LogGrows(b, now, c, e);
    } else {
      forall t | t in b.pending ensures b.pending[t] in c.heap <==> b.pending[t] in c.heap - multiset{e} {
        assert b.pending[t] == e && t in c.pending ==> Live(c, e);
      }
    }
  }

  ghost predicate LogLeft(b: Buffer, now: int, c: Buffer) {
    && Extends(b, now, c.log)
    && (forall i :: |b.log| <= i < |c.log| ==> c.log[i].entry in b.heap && c.log[i].entry !in c.heap)
    && Handed(c.log) == Handed(b.log) + multiset(b.pending.Values - c.pending.Values)
  }

  lemma LogGrows(b: Buffer, now: int, c: Buffer, e: Pending)
    requires HeapLeft(b, now, c.heap) && e in c.heap && e.deadline <= now
    requires LogLeft(b, now, c)
    requires Live(c, e) && e in b.pending.Values
    requires forall t :: t in c.pending && c.pending[t] == e ==> t == e.event.token
    ensures LogLeft(b, now, Popped(c, e, now))
  {
    var log := c.log + [Bare(e, now)];
    ExtendsByOne(b, now, c.log, e);
    OneMoreMissing(b.pending.Values, c.pending, e.event.token);
    HandedOneMore(c.log, Bare(e, now));
    var h := c.heap - multiset{e};
    forall i | |b.log| <= i < |log| ensures log[i].entry in b.heap && log[i].entry !in h {
      if i < |c.log| { assert log[i] == c.log[i]; }
    }
  }

  lemma PendingShrinks(b: Buffer, c: Buffer, e: Pending)
    requires Inv(b) && PendingLeft(b, c.heap, c.pending) && Live(c, e)
    requires forall f :: f in c.heap ==> c.heap[f] == 1
    ensures PendingLeft(b, c.heap - multiset{e}, c.pending - {e.event.token})
    ensures forall t :: t in c.pending && c.pending[t] == e ==> t == e.event.token
    ensures e in b.pending.Values
  {
  }

  lemma OneMoreMissing(all: set<Pending>, m: map<string, Pending>, token: string)
    requires token in m && m[token] in all
    requires forall u :: u in m && m[u] == m[token] ==> u == token
    ensures multiset(all - (m - {token}).Values) == multiset(all - m.Values) + multiset{m[token]}
  {
    DropValue(m, token);
    var e, before := m[token], all - m.Values;
    assert e in m.Values;
    assert all - (m - {token}).Values == before + {e};
    AddToSet(before, e);
  }

  lemma AddToSet(s: set<Pending>, e: Pending)
    requires e !in s
    ensures multiset(s + {e}) == multiset(s) + multiset{e}
  {
  }

  lemma ExtendsByOne(b: Buffer, now: int, log: seq<Dispatch>, e: Pending)
    requires Extends(b, now, log) && e.deadline <= now
    requires forall i :: |b.log| <= i < |log| ==> log[i].entry.deadline <= e.deadline
    ensures Extends(b, now, log + [Bare(e, now)])
  {
  }

  lemma HandedOneMore(log: seq<Dispatch>, d: Dispatch)
    ensures Handed(log + [d]) == Handed(log) + HandedBy(d)
  {
  }

  lemma DropValue(m: map<string, Pending>, t: string)
    requires t in m && forall u :: u in m && m[u] == m[t] ==> u == t
    ensures m.Values == (m - {t}).Values + {m[t]}
    ensures m[t] !in (m - {t}).Values
  {
    var p := m - {t};
    forall e | e in m.Values && e != m[t] ensures e in p.Values {
      var u :| u in m && m[u] == e;
      assert u in p && p[u] == e;
    }
    forall e | e in p.Values ensures e in m.Values && e != m[t] {
      var u :| u in p && p[u] == e;
      assert m[u] == e;
    }
    assert m[t] in m.Values;
  }

  lemma PollEnds(b: Buffer, now: int, c: Buffer)
    requires Inv(b) && Polling(b, now, c) && forall e :: e in c.heap ==> e.deadline > now
    ensures Polled(b, now, c)
  {
    forall t | t in b.pending ensures b.pending[t] in c.heap <==> b.pending[t].deadline > now {
      assert b.heap[b.pending[t]] == 1;
    }
    assert b.pending.Values - c.pending.Values == Due(b, now) by {
      forall e | e in b.pending.Values ensures e in c.pending.Values <==> e.deadline > now {
        var t :| t in b.pending && b.pending[t] == e;
        if e in c.pending.Values {
          var u :| u in c.pending && c.pending[u] == e;
          assert u in b.pending && b.pending[u] == e;
        } else {
          assert t !in c.pending;
        }
      }
    }
  }

  // ---- Whole runs ----------------------------------------------------------------------

  /** The atomic blocks, in the order in which they take the mutex. */
  datatype Step =
    | DirectStep(event: Event)
    | DetectStep(entry: Pending)  // an entry made by this very call of submit_detection
    | RecognitionStep(recognition: Recognition)
    | PollStep(now: int)
    | FlushStep

  ghost predicate Next(b: Buffer, step: Step, b': Buffer) {
    match step
    case DirectStep(event) => event.token == "" && b' == b.(log := b.log + [Direct(event)])
    case DetectStep(e) => e.event.token != "" && e !in b.submitted && b' == Submitted(b, e)
    case RecognitionStep(r) => b' == Recognized(b, r)
    case PollStep(now) => Polled(b, now, b')
    case FlushStep => FlushedAll(b, b')
  }

  ghost predicate IsRun(states: seq<Buffer>, steps: seq<Step>) {
    && |states| == |steps| + 1
    && states[0] == Buffer(map[], multiset{}, [], [], multiset{})
    && forall i :: 0 <= i < |steps| ==> Next(states[i], steps[i], states[i + 1])
  }

  lemma DirectKeeps(b: Buffer, event: Event)
    requires Inv(b) && event.token == ""
    ensures Inv(b.(log := b.log + [Direct(event)]))
  {
    hide Kept, Accounted, Truthful, Succession;
    var b' := b.(log := b.log + [Direct(event)]);
    DirectIsKept(b, b');
    DirectIsAccounted(b, event);
    Quieter(b, b');
    LogKeepsTruth(b, b');
  }

  lemma DirectIsKept(b: Buffer, b': Buffer)
    requires Kept(b) && b' == b.(log := b'.log)
    ensures Kept(b')
  {
  }

  lemma DirectIsAccounted(b: Buffer, event: Event)
    requires Accounted(b)
    ensures Accounted(b.(log := b.log + [Direct(event)]))
  {
    HandedOneMore(b.log, Direct(event));
  }

  lemma RemoveValue(m: map<string, Pending>, t: string)
    requires t in m && forall u :: u in m ==> m[u].event.token == u
    ensures multiset((m - {t}).Values) + multiset{m[t]} == multiset(m.Values)
  {
    DropValue(m, t);
    AddToSet((m - {t}).Values, m[t]);
  }

  lemma SetValue(m: map<string, Pending>, t: string, e: Pending)
    requires e.event.token == t && e !in m.Values && forall u :: u in m ==> m[u].event.token == u
    ensures multiset(m[t := e].Values) + (if t in m then multiset{m[t]} else multiset{})
         == multiset(m.Values) + multiset{e}
  {
    var rest := m - {t};
    RemoveValue(m[t := e], t);
    assert m[t := e] - {t} == rest;
    if t in m {
      RemoveValue(m, t);
    } else {
      assert rest == m;
    }
  }

  /** The entry `e` takes its token over from whatever was pending under it. */
  lemma DetectKeepsAccount(b: Buffer, e: Pending)
    requires Kept(b) && Accounted(b) && e !in b.submitted
    ensures Accounted(Submitted(b, e))
    ensures e !in b.replaced
  {
    var b' := Submitted(b, e);
    assert multiset(b.submitted)[e] == 0;
    assert (multiset(b.pending.Values) + Handed(b.log) + b.replaced)[e] == 0;
    SetValue(b.pending, e.event.token, e);
    var token := e.event.token;
    var gone := if token in b.pending then multiset{b.pending[token]} else multiset{};
    TakeOver(multiset(b.pending.Values), multiset(b'.pending.Values), gone,
             Handed(b.log), b.replaced, multiset(b.submitted), e);
    assert b'.replaced == b.replaced + gone;
    assert multiset(b'.submitted) == multiset(b.submitted) + multiset{e};
  }

  lemma TakeOver(pending: multiset<Pending>, pending': multiset<Pending>, gone: multiset<Pending>,
                 handed: multiset<Pending>, replaced: multiset<Pending>, all: multiset<Pending>, e: Pending)
    requires pending' + gone == pending + multiset{e}
    requires pending + handed + replaced == all
    ensures pending' + handed + (replaced + gone) == all + multiset{e}
  {
    assert pending' + handed + (replaced + gone) == (pending' + gone) + (handed + replaced);
    assert pending + multiset{e} + (handed + replaced) == (pending + handed + replaced) + multiset{e};
  }

  lemma DetectKeepsSuccession(b: Buffer, e: Pending)
    requires Kept(b) && Succession(b) && e !in b.submitted && e !in b.replaced
    ensures Succession(Submitted(b, e))
  {
    var b' := Submitted(b, e);
    var n := |b.submitted|;
    forall i | 0 <= i < |b'.submitted| && b'.submitted[i] in b'.replaced ensures Superseded(b', i) {
      if i < n && b.submitted[i] in b.replaced {
        assert Superseded(b, i);
        var j :| i < j < n && b.submitted[j].event.token == b.submitted[i].event.token;
        assert b'.submitted[j].event.token == b'.submitted[i].event.token;
      } else {
        assert i < n && b'.submitted[n].event.token == b'.submitted[i].event.token;
      }
    }
    forall i | 0 <= i < |b'.submitted| && Live(b', b'.submitted[i]) ensures !Superseded(b', i) {
      if i < n {
        assert Live(b, b.submitted[i]) && b.submitted[i].event.token != e.event.token;
        assert !Superseded(b, i);
        forall j | i < j < |b'.submitted| ensures b'.submitted[j].event.token != b'.submitted[i].event.token {
          if j < n { assert b'.submitted[j] == b.submitted[j]; }
        }
      }
    }
  }

  lemma DetectKeeps(b: Buffer, e: Pending)
    requires Inv(b) && e.event.token != "" && e !in b.submitted
    ensures Inv(Submitted(b, e))
  {
    DetectKeepsAccount(b, e);
    DetectKeepsSuccession(b, e);
    assert Kept(Submitted(b, e));
    assert Truthful(Submitted(b, e));
  }

  lemma RecognitionKeeps(b: Buffer, r: Recognition)
    requires Inv(b)
    ensures Inv(Recognized(b, r))
  {
    if r.token != "" && r.token in b.pending {
      RecognitionKeepsAccount(b, r);
      RecognitionKeepsKept(b, r);
      Quieter(b, Recognized(b, r));
    }
  }

  lemma RecognitionKeepsKept(b: Buffer, r: Recognition)
    requires Kept(b) && Truthful(b)
    ensures Kept(Recognized(b, r)) && Truthful(Recognized(b, r))
  {
  }

  lemma RecognitionKeepsAccount(b: Buffer, r: Recognition)
    requires Kept(b) && Accounted(b) && r.token != "" && r.token in b.pending
    ensures Accounted(Recognized(b, r))
  {
    HandedOneMore(b.log, Annotated(b.pending[r.token], r));
    RemoveValue(b.pending, r.token);
  }

  /** Nothing new is pending, submitted or replaced. */
  lemma Quieter(b: Buffer, b': Buffer)
    requires Succession(b)
    requires b'.submitted == b.submitted && b'.replaced == b.replaced
    requires forall t :: t in b'.pending ==> t in b.pending && b'.pending[t] == b.pending[t]
    ensures Succession(b')
  {
  }

  lemma PollKeepsAccount(b: Buffer, now: int, b': Buffer)
    requires Accounted(b) && Polled(b, now, b')
    ensures Accounted(b')
  {
  }

  lemma PollKeeps(b: Buffer, now: int, b': Buffer)
    requires Inv(b) && Polled(b, now, b')
    ensures Inv(b')
  {
    Quieter(b, b');
    PollKeepsAccount(b, now, b');
    LogKeepsTruth(b, b');
  }

  /** The log keeps its entries, and the new ones are honest. */
  lemma LogKeepsTruth(b: Buffer, b': Buffer)
    requires Truthful(b)
    requires |b.log| <= |b'.log| && b'.log[..|b.log|] == b.log
    requires forall i :: |b.log| <= i < |b'.log| ==> Honest(b'.log[i])
    ensures Truthful(b')
  {
  }

  lemma FlushKeeps(b: Buffer, b': Buffer)
    requires Inv(b) && FlushedAll(b, b')
    ensures Inv(b')
  {
    Quieter(b, b');
    LogKeepsTruth(b, b');
    assert b'.pending.Values == {};
  }

  lemma StepKeeps(b: Buffer, step: Step, b': Buffer)
    requires Inv(b) && Next(b, step, b')
    ensures Inv(b')
  {
    match step
    case DirectStep(event) => DirectKeeps(b, event);
    case DetectStep(e) => DetectKeeps(b, e);
    case RecognitionStep(r) => RecognitionKeeps(b, r);
    case PollStep(now) => PollKeeps(b, now, b');
    case FlushStep => FlushKeeps(b, b');
  }

  lemma EmptyInv()
    ensures Inv(Buffer(map[], multiset{}, [], [], multiset{}))
  {
  }

  lemma {:induction false} RunKeeps(states: seq<Buffer>, steps: seq<Step>, n: nat)
    requires IsRun(states, steps) && n <= |steps|
    ensures Inv(states[n])
  {
    hide Next;
    hide Inv;
    if n == 0 {
      EmptyInv();
    } else {
      RunKeeps(states, steps, n - 1);
      StepKeeps(states[n - 1], steps[n - 1], states[n]);
    }
  }

  // ---- Theorems ------------------------------------------------------------------------

  /** How often each fate has befallen an entry: pending, handed to the dispatcher, replaced. */
  ghost function Fates(b: Buffer, e: Pending): nat {
    (if Live(b, e) then 1 else 0) + Handed(b.log)[e] + b.replaced[e]
  }

  lemma OneFate(b: Buffer, e: Pending)
    requires Inv(b) && e in b.submitted
    ensures Fates(b, e) == 1
  {
    var all := multiset(b.submitted);
    Once(b.submitted, e);
    assert e in b.pending.Values <==> Live(b, e) by {
      if e in b.pending.Values {
        var t :| t in b.pending && b.pending[t] == e;
      }
    }
    assert (multiset(b.pending.Values) + Handed(b.log) + b.replaced)[e] == all[e];
  }

  lemma {:induction false} Once(s: seq<Pending>, e: Pending)
    requires e in s && forall i, j :: 0 <= i < j < |s| ==> s[i] != s[j]
    ensures multiset(s)[e] == 1
  {
    var front: seq<Pending> := s[..|s| - 1];
    var last := s[|s| - 1];
    assert s == front + [last];
    if e in front {
      Once(front, e);
    } else {
      assert multiset(front)[e] == 0;
    }
  }

  /** In every run each submitted detection is pending, or has been dispatched once, or has
      been replaced by a later detection with its token, and only one of these. Bare
      dispatches are never early and annotations carry the entry's own token. */
  lemma ExactlyOnce(states: seq<Buffer>, steps: seq<Step>, n: nat, i: nat)
    requires IsRun(states, steps) && n <= |steps| && i < |states[n].submitted|
    ensures Fates(states[n], states[n].submitted[i]) == 1
    ensures states[n].submitted[i] in states[n].replaced ==> Superseded(states[n], i)
    ensures Live(states[n], states[n].submitted[i]) ==> !Superseded(states[n], i)
    ensures forall k :: 0 <= k < |states[n].log| ==> Honest(states[n].log[k])
  {
    RunKeeps(states, steps, n);
    OneFate(states[n], states[n].submitted[i]);
  }

  /** The heap holds every pending entry exactly once, and nothing twice; after a poll pass
      at `now` neither the heap nor the dict holds anything due, so stale entries go too. */
  lemma HeapIsSound(states: seq<Buffer>, steps: seq<Step>, n: nat)
    requires IsRun(states, steps) && n < |steps|
    ensures var b := states[n + 1];
      && (forall t :: t in b.pending ==> b.heap[b.pending[t]] == 1)
      && (forall e :: e in b.heap ==> b.heap[e] == 1)
    ensures var b := states[n + 1];
      steps[n].PollStep? ==>
        && (forall e :: e in b.heap ==> e.deadline > steps[n].now)
        && (forall t :: t in b.pending ==> b.pending[t].deadline > steps[n].now)
  {
    RunKeeps(states, steps, n + 1);
  }

  /** A detection is resolved by the first poll pass at or after its deadline. */
  lemma ResolvedByDeadline(states: seq<Buffer>, steps: seq<Step>, n: nat, e: Pending)
    requires IsRun(states, steps) && n < |steps| && e in states[n].submitted
    requires steps[n].PollStep? && e.deadline <= steps[n].now
    ensures Handed(states[n + 1].log)[e] + states[n + 1].replaced[e] == 1
  {
    RunKeeps(states, steps, n + 1);
    OneFate(states[n + 1], e);
  }

  /** stop(flush=True) loses nothing: afterwards every submitted detection has been
      dispatched exactly once or was replaced. */
  lemma FlushLosesNothing(states: seq<Buffer>, steps: seq<Step>, n: nat, e: Pending)
    requires IsRun(states, steps) && n < |steps| && steps[n].FlushStep?
    requires e in states[n].submitted
    ensures states[n + 1].pending == map[] && states[n + 1].heap == multiset{}
    ensures Handed(states[n + 1].log)[e] + states[n + 1].replaced[e] == 1
  {
    RunKeeps(states, steps, n + 1);
    OneFate(states[n + 1], e);
  }
}
