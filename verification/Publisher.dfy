/**
 The detector's event publisher (services/detector/src/publisher.py): events that cannot be
 sent while Redis is down wait in a bounded deque and go out, oldest first, before the next
 event that is published.
 */
module Publisher {

  const BUFFER_MAX: nat := 256

  /** Events numbered by arrival: how many there were, and which were sent, wait, or were pushed
      out of the full deque. */
  datatype Stream = Stream(arrived: nat, sent: seq<nat>, waiting: seq<nat>, lost: seq<nat>)

  const EMPTY := Stream(0, [], [], [])

  /** How many of `n` sends in a row succeed before the first failure. */
  function Successes(n: nat, ok: nat -> bool): (k: nat)
    ensures k <= n && (forall i :: 0 <= i < k ==> ok(i)) && (k < n ==> !ok(k))
  {
    SuccessesFrom(n, ok, 0)
  }

  function SuccessesFrom(n: nat, ok: nat -> bool, k: nat): (r: nat)
    requires k <= n && forall i :: 0 <= i < k ==> ok(i)
    ensures k <= r <= n && (forall i :: 0 <= i < r ==> ok(i)) && (r < n ==> !ok(r))
    decreases n - k
  {
    if k == n || !ok(k) then k else SuccessesFrom(n, ok, k + 1)
  }

  /** One call of `publish`; `ok` says how its sends go, first those of the deque. */
  function Published(s: Stream, ok: nat -> bool): Stream {
    var n := |s.waiting|;
    var k := Successes(n, ok);
    var flushed := Stream(s.arrived + 1, s.sent + s.waiting[..k], s.waiting[k..], s.lost);
    if k == n && ok(n) then flushed.(sent := flushed.sent + [s.arrived])
    else if n - k < BUFFER_MAX then flushed.(waiting := flushed.waiting + [s.arrived])
    else flushed.(waiting := flushed.waiting[1..] + [s.arrived], lost := s.lost + [flushed.waiting[0]])
  }

  class RedisPublisher {
    var buffer: seq<string>
    ghost var payloads: seq<string>
    ghost var view: Stream

    ghost predicate Valid()
      reads this
    {
      && view.arrived == |payloads| && |buffer| == |view.waiting| <= BUFFER_MAX
      && forall i :: 0 <= i < |buffer| ==> view.waiting[i] < |payloads| && buffer[i] == payloads[view.waiting[i]]
    }

    constructor ()
      ensures Valid() && view == EMPTY && payloads == []
    {
      buffer, payloads, view := [], [], EMPTY;
    }

    /** Sends the deque from its head; stops at the first failure. */
    method FlushBuffer(ok: nat -> bool) returns (tried: nat, failed: bool)
      requires Valid()
      modifies this`buffer
      ensures buffer == old(buffer)[Successes(|old(buffer)|, ok)..]
      ensures tried == Successes(|old(buffer)|, ok) && (failed <==> tried < |old(buffer)|)
    {
      tried := 0;
      while buffer != []
        invariant tried <= |old(buffer)| && buffer == old(buffer)[tried..]
        invariant forall i :: 0 <= i < tried ==> ok(i)
        decreases |buffer|
      {
        if !ok(tried) {
          return tried, true;
        }
        buffer := buffer[1..];
        tried := tried + 1;
      }
      return tried, false;
    }

    method Publish(payload: string, ok: nat -> bool)
      requires Valid()
      modifies this
      ensures Valid() && payloads == old(payloads) + [payload] && view == Published(old(view), ok)
    {
      var tried, failed := FlushBuffer(ok);
      if failed || !ok(tried) {
        if |buffer| == BUFFER_MAX {
          buffer := buffer[1..];
        }
        buffer := buffer + [payload];
      }
      view := Published(view, ok);
      payloads := payloads + [payload];
    }
  }

  // ---------------------------------------------------------------------------------------
  // Runs
  // ---------------------------------------------------------------------------------------

  /** The stream after a number of publishes; `ok(i)` says how the sends of the i-th go. */
  function After(n: nat, ok: nat -> nat -> bool): Stream {
    if n == 0 then EMPTY else Published(After(n - 1, ok), ok(n - 1))
  }

  predicate Increasing(s: seq<nat>, below: nat) {
    (forall i, j :: 0 <= i < j < |s| ==> s[i] < s[j]) && (forall i :: 0 <= i < |s| ==> s[i] < below)
  }

  lemma Push(s: seq<nat>, below: nat)
    requires Increasing(s, below)
    ensures Increasing(s + [below], below + 1)
  {
  }

  lemma Skip(a: seq<nat>, b: seq<nat>, below: nat)
    requires b != [] && Increasing(a + b, below)
    ensures Increasing(a + b[1..], below)
  {
    var s, t := a + b, a + b[1..];
    forall i | 0 <= i < |t| ensures t[i] == s[if i < |a| then i else i + 1] {
    }
  }

  lemma StepKeeps(s: Stream, ok: nat -> bool)
    requires Increasing(s.sent + s.waiting, s.arrived) && |s.waiting| <= BUFFER_MAX
    ensures var r := Published(s, ok); Increasing(r.sent + r.waiting, r.arrived) && |r.waiting| <= BUFFER_MAX
  {
    var k := Successes(|s.waiting|, ok);
    var sent, rest := s.sent + s.waiting[..k], s.waiting[k..];
    assert sent + rest == s.sent + s.waiting;
    var r := Published(s, ok);
    if k == |s.waiting| && ok(k) {
      assert sent == sent + rest;
      Push(sent, s.arrived);
      assert r.sent + r.waiting == sent + [s.arrived];
    } else if |rest| < BUFFER_MAX {
      Push(sent + rest, s.arrived);
      assert r.sent + r.waiting == sent + rest + [s.arrived];
    } else {
      Skip(sent, rest, s.arrived);
      Push(sent + rest[1..], s.arrived);
      assert r.sent + r.waiting == sent + rest[1..] + [s.arrived];
    }
  }

  /** Events are sent in the order of their arrival and none twice; what waits comes after
      what was sent; at most 256 wait. */
  lemma {:induction false} InOrder(n: nat, ok: nat -> nat -> bool)
    ensures var s := After(n, ok); Increasing(s.sent + s.waiting, n) && |s.waiting| <= 256 && s.arrived == n
  {
    if n == 0 {
    } else {
      InOrder(n - 1, ok);
      StepKeeps(After(n - 1, ok), ok(n - 1));
    }
  }

  /** Where the events are, each as often as it is there. */
  function Bag(s: Stream): multiset<nat> {
    multiset(s.sent) + multiset(s.waiting) + multiset(s.lost)
  }

  lemma Joined(a: seq<nat>, b: seq<nat>, id: nat)
    ensures multiset(a + b)[id] == multiset(a)[id] + multiset(b)[id]
  {
  }

  lemma Cut(s: seq<nat>, k: nat, id: nat)
    requires k <= |s|
    ensures multiset(s)[id] == multiset(s[..k])[id] + multiset(s[k..])[id]
  {
    assert s == s[..k] + s[k..];
  }

  lemma StepBag(s: Stream, ok: nat -> bool, id: nat)
    ensures Bag(Published(s, ok))[id] == Bag(s)[id] + if id == s.arrived then 1 else 0
  {
    var k := Successes(|s.waiting|, ok);
    hide Successes;
    var sent, rest := s.sent + s.waiting[..k], s.waiting[k..];
    Cut(s.waiting, k, id);
    Joined(s.sent, s.waiting[..k], id);
    if k == |s.waiting| && ok(k) {
      Joined(sent, [s.arrived], id);
    } else if |rest| < BUFFER_MAX {
      Joined(rest, [s.arrived], id);
    } else {
      Cut(rest, 1, id);
      Joined(rest[1..], [s.arrived], id);
      Joined(s.lost, [rest[0]], id);
      assert rest[..1] == [rest[0]];
    }
  }

  lemma EmptyBag(id: nat)
    ensures Bag(EMPTY)[id] == 0
  {
  }

  /** Whatever the failures, every event was sent once, or waits, or was pushed out. */
  lemma {:induction false} EveryEventAccounted(n: nat, ok: nat -> nat -> bool, id: nat)
    ensures Bag(After(n, ok))[id] == if id < n then 1 else 0
  {
    hide Bag, Published, Increasing;
    if n == 0 {
      EmptyBag(id);
    } else {
      EveryEventAccounted(n - 1, ok, id);
      InOrder(n - 1, ok);
      StepBag(After(n - 1, ok), ok(n - 1), id);
    }
  }

  /** A publish sends, oldest first, what waits and then its own event, up to the first failure. */
  lemma SendsUpToFailure(n: nat, ok: nat -> nat -> bool) returns (k: nat)
    ensures var s, r := After(n, ok), After(n + 1, ok);
      var all := s.waiting + [n];
      && k <= |all| && (forall i :: 0 <= i < k ==> ok(n)(i)) && (k < |all| ==> !ok(n)(k))
      && r.sent == s.sent + all[..k]
  {
    InOrder(n, ok);
    var s := After(n, ok);
    k := Successes(|s.waiting|, ok(n));
    if k == |s.waiting| && ok(n)(k) {
      k := k + 1;
      assert (s.waiting + [n])[..k] == s.waiting + [n];
    } else {
      assert (s.waiting + [n])[..k] == s.waiting[..k];
    }
  }

  /** An event is pushed out only while 256 wait, all of them newer except itself. */
  lemma LostOnlyWhenFull(n: nat, ok: nat -> nat -> bool)
    requires |After(n + 1, ok).lost| > |After(n, ok).lost|
    ensures var s, r := After(n, ok), After(n + 1, ok);
            && |s.waiting| == 256 && !ok(n)(0) && r.lost == s.lost + [s.waiting[0]]
            && r.waiting == s.waiting[1..] + [n]
  {
    InOrder(n, ok);
  }

  /** One publish without a failure catches up: nothing waits any longer, and an event that
      was not pushed out has been sent. */
  lemma CatchesUp(n: nat, ok: nat -> nat -> bool, id: nat)
    requires forall i :: 0 <= i <= |After(n, ok).waiting| ==> ok(n)(i)
    ensures After(n + 1, ok).waiting == []
    ensures id <= n && id !in After(n + 1, ok).lost ==> id in After(n + 1, ok).sent
  {
    InOrder(n, ok);
    CaughtUp(After(n, ok), ok(n));
    EveryEventAccounted(n + 1, ok, id);
    hide Bag, Published, Increasing;
    if id <= n && id !in After(n + 1, ok).lost {
      InSent(After(n + 1, ok), id);
    }
  }

  lemma CaughtUp(s: Stream, ok: nat -> bool)
    requires forall i :: 0 <= i <= |s.waiting| ==> ok(i)
    ensures Published(s, ok).waiting == []
  {
  }

  lemma InSent(s: Stream, id: nat)
    requires Bag(s)[id] > 0 && s.waiting == [] && id !in s.lost
    ensures id in s.sent
  {
  }
}
