/**
 Which answers of the host let a press go, told from the status codes of a run.
 */
module DoorbellReplies {
  import opened Wrappers
  import opened Doorbell

  /** Some reply of the run has a status code below 500 and goes to a flusher that is posting
      press number `i`. */
  ghost predicate Heard(b: Bell, run: seq<Step>, i: nat)
    decreases |run|
  {
    && run != [] && Allowed(b, run[0])
    && (|| Heard(Next(b, run[0]), run[1..], i)
        || (run[0].Reply? && run[0].code.Some? && run[0].code.value < 500 && b.flushers[run[0].f] == Posting(i)))
  }

  /** The presses that count as answered are those for which such a reply came. */
  lemma {:induction false} AnsweredIff(b: Bell, run: seq<Step>, r: Bell, i: nat)
    requires Leads(b, run, r)
    ensures i in r.answered <==> i in b.answered || Heard(b, run, i)
    decreases |run|
  {
    if run == [] {
    } else {
      AnsweredIff(Next(b, run[0]), run[1..], r, i);
      StepAnswers(b, run[0], i);
    }
  }

  lemma StepAnswers(b: Bell, s: Step, i: nat)
    requires Allowed(b, s)
    ensures i in Next(b, s).answered
       <==> i in b.answered
            || (s.Reply? && s.code.Some? && s.code.value < 500 && b.flushers[s.f] == Posting(i))
  {
  }

  /** A press that has left the queue was pushed out by 16 newer ones, or the host answered a
      flusher that was posting this very press with a code below 500. */
  lemma LeavesHeard(items: seq<Press>, run: seq<Step>, r: Bell, i: nat)
    requires Leads(Restored(items), run, r) && Distinct(r.presses) && i < r.gone
    ensures (i in r.overflowed && i + 16 < |r.presses|) || Heard(Restored(items), run, i)
  {
    RunDelivers(Restored(items), run, r);
    QueueIsSuffix(items, run, r);
    AnsweredIff(Restored(items), run, r, i);
  }

  /** No answer, or a server error, leaves the queue as it is and ends the flusher. */
  lemma FailedReply(b: Bell, f: nat, code: Option<int>)
    requires Allowed(b, Reply(f, code)) && (code.None? || code.value >= 500) && b.gone <= |b.presses|
    ensures var r := Next(b, Reply(f, code));
      Queue(r) == Queue(b) && f !in r.flushers && r.answered == b.answered && r.flushers == b.flushers - {f}
  {
  }

  /** Any other answer leaves it to the flusher's next turn to take the press out. */
  lemma GoodReply(b: Bell, f: nat, code: int)
    requires Tracks(b) && Allowed(b, Reply(f, Some(code))) && code < 500
    ensures var r := Next(b, Reply(f, Some(code)));
      && Queue(r) == Queue(b) && Allowed(r, Commit(f))
      && (b.flushers[f].index == b.gone && b.gone < |b.presses| ==> Queue(Next(r, Commit(f))) == Queue(b)[1..])
  {
  }

  /** The presses that a run brings in. */
  function Pushed(run: seq<Step>): seq<Press> {
    if run == [] then [] else (if run[0].Push? then [run[0].press] else []) + Pushed(run[1..])
  }

  /** Every press is taken in, however full the queue is: what the queue is the rest of is what was
      restored and then all presses of the run, in order. */
  lemma {:induction false} EveryPressTaken(b: Bell, run: seq<Step>, r: Bell)
    requires Leads(b, run, r)
    ensures r.presses == b.presses + Pushed(run)
    decreases |run|
  {
    if run == [] {
      assert b.presses + [] == b.presses;
    } else {
      var first, rest := if run[0].Push? then [run[0].press] else [], Pushed(run[1..]);
      EveryPressTaken(Next(b, run[0]), run[1..], r);
      StepTakes(b, run[0]);
      assert Pushed(run) == first + rest;
      hide *;
      Associates(b.presses, first, rest);
    }
  }

  lemma Associates(a: seq<Press>, b: seq<Press>, c: seq<Press>)
    ensures (a + b) + c == a + (b + c)
  {
  }

  lemma StepTakes(b: Bell, s: Step)
    requires Allowed(b, s)
    ensures Next(b, s).presses == b.presses + if s.Push? then [s.press] else []
  {
  }

  /** What a restart finds: the last 16 presses of the file, or all if there are fewer. */
  lemma RestoredIsLast(items: seq<Press>)
    ensures var queue := Queue(Restored(items));
      |queue| == (if |items| > 16 then 16 else |items|) && queue == items[|items| - |queue|..]
  {
  }
}
