/** Who is dropped by the SoupBinTCP server and who is not, over whole runs, and how a live
    subscriber drains its queue. */
module SoupLive {
  import opened SoupServer
  import opened Wire

  // ----- Who is dropped -----

  /** The run disconnects the subscriber: it leaves, or the live loop reads a channel on which
      messages were lost. */
  predicate Departs(w: World, steps: seq<Step>)
    requires Runs(w, steps)
    decreases |steps|
  {
    steps != []
    && (steps[0] == Leave || (steps[0] == Receive && w.sub.lagged) || Departs(Take(w, steps[0]), steps[1..]))
  }

  /** Over every run, the subscriber ends disconnected if and only if it left or its loss was
      noticed: nothing else drops it, an overlap of replay and broadcast included. */
  lemma {:induction false} GoneIffDeparts(w: World, steps: seq<Step>)
    requires Runs(w, steps)
    ensures Last(w, steps).sub.phase == Gone <==> w.sub.phase == Gone || Departs(w, steps)
    decreases |steps|
  {
    if steps != [] {
      GoneIffDeparts(Take(w, steps[0]), steps[1..]);
    }
  }

  /** A message is broadcast while the subscriber's queue is full. */
  predicate Overflows(w: World, steps: seq<Step>)
    requires Runs(w, steps)
    decreases |steps|
  {
    steps != []
    && ((steps[0] == Broadcast && w.sub.phase != Gone && w.channel <= |w.sub.queue|)
        || Overflows(Take(w, steps[0]), steps[1..]))
  }

  /** Over every run, messages are lost on the channel if and only if one was broadcast while the
      queue was full. */
  lemma {:induction false} LaggedIffOverflows(w: World, steps: seq<Step>)
    requires Runs(w, steps)
    ensures Last(w, steps).sub.lagged <==> w.sub.lagged || Overflows(w, steps)
    decreases |steps|
  {
    if steps != [] {
      LaggedIffOverflows(Take(w, steps[0]), steps[1..]);
    }
  }

  // ----- What Login Accepted names -----

  /** The number asked for by the first login of a run; zero asks for what comes next, that is, the
      number after the last message stored by then. */
  function Asked(w: World, steps: seq<Step>): Option<nat>
    requires Runs(w, steps)
    decreases |steps|
  {
    if steps == [] then None
    else if steps[0].Login? then Some(if steps[0].requested == 0 then End(w) else steps[0].requested)
    else Asked(Take(w, steps[0]), steps[1..])
  }

  /** Once accepted, a subscriber keeps the number it was accepted with. */
  lemma {:induction false} AcceptedStays(w: World, steps: seq<Step>)
    requires Runs(w, steps) && w.sub.phase != Joined
    ensures Last(w, steps).sub.accepted == w.sub.accepted && Last(w, steps).sub.resume == w.sub.resume
    decreases |steps|
  {
    if steps != [] {
      AcceptedStays(Take(w, steps[0]), steps[1..]);
    }
  }

  /** Over every run, the subscriber has been accepted if and only if it logged in, and Login
      Accepted named what it asked for. */
  lemma {:induction false} AcceptsWhatWasAsked(w: World, steps: seq<Step>)
    requires IngestOk(w) && SubOk(w) && w.sub.phase == Joined
    requires Runs(w, steps)
    ensures var v := Last(w, steps);
            (v.sub.accepted <==> Asked(w, steps).Some?) && (v.sub.accepted ==> Asked(w, steps) == Some(v.sub.resume))
    decreases |steps|
  {
    if steps != [] {
      var v := Take(w, steps[0]);
      if v.sub.phase == Joined {
        TakeOk(w, steps[0]);
        hide SubOk, Take;
        AcceptsWhatWasAsked(v, steps[1..]);
      } else {
        AcceptedStays(v, steps[1..]);
        NeverAsks(v, steps[1..]);
      }
    }
  }

  lemma {:induction false} NeverAsks(w: World, steps: seq<Step>)
    requires Runs(w, steps) && w.sub.phase != Joined
    ensures Asked(w, steps) == None
    decreases |steps|
  {
    if steps != [] {
      NeverAsks(Take(w, steps[0]), steps[1..]);
    }
  }

  // ----- Catching up -----

  function Receives(n: nat): (steps: seq<Step>)
    ensures |steps| == n
  {
    seq(n, _ => Receive)
  }

  /** A live subscriber that lost nothing reads its whole queue, stays connected, and changes
      nothing but its own side. */
  lemma {:induction false} Drains(w: World)
    requires w.sub.phase == Live && !w.sub.lagged
    ensures var steps := Receives(|w.sub.queue|);
            && Runs(w, steps) && SafeRun(w, steps) && RetainedRun(w, steps)
            && Last(w, steps) == w.(sub := Last(w, steps).sub)
            && Last(w, steps).sub.phase == Live && !Last(w, steps).sub.lagged && Last(w, steps).sub.queue == []
            && Last(w, steps).sub.resume == w.sub.resume
    decreases |w.sub.queue|
  {
    if w.sub.queue != [] {
      Drains(Take(w, Receive));
      assert Receives(|w.sub.queue|)[1..] == Receives(|w.sub.queue| - 1);
    }
  }

  /** One run after another. */
  lemma {:induction false} Then(w: World, before: seq<Step>, after: seq<Step>)
    requires Runs(w, before) && Runs(Last(w, before), after)
    ensures Runs(w, before + after) && Last(w, before + after) == Last(Last(w, before), after)
    ensures RetainedRun(w, before) && RetainedRun(Last(w, before), after) ==> RetainedRun(w, before + after)
    decreases |before|
  {
    hide Take, Enabled, RetainedStep;
    if before == [] {
      assert before + after == after;
    } else {
      assert (before + after)[1..] == before[1..] + after;
      Then(Take(w, before[0]), before[1..], after);
    }
  }

  /** However the run went so far, a live subscriber that lost nothing needs only to read what is
      queued for it to have been sent exactly the log from `resume` to its end. */
  lemma CatchesUp(w: World, startSequence: nat, steps: seq<Step>)
    requires Init(w, startSequence) && Runs(w, steps) && RetainedRun(w, steps)
    requires var v := Last(w, steps); v.sub.phase == Live && !v.sub.lagged && v.unsent.None?
    ensures var v := Last(w, steps);
            var all := steps + Receives(|v.sub.queue|);
            && Runs(w, all) && Delivers(w, all) && Last(w, all).log == v.log
            && Last(w, all).sub.phase == Live && Last(w, all).sub.resume == v.sub.resume
            && End(v) <= v.sub.resume + |Last(w, all).sub.sent|
            && (v.sub.resume <= End(v) ==> |Last(w, all).sub.sent| == End(v) - v.sub.resume)
  {
    var v := Last(w, steps);
    var rest := Receives(|v.sub.queue|);
    hide Receives;
    assert RetainedRun(v, rest) && Last(v, rest) == v.(sub := Last(v, rest).sub) by {
      Drains(v);
    }
    Drains(v);
    Then(w, steps, rest);
    var all := steps + rest;
    hide Runs, Last, RetainedRun, Init, Take;
    SeamlessHandOff(w, startSequence, all);
    CaughtUp(w, all, startSequence);
    ExactlySent(Last(w, all));
  }

  /** What was sent does not go past the log. */
  lemma ExactlySent(v: World)
    requires TrueRun(v, v.sub.resume, v.sub.sent)
    ensures v.sub.sent == [] || v.sub.resume + |v.sub.sent| <= End(v)
  {
    if v.sub.sent != [] {
      assert TrueEntry(v, v.sub.sent[|v.sub.sent| - 1]);
    }
  }
}
