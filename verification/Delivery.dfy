/** What the actions of a run say about its end: which result a caller gets, what the counters count, and in which
    order the items are dispatched.  Nothing here looks at how a step is carried out. */
module Delivery {
  import opened LaneQueue
  import opened Scheduler

  // ---------- Runs from the back ----------

  lemma {:induction false} RunBefore(s: State, acts: seq<Action>, t: State) returns (mid: State)
    requires Runs(s, acts, t) && acts != []
    ensures Runs(s, acts[..|acts| - 1], mid)
    ensures Enabled(mid, acts[|acts| - 1]) && t == Next(mid, acts[|acts| - 1])
    decreases |acts|
  {
    hide Enabled, Next;
    if |acts| == 1 {
      mid := s;
      assert acts[1..] == [] && acts[..0] == [];
    } else {
      var r := acts[1..];
      mid := RunBefore(Next(s, acts[0]), r, t);
      assert r[..|r| - 1] == acts[..|acts| - 1][1..] && r[|r| - 1] == acts[|acts| - 1];
    }
  }

  lemma ReachedInv(maxDepth: int, acts: seq<Action>, s: State)
    requires Runs(Start(maxDepth), acts, s)
    ensures Inv(s)
  {
    hide Inv, Runs;
    StartInv(maxDepth);
    ReachableInv(Start(maxDepth), acts, s);
  }

  // ---------- The result that was sent is the one that arrives ----------

  ghost predicate SentWith(acts: seq<Action>, id: nat, r: Result) {
    Send(id, r) in acts
  }

  lemma SentStays(acts: seq<Action>, a: Action, id: nat, r: Result)
    ensures SentWith(acts + [a], id, r) <==> SentWith(acts, id, r) || a == Send(id, r)
  {
  }

  lemma ChannelStep(s: State, a: Action, id: nat)
    requires Enabled(s, a) && id in Next(s, a).channels
    ensures a == Send(id, Next(s, a).channels[id]) || (id in s.channels && s.channels[id] == Next(s, a).channels[id])
  {
    hide Pushed, Drained, Served, Ids;
  }

  lemma {:induction false} ChannelsHoldWhatWasSent(maxDepth: int, acts: seq<Action>, s: State, id: nat)
    requires Runs(Start(maxDepth), acts, s) && id in s.channels
    ensures SentWith(acts, id, s.channels[id])
    decreases |acts|
  {
    if acts != [] {
      hide Runs, Next, Enabled;
      var init, a := acts[..|acts| - 1], acts[|acts| - 1];
      assert acts == init + [a];
      var mid := RunBefore(Start(maxDepth), acts, s);
      SentStays(init, a, id, s.channels[id]);
      ChannelStep(mid, a, id);
      if a != Send(id, s.channels[id]) {
        ChannelsHoldWhatWasSent(maxDepth, init, mid, id);
      }
    }
  }

  lemma {:induction false} SendsHas(acts: seq<Action>, id: nat, r: Result)
    requires SentWith(acts, id, r)
    ensures id in SendsOf(acts)
  {
    if acts[0] != Send(id, r) {
      SendsHas(acts[1..], id, r);
    }
  }

  lemma {:induction false} OneResult(acts: seq<Action>, id: nat)
    requires Once(SendsOf(acts))
    ensures !(SentWith(acts, id, Answer) && SentWith(acts, id, Error))
  {
    if acts != [] {
      var a, rest := acts[0], acts[1..];
      var first, later := if a.Send? then [a.id] else [], SendsOf(rest);
      assert SendsOf(acts) == first + later;
      assert forall i :: 0 <= i < |later| ==> SendsOf(acts)[|first| + i] == later[i];
      OneResult(rest, id);
      assert acts == [a] + rest;
      if a == Send(id, Answer) && SentWith(rest, id, Error) {
        SendsHas(rest, id, Error);
        FirstIsAgain(id, later);
      }
      if a == Send(id, Error) && SentWith(rest, id, Answer) {
        SendsHas(rest, id, Answer);
        FirstIsAgain(id, later);
      }
    }
  }

  lemma FirstIsAgain(id: nat, later: seq<nat>)
    requires id in later
    ensures !Once([id] + later)
  {
    var j :| 0 <= j < |later| && later[j] == id;
    assert ([id] + later)[0] == ([id] + later)[j + 1];
  }

  /** A caller that receives goes on with an answer if and only if an answer was sent for its own request, and with an
      error if and only if an error was; never were both. */
  lemma ReceivesWhatWasSent(maxDepth: int, acts: seq<Action>, s: State, id: nat)
    requires Runs(Start(maxDepth), acts, s) && Enabled(s, Receive(id))
    ensures var t := Next(s, Receive(id));
            && (id in t.returning <==> SentWith(acts, id, Answer))
            && (id in t.failing <==> SentWith(acts, id, Error))
            && (SentWith(acts, id, Answer) <==> !SentWith(acts, id, Error))
  {
    hide Runs, InLanes, NoDuplicates, Once, InQueue, Replied, OnePlace, RepliesKept, SentWith;
    ReachedInv(maxDepth, acts, s);
    ChannelsHoldWhatWasSent(maxDepth, acts, s, id);
    AtMostOneResult(maxDepth, acts, s);
    OneResult(acts, id);
  }

  // ---------- What the counters count ----------

  /** How many receives found this result. */
  ghost function Received(acts: seq<Action>, r: Result): nat {
    if acts == [] then 0
    else
      var init, a := acts[..|acts| - 1], acts[|acts| - 1];
      Received(init, r) + if a.Receive? && SentWith(init, a.id, r) then 1 else 0
  }

  function Calls(acts: seq<Action>): nat {
    if acts == [] then 0 else Calls(acts[..|acts| - 1]) + if acts[|acts| - 1].Call? then 1 else 0
  }

  function TimeOuts(acts: seq<Action>): nat {
    if acts == [] then 0 else TimeOuts(acts[..|acts| - 1]) + if acts[|acts| - 1].TimeOut? then 1 else 0
  }

  function Cancels(acts: seq<Action>): nat {
    if acts == [] then 0 else Cancels(acts[..|acts| - 1]) + if acts[|acts| - 1].Cancel? then 1 else 0
  }

  /** The part of the state that the service's counters are about. */
  datatype Tally = Tally(answers: nat, errors: nat, calls: nat, cancelled: nat)

  function Counted(s: State): Tally {
    Tally(s.answered + |s.returning|, s.errors + |s.failing|, s.calls, s.cancelled)
  }

  lemma WaitingIsApart(s: State, id: nat)
    requires Inv(s) && id in s.waiting
    ensures id !in s.failing && id !in s.returning
  {
    hide InLanes, NoDuplicates, Once, InQueue, Replied, OnePlace, RepliesKept, Accepted, CallsAddUp, ItemsAddUp;
  }

  lemma ReceiveCounts(s: State, id: nat)
    requires Inv(s) && Enabled(s, Receive(id))
    ensures var c, d, t := Counted(s), Counted(Next(s, Receive(id))), Next(s, Receive(id));
            && d == (if id in t.returning then c.(answers := c.answers + 1) else c.(errors := c.errors + 1))
            && (id in t.returning <==> id !in t.failing)
  {
    hide Inv;
    WaitingIsApart(s, id);
  }

  lemma TimeOutCounts(s: State, id: nat)
    requires Inv(s) && id in s.waiting
    ensures Counted(TimedOut(s, id)) == var c := Counted(s); c.(errors := c.errors + 1)
  {
    hide Inv;
    WaitingIsApart(s, id);
  }

  lemma CountingCounts(s: State, id: nat)
    ensures id in s.failing ==> Counted(ErrorCounted(s, id)) == Counted(s)
    ensures id in s.returning ==> Counted(AnsweredCounted(s, id)) == Counted(s)
  {
  }

  lemma OtherStepCounts(s: State, a: Action)
    requires Inv(s) && Enabled(s, a) && !a.Receive?
    ensures var c := Counted(s);
            Counted(Next(s, a)) ==
            if a.Call? then c.(calls := c.calls + 1)
            else if a.TimeOut? then c.(errors := c.errors + 1)
            else if a.Cancel? then c.(cancelled := c.cancelled + 1)
            else c
  {
    hide Inv, Pushed, Drained, Served, Ids, TimedOut, ErrorCounted, AnsweredCounted;
    if a.TimeOut? {
      TimeOutCounts(s, a.id);
    } else if a.CountError? || a.CountAnswered? {
      CountingCounts(s, a.id);
    }
  }

  ghost function Expected(acts: seq<Action>): Tally {
    Tally(Received(acts, Answer), TimeOuts(acts) + Received(acts, Error), Calls(acts), Cancels(acts))
  }

  lemma OneMoreAction(acts: seq<Action>)
    requires acts != []
    ensures var init, a := acts[..|acts| - 1], acts[|acts| - 1];
            var c := Expected(init);
            Expected(acts) ==
            if a.Receive? then
              c.(answers := c.answers + (if SentWith(init, a.id, Answer) then 1 else 0),
                 errors := c.errors + (if SentWith(init, a.id, Error) then 1 else 0))
            else if a.Call? then c.(calls := c.calls + 1)
            else if a.TimeOut? then c.(errors := c.errors + 1)
            else if a.Cancel? then c.(cancelled := c.cancelled + 1)
            else c
  {
    hide SentWith;
  }

  lemma CountsStep(maxDepth: int, init: seq<Action>, a: Action, mid: State)
    requires Runs(Start(maxDepth), init, mid) && Enabled(mid, a) && Counted(mid) == Expected(init)
    ensures Counted(Next(mid, a)) == Expected(init + [a])
  {
    hide Runs, Inv, Next, Enabled, SentWith, Received, TimeOuts, Calls, Cancels, Expected, Counted;
    assert (init + [a])[..|init|] == init;
    OneMoreAction(init + [a]);
    ReachedInv(maxDepth, init, mid);
    if a.Receive? {
      ReceiveCounts(mid, a.id);
      ReceivesWhatWasSent(maxDepth, init, mid, a.id);
    } else {
      OtherStepCounts(mid, a);
    }
  }

  lemma {:induction false} CountedAsExpected(maxDepth: int, acts: seq<Action>, s: State)
    requires Runs(Start(maxDepth), acts, s)
    ensures Counted(s) == Expected(acts)
    decreases |acts|
  {
    if acts == [] {
      assert s == Start(maxDepth);
    } else {
      hide Runs, Next, Enabled, Expected, Counted;
      var init, a := acts[..|acts| - 1], acts[|acts| - 1];
      var mid := RunBefore(Start(maxDepth), acts, s);
      CountedAsExpected(maxDepth, init, mid);
      CountsStep(maxDepth, init, a, mid);
      assert acts == init + [a];
    }
  }

  /** Every receive of an answer is counted as dispatched or about to be, every receive of an error and every timeout
      as an error or about to be; calls and cancellations are counted one by one. */
  lemma CountersCountActions(maxDepth: int, acts: seq<Action>, s: State)
    requires Runs(Start(maxDepth), acts, s)
    ensures s.answered + |s.returning| == Received(acts, Answer)
    ensures s.errors + |s.failing| == TimeOuts(acts) + Received(acts, Error)
    ensures s.calls == Calls(acts) && s.cancelled == Cancels(acts)
  {
    hide Runs, Received, TimeOuts, Calls, Cancels;
    CountedAsExpected(maxDepth, acts, s);
  }

  // ---------- The order of dispatch ----------

  /** The priority that the request came with. */
  function PriorityIn(acts: seq<Action>, id: nat): int {
    if acts == [] then 0
    else
      var a := acts[|acts| - 1];
      if a.Call? && a.id == id then a.priority else PriorityIn(acts[..|acts| - 1], id)
  }

  /** The run as the lane queue sees it. */
  function LaneOps(acts: seq<Action>): seq<Op> {
    if acts == [] then []
    else
      var init, a := acts[..|acts| - 1], acts[|acts| - 1];
      LaneOps(init)
      + if a.TryEnqueue? then [Enqueue(Item(a.id, PriorityIn(init, a.id)))]
        else if a.DrainQueue? then [Drain(a.n)] else []
  }

  lemma {:induction false} LaneRunLast(q: Lanes, maxDepth: int, ops: seq<Op>, op: Op)
    ensures Run(q, maxDepth, ops + [op]) == Apply(Run(q, maxDepth, ops), maxDepth, op)
    decreases |ops|
  {
    hide Apply;
    if ops == [] {
      assert [op][1..] == [];
    } else {
      LaneRunLast(Apply(q, maxDepth, ops[0]), maxDepth, ops[1..], op);
      assert (ops + [op])[1..] == ops[1..] + [op];
    }
  }

  lemma CallingStep(s: State, a: Action, id: nat)
    requires Enabled(s, a) && id in Next(s, a).calling
    ensures if a.Call? && a.id == id then Next(s, a).calling[id] == a.priority
            else id in s.calling && Next(s, a).calling[id] == s.calling[id]
  {
    hide Pushed, Drained, Served, Ids;
  }

  /** The callers before the lock region still have the priority they came with. */
  lemma {:induction false} PrioritiesStay(maxDepth: int, acts: seq<Action>, s: State, id: nat)
    requires Runs(Start(maxDepth), acts, s) && id in s.calling
    ensures s.calling[id] == PriorityIn(acts, id)
    decreases |acts|
  {
    if acts != [] {
      hide Runs, Next, Enabled;
      var init, a := acts[..|acts| - 1], acts[|acts| - 1];
      var mid := RunBefore(Start(maxDepth), acts, s);
      CallingStep(mid, a, id);
      if !(a.Call? && a.id == id) {
        PrioritiesStay(maxDepth, init, mid, id);
      }
    }
  }

  lemma QueueStep(s: State, a: Action)
    requires Enabled(s, a)
    ensures var t := Next(s, a);
            && t.maxDepth == s.maxDepth
            && t.queue == if a.TryEnqueue? then Apply(s.queue, s.maxDepth, Enqueue(Item(a.id, s.calling[a.id])))
                          else if a.DrainQueue? then Apply(s.queue, s.maxDepth, Drain(a.n))
                          else s.queue
  {
    hide Pushed, Drained, Served, Ids;
  }

  /** The queue is the lane queue after the run's enqueues and drains, each request with the priority of its call.  So
      what is proved of that queue, the order of items and how far one can be overtaken, holds of the dispatcher. */
  lemma {:induction false} QueueIsLaneRun(maxDepth: int, acts: seq<Action>, s: State)
    requires Runs(Start(maxDepth), acts, s)
    ensures s.queue == Run(EMPTY, maxDepth, LaneOps(acts)) && s.maxDepth == maxDepth
    decreases |acts|
  {
    if acts == [] {
      assert LaneOps(acts) == [];
    } else {
      hide Runs, Next, Apply, Run;
      var init, a := acts[..|acts| - 1], acts[|acts| - 1];
      var mid := RunBefore(Start(maxDepth), acts, s);
      QueueIsLaneRun(maxDepth, init, mid);
      QueueStep(mid, a);
      if a.TryEnqueue? {
        PrioritiesStay(maxDepth, init, mid, a.id);
        LaneRunLast(EMPTY, maxDepth, LaneOps(init), Enqueue(Item(a.id, PriorityIn(init, a.id))));
      } else if a.DrainQueue? {
        LaneRunLast(EMPTY, maxDepth, LaneOps(init), Drain(a.n));
      } else {
        assert LaneOps(acts) == LaneOps(init);
      }
    }
  }

  /** A batch holds the first n of that queue, or all of it, and each of them is going to be replied to. */
  lemma BatchIsFirstOfQueue(maxDepth: int, acts: seq<Action>, s: State, n: nat)
    requires Runs(Start(maxDepth), acts, s) && Enabled(s, DrainQueue(n))
    ensures var all, t := Run(EMPTY, maxDepth, LaneOps(acts)).All(), Next(s, DrainQueue(n));
            && t.batch == t.pending == (set x | x in all[..if n < |all| then n else |all|] :: x.id)
            && t.queue.All() == all[if n < |all| then n else |all|..]
  {
    hide Runs;
    QueueIsLaneRun(maxDepth, acts, s);
  }

  /** A request is turned away if and only if that queue is full. */
  lemma TurnedAwayIffFull(maxDepth: int, acts: seq<Action>, s: State, id: nat)
    requires Runs(Start(maxDepth), acts, s) && Enabled(s, TryEnqueue(id))
    ensures var all, t := Run(EMPTY, maxDepth, LaneOps(acts)).All(), Next(s, TryEnqueue(id));
            && (id in t.refusing <==> |all| >= maxDepth)
            && (id in t.uncounted <==> |all| < maxDepth)
  {
    hide Runs, InLanes, NoDuplicates, Once, InQueue, Replied, OnePlace, RepliesKept;
    ReachedInv(maxDepth, acts, s);
    QueueIsLaneRun(maxDepth, acts, s);
  }
}
