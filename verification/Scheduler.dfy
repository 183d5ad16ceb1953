/** One model's part of the scheduler as a protocol of atomic steps: callers enqueue and wait, one batcher
    drains and dispatches, one goroutine per item replies on the item's channel of capacity one, and callers
    may time out or be cancelled at any moment.  A step is one lock region, one atomic add, one send or one
    receive, and steps interleave freely. */
module Scheduler {
  import opened LaneQueue

  datatype Result = Answer | Error

  datatype State = State(
    maxDepth: int,
    queue: Lanes,
    // where the callers of Schedule are
    calling: map<nat, int>, // before Enqueue's lock region, with the priority of the request
    refusing: set<nat>,     // found the queue full; dropped not yet bumped
    shedding: set<nat>,     // dropped bumped; the service's own counter not yet
    uncounted: set<nat>,    // queued; enqueued not yet bumped
    waiting: set<nat>,      // in the final select
    failing: set<nat>,      // past it with an error or a timeout; the service's error counter not yet bumped
    returning: set<nat>,    // past it with an answer; the service's counter not yet bumped
    // the batcher and its goroutines
    batch: set<nat>,
    pending: set<nat>,
    channels: map<nat, Result>,
    sends: seq<nat>,        // the ids of all sends so far, in order
    // counters
    enqueued: nat, dropped: nat, dispatched: nat, processed: nat,
    calls: nat, answered: nat, errors: nat, shed: nat, cancelled: nat,
    known: set<nat>)

  function Start(maxDepth: int): State {
    State(maxDepth, EMPTY, map[], {}, {}, {}, {}, {}, {}, {}, {}, map[], [], 0, 0, 0, 0, 0, 0, 0, 0, 0, {})
  }

  datatype Action =
    | Call(id: nat, priority: int)
    | TryEnqueue(id: nat)
    | CountDropped(id: nat)
    | CountShed(id: nat)
    | CountEnqueued(id: nat)
    | DrainQueue(n: int)
    | Send(id: nat, result: Result)
    | Finish
    | Receive(id: nat)
    | TimeOut(id: nat)
    | Cancel(id: nat)
    | CountError(id: nat)
    | CountAnswered(id: nat)

  /** A send goes through only when the channel is empty; otherwise the goroutine would block. */
  predicate Enabled(s: State, a: Action) {
    match a
    case Call(id, _) => id !in s.known
    case TryEnqueue(id) => id in s.calling
    case CountDropped(id) => id in s.refusing
    case CountShed(id) => id in s.shedding
    case CountEnqueued(id) => id in s.uncounted
    case DrainQueue(_) => s.batch == {}
    case Send(id, _) => id in s.pending && id !in s.channels
    case Finish => s.batch != {} && s.pending == {}
    case Receive(id) => id in s.waiting && id in s.channels
    case TimeOut(id) => id in s.waiting
    case Cancel(id) => id in s.waiting
    case CountError(id) => id in s.failing
    case CountAnswered(id) => id in s.returning
  }

  function Ids(xs: seq<Item>): set<nat> {
    set x | x in xs :: x.id
  }

  /** A request enters Schedule. */
  function Called(s: State, id: nat, priority: int): State {
    s.(calling := s.calling[id := priority], known := s.known + {id}, calls := s.calls + 1)
  }

  function TurnedAway(s: State, id: nat): State {
    s.(calling := s.calling - {id}, refusing := s.refusing + {id})
  }

  function Queued(s: State, id: nat): State
    requires id in s.calling
  {
    s.(calling := s.calling - {id}, queue := Pushed(s.queue, Item(id, s.calling[id])), uncounted := s.uncounted + {id})
  }

  function DroppedCounted(s: State, id: nat): State {
    s.(refusing := s.refusing - {id}, shedding := s.shedding + {id}, dropped := s.dropped + 1)
  }

  function ShedCounted(s: State, id: nat): State {
    s.(shedding := s.shedding - {id}, shed := s.shed + 1)
  }

  function EnqueuedCounted(s: State, id: nat): State {
    s.(uncounted := s.uncounted - {id}, waiting := s.waiting + {id}, enqueued := s.enqueued + 1)
  }

  /** The batcher drains and starts one goroutine per item. */
  function Dispatched(s: State, n: int): State {
    var k := Served(s.queue, n);
    var out := Ids(s.queue.All()[..k]);
    s.(queue := Drained(s.queue, k), dispatched := s.dispatched + k, batch := out, pending := out)
  }

  function Sent(s: State, id: nat, r: Result): State {
    s.(pending := s.pending - {id}, channels := s.channels[id := r], sends := s.sends + [id])
  }

  /** All goroutines are done, and the batch is recorded. */
  function Finished(s: State): State {
    s.(batch := {}, processed := s.processed + |s.batch|)
  }

  function Received(s: State, id: nat): State
    requires id in s.channels
  {
    var t := s.(waiting := s.waiting - {id}, channels := s.channels - {id});
    if s.channels[id].Error? then t.(failing := s.failing + {id}) else t.(returning := s.returning + {id})
  }

  function TimedOut(s: State, id: nat): State {
    s.(waiting := s.waiting - {id}, failing := s.failing + {id})
  }

  function ErrorCounted(s: State, id: nat): State {
    s.(failing := s.failing - {id}, errors := s.errors + 1)
  }

  function AnsweredCounted(s: State, id: nat): State {
    s.(returning := s.returning - {id}, answered := s.answered + 1)
  }

  /** Cancellation bumps no counter of the service; the model counts it. */
  function Cancelled(s: State, id: nat): State {
    s.(waiting := s.waiting - {id}, cancelled := s.cancelled + 1)
  }

  function Next(s: State, a: Action): State
    requires Enabled(s, a)
  {
    match a
    case Call(id, p) => Called(s, id, p)
    case TryEnqueue(id) => if s.queue.Depth() >= s.maxDepth then TurnedAway(s, id) else Queued(s, id)
    case CountDropped(id) => DroppedCounted(s, id)
    case CountShed(id) => ShedCounted(s, id)
    case CountEnqueued(id) => EnqueuedCounted(s, id)
    case DrainQueue(n) => Dispatched(s, n)
    case Send(id, r) => Sent(s, id, r)
    case Finish => Finished(s)
    case Receive(id) => Received(s, id)
    case TimeOut(id) => TimedOut(s, id)
    case Cancel(id) => Cancelled(s, id)
    case CountError(id) => ErrorCounted(s, id)
    case CountAnswered(id) => AnsweredCounted(s, id)
  }

  // ---------- What every reachable state satisfies ----------

  ghost predicate NoDuplicates(xs: seq<Item>) {
    forall i, j :: 0 <= i < j < |xs| ==> xs[i].id != xs[j].id
  }

  ghost predicate Once(ids: seq<nat>) {
    forall i, j :: 0 <= i < j < |ids| ==> ids[i] != ids[j]
  }

  function Replied(sends: seq<nat>): set<nat> {
    set id | id in sends
  }

  /** An accepted item is queued, in flight or replied to, and only one of them. */
  ghost predicate OnePlace(queued: set<nat>, pending: set<nat>, batch: set<nat>, replied: set<nat>) {
    && queued !! pending && queued !! replied && pending !! replied
    && pending <= batch <= pending + replied
  }

  /** Only replies fill channels, and a reply stays there as long as its own caller may still want it. */
  ghost predicate RepliesKept(channels: set<nat>, replied: set<nat>, expecting: set<nat>) {
    channels <= replied && replied * expecting <= channels
  }

  /** Where the callers that have not left yet are. */
  datatype Callers = Callers(calling: set<nat>, refusing: set<nat>, shedding: set<nat>,
                             uncounted: set<nat>, waiting: set<nat>,
                             failing: set<nat>, returning: set<nat>)
  {
    function Expecting(): set<nat> { waiting + uncounted }

    function Count(): nat { |calling| + |refusing| + |shedding| + |uncounted| + |waiting| + |failing| + |returning| }
  }

  function Present(s: State): Callers {
    Callers(s.calling.Keys, s.refusing, s.shedding, s.uncounted, s.waiting, s.failing, s.returning)
  }

  /** Every caller is in one place, and those past the lock are accepted ones. */
  ghost predicate CallersApart(c: Callers, accepted: set<nat>, known: set<nat>) {
    && c.calling !! c.refusing && c.calling !! c.shedding && c.refusing !! c.shedding
    && c.calling !! accepted && c.refusing !! accepted && c.shedding !! accepted
    && c.uncounted !! c.waiting && c.uncounted <= accepted && c.waiting <= accepted
    && c.failing !! c.uncounted && c.failing !! c.waiting && c.failing <= accepted
    && c.returning !! c.uncounted && c.returning !! c.waiting && c.returning <= accepted
    && c.failing !! c.returning
    && c.calling <= known && c.refusing <= known && c.shedding <= known && accepted <= known
  }

  /** Every call is accounted for: still here, or counted under how it left. */
  ghost predicate CallsAddUp(s: State, present: nat, shedding: nat) {
    && s.calls == present + s.answered + s.errors + s.shed + s.cancelled
    && s.dropped == s.shed + shedding
  }

  /** Every item is accounted for, although `enqueued` is bumped outside the lock. */
  ghost predicate ItemsAddUp(s: State, uncounted: nat, batch: nat) {
    && s.enqueued + uncounted == s.dispatched + s.queue.Depth()
    && s.processed + batch == s.dispatched
    && (s.queue.Depth() <= s.maxDepth || s.queue.Depth() == 0)
  }

  ghost predicate Inv(s: State) {
    && InLanes(s.queue) && NoDuplicates(s.queue.All()) && Once(s.sends)
    && OnePlace(InQueue(s.queue), s.pending, s.batch, Replied(s.sends))
    && RepliesKept(s.channels.Keys, Replied(s.sends), Present(s).Expecting())
    && CallersApart(Present(s), Accepted(s.queue, s.pending, s.sends), s.known)
    && CallsAddUp(s, Present(s).Count(), |s.shedding|)
    && ItemsAddUp(s, |s.uncounted|, |s.batch|)
  }

  function InQueue(q: Lanes): set<nat> { Ids(q.All()) }

  /** The ids that are queued, waiting to be replied to or replied to; AcceptedAreEntered says which these are. */
  function Accepted(q: Lanes, pending: set<nat>, sends: seq<nat>): set<nat> {
    InQueue(q) + pending + Replied(sends)
  }

  function AcceptedIn(s: State): set<nat> { Accepted(s.queue, s.pending, s.sends) }

  // ---------- Queue steps and ids ----------

  lemma InsertedIds(s: seq<Item>, x: Item, j: nat)
    requires j <= |s|
    ensures Ids(s[..j] + [x] + s[j..]) == Ids(s) + {x.id}
  {
    var t := s[..j] + [x] + s[j..];
    assert s == s[..j] + s[j..];
    assert forall y :: y in t <==> y in s || y == x;
  }

  lemma InsertedOnce(s: seq<Item>, x: Item, j: nat)
    requires j <= |s| && NoDuplicates(s) && x.id !in Ids(s)
    ensures NoDuplicates(s[..j] + [x] + s[j..])
  {
    var t := s[..j] + [x] + s[j..];
    forall i, k | 0 <= i < k < |t|
      ensures t[i].id != t[k].id
    {
      assert i != j ==> t[i] == s[if i < j then i else i - 1] && t[i] in s;
      assert k != j ==> t[k] == s[if k < j then k else k - 1] && t[k] in s;
    }
  }

  lemma PushedIds(q: Lanes, x: Item)
    requires InLanes(q) && NoDuplicates(q.All()) && x.id !in Ids(q.All())
    ensures Ids(Pushed(q, x).All()) == Ids(q.All()) + {x.id}
    ensures InLanes(Pushed(q, x)) && NoDuplicates(Pushed(q, x).All())
    ensures Pushed(q, x).Depth() == q.Depth() + 1
  {
    hide InLanes, NoDuplicates, Ids, Lanes.All;
    PushInserts(q, x);
    PushedSplits(q, x);
    var j := if LaneOf(x) == 0.0 then |q.high| else if LaneOf(x) == 1.0 then |q.high| + |q.normal| else q.Depth();
    InsertedIds(q.All(), x, j);
    InsertedOnce(q.All(), x, j);
  }

  lemma {:induction false} IdsCount(xs: seq<Item>)
    requires NoDuplicates(xs)
    ensures |Ids(xs)| == |xs|
  {
    if xs != [] {
      var init, x := xs[..|xs| - 1], xs[|xs| - 1];
      IdsCount(init);
      assert xs == init + [x];
      assert Ids(xs) == Ids(init) + {x.id};
      assert x.id !in Ids(init);
    }
  }

  lemma SplitIds(xs: seq<Item>, k: nat)
    requires NoDuplicates(xs) && k <= |xs|
    ensures Ids(xs) == Ids(xs[..k]) + Ids(xs[k..])
    ensures Ids(xs[..k]) !! Ids(xs[k..])
    ensures |Ids(xs[..k])| == k && NoDuplicates(xs[k..])
  {
    hide Ids;
    IdsCount(xs[..k]);
    IdsConcat(xs[..k], xs[k..]);
    assert xs == xs[..k] + xs[k..];
    forall i, j | 0 <= i < |xs[..k]| && 0 <= j < |xs[k..]|
      ensures xs[..k][i].id != xs[k..][j].id
    {
      assert xs[i].id != xs[k + j].id;
    }
    IdsApart(xs[..k], xs[k..]);
  }

  lemma IdsConcat(xs: seq<Item>, ys: seq<Item>)
    ensures Ids(xs + ys) == Ids(xs) + Ids(ys)
  {
    assert forall x :: x in xs + ys <==> x in xs || x in ys;
  }

  lemma IdsApart(xs: seq<Item>, ys: seq<Item>)
    requires forall i, j :: 0 <= i < |xs| && 0 <= j < |ys| ==> xs[i].id != ys[j].id
    ensures Ids(xs) !! Ids(ys)
  {
  }

  // ---------- Each step keeps the invariant ----------

  lemma StartInv(maxDepth: int)
    ensures Inv(Start(maxDepth))
  {
  }

  lemma KeysAdd<T>(m: map<nat, T>, id: nat, v: T)
    ensures m[id := v].Keys == m.Keys + {id}
  {
  }

  lemma KeysDrop<T>(m: map<nat, T>, id: nat)
    ensures (m - {id}).Keys == m.Keys - {id}
  {
  }

  lemma ApartCalled(c: Callers, a: set<nat>, k: set<nat>, id: nat)
    requires CallersApart(c, a, k) && id !in k
    ensures var d := c.(calling := c.calling + {id});
            CallersApart(d, a, k + {id}) && d.Count() == c.Count() + 1
  {
  }

  lemma ApartTurnedAway(c: Callers, a: set<nat>, k: set<nat>, id: nat)
    requires CallersApart(c, a, k) && id in c.calling
    ensures var d := c.(calling := c.calling - {id}, refusing := c.refusing + {id});
            CallersApart(d, a, k) && d.Count() == c.Count()
  {
  }

  lemma ApartQueued(c: Callers, a: set<nat>, k: set<nat>, id: nat)
    requires CallersApart(c, a, k) && id in c.calling
    ensures var d := c.(calling := c.calling - {id}, uncounted := c.uncounted + {id});
            CallersApart(d, a + {id}, k) && d.Count() == c.Count() && |d.uncounted| == |c.uncounted| + 1
            && d.Expecting() == c.Expecting() + {id} && id !in a
  {
  }

  lemma ApartDropped(c: Callers, a: set<nat>, k: set<nat>, id: nat)
    requires CallersApart(c, a, k) && id in c.refusing
    ensures var d := c.(refusing := c.refusing - {id}, shedding := c.shedding + {id});
            CallersApart(d, a, k) && d.Count() == c.Count() && |d.shedding| == |c.shedding| + 1
  {
  }

  lemma ApartShed(c: Callers, a: set<nat>, k: set<nat>, id: nat)
    requires CallersApart(c, a, k) && id in c.shedding
    ensures var d := c.(shedding := c.shedding - {id});
            CallersApart(d, a, k) && d.Count() == c.Count() - 1 && |d.shedding| == |c.shedding| - 1
  {
  }

  lemma ApartCounted(c: Callers, a: set<nat>, k: set<nat>, id: nat)
    requires CallersApart(c, a, k) && id in c.uncounted
    ensures var d := c.(uncounted := c.uncounted - {id}, waiting := c.waiting + {id});
            CallersApart(d, a, k) && d.Count() == c.Count() && |d.uncounted| == |c.uncounted| - 1
            && d.Expecting() == c.Expecting()
  {
  }

  lemma ApartLeft(c: Callers, a: set<nat>, k: set<nat>, id: nat)
    requires CallersApart(c, a, k) && id in c.waiting
    ensures var d := c.(waiting := c.waiting - {id});
            CallersApart(d, a, k) && d.Count() == c.Count() - 1 && d.Expecting() == c.Expecting() - {id}
  {
  }

  lemma ApartFailing(c: Callers, a: set<nat>, k: set<nat>, id: nat)
    requires CallersApart(c, a, k) && id in c.waiting
    ensures var d := c.(waiting := c.waiting - {id}, failing := c.failing + {id});
            CallersApart(d, a, k) && d.Count() == c.Count() && d.Expecting() == c.Expecting() - {id}
  {
  }

  lemma ApartReturning(c: Callers, a: set<nat>, k: set<nat>, id: nat)
    requires CallersApart(c, a, k) && id in c.waiting
    ensures var d := c.(waiting := c.waiting - {id}, returning := c.returning + {id});
            CallersApart(d, a, k) && d.Count() == c.Count() && d.Expecting() == c.Expecting() - {id}
  {
  }

  lemma ApartFailed(c: Callers, a: set<nat>, k: set<nat>, id: nat)
    requires CallersApart(c, a, k) && id in c.failing
    ensures var d := c.(failing := c.failing - {id});
            CallersApart(d, a, k) && d.Count() == c.Count() - 1
  {
  }

  lemma ApartReturned(c: Callers, a: set<nat>, k: set<nat>, id: nat)
    requires CallersApart(c, a, k) && id in c.returning
    ensures var d := c.(returning := c.returning - {id});
            CallersApart(d, a, k) && d.Count() == c.Count() - 1
  {
  }

  lemma KeptAtSend(channels: set<nat>, replied: set<nat>, expecting: set<nat>, id: nat)
    requires RepliesKept(channels, replied, expecting)
    ensures RepliesKept(channels + {id}, replied + {id}, expecting)
  {
  }

  lemma KeptAtQueueing(channels: set<nat>, replied: set<nat>, expecting: set<nat>, id: nat)
    requires RepliesKept(channels, replied, expecting) && id !in replied
    ensures RepliesKept(channels, replied, expecting + {id})
  {
  }

  lemma KeptAtLeaving(channels: set<nat>, replied: set<nat>, expecting: set<nat>, id: nat)
    requires RepliesKept(channels, replied, expecting)
    ensures RepliesKept(channels, replied, expecting - {id})
    ensures RepliesKept(channels - {id}, replied, expecting - {id})
  {
  }

  lemma PlaceAtQueueing(q: set<nat>, p: set<nat>, b: set<nat>, r: set<nat>, id: nat)
    requires OnePlace(q, p, b, r) && id !in p && id !in r
    ensures OnePlace(q + {id}, p, b, r)
  {
  }

  lemma PlaceAtSend(q: set<nat>, p: set<nat>, b: set<nat>, r: set<nat>, id: nat)
    requires OnePlace(q, p, b, r) && id in p
    ensures OnePlace(q, p - {id}, b, r + {id}) && id !in r
    ensures q + (p - {id}) + (r + {id}) == q + p + r
  {
  }

  lemma CalledKeeps(s: State, id: nat, p: int)
    requires Inv(s) && id !in s.known
    ensures Inv(Called(s, id, p))
  {
    hide OnePlace, RepliesKept, CallersApart, Callers.Count, Callers.Expecting, InLanes, NoDuplicates, Once;
    hide InQueue, Accepted, Replied;
    KeysAdd(s.calling, id, p);
    ApartCalled(Present(s), Accepted(s.queue, s.pending, s.sends), s.known, id);
    SameExpecting(Present(s), Present(Called(s, id, p)));
  }

  lemma SameExpecting(c: Callers, d: Callers)
    requires c.waiting == d.waiting && c.uncounted == d.uncounted
    ensures c.Expecting() == d.Expecting()
  {
  }

  lemma TurnedAwayKeeps(s: State, id: nat)
    requires Inv(s) && id in s.calling
    ensures Inv(TurnedAway(s, id))
  {
    hide OnePlace, RepliesKept, CallersApart, Callers.Count, Callers.Expecting, InLanes, NoDuplicates, Once;
    hide InQueue, Accepted, Replied;
    KeysDrop(s.calling, id);
    SameExpecting(Present(s), Present(TurnedAway(s, id)));
    ApartTurnedAway(Present(s), Accepted(s.queue, s.pending, s.sends), s.known, id);
  }

  lemma QueuedKeeps(s: State, id: nat)
    requires Inv(s) && id in s.calling && s.queue.Depth() < s.maxDepth
    ensures Inv(Queued(s, id)) && AcceptedIn(Queued(s, id)) == AcceptedIn(s) + {id}
  {
    hide OnePlace, RepliesKept, CallersApart, Callers.Count, Callers.Expecting, InLanes, NoDuplicates, Once;
    hide Ids, Pushed, Replied, Accepted, Lanes.All, Lanes.Depth;
    var x, t, r := Item(id, s.calling[id]), Queued(s, id), Replied(s.sends);
    var a := Accepted(s.queue, s.pending, s.sends);
    KeysDrop(s.calling, id);
    ApartQueued(Present(s), a, s.known, id);
    NotAccepted(s.queue, s.pending, s.sends, id);
    PushedIds(s.queue, x);
    PlaceAtQueueing(InQueue(s.queue), s.pending, s.batch, r, id);
    KeptAtQueueing(s.channels.Keys, r, Present(s).Expecting(), id);
    AcceptedQueued(s.queue, t.queue, s.pending, s.sends, id);
  }

  lemma AcceptedQueued(q: Lanes, q': Lanes, pending: set<nat>, sends: seq<nat>, id: nat)
    requires InQueue(q') == InQueue(q) + {id}
    ensures Accepted(q', pending, sends) == Accepted(q, pending, sends) + {id}
  {
    hide InQueue, Replied;
  }

  lemma NotAccepted(q: Lanes, pending: set<nat>, sends: seq<nat>, id: nat)
    requires id !in Accepted(q, pending, sends)
    ensures id !in InQueue(q) && id !in pending && id !in Replied(sends)
  {
    hide InQueue, Replied;
  }

  lemma DroppedCountedKeeps(s: State, id: nat)
    requires Inv(s) && id in s.refusing
    ensures Inv(DroppedCounted(s, id))
  {
    hide OnePlace, RepliesKept, CallersApart, Callers.Count, Callers.Expecting, InLanes, NoDuplicates, Once;
    hide InQueue, Accepted, Replied;
    SameExpecting(Present(s), Present(DroppedCounted(s, id)));
    ApartDropped(Present(s), Accepted(s.queue, s.pending, s.sends), s.known, id);
  }

  lemma ShedCountedKeeps(s: State, id: nat)
    requires Inv(s) && id in s.shedding
    ensures Inv(ShedCounted(s, id))
  {
    hide OnePlace, RepliesKept, CallersApart, Callers.Count, Callers.Expecting, InLanes, NoDuplicates, Once;
    hide InQueue, Accepted, Replied;
    SameExpecting(Present(s), Present(ShedCounted(s, id)));
    ApartShed(Present(s), Accepted(s.queue, s.pending, s.sends), s.known, id);
  }

  lemma EnqueuedCountedKeeps(s: State, id: nat)
    requires Inv(s) && id in s.uncounted
    ensures Inv(EnqueuedCounted(s, id))
  {
    hide OnePlace, RepliesKept, CallersApart, Callers.Count, Callers.Expecting, InLanes, NoDuplicates, Once;
    hide InQueue, Accepted, Replied;
    ApartCounted(Present(s), Accepted(s.queue, s.pending, s.sends), s.known, id);
  }

  lemma DispatchedKeeps(s: State, n: int)
    requires Inv(s) && s.batch == {}
    ensures Inv(Dispatched(s, n)) && AcceptedIn(Dispatched(s, n)) == AcceptedIn(s)
  {
    hide InLanes, NoDuplicates, Once, Ids, Replied, RepliesKept, CallersApart, Lanes.All;
    hide Callers.Count, Callers.Expecting;
    var t, k := Dispatched(s, n), Served(s.queue, n);
    SplitIds(s.queue.All(), k);
    DrainedInLanes(s.queue, k);
    assert InQueue(s.queue) == t.pending + InQueue(t.queue) && t.pending !! InQueue(t.queue);
    assert s.pending == {} && |t.batch| == k;
    assert Accepted(t.queue, t.pending, t.sends) == Accepted(s.queue, s.pending, s.sends);
  }

  lemma SentOnce(sends: seq<nat>, id: nat)
    requires Once(sends) && id !in Replied(sends)
    ensures Once(sends + [id]) && Replied(sends + [id]) == Replied(sends) + {id}
  {
  }

  lemma SentKeeps(s: State, id: nat, r: Result)
    requires Inv(s) && id in s.pending
    ensures Inv(Sent(s, id, r)) && AcceptedIn(Sent(s, id, r)) == AcceptedIn(s)
  {
    hide OnePlace, RepliesKept, CallersApart, InLanes, NoDuplicates, Once, InQueue, Replied;
    hide Callers.Count, Callers.Expecting;
    var t, replied := Sent(s, id, r), Replied(s.sends);
    PlaceAtSend(InQueue(s.queue), s.pending, s.batch, replied, id);
    SentOnce(s.sends, id);
    KeysAdd(s.channels, id, r);
    KeptAtSend(s.channels.Keys, replied, Present(s).Expecting(), id);
    assert Accepted(t.queue, t.pending, t.sends) == Accepted(s.queue, s.pending, s.sends);
  }

  lemma FinishedKeeps(s: State)
    requires Inv(s) && s.pending == {}
    ensures Inv(Finished(s))
  {
    hide InLanes, NoDuplicates, Once, InQueue, RepliesKept, CallersApart, Replied;
  }

  lemma ReceivedKeeps(s: State, id: nat)
    requires Inv(s) && id in s.waiting && id in s.channels
    ensures Inv(Received(s, id))
  {
    hide OnePlace, RepliesKept, CallersApart, Callers.Count, Callers.Expecting, InLanes, NoDuplicates, Once;
    hide InQueue, Accepted, Replied;
    KeptAtLeaving(s.channels.Keys, Replied(s.sends), Present(s).Expecting(), id);
    KeysDrop(s.channels, id);
    var a := Accepted(s.queue, s.pending, s.sends);
    if s.channels[id].Error? {
      ApartFailing(Present(s), a, s.known, id);
    } else {
      ApartReturning(Present(s), a, s.known, id);
    }
  }

  lemma TimedOutKeeps(s: State, id: nat)
    requires Inv(s) && id in s.waiting
    ensures Inv(TimedOut(s, id))
  {
    hide OnePlace, RepliesKept, CallersApart, Callers.Count, Callers.Expecting, InLanes, NoDuplicates, Once;
    hide InQueue, Accepted, Replied;
    KeptAtLeaving(s.channels.Keys, Replied(s.sends), Present(s).Expecting(), id);
    ApartFailing(Present(s), Accepted(s.queue, s.pending, s.sends), s.known, id);
  }

  lemma CancelledKeeps(s: State, id: nat)
    requires Inv(s) && id in s.waiting
    ensures Inv(Cancelled(s, id))
  {
    hide OnePlace, RepliesKept, CallersApart, Callers.Count, Callers.Expecting, InLanes, NoDuplicates, Once;
    hide InQueue, Accepted, Replied;
    KeptAtLeaving(s.channels.Keys, Replied(s.sends), Present(s).Expecting(), id);
    ApartLeft(Present(s), Accepted(s.queue, s.pending, s.sends), s.known, id);
  }

  lemma ErrorCountedKeeps(s: State, id: nat)
    requires Inv(s) && id in s.failing
    ensures Inv(ErrorCounted(s, id))
  {
    hide OnePlace, RepliesKept, CallersApart, Callers.Count, Callers.Expecting, InLanes, NoDuplicates, Once;
    hide InQueue, Accepted, Replied;
    SameExpecting(Present(s), Present(ErrorCounted(s, id)));
    ApartFailed(Present(s), Accepted(s.queue, s.pending, s.sends), s.known, id);
  }

  lemma AnsweredCountedKeeps(s: State, id: nat)
    requires Inv(s) && id in s.returning
    ensures Inv(AnsweredCounted(s, id))
  {
    hide OnePlace, RepliesKept, CallersApart, Callers.Count, Callers.Expecting, InLanes, NoDuplicates, Once;
    hide InQueue, Accepted, Replied;
    SameExpecting(Present(s), Present(AnsweredCounted(s, id)));
    ApartReturned(Present(s), Accepted(s.queue, s.pending, s.sends), s.known, id);
  }

  lemma StepKeeps(s: State, a: Action)
    requires Inv(s) && Enabled(s, a)
    ensures Inv(Next(s, a))
  {
    hide Inv, Called, TurnedAway, Queued, DroppedCounted, ShedCounted, EnqueuedCounted;
    hide Dispatched, Sent, Finished, Received, TimedOut, Cancelled, ErrorCounted, AnsweredCounted;
    match a
    case Call(id, p) => CalledKeeps(s, id, p);
    case TryEnqueue(id) =>
      if s.queue.Depth() < s.maxDepth {
        QueuedKeeps(s, id);
      } else {
        TurnedAwayKeeps(s, id);
      }
    case CountDropped(id) => DroppedCountedKeeps(s, id);
    case CountShed(id) => ShedCountedKeeps(s, id);
    case CountEnqueued(id) => EnqueuedCountedKeeps(s, id);
    case DrainQueue(n) => DispatchedKeeps(s, n);
    case Send(id, r) => SentKeeps(s, id, r);
    case Finish => FinishedKeeps(s);
    case Receive(id) => ReceivedKeeps(s, id);
    case TimeOut(id) => TimedOutKeeps(s, id);
    case Cancel(id) => CancelledKeeps(s, id);
    case CountError(id) => ErrorCountedKeeps(s, id);
    case CountAnswered(id) => AnsweredCountedKeeps(s, id);
  }

  // ---------- Whole runs ----------

  ghost predicate Runs(s: State, acts: seq<Action>, t: State)
    decreases |acts|
  {
    if acts == [] then t == s
    else Enabled(s, acts[0]) && Runs(Next(s, acts[0]), acts[1..], t)
  }

  /** Every interleaving keeps every accepted item in exactly one place, answers it at most once, loses no
      reply and loses no count. */
  lemma {:induction false} ReachableInv(s: State, acts: seq<Action>, t: State)
    requires Inv(s) && Runs(s, acts, t)
    ensures Inv(t)
    decreases |acts|
  {
    if acts != [] {
      StepKeeps(s, acts[0]);
      ReachableInv(Next(s, acts[0]), acts[1..], t);
    }
  }

  function SendsOf(acts: seq<Action>): seq<nat> {
    if acts == [] then []
    else (if acts[0].Send? then [acts[0].id] else []) + SendsOf(acts[1..])
  }

  lemma {:induction false} SendsRecorded(s: State, acts: seq<Action>, t: State)
    requires Runs(s, acts, t)
    ensures t.sends == s.sends + SendsOf(acts)
    decreases |acts|
  {
    if acts != [] {
      SendsRecorded(Next(s, acts[0]), acts[1..], t);
    }
  }

  // ---------- Exactly once ----------

  /** The step passes Enqueue's lock region with room in the queue. */
  predicate Enters(s: State, a: Action) {
    a.TryEnqueue? && s.queue.Depth() < s.maxDepth
  }

  /** The ids of the requests that the queue accepted in the course of a run. */
  function Entered(s: State, acts: seq<Action>): set<nat>
    decreases |acts|
  {
    if acts == [] || !Enabled(s, acts[0]) then {}
    else (if Enters(s, acts[0]) then {acts[0].id} else {}) + Entered(Next(s, acts[0]), acts[1..])
  }

  /** Only that step makes an id accepted, and no step makes one disappear. */
  lemma StepEnters(s: State, a: Action)
    requires Inv(s) && Enabled(s, a)
    ensures AcceptedIn(Next(s, a)) == AcceptedIn(s) + if Enters(s, a) then {a.id} else {}
  {
    hide Inv, Accepted, Queued, Dispatched, Sent;
    if a.TryEnqueue? && s.queue.Depth() < s.maxDepth {
      QueuedKeeps(s, a.id);
    } else if a.DrainQueue? {
      DispatchedKeeps(s, a.n);
    } else if a.Send? {
      SentKeeps(s, a.id, a.result);
    }
  }

  /** After any run, the items in a place are those from before and those that entered. */
  lemma {:induction false} AcceptedAreEntered(s: State, acts: seq<Action>, t: State)
    requires Inv(s) && Runs(s, acts, t)
    ensures AcceptedIn(t) == AcceptedIn(s) + Entered(s, acts)
    decreases |acts|
  {
    hide Inv, AcceptedIn, Next, Enabled, Enters;
    if acts != [] {
      StepKeeps(s, acts[0]);
      StepEnters(s, acts[0]);
      AcceptedAreEntered(Next(s, acts[0]), acts[1..], t);
    }
  }

  /** In every run each item that entered is in the lanes, in flight or replied to, in exactly one of the three,
      and nothing else is; callers that have left make no difference. */
  lemma EnteredItemsHaveOnePlace(maxDepth: int, acts: seq<Action>, s: State)
    requires Runs(Start(maxDepth), acts, s)
    ensures var queued, replied := InQueue(s.queue), Replied(SendsOf(acts));
            && queued + s.pending + replied == Entered(Start(maxDepth), acts)
            && queued !! s.pending && queued !! replied && s.pending !! replied
  {
    hide Runs, InLanes, NoDuplicates, Once, InQueue, Replied, Entered, CallersApart, RepliesKept;
    StartInv(maxDepth);
    ReachableInv(Start(maxDepth), acts, s);
    SendsRecorded(Start(maxDepth), acts, s);
    assert s.sends == SendsOf(acts);
    AcceptedAreEntered(Start(maxDepth), acts, s);
    NothingAccepted(maxDepth);
  }

  lemma NothingAccepted(maxDepth: int)
    ensures AcceptedIn(Start(maxDepth)) == {} && Start(maxDepth).sends == []
  {
  }

  /** In no run does an item get two results, and every result is for an item that entered the queue. */
  lemma AtMostOneResult(maxDepth: int, acts: seq<Action>, s: State)
    requires Runs(Start(maxDepth), acts, s)
    ensures Once(SendsOf(acts))
    ensures forall id :: id in SendsOf(acts) ==> id in Entered(Start(maxDepth), acts)
  {
    hide Runs, CallersApart, OnePlace, InLanes, NoDuplicates, Once, InQueue, Entered;
    StartInv(maxDepth);
    ReachableInv(Start(maxDepth), acts, s);
    SendsRecorded(Start(maxDepth), acts, s);
    assert s.sends == SendsOf(acts);
    EnteredItemsHaveOnePlace(maxDepth, acts, s);
  }

  /** A goroutine that still has to reply is never kept from it, whatever its caller has done. */
  lemma SendsNeverBlock(maxDepth: int, acts: seq<Action>, s: State, id: nat, r: Result)
    requires Runs(Start(maxDepth), acts, s) && id in s.pending
    ensures Enabled(s, Send(id, r))
  {
    hide Runs;
    StartInv(maxDepth);
    ReachableInv(Start(maxDepth), acts, s);
    SendEnabled(s, id, r);
  }

  lemma SendEnabled(s: State, id: nat, r: Result)
    requires Inv(s) && id in s.pending
    ensures Enabled(s, Send(id, r))
  {
    hide InLanes, NoDuplicates, Once, InQueue, CallersApart, Replied;
  }

  /** From any reachable state the batch in flight completes by its own replies alone, one per item left. */
  lemma {:induction false} BatchCompletes(s: State) returns (acts: seq<Action>, t: State)
    requires Inv(s)
    ensures |acts| == |s.pending| && (forall i :: 0 <= i < |acts| ==> acts[i].Send?)
    ensures Runs(s, acts, t) && Inv(t)
    ensures t.pending == {} && t.batch == s.batch && t.waiting == s.waiting && t.queue == s.queue
    decreases |s.pending|
  {
    hide Inv;
    if s.pending == {} {
      acts, t := [], s;
    } else {
      var id :| id in s.pending;
      SendEnabled(s, id, Answer);
      SentKeeps(s, id, Answer);
      var rest;
      rest, t := BatchCompletes(Sent(s, id, Answer));
      acts := [Send(id, Answer)] + rest;
      assert acts[1..] == rest && Next(s, acts[0]) == Sent(s, id, Answer);
    }
  }

  /** Then it can be recorded, and every caller of the batch that is still waiting finds its reply. */
  lemma CompletedBatchIsDelivered(s: State, id: nat)
    requires Inv(s) && s.pending == {} && id in s.batch
    ensures Enabled(s, Finish)
    ensures id in s.waiting ==> Enabled(s, Receive(id))
  {
    hide InLanes, NoDuplicates, Once, InQueue, CallersApart, Replied, OnePlace, RepliesKept;
    hide Callers.Count, Callers.Expecting;
    BatchReplied(InQueue(s.queue), s.batch, Replied(s.sends), id);
    if id in s.waiting {
      ReplyFound(s.channels.Keys, Replied(s.sends), Present(s), id);
    }
  }

  lemma BatchReplied(queued: set<nat>, batch: set<nat>, replied: set<nat>, id: nat)
    requires OnePlace(queued, {}, batch, replied) && id in batch
    ensures id in replied
  {
  }

  lemma ReplyFound(channels: set<nat>, replied: set<nat>, c: Callers, id: nat)
    requires RepliesKept(channels, replied, c.Expecting()) && id in replied && id in c.waiting
    ensures id in channels
  {
    assert id in replied * c.Expecting();
  }

  /** A remark on every run: the counters alone show it whenever no caller stands between its lock region, or its
      select, and its counter. */
  lemma QuiescentCounters(maxDepth: int, acts: seq<Action>, s: State)
    requires Runs(Start(maxDepth), acts, s)
    requires s.uncounted == {} && s.shedding == {} && s.refusing == {} && s.calling == map[]
    requires s.failing == {} && s.returning == {}
    ensures s.enqueued == s.dispatched + s.queue.Depth()
    ensures s.dropped == s.shed
    ensures s.calls == |s.waiting| + s.answered + s.errors + s.shed + s.cancelled
  {
    hide Runs, OnePlace, RepliesKept, CallersApart, InLanes, NoDuplicates, Once, InQueue, Accepted, Replied;
    StartInv(maxDepth);
    ReachableInv(Start(maxDepth), acts, s);
  }
}
