/**
 * The capacity counter behind concurrency control. A call enqueues and either proceeds at once
 * or waits; releasing hands the slot to the call that has waited longest.
 *
 * `Pool` is the state as a value. Its `running` field, the calls that were let through and have
 * not released yet, is not stored by the source: it is what the counter is supposed to count.
 */
module ConcurrencyQueue {
  import opened Sequences

  /** One call of `enqueue`; the same execution may enqueue more than once. */
  type Ticket = nat

  datatype Waiter = Waiter(executionId: string, ticket: Ticket)

  datatype Pool = Pool(capacity: int, queue: seq<Waiter>, running: set<Ticket>)

  function Tickets(queue: seq<Waiter>): set<Ticket> {
    set w | w in queue :: w.ticket
  }

  /** Lets the call through that has waited longest. */
  function ResolveNext(pool: Pool): Pool {
    if pool.queue == [] then pool
    else pool.(queue := pool.queue[1..], running := pool.running + {pool.queue[0].ticket})
  }

  function Enqueue(pool: Pool, executionId: string, ticket: Ticket): Pool {
    var pool' := pool.(capacity := pool.capacity - 1);
    if pool'.capacity < 0 then pool'.(queue := pool.queue + [Waiter(executionId, ticket)])
    else pool'.(running := pool.running + {ticket})
  }

  /** `dequeue`, called for the release of `ticket`. */
  function Dequeue(pool: Pool, ticket: Ticket): Pool {
    ResolveNext(pool.(capacity := pool.capacity + 1, running := pool.running - {ticket}))
  }

  /** Where the first call of the execution waits; the length when none does. */
  function WaiterIndex(queue: seq<Waiter>, executionId: string): (i: nat)
    ensures i <= |queue|
    ensures i < |queue| ==> queue[i].executionId == executionId
    ensures forall j :: 0 <= j < i ==> queue[j].executionId != executionId
  {
    IndexWhere(queue, (w: Waiter) => w.executionId == executionId)
  }

  predicate Queued(pool: Pool, executionId: string) {
    exists w :: w in pool.queue && w.executionId == executionId
  }

  /** `remove`: the execution leaves the queue, a unit is given back, and the next one is let through. */
  function Remove(pool: Pool, executionId: string): Pool {
    var i := WaiterIndex(pool.queue, executionId);
    if i < |pool.queue| then
      ResolveNext(pool.(capacity := pool.capacity + 1, queue := pool.queue[..i] + pool.queue[i + 1..]))
    else pool
  }

  /** Calls let through beyond what the counter accounts for. */
  function Excess(pool: Pool): int {
    (if pool.capacity < 0 then -pool.capacity else 0) - |pool.queue|
  }

  predicate Distinct(pool: Pool) {
    && (forall i, j :: 0 <= i < j < |pool.queue| ==> pool.queue[i].ticket != pool.queue[j].ticket)
    && (forall w :: w in pool.queue ==> w.ticket !in pool.running)
  }

  /** The accounting of a pool with `limit` slots. */
  predicate Accounts(pool: Pool, limit: nat) {
    && Distinct(pool)
    && pool.capacity + |pool.queue| + |pool.running| == limit
    && Excess(pool) >= 0
  }

  /** With a call waiting, every slot is in use; `Excess` says by how much the limit is passed. */
  lemma AccountsMeans(pool: Pool, limit: nat)
    requires Accounts(pool, limit)
    ensures pool.queue != [] ==> |pool.running| == limit + Excess(pool)
    ensures |pool.running| <= limit + Excess(pool)
    ensures |pool.running| < limit ==> pool.queue == [] && Excess(pool) == 0
  {
  }

  lemma EnqueueAccounts(pool: Pool, limit: nat, executionId: string, ticket: Ticket)
    requires Accounts(pool, limit)
    requires ticket !in pool.running && ticket !in Tickets(pool.queue)
    ensures Accounts(Enqueue(pool, executionId, ticket), limit)
    ensures Excess(Enqueue(pool, executionId, ticket)) == Excess(pool)
  {
    var pool' := Enqueue(pool, executionId, ticket);
    assert forall w :: w in pool.queue ==> w.ticket in Tickets(pool.queue);
  }

  lemma ResolveNextAccounts(pool: Pool, limit: nat)
    requires Distinct(pool)
    requires pool.capacity + |pool.queue| + |pool.running| == limit
    ensures Distinct(ResolveNext(pool))
    ensures ResolveNext(pool).capacity + |ResolveNext(pool).queue| + |ResolveNext(pool).running| == limit
  {
    if pool.queue != [] {
      assert pool.queue[0] in pool.queue;
      var pool' := ResolveNext(pool);
      forall w | w in pool'.queue ensures w.ticket !in pool'.running {
        var i :| 0 <= i < |pool'.queue| && pool'.queue[i] == w;
        assert w == pool.queue[i + 1];
      }
    }
  }

  lemma DequeueAccounts(pool: Pool, limit: nat, ticket: Ticket)
    requires Accounts(pool, limit) && ticket in pool.running
    ensures Accounts(Dequeue(pool, ticket), limit)
    ensures Excess(Dequeue(pool, ticket))
         == if pool.queue == [] && pool.capacity < 0 then Excess(pool) - 1 else Excess(pool)
  {
    ResolveNextAccounts(pool.(capacity := pool.capacity + 1, running := pool.running - {ticket}), limit);
  }

  /** Removing a waiting execution while another one waits lets a call through without a slot. */
  lemma RemoveAccounts(pool: Pool, limit: nat, executionId: string)
    requires Accounts(pool, limit)
    ensures Accounts(Remove(pool, executionId), limit)
    ensures Excess(Remove(pool, executionId))
         == if Queued(pool, executionId) && |pool.queue| > 1 then Excess(pool) + 1 else Excess(pool)
  {
    var i := WaiterIndex(pool.queue, executionId);
    if i < |pool.queue| {
      assert pool.queue[i] in pool.queue;
      var queue := pool.queue[..i] + pool.queue[i + 1..];
      assert forall j :: 0 <= j < |queue| ==> queue[j] == pool.queue[if j < i then j else j + 1];
      var removed := pool.(capacity := pool.capacity + 1, queue := queue);
      assert Distinct(removed);
      ResolveNextAccounts(removed, limit);
    }
  }

  /** The limit survives a removal exactly when the execution was not waiting, or nothing else was. */
  lemma RemoveKeepsLimitIff(pool: Pool, limit: nat, executionId: string)
    requires Accounts(pool, limit) && Excess(pool) == 0
    ensures |Remove(pool, executionId).running| <= limit <==> !Queued(pool, executionId) || |pool.queue| == 1
  {
    RemoveAccounts(pool, limit, executionId);
    AccountsMeans(pool, limit);
    if Queued(pool, executionId) {
      var w :| w in pool.queue && w.executionId == executionId;
      var i :| 0 <= i < |pool.queue| && pool.queue[i] == w;
      assert WaiterIndex(pool.queue, executionId) <= i;
    }
  }

  // ---------------------------------------------------------------------------
  // The pool and its users
  // ---------------------------------------------------------------------------

  /**
   * The pool fits its users: `holders` hold a unit, `pending` have asked for one and are either
   * still queued, or let through without having noticed, or removed from the queue for good.
   */
  ghost predicate Fits(pool: Pool, limit: nat, holders: set<Ticket>, pending: set<Ticket>) {
    && Accounts(pool, limit)
    && holders !! pending
    && holders <= pool.running <= holders + pending
    && Tickets(pool.queue) <= pending
  }

  lemma EnqueueFits(
    pool: Pool, limit: nat, holders: set<Ticket>, pending: set<Ticket>, executionId: string, ticket: Ticket)
    requires Fits(pool, limit, holders, pending) && ticket !in holders && ticket !in pending
    ensures Fits(Enqueue(pool, executionId, ticket), limit, holders, pending + {ticket})
  {
    EnqueueAccounts(pool, limit, executionId, ticket);
    var queue := pool.queue + [Waiter(executionId, ticket)];
    assert forall w :: w in queue ==> w in pool.queue || w.ticket == ticket;
  }

  lemma AdmitFits(pool: Pool, limit: nat, holders: set<Ticket>, pending: set<Ticket>, ticket: Ticket)
    requires Fits(pool, limit, holders, pending) && ticket in pending && ticket in pool.running
    ensures Fits(pool, limit, holders + {ticket}, pending - {ticket})
  {
  }

  lemma ResolveNextFits(pool: Pool, holders: set<Ticket>, pending: set<Ticket>)
    requires holders <= pool.running <= holders + pending && Tickets(pool.queue) <= pending
    ensures holders <= ResolveNext(pool).running <= holders + pending && Tickets(ResolveNext(pool).queue) <= pending
  {
    if pool.queue != [] {
      assert pool.queue[0] in pool.queue && pool.queue[0].ticket in Tickets(pool.queue);
      assert forall w :: w in pool.queue[1..] ==> w in pool.queue;
    }
  }

  lemma DequeueFits(pool: Pool, limit: nat, holders: set<Ticket>, pending: set<Ticket>, ticket: Ticket)
    requires Fits(pool, limit, holders, pending) && ticket in holders
    ensures Fits(Dequeue(pool, ticket), limit, holders - {ticket}, pending)
  {
    DequeueAccounts(pool, limit, ticket);
    var released := pool.(capacity := pool.capacity + 1, running := pool.running - {ticket});
    ResolveNextFits(released, holders - {ticket}, pending);
  }

  lemma RemoveFits(pool: Pool, limit: nat, holders: set<Ticket>, pending: set<Ticket>, executionId: string)
    requires Fits(pool, limit, holders, pending)
    ensures Fits(Remove(pool, executionId), limit, holders, pending)
  {
    RemoveAccounts(pool, limit, executionId);
    var i := WaiterIndex(pool.queue, executionId);
    if i < |pool.queue| {
      var queue := pool.queue[..i] + pool.queue[i + 1..];
      assert forall w :: w in queue ==> w in pool.queue;
      ResolveNextFits(pool.(capacity := pool.capacity + 1, queue := queue), holders, pending);
    }
  }

  // ---------------------------------------------------------------------------
  // Whole runs
  // ---------------------------------------------------------------------------

  datatype Event =
    | DoEnqueue(executionId: string, ticket: Ticket)
    | DoDequeue(ticket: Ticket)
    | DoRemove(executionId: string)

  /** Tickets are not reused while in the pool, and only calls that were let through release. */
  predicate Allowed(pool: Pool, e: Event) {
    match e
    case DoEnqueue(_, ticket) => ticket !in pool.running && ticket !in Tickets(pool.queue)
    case DoDequeue(ticket) => ticket in pool.running
    case DoRemove(_) => true
  }

  function Apply(pool: Pool, e: Event): Pool {
    match e
    case DoEnqueue(executionId, ticket) => Enqueue(pool, executionId, ticket)
    case DoDequeue(ticket) => Dequeue(pool, ticket)
    case DoRemove(executionId) => Remove(pool, executionId)
  }

  function Fresh(limit: nat): Pool {
    Pool(limit, [], {})
  }

  function After(pool: Pool, events: seq<Event>): Pool {
    if events == [] then pool else Apply(After(pool, events[..|events| - 1]), events[|events| - 1])
  }

  predicate AllAllowed(pool: Pool, events: seq<Event>) {
    forall i :: 0 <= i < |events| ==> Allowed(After(pool, events[..i]), events[i])
  }

  /** Removals that hit a waiting execution while another one was waiting. */
  function CrowdedRemovals(pool: Pool, events: seq<Event>): nat {
    if events == [] then 0
    else
      var before := events[..|events| - 1];
      var last := events[|events| - 1];
      CrowdedRemovals(pool, before)
      + if last.DoRemove? && Queued(After(pool, before), last.executionId) && |After(pool, before).queue| > 1
        then 1 else 0
  }

  /** Over any run the limit is passed by at most the number of crowded removals; no slot idles while a call waits. */
  lemma {:induction false} LimitOverRuns(limit: nat, events: seq<Event>)
    requires AllAllowed(Fresh(limit), events)
    ensures var pool := After(Fresh(limit), events);
      && Accounts(pool, limit)
      && |pool.running| <= limit + CrowdedRemovals(Fresh(limit), events)
      && (pool.queue != [] ==> |pool.running| >= limit)
      && Excess(pool) <= CrowdedRemovals(Fresh(limit), events)
    decreases |events|
  {
    if events != [] {
      var before, last := events[..|events| - 1], events[|events| - 1];
      assert forall i :: 0 <= i < |before| ==> before[..i] == events[..i];
      LimitOverRuns(limit, before);
      var pool := After(Fresh(limit), before);
      match last
      case DoEnqueue(executionId, ticket) => EnqueueAccounts(pool, limit, executionId, ticket);
      case DoDequeue(ticket) => DequeueAccounts(pool, limit, ticket);
      case DoRemove(executionId) => RemoveAccounts(pool, limit, executionId);
    }
    AccountsMeans(After(Fresh(limit), events), limit);
  }

  predicate KeepsLimitThroughout(limit: nat, events: seq<Event>) {
    && |After(Fresh(limit), events).running| <= limit
    && (events == [] || KeepsLimitThroughout(limit, events[..|events| - 1]))
  }

  /** The limit is kept throughout a run if and only if no removal in it was crowded. */
  lemma {:induction false} KeepsLimitThroughoutIff(limit: nat, events: seq<Event>)
    requires AllAllowed(Fresh(limit), events)
    ensures KeepsLimitThroughout(limit, events) <==> CrowdedRemovals(Fresh(limit), events) == 0
  {
    LimitOverRuns(limit, events);
    if events != [] {
      var before, last := events[..|events| - 1], events[|events| - 1];
      assert forall i :: 0 <= i < |before| ==> before[..i] == events[..i];
      KeepsLimitThroughoutIff(limit, before);
      LimitOverRuns(limit, before);
      if CrowdedRemovals(Fresh(limit), before) == 0 && last.DoRemove? {
        RemoveKeepsLimitIff(After(Fresh(limit), before), limit, last.executionId);
      }
    }
  }

  lemma OneMoreEvent(pool: Pool, events: seq<Event>, e: Event)
    requires AllAllowed(pool, events) && Allowed(After(pool, events), e)
    ensures AllAllowed(pool, events + [e]) && After(pool, events + [e]) == Apply(After(pool, events), e)
  {
    var all := events + [e];
    assert all[..|events|] == events;
    assert forall i :: 0 <= i < |events| ==> all[..i] == events[..i] && all[i] == events[i];
  }

  lemma FirstTakesSlot(a: string)
    ensures AllAllowed(Fresh(1), [DoEnqueue(a, 0)]) && After(Fresh(1), [DoEnqueue(a, 0)]) == Pool(0, [], {0})
  {
    OneMoreEvent(Fresh(1), [], DoEnqueue(a, 0));
    assert [] + [DoEnqueue(a, 0)] == [DoEnqueue(a, 0)];
  }

  lemma NextWaits(events: seq<Event>, pool: Pool, executionId: string, ticket: Ticket)
    requires AllAllowed(Fresh(1), events) && After(Fresh(1), events) == pool && pool.capacity <= 0
    requires ticket !in pool.running && ticket !in Tickets(pool.queue)
    ensures AllAllowed(Fresh(1), events + [DoEnqueue(executionId, ticket)])
    ensures After(Fresh(1), events + [DoEnqueue(executionId, ticket)])
         == Pool(pool.capacity - 1, pool.queue + [Waiter(executionId, ticket)], pool.running)
  {
    OneMoreEvent(Fresh(1), events, DoEnqueue(executionId, ticket));
  }

  /** With one slot taken and two executions waiting, removing one of them lets the other through. */
  lemma CrowdedRemovalPassesLimit(a: string, b: string, c: string)
    ensures var events := [DoEnqueue(a, 0)] + [DoEnqueue(b, 1)] + [DoEnqueue(c, 2)] + [DoRemove(b)];
      AllAllowed(Fresh(1), events) && After(Fresh(1), events).running == {0, 2}
  {
    FirstTakesSlot(a);
    NextWaits([DoEnqueue(a, 0)], Pool(0, [], {0}), b, 1);
    var one := Pool(-1, [] + [Waiter(b, 1)], {0});
    NextWaits([DoEnqueue(a, 0)] + [DoEnqueue(b, 1)], one, c, 2);
    OneMoreEvent(Fresh(1), [DoEnqueue(a, 0)] + [DoEnqueue(b, 1)] + [DoEnqueue(c, 2)], DoRemove(b));
    FirstRemoved(Pool(-2, one.queue + [Waiter(c, 2)], {0}));
  }

  lemma FirstRemoved(pool: Pool)
    requires |pool.queue| == 2
    ensures Remove(pool, pool.queue[0].executionId).running == pool.running + {pool.queue[1].ticket}
  {
    var i := WaiterIndex(pool.queue, pool.queue[0].executionId);
    assert i == 0 && pool.queue[..0] + pool.queue[1..] == [pool.queue[1]];
  }

  // ---------------------------------------------------------------------------
  // Who is let through
  // ---------------------------------------------------------------------------

  /** The calls that wait have waited in this order, and none that was let through came after one of them. */
  ghost predicate OldestFirst(pool: Pool) {
    && (forall i, j :: 0 <= i < j < |pool.queue| ==> pool.queue[i].ticket < pool.queue[j].ticket)
    && (forall t, w :: t in pool.running && w in pool.queue ==> t < w.ticket)
  }

  ghost predicate AllBefore(pool: Pool, ticket: Ticket) {
    (forall t :: t in pool.running ==> t < ticket) && (forall w :: w in pool.queue ==> w.ticket < ticket)
  }

  /** Tickets are handed out in ascending order. */
  ghost predicate TicketsAscend(events: seq<Event>) {
    forall i, j :: 0 <= i < j < |events| && events[i].DoEnqueue? && events[j].DoEnqueue? ==>
      events[i].ticket < events[j].ticket
  }

  lemma ResolveNextOldestFirst(pool: Pool)
    requires OldestFirst(pool)
    ensures OldestFirst(ResolveNext(pool))
  {
    if pool.queue != [] {
      var rest := pool.queue[1..];
      assert forall w :: w in rest ==> exists j :: 0 < j < |pool.queue| && pool.queue[j] == w;
    }
  }

  lemma RemoveOldestFirst(pool: Pool, executionId: string)
    requires OldestFirst(pool)
    ensures OldestFirst(Remove(pool, executionId))
  {
    var i := WaiterIndex(pool.queue, executionId);
    if i < |pool.queue| {
      ShorterOldestFirst(pool, i);
      var queue := pool.queue[..i] + pool.queue[i + 1..];
      ResolveNextOldestFirst(pool.(capacity := pool.capacity + 1, queue := queue));
    }
  }

  lemma ShorterOldestFirst(pool: Pool, i: nat)
    requires OldestFirst(pool) && i < |pool.queue|
    ensures OldestFirst(pool.(capacity := pool.capacity + 1, queue := pool.queue[..i] + pool.queue[i + 1..]))
  {
    var queue := pool.queue[..i] + pool.queue[i + 1..];
    assert forall j :: 0 <= j < |queue| ==> queue[j] == pool.queue[if j < i then j else j + 1];
    assert forall w :: w in queue ==> w in pool.queue;
  }

  /** Letting the next call through moves its ticket, and nothing else. */
  lemma ResolveNextMoves(pool: Pool)
    ensures var pool' := ResolveNext(pool);
      && Tickets(pool'.queue) + pool'.running == Tickets(pool.queue) + pool.running
      && pool.running <= pool'.running && (forall w :: w in pool'.queue ==> w in pool.queue)
  {
    if pool.queue != [] {
      assert pool.queue == [pool.queue[0]] + pool.queue[1..];
      assert forall w :: w in pool.queue <==> w == pool.queue[0] || w in pool.queue[1..];
    }
  }

  lemma RemoveMoves(pool: Pool, executionId: string)
    ensures var pool' := Remove(pool, executionId);
      && pool'.running <= Tickets(pool.queue) + pool.running
      && (forall w :: w in pool'.queue ==> w in pool.queue)
  {
    var i := WaiterIndex(pool.queue, executionId);
    if i < |pool.queue| {
      var queue := pool.queue[..i] + pool.queue[i + 1..];
      assert forall w :: w in queue ==> w in pool.queue;
      ResolveNextMoves(pool.(capacity := pool.capacity + 1, queue := queue));
    }
  }

  /** What an event brings into the pool. */
  lemma ApplyMembers(pool: Pool, e: Event)
    ensures forall t :: t in Apply(pool, e).running ==>
      t in pool.running || t in Tickets(pool.queue) || (e.DoEnqueue? && t == e.ticket)
    ensures forall w :: w in Apply(pool, e).queue ==> w in pool.queue || (e.DoEnqueue? && w.ticket == e.ticket)
  {
    match e
    case DoEnqueue(_, _) =>
    case DoDequeue(ticket) =>
      ResolveNextMoves(pool.(capacity := pool.capacity + 1, running := pool.running - {ticket}));
    case DoRemove(executionId) => RemoveMoves(pool, executionId);
  }

  lemma EnqueueOldestFirst(pool: Pool, limit: nat, executionId: string, ticket: Ticket)
    requires Accounts(pool, limit) && OldestFirst(pool) && AllBefore(pool, ticket)
    ensures OldestFirst(Enqueue(pool, executionId, ticket))
  {
    assert pool.queue != [] ==> pool.capacity < 0;
  }

  lemma ApplyOldestFirst(pool: Pool, limit: nat, e: Event)
    requires Accounts(pool, limit) && OldestFirst(pool) && (e.DoEnqueue? ==> AllBefore(pool, e.ticket))
    ensures OldestFirst(Apply(pool, e))
  {
    match e
    case DoEnqueue(executionId, ticket) => EnqueueOldestFirst(pool, limit, executionId, ticket);
    case DoDequeue(ticket) =>
      ResolveNextOldestFirst(pool.(capacity := pool.capacity + 1, running := pool.running - {ticket}));
    case DoRemove(executionId) => RemoveOldestFirst(pool, executionId);
  }

  /** Over every run, whoever waits came after everyone that has been let through and not released yet. */
  lemma {:induction false} FirstQueuedFirstLetThrough(limit: nat, events: seq<Event>, next: Ticket)
    requires AllAllowed(Fresh(limit), events) && TicketsAscend(events)
    requires forall e :: e in events && e.DoEnqueue? ==> e.ticket < next
    ensures OldestFirst(After(Fresh(limit), events)) && AllBefore(After(Fresh(limit), events), next)
    decreases |events|
  {
    if events != [] {
      var before, e := events[..|events| - 1], events[|events| - 1];
      assert forall i :: 0 <= i < |before| ==> before[..i] == events[..i];
      assert e in events;
      var bound := if e.DoEnqueue? then e.ticket else next;
      assert forall e' :: e' in before && e'.DoEnqueue? ==> e'.ticket < bound;
      FirstQueuedFirstLetThrough(limit, before, bound);
      LimitOverRuns(limit, before);
      ApplyOldestFirst(After(Fresh(limit), before), limit, e);
      ApplyMembers(After(Fresh(limit), before), e);
    }
  }

  /** A removal takes the first waiting call of the execution out, and drops no other. */
  lemma RemoveTakesFirst(pool: Pool, executionId: string, i: nat)
    requires Distinct(pool) && i < |pool.queue| && pool.queue[i].executionId == executionId
    requires forall j :: 0 <= j < i ==> pool.queue[j].executionId != executionId
    ensures var pool' := Remove(pool, executionId);
      && Tickets(pool'.queue) + pool'.running == Tickets(pool.queue) + pool.running - {pool.queue[i].ticket}
      && pool'.capacity == pool.capacity + 1
  {
    assert WaiterIndex(pool.queue, executionId) == i;
    var queue := pool.queue[..i] + pool.queue[i + 1..];
    WithoutOne(pool.queue, queue, i);
    assert pool.queue[i] in pool.queue;
    ResolveNextMoves(pool.(capacity := pool.capacity + 1, queue := queue));
  }

  lemma WithoutOne(queue: seq<Waiter>, queue': seq<Waiter>, i: nat)
    requires i < |queue| && queue' == queue[..i] + queue[i + 1..]
    requires forall j, k :: 0 <= j < k < |queue| ==> queue[j].ticket != queue[k].ticket
    ensures Tickets(queue') == Tickets(queue) - {queue[i].ticket}
  {
    forall t ensures t in Tickets(queue') <==> t in Tickets(queue) && t != queue[i].ticket {
      if t in Tickets(queue) && t != queue[i].ticket {
        var k :| 0 <= k < |queue| && queue[k].ticket == t;
        assert if k < i then queue'[k] == queue[k] else queue'[k - 1] == queue[k];
      }
      if t in Tickets(queue') {
        var k :| 0 <= k < |queue'| && queue'[k].ticket == t;
        assert queue'[k] == queue[if k < i then k else k + 1];
      }
    }
  }

  // ---------------------------------------------------------------------------
  // The class
  // ---------------------------------------------------------------------------

  class ConcurrencyQueueService {
    var capacity: int
    var queue: seq<Waiter>
    /** The calls whose promise has been resolved and that have not released. */
    ghost var running: set<Ticket>

    ghost function View(): Pool
      reads this
    {
      Pool(capacity, queue, running)
    }

    constructor (limit: nat)
      ensures View() == Fresh(limit)
    {
      capacity := limit;
      queue := [];
      running := {};
    }

    /** `enqueue`: `proceeds` says whether the returned promise is resolved already. */
    method EnqueueCall(executionId: string, ticket: Ticket) returns (proceeds: bool)
      modifies this
      ensures View() == Enqueue(old(View()), executionId, ticket)
      ensures proceeds <==> old(capacity) > 0
    {
      capacity := capacity - 1;
      if capacity < 0 {
        queue := queue + [Waiter(executionId, ticket)];
        return false;
      }
      running := running + {ticket};
      return true;
    }

    method ResolveNextCall()
      modifies this
      ensures View() == ResolveNext(old(View()))
    {
      if queue == [] {
        return;
      }
      var item := queue[0];
      queue := queue[1..];
      running := running + {item.ticket};
    }

    method DequeueCall(ghost ticket: Ticket)
      modifies this
      ensures View() == Dequeue(old(View()), ticket)
    {
      capacity := capacity + 1;
      running := running - {ticket};
      ResolveNextCall();
    }

    method RemoveCall(executionId: string)
      modifies this
      ensures View() == Remove(old(View()), executionId)
    {
      var index := WaiterIndex(queue, executionId);
      if index < |queue| {
        queue := queue[..index] + queue[index + 1..];
        capacity := capacity + 1;
        ResolveNextCall();
      }
    }
  }
}
