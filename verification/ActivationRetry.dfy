/**
 * The activation retry queue. A retry awaits the activation it attempts, so an entry can be replaced or
 * removed while one is under way; the timers of the event loop are part of the state.
 */
module ActivationRetry {
  import opened Integers
  import opened Sets

  type Workflow = string

  const INITIAL_TIMEOUT := 1000
  const MAX_TIMEOUT := 86_400_000

  /** `failures` counts the failed retries since the entry was queued; the program does not keep it. */
  datatype Entry = Entry(lastTimeout: nat, timer: nat, failures: nat)

  /** A timer that is armed, or whose retry is running. */
  datatype Timer = Timer(workflow: Workflow, delay: nat, running: bool)

  datatype State = State(entries: map<Workflow, Entry>, timers: map<nat, Timer>, next: nat)

  const EMPTY := State(map[], map[], 0)

  /**
   * `Drop` is the point inside `add` at which the workflow counts as activated and its entry goes; `add`
   * awaits more after it, and may still fail. `Settle` is the end of the retry.
   */
  datatype Event =
    | Queue(workflow: Workflow)
    | Remove(workflow: Workflow)
    | RemoveAll
    | Fire(timer: nat)
    | Drop(timer: nat)
    | Settle(timer: nat, failed: bool)

  function Backoff(lastTimeout: nat): nat {
    if lastTimeout < MAX_TIMEOUT then Min(lastTimeout * 2, MAX_TIMEOUT) else lastTimeout
  }

  /** Drops the entry and clears its timer, unless that has fired. */
  function Removed(s: State, w: Workflow): State {
    if w !in s.entries then s
    else
      var t := s.entries[w].timer;
      s.(entries := s.entries - {w},
         timers := if t in s.timers && !s.timers[t].running then s.timers - {t} else s.timers)
  }

  /** Arms a timer for `w` and makes it its entry's. */
  function Armed(s: State, w: Workflow, delay: nat, failures: nat): State {
    s.(entries := s.entries[w := Entry(delay, s.next, failures)],
       timers := s.timers[s.next := Timer(w, delay, false)],
       next := s.next + 1)
  }

  function AllRemoved(s: State): State {
    s.(entries := map[],
       timers := map t |
                   t in s.timers && (s.timers[t].running || forall w :: w in s.entries ==> s.entries[w].timer != t)
                 :: s.timers[t])
  }

  /** Timers fire once, and a retry settles once. */
  predicate Allowed(s: State, e: Event) {
    match e
    case Fire(t) => t in s.timers && !s.timers[t].running
    case Drop(t) => t in s.timers && s.timers[t].running
    case Settle(t, _) => t in s.timers && s.timers[t].running
    case _ => true
  }

  /** A failure that finds no entry throws, and nothing is armed again. */
  function Apply(s: State, e: Event): State
    requires Allowed(s, e)
  {
    match e
    case Queue(w) => Armed(Removed(s, w), w, INITIAL_TIMEOUT, 0)
    case Remove(w) => Removed(s, w)
    case RemoveAll => AllRemoved(s)
    case Fire(t) => s.(timers := s.timers[t := s.timers[t].(running := true)])
    case Drop(t) => Removed(s, s.timers[t].workflow)
    case Settle(t, failed) =>
      var w := s.timers[t].workflow;
      var settled := s.(timers := s.timers - {t});
      if failed && w in s.entries then
        Armed(settled, w, Backoff(s.entries[w].lastTimeout), s.entries[w].failures + 1)
      else settled
  }

  // What holds whatever is interleaved.

  function Power(k: nat): nat {
    if k == 0 then 1 else 2 * Power(k - 1)
  }

  /** The delay after `k` consecutive failures. */
  function Delay(k: nat): nat {
    Min(INITIAL_TIMEOUT * Power(k), MAX_TIMEOUT)
  }

  lemma BackoffIsDelay(k: nat)
    ensures Backoff(Delay(k)) == Delay(k + 1)
  {
  }

  ghost predicate TimerOfEntry(s: State, w: Workflow)
    requires w in s.entries
  {
    var e := s.entries[w];
    && e.timer < s.next
    && e.lastTimeout == Delay(e.failures)
    && (e.timer in s.timers ==> s.timers[e.timer].workflow == w && s.timers[e.timer].delay == e.lastTimeout)
  }

  ghost predicate Inv(s: State) {
    && (forall t :: t in s.timers ==> t < s.next)
    && (forall w :: w in s.entries ==> TimerOfEntry(s, w))
  }

  lemma RemovedKeepsInv(s: State, w: Workflow)
    requires Inv(s)
    ensures Inv(Removed(s, w))
  {
    var s' := Removed(s, w);
    forall v | v in s'.entries ensures TimerOfEntry(s', v) {
      assert TimerOfEntry(s, v);
    }
  }

  lemma ArmedKeepsInv(s: State, w: Workflow, failures: nat)
    requires Inv(s)
    ensures Inv(Armed(s, w, Delay(failures), failures))
  {
    var s' := Armed(s, w, Delay(failures), failures);
    forall v | v in s'.entries ensures TimerOfEntry(s', v) {
      assert v != w ==> TimerOfEntry(s, v);
    }
  }

  /** Timers that only went, or only began to run. */
  lemma FewerTimersKeepInv(s: State, s': State)
    requires Inv(s) && s'.next == s.next
    requires forall w :: w in s'.entries ==> w in s.entries && s'.entries[w] == s.entries[w]
    requires forall t :: t in s'.timers ==>
      t in s.timers && s'.timers[t].(running := false) == s.timers[t].(running := false)
    ensures Inv(s')
  {
    forall w | w in s'.entries ensures TimerOfEntry(s', w) {
      assert TimerOfEntry(s, w);
    }
  }

  lemma ApplyKeepsInv(s: State, e: Event)
    requires Inv(s) && Allowed(s, e)
    ensures Inv(Apply(s, e))
  {
    match e
    case Queue(w) =>
      RemovedKeepsInv(s, w);
      ArmedKeepsInv(Removed(s, w), w, 0);
    case Remove(w) => RemovedKeepsInv(s, w);
    case RemoveAll => FewerTimersKeepInv(s, Apply(s, e));
    case Fire(t) => FewerTimersKeepInv(s, Apply(s, e));
    case Drop(t) => RemovedKeepsInv(s, s.timers[t].workflow);
    case Settle(t, failed) =>
      var w := s.timers[t].workflow;
      var settled := s.(timers := s.timers - {t});
      FewerTimersKeepInv(s, settled);
      if failed && w in s.entries {
        assert TimerOfEntry(s, w);
        BackoffIsDelay(s.entries[w].failures);
        ArmedKeepsInv(settled, w, s.entries[w].failures + 1);
      }
  }

  function Run(events: seq<Event>): State {
    if events == [] then EMPTY
    else
      var s, e := Run(events[..|events| - 1]), events[|events| - 1];
      if Allowed(s, e) then Apply(s, e) else s
  }

  lemma {:induction false} RunKeepsInv(events: seq<Event>)
    ensures Inv(Run(events))
  {
    if events != [] {
      var before, e := events[..|events| - 1], events[|events| - 1];
      RunKeepsInv(before);
      if Allowed(Run(before), e) { ApplyKeepsInv(Run(before), e); }
    }
  }

  /** The delay an entry waits for is that of its failures, over every run. */
  lemma DelayDoubles(events: seq<Event>, w: Workflow)
    requires w in Run(events).entries
    ensures var e := Run(events).entries[w];
      && e.lastTimeout == Min(INITIAL_TIMEOUT * Power(e.failures), MAX_TIMEOUT)
      && (e.timer in Run(events).timers ==> Run(events).timers[e.timer].delay == e.lastTimeout)
  {
    RunKeepsInv(events);
    assert TimerOfEntry(Run(events), w);
  }

  // How many timers a workflow can have.

  /** Its timers, armed or running. */
  ghost function TimersOf(s: State, w: Workflow): set<nat> {
    set t | t in s.timers && s.timers[t].workflow == w
  }

  ghost function ArmedOf(s: State, w: Workflow): set<nat> {
    set t | t in s.timers && s.timers[t].workflow == w && !s.timers[t].running
  }

  predicate Owns(s: State, w: Workflow, t: nat) {
    w in s.entries && s.entries[w].timer == t
  }

  predicate Retrying(s: State, w: Workflow) {
    exists t :: t in s.timers && s.timers[t].workflow == w && s.timers[t].running
  }

  /** An armed timer of `w` that clearing its entry would not clear. */
  predicate HasStray(s: State, w: Workflow) {
    exists t :: t in s.timers && s.timers[t].workflow == w && !s.timers[t].running && !Owns(s, w, t)
  }

  predicate HasArmed(s: State, w: Workflow) {
    exists t :: t in s.timers && s.timers[t].workflow == w && !s.timers[t].running
  }

  /** A workflow is queued past a stray timer, or a retry of it fails while another timer of it is armed. */
  predicate ArmsSecond(s: State, e: Event, w: Workflow) {
    match e
    case Queue(v) => v == w && HasStray(s, w)
    case Settle(t, failed) =>
      failed && t in s.timers && s.timers[t].workflow == w && w in s.entries && HasArmed(s, w)
    case _ => false
  }

  lemma RemovedArmed(s: State, v: Workflow, w: Workflow)
    requires Inv(s)
    ensures ArmedOf(Removed(s, v), w) == set t | t in ArmedOf(s, w) && !(v == w && Owns(s, w, t))
  {
    if v in s.entries { assert TimerOfEntry(s, v); }
  }

  lemma ArmedArmed(s: State, v: Workflow, delay: nat, failures: nat, w: Workflow)
    requires Inv(s)
    ensures ArmedOf(Armed(s, v, delay, failures), w) == ArmedOf(s, w) + if v == w then {s.next} else {}
  {
  }

  lemma QueueArmsSecondIff(s: State, w: Workflow)
    requires Inv(s) && |ArmedOf(s, w)| <= 1
    ensures |ArmedOf(Apply(s, Queue(w)), w)| > 1 <==> HasStray(s, w)
  {
    var kept := ArmedOf(Removed(s, w), w);
    RemovedKeepsInv(s, w);
    RemovedArmed(s, w, w);
    ArmedArmed(Removed(s, w), w, INITIAL_TIMEOUT, 0, w);
    assert s.next !in kept;
    assert HasStray(s, w) <==> kept != {} by {
      if HasStray(s, w) {
        var t :| t in s.timers && s.timers[t].workflow == w && !s.timers[t].running && !Owns(s, w, t);
        assert t in kept;
      }
    }
  }

  lemma FailureArmsSecondIff(s: State, t: nat)
    requires Inv(s) && Allowed(s, Settle(t, true)) && |ArmedOf(s, s.timers[t].workflow)| <= 1
    ensures var w := s.timers[t].workflow;
      |ArmedOf(Apply(s, Settle(t, true)), w)| > 1 <==> w in s.entries && HasArmed(s, w)
  {
    var w := s.timers[t].workflow;
    var settled := s.(timers := s.timers - {t});
    assert ArmedOf(settled, w) == ArmedOf(s, w);
    assert HasArmed(s, w) <==> ArmedOf(s, w) != {} by {
      if HasArmed(s, w) {
        var u :| u in s.timers && s.timers[u].workflow == w && !s.timers[u].running;
        assert u in ArmedOf(s, w);
      }
    }
    if w in s.entries {
      FewerTimersKeepInv(s, settled);
      ArmedArmed(settled, w, Backoff(s.entries[w].lastTimeout), s.entries[w].failures + 1, w);
      assert s.next !in ArmedOf(s, w);
    }
  }

  /** Any other event, for any other workflow too, arms nothing for `w`. */
  lemma OthersArmNothing(s: State, e: Event, w: Workflow)
    requires Inv(s) && Allowed(s, e)
    requires e != Queue(w) && !(e.Settle? && e.failed && s.timers[e.timer].workflow == w)
    ensures ArmedOf(Apply(s, e), w) <= ArmedOf(s, w)
  {
    match e
    case Queue(v) =>
      RemovedKeepsInv(s, v);
      RemovedArmed(s, v, w);
      ArmedArmed(Removed(s, v), v, INITIAL_TIMEOUT, 0, w);
    case Remove(v) => RemovedArmed(s, v, w);
    case Drop(t) => RemovedArmed(s, s.timers[t].workflow, w);
    case Settle(t, failed) =>
      var v := s.timers[t].workflow;
      var settled := s.(timers := s.timers - {t});
      FewerTimersKeepInv(s, settled);
      if failed && v in s.entries {
        ArmedArmed(settled, v, Backoff(s.entries[v].lastTimeout), s.entries[v].failures + 1, w);
      }
    case _ =>
  }

  /** An event gives a workflow a second armed timer exactly when it is one of the two kinds. */
  lemma ArmsSecondIff(s: State, e: Event, w: Workflow)
    requires Inv(s) && Allowed(s, e) && |ArmedOf(s, w)| <= 1
    ensures |ArmedOf(Apply(s, e), w)| > 1 <==> ArmsSecond(s, e, w)
  {
    if e == Queue(w) {
      QueueArmsSecondIff(s, w);
    } else if e.Settle? && e.failed && s.timers[e.timer].workflow == w {
      FailureArmsSecondIff(s, e.timer);
    } else {
      OthersArmNothing(s, e, w);
      SubsetSize(ArmedOf(Apply(s, e), w), ArmedOf(s, w));
    }
  }

  ghost predicate AtMostOneThroughout(events: seq<Event>, w: Workflow) {
    |ArmedOf(Run(events), w)| <= 1 && (events == [] || AtMostOneThroughout(events[..|events| - 1], w))
  }

  predicate NeverArmsSecond(events: seq<Event>, w: Workflow) {
    events == []
    || (var before, e := events[..|events| - 1], events[|events| - 1];
        NeverArmsSecond(before, w) && !(Allowed(Run(before), e) && ArmsSecond(Run(before), e, w)))
  }

  /** A workflow has at most one armed retry timer throughout a run iff no event of it is of the two kinds. */
  lemma {:induction false} AtMostOneThroughoutIff(events: seq<Event>, w: Workflow)
    ensures AtMostOneThroughout(events, w) <==> NeverArmsSecond(events, w)
  {
    if events == [] {
      assert ArmedOf(EMPTY, w) == {};
    } else {
      var before, e := events[..|events| - 1], events[|events| - 1];
      AtMostOneThroughoutIff(before, w);
      RunKeepsInv(before);
      if AtMostOneThroughout(before, w) && Allowed(Run(before), e) {
        ArmsSecondIff(Run(before), e, w);
      }
    }
  }

  // What each event does.

  ghost predicate SameFor(s: State, s': State, v: Workflow) {
    && (v in s'.entries <==> v in s.entries) && (v in s.entries ==> s'.entries[v] == s.entries[v])
    && (forall t :: t in s.timers && s.timers[t].workflow == v ==> t in s'.timers && s'.timers[t] == s.timers[t])
    && (forall t :: t in s'.timers && s'.timers[t].workflow == v ==> t in s.timers)
  }

  /** The timers of `w` but for the armed one of its entry. */
  ghost function LeftOver(s: State, w: Workflow): set<nat> {
    set t | t in s.timers && s.timers[t].workflow == w && (s.timers[t].running || !Owns(s, w, t))
  }

  /** A removed workflow has no entry; the armed timer its entry named is cleared, and no other. */
  lemma RemoveOutcome(s: State, w: Workflow, v: Workflow)
    requires Inv(s)
    ensures var s' := Apply(s, Remove(w));
      && w !in s'.entries && TimersOf(s', w) == LeftOver(s, w) && s'.next == s.next
      && (forall t :: t in s'.timers ==> t in s.timers && s'.timers[t] == s.timers[t])
      && (v != w ==> SameFor(s, s', v))
  {
    if w in s.entries { assert TimerOfEntry(s, w); }
  }

  /** So has every one when all are removed. */
  lemma RemoveAllOutcome(s: State, w: Workflow)
    requires Inv(s)
    ensures var s' := Apply(s, RemoveAll);
      && s'.entries == map[] && TimersOf(s', w) == LeftOver(s, w)
      && (forall t :: t in s'.timers ==> t in s.timers && s'.timers[t] == s.timers[t])
  {
    var s' := Apply(s, RemoveAll);
    forall t ensures t in TimersOf(s', w) <==> t in LeftOver(s, w) {
      if t in s.timers && !s.timers[t].running && (exists v :: v in s.entries && s.entries[v].timer == t) {
        var v :| v in s.entries && s.entries[v].timer == t;
        assert TimerOfEntry(s, v);
      }
    }
  }

  /** A queued one starts over: its old timer is cleared, and a new one is armed for a second. */
  lemma QueueOutcome(s: State, w: Workflow, v: Workflow)
    requires Inv(s)
    ensures var s' := Apply(s, Queue(w));
      && w in s'.entries && s'.entries[w] == Entry(1000, s.next, 0)
      && s.next in s'.timers && s'.timers[s.next] == Timer(w, 1000, false)
      && TimersOf(s', w) == LeftOver(s, w) + {s.next} && (v != w ==> SameFor(s, s', v))
  {
    RemoveOutcome(s, w, v);
  }

  /** A retry that begins to run changes nothing else, and one that drops its entry is a removal. */
  lemma RetryOutcome(s: State, t: nat)
    requires t in s.timers
    ensures Allowed(s, Fire(t)) ==>
      Apply(s, Fire(t)) == s.(timers := s.timers[t := s.timers[t].(running := true)])
    ensures Allowed(s, Drop(t)) ==> Apply(s, Drop(t)) == Apply(s, Remove(s.timers[t].workflow))
  {
  }

  /**
   * A retry that ends is gone. Only if it failed, and its workflow still has an entry, is another timer
   * armed: for twice the time the last one had, up to a day.
   */
  lemma SettleOutcome(s: State, t: nat, failed: bool, v: Workflow)
    requires Inv(s) && Allowed(s, Settle(t, failed))
    ensures var (s', w) := (Apply(s, Settle(t, failed)), s.timers[t].workflow);
      && t !in s'.timers && (v != w ==> SameFor(s, s', v))
      && (!failed || w !in s.entries ==> s'.entries == s.entries && TimersOf(s', w) == TimersOf(s, w) - {t})
      && (failed && w in s.entries ==>
            && w in s'.entries && s'.entries[w].timer == s.next && s'.entries[w].failures == s.entries[w].failures + 1
            && s'.entries[w].lastTimeout == Min(2 * s.entries[w].lastTimeout, 86_400_000)
            && s.next in s'.timers && s'.timers[s.next] == Timer(w, s'.entries[w].lastTimeout, false)
            && TimersOf(s', w) == TimersOf(s, w) - {t} + {s.next})
  {
    if s.timers[t].workflow in s.entries {
      assert TimerOfEntry(s, s.timers[t].workflow);
    }
  }

  // What a second timer takes: a queueing while a retry runs.

  predicate Live(s: State, w: Workflow) {
    w in s.entries && s.entries[w].timer in s.timers
  }

  /** At most `c + 1` timers, and at most `c` when the next queueing would add one without clearing one. */
  ghost predicate Bounded(s: State, w: Workflow, c: nat) {
    |TimersOf(s, w)| <= 1 + c && (Retrying(s, w) || Live(s, w) || |TimersOf(s, w)| <= c)
  }

  predicate QueuesDuringRetry(s: State, e: Event, w: Workflow) {
    e == Queue(w) && Retrying(s, w)
  }

  /** Dropping the entry of `w`: its timer goes, unless that runs or has gone. */
  lemma RemovedBounded(s: State, v: Workflow, w: Workflow, c: nat)
    requires Inv(s) && Bounded(s, w, c)
    ensures Bounded(Removed(s, v), w, c)
    ensures v == w && !Retrying(s, w) ==> |TimersOf(Removed(s, v), w)| <= c
  {
    var s' := Removed(s, v);
    if v in s.entries { assert TimerOfEntry(s, v); }
    if v == w && Live(s, w) && !s.timers[s.entries[w].timer].running {
      assert s.entries[w].timer in TimersOf(s, w);
      assert TimersOf(s', w) == TimersOf(s, w) - {s.entries[w].timer};
    } else {
      assert TimersOf(s', w) == TimersOf(s, w);
      SameTimersBounded(s, s', v, w);
    }
  }

  lemma SameTimersBounded(s: State, s': State, v: Workflow, w: Workflow)
    requires Inv(s) && s' == Removed(s, v)
    requires !(v == w && Live(s, w) && !s.timers[s.entries[w].timer].running)
    ensures Retrying(s, w) || Live(s, w) ==> Retrying(s', w) || Live(s', w)
  {
    if v in s.entries { assert TimerOfEntry(s, v); }
    if w in s.entries { assert TimerOfEntry(s, w); }
    if Retrying(s, w) {
      var t :| t in s.timers && s.timers[t].workflow == w && s.timers[t].running;
      assert t in s'.timers;
    } else if Live(s, w) {
      assert v != w;
    }
  }

  lemma ArmedBounded(s: State, v: Workflow, delay: nat, failures: nat, w: Workflow, c: nat)
    requires Inv(s) && (if v == w then |TimersOf(s, w)| <= c else Bounded(s, w, c))
    ensures Bounded(Armed(s, v, delay, failures), w, c)
  {
    var s' := Armed(s, v, delay, failures);
    assert s.next !in TimersOf(s, w);
    assert TimersOf(s', w) == TimersOf(s, w) + if v == w then {s.next} else {};
    if v != w && Retrying(s, w) {
      var t :| t in s.timers && s.timers[t].workflow == w && s.timers[t].running;
      assert t in s'.timers && s'.timers[t] == s.timers[t];
    }
  }

  lemma SettleBounded(s: State, t: nat, failed: bool, w: Workflow, c: nat)
    requires Inv(s) && Allowed(s, Settle(t, failed)) && Bounded(s, w, c)
    ensures Bounded(Apply(s, Settle(t, failed)), w, c)
  {
    var v := s.timers[t].workflow;
    var settled := s.(timers := s.timers - {t});
    FewerTimersKeepInv(s, settled);
    if v == w {
      assert t in TimersOf(s, w) && TimersOf(settled, w) == TimersOf(s, w) - {t};
    } else {
      assert TimersOf(settled, w) == TimersOf(s, w);
      if w in s.entries { assert TimerOfEntry(s, w); }
      if Retrying(s, w) {
        var u :| u in s.timers && s.timers[u].workflow == w && s.timers[u].running;
        assert u in settled.timers;
      }
    }
    assert Bounded(settled, w, c);
    if failed && v in s.entries {
      ArmedBounded(settled, v, Backoff(s.entries[v].lastTimeout), s.entries[v].failures + 1, w, c);
    }
  }

  lemma QueueBounded(s: State, v: Workflow, w: Workflow, c: nat)
    requires Inv(s) && Bounded(s, w, c)
    ensures Bounded(Apply(s, Queue(v)), w, if v == w && Retrying(s, w) then c + 1 else c)
  {
    RemovedKeepsInv(s, v);
    RemovedBounded(s, v, w, c);
    ArmedBounded(Removed(s, v), v, INITIAL_TIMEOUT, 0, w, if v == w && Retrying(s, w) then c + 1 else c);
  }

  lemma RemoveAllBounded(s: State, w: Workflow, c: nat)
    requires Inv(s) && Bounded(s, w, c)
    ensures Bounded(AllRemoved(s), w, c)
  {
    var s' := AllRemoved(s);
    assert forall v :: v in s.entries ==> TimerOfEntry(s, v);
    if Live(s, w) && !s.timers[s.entries[w].timer].running {
      var t := s.entries[w].timer;
      assert t in TimersOf(s, w) && TimersOf(s', w) <= TimersOf(s, w) - {t};
      SubsetSize(TimersOf(s', w), TimersOf(s, w) - {t});
    } else {
      SubsetSize(TimersOf(s', w), TimersOf(s, w));
      if Retrying(s, w) {
        var t :| t in s.timers && s.timers[t].workflow == w && s.timers[t].running;
        assert t in s'.timers && s'.timers[t] == s.timers[t];
      }
    }
  }

  lemma ApplyBounded(s: State, e: Event, w: Workflow, c: nat)
    requires Inv(s) && Allowed(s, e) && Bounded(s, w, c)
    ensures Bounded(Apply(s, e), w, if QueuesDuringRetry(s, e, w) then c + 1 else c)
  {
    match e
    case Queue(v) => QueueBounded(s, v, w, c);
    case Remove(v) => RemovedBounded(s, v, w, c);
    case RemoveAll => RemoveAllBounded(s, w, c);
    case Drop(t) => RemovedBounded(s, s.timers[t].workflow, w, c);
    case Settle(t, failed) => SettleBounded(s, t, failed, w, c);
    case Fire(t) =>
      var s' := Apply(s, e);
      assert TimersOf(s', w) == TimersOf(s, w);
      if Retrying(s, w) {
        var u :| u in s.timers && s.timers[u].workflow == w && s.timers[u].running;
        assert u in s'.timers && s'.timers[u].running && s'.timers[u].workflow == w;
      }
  }

  /** How often `w` was queued while a retry of it was running. */
  function QueuedDuringRetry(events: seq<Event>, w: Workflow): nat {
    if events == [] then 0
    else
      var before, e := events[..|events| - 1], events[|events| - 1];
      QueuedDuringRetry(before, w) + if QueuesDuringRetry(Run(before), e, w) then 1 else 0
  }

  lemma {:induction false} RunBounded(events: seq<Event>, w: Workflow)
    ensures Bounded(Run(events), w, QueuedDuringRetry(events, w))
  {
    if events == [] {
      assert TimersOf(EMPTY, w) == {};
    } else {
      var before, e := events[..|events| - 1], events[|events| - 1];
      RunBounded(before, w);
      RunKeepsInv(before);
      if Allowed(Run(before), e) {
        ApplyBounded(Run(before), e, w, QueuedDuringRetry(before, w));
      }
    }
  }

  /**
   * Over every run, a workflow has at most one timer or running retry more than it was queued while a
   * retry of it was running; without such a queueing, an armed timer is the one its entry names.
   */
  lemma AtMostOneTimerUnlessRequeued(events: seq<Event>, w: Workflow)
    ensures |TimersOf(Run(events), w)| <= 1 + QueuedDuringRetry(events, w)
    ensures QueuedDuringRetry(events, w) == 0 ==> forall t :: t in ArmedOf(Run(events), w) ==> Owns(Run(events), w, t)
  {
    var s := Run(events);
    RunBounded(events, w);
    RunKeepsInv(events);
    if QueuedDuringRetry(events, w) == 0 {
      forall t | t in ArmedOf(s, w) ensures Owns(s, w, t) {
        OnlyTimerIsOwned(s, w, t);
      }
    }
  }

  lemma OnlyTimerIsOwned(s: State, w: Workflow, t: nat)
    requires Inv(s) && Bounded(s, w, 0) && t in ArmedOf(s, w)
    ensures Owns(s, w, t)
  {
    assert t in TimersOf(s, w);
    if Retrying(s, w) {
      var u :| u in s.timers && s.timers[u].workflow == w && s.timers[u].running;
      SubsetSize({t, u}, TimersOf(s, w));
      assert false;
    } else if Live(s, w) {
      assert TimerOfEntry(s, w);
      SubsetSize({t, s.entries[w].timer}, TimersOf(s, w));
    }
  }

  // Two runs that arm a second timer.

  lemma RunOneMore(events: seq<Event>, e: Event, s: State)
    requires Run(events) == s && Allowed(s, e)
    ensures Run(events + [e]) == Apply(s, e)
  {
    assert (events + [e])[..|events|] == events;
  }

  /** Queued again while its retry runs, a workflow ends with two armed timers when that retry fails. */
  lemma RequeueDuringRetryArmsTwo(w: Workflow)
    ensures ArmedOf(Run([Queue(w), Fire(0), Queue(w), Settle(0, true)]), w) == {1, 2}
  {
    var s1 := State(map[w := Entry(1000, 0, 0)], map[0 := Timer(w, 1000, false)], 1);
    assert Removed(EMPTY, w) == EMPTY;
    RunOneMore([], Queue(w), EMPTY);
    assert [] + [Queue(w)] == [Queue(w)] && Run([Queue(w)]) == s1;
    RunOneMore([Queue(w)], Fire(0), s1);
    var s2 := Apply(s1, Fire(0));
    assert [Queue(w)] + [Fire(0)] == [Queue(w), Fire(0)];
    RunOneMore([Queue(w), Fire(0)], Queue(w), s2);
    var s3 := Apply(s2, Queue(w));
    assert [Queue(w), Fire(0)] + [Queue(w)] == [Queue(w), Fire(0), Queue(w)];
    RunOneMore([Queue(w), Fire(0), Queue(w)], Settle(0, true), s3);
    assert [Queue(w), Fire(0), Queue(w)] + [Settle(0, true)] == [Queue(w), Fire(0), Queue(w), Settle(0, true)];
  }

  /** So does one whose activated trigger fails, and has it queued, before `add` fails after all. */
  lemma RequeueAfterDropArmsTwo(w: Workflow)
    ensures ArmedOf(Run([Queue(w), Fire(0), Drop(0), Queue(w), Settle(0, true)]), w) == {1, 2}
  {
    var s1 := State(map[w := Entry(1000, 0, 0)], map[0 := Timer(w, 1000, false)], 1);
    assert Removed(EMPTY, w) == EMPTY;
    RunOneMore([], Queue(w), EMPTY);
    assert [] + [Queue(w)] == [Queue(w)] && Run([Queue(w)]) == s1;
    RunOneMore([Queue(w)], Fire(0), s1);
    var s2 := Apply(s1, Fire(0));
    assert [Queue(w)] + [Fire(0)] == [Queue(w), Fire(0)];
    RunOneMore([Queue(w), Fire(0)], Drop(0), s2);
    var s3 := State(map[], map[0 := Timer(w, 1000, true)], 1);
    assert Apply(s2, Drop(0)) == s3 && [Queue(w), Fire(0)] + [Drop(0)] == [Queue(w), Fire(0), Drop(0)];
    RunOneMore([Queue(w), Fire(0), Drop(0)], Queue(w), s3);
    var s4 := Apply(s3, Queue(w));
    assert [Queue(w), Fire(0), Drop(0)] + [Queue(w)] == [Queue(w), Fire(0), Drop(0), Queue(w)];
    RunOneMore([Queue(w), Fire(0), Drop(0), Queue(w)], Settle(0, true), s4);
    assert [Queue(w), Fire(0), Drop(0), Queue(w)] + [Settle(0, true)]
        == [Queue(w), Fire(0), Drop(0), Queue(w), Settle(0, true)];
  }

  class ActivationQueue {
    var queuedActivations: map<Workflow, Entry>
    /** The event loop's. */
    var timers: map<nat, Timer>
    var next: nat

    ghost function View(): State
      reads this
    {
      State(queuedActivations, timers, next)
    }

    constructor ()
      ensures View() == EMPTY
    {
      queuedActivations, timers, next := map[], map[], 0;
    }

    method AddQueuedWorkflowActivation(w: Workflow)
      modifies this
      ensures View() == Apply(old(View()), Queue(w))
    {
      RemoveQueuedWorkflowActivation(w);
      var t := SetTimeout(w, INITIAL_TIMEOUT);
      queuedActivations := queuedActivations[w := Entry(INITIAL_TIMEOUT, t, 0)];
    }

    method RemoveQueuedWorkflowActivation(w: Workflow)
      modifies this
      ensures View() == Removed(old(View()), w)
    {
      if w in queuedActivations {
        ClearTimeout(queuedActivations[w].timer);
        queuedActivations := queuedActivations - {w};
      }
    }

    /** One workflow at a time, in any order. */
    method RemoveAllQueuedWorkflowActivations()
      requires Inv(View())
      modifies this
      ensures View() == Apply(old(View()), RemoveAll)
    {
      var rest := queuedActivations.Keys;
      while rest != {}
        invariant rest == queuedActivations.Keys <= old(queuedActivations).Keys && next == old(next)
        invariant forall w :: w in rest ==> queuedActivations[w] == old(queuedActivations)[w]
        invariant forall t :: t in timers ==> t in old(timers)
        invariant forall t :: t in old(timers) ==>
          (t in timers <==>
            (old(timers)[t].running
             || forall w :: w in old(queuedActivations) && w !in rest ==> old(queuedActivations)[w].timer != t))
        invariant forall t :: t in timers ==> timers[t] == old(timers)[t]
      {
        var w :| w in rest;
        RemoveQueuedWorkflowActivation(w);
        rest := rest - {w};
      }
      assert queuedActivations == map[];
    }

    /** The retry of timer `t` when the activation has thrown. */
    method RetryFailed(t: nat)
      requires Allowed(View(), Settle(t, true))
      modifies this
      ensures View() == Apply(old(View()), Settle(t, true))
    {
      var w := timers[t].workflow;
      timers := timers - {t};
      if w in queuedActivations {
        var lastTimeout := queuedActivations[w].lastTimeout;
        if lastTimeout < MAX_TIMEOUT {
          lastTimeout := Min(lastTimeout * 2, MAX_TIMEOUT);
        }
        var armed := SetTimeout(w, lastTimeout);
        queuedActivations := queuedActivations[w := Entry(lastTimeout, armed, queuedActivations[w].failures + 1)];
      }
    }

    method SetTimeout(w: Workflow, delay: nat) returns (t: nat)
      modifies this`timers, this`next
      ensures t == old(next) && next == t + 1 && timers == old(timers)[t := Timer(w, delay, false)]
    {
      t := next;
      timers := timers[t := Timer(w, delay, false)];
      next := next + 1;
    }

    /** Does nothing to a timer that has fired. */
    method ClearTimeout(t: nat)
      modifies this`timers
      ensures timers == if t in old(timers) && !old(timers)[t].running then old(timers) - {t} else old(timers)
    {
      if t in timers && !timers[t].running {
        timers := timers - {t};
      }
    }
  }
}
