/**
 * A waiting parent execution and the children that resume it.
 *
 * Each finished child reads the parent row, writes it back with its own output at the head of the
 * node stack, reads the row again and tries to resume the parent with what it read. The write is
 * unconditional, so it may land late. Timers and webhooks resume the parent too. Every await is
 * a point where anything else may happen; the resume itself is an atomic compare-and-set.
 */
module ParentResume {
  import opened Wrappers
  import opened Sets

  type TaskId = nat

  /** Outputs, node names and the remaining execution data are opaque here. */
  type Output = string

  /** An entry of `nodeExecutionStack`. */
  datatype StackItem = StackItem(node: string, input: Output)

  datatype ParentData = ParentData(stack: seq<StackItem>, rest: string)

  datatype Row = Row(waiting: bool, data: ParentData)

  /** Who resumes: a child with the data of its last executed node, if any, a timer, or a webhook. */
  datatype Origin = Child(output: Option<Output>) | Timer | Webhook

  datatype Phase =
    | Finished                        // a child, before `updateParentExecutionWithChildResults`
    | Writing(snapshot: ParentData)   // the child has read the row and will write this back
    | Starting                        // before `startExecution` reads the row
    | Resuming(snapshot: ParentData)  // `startExecution` has read this; the compare-and-set is next
    | Done

  datatype Task = Task(origin: Origin, phase: Phase)

  /** `handed`: the data each successful resume passed to the runner, in order. */
  datatype State = State(row: Row, tasks: map<TaskId, Task>, handed: seq<(TaskId, ParentData)>)

  datatype Event =
    | Arrive(task: TaskId, origin: Origin)  // a child finishes, a timer fires, a webhook comes in
    | ReadForUpdate(task: TaskId)
    | Write(task: TaskId)
    | ReadForResume(task: TaskId)
    | Rewrite(task: TaskId, data: ParentData)  // a webhook reads the row and prepares data of its own
    | Resume(task: TaskId)
    | RunnerSaves(data: ParentData)         // the resumed parent saves progress or its end
    | WaitAgain(data: ParentData)           // the resumed parent goes to wait: a new episode

  /** The data with a child's output at the stack head. */
  function WithHead(data: ParentData, output: Output): ParentData
    requires data.stack != []
  {
    data.(stack := data.stack[0 := data.stack[0].(input := output)])
  }

  predicate At(s: State, t: TaskId, phase: Phase) {
    t in s.tasks && s.tasks[t].phase == phase
  }

  predicate Allowed(s: State, e: Event) {
    match e
    case Arrive(t, _) => t !in s.tasks
    case ReadForUpdate(t) => At(s, t, Finished) && s.tasks[t].origin.Child?
    case Write(t) => t in s.tasks && s.tasks[t].phase.Writing?
    case ReadForResume(t) => At(s, t, Starting) && !s.tasks[t].origin.Webhook?
    case Rewrite(t, _) => At(s, t, Starting) && s.tasks[t].origin.Webhook?
    case Resume(t) => t in s.tasks && s.tasks[t].phase.Resuming?
    case RunnerSaves(_) => !s.row.waiting
    case WaitAgain(_) => !s.row.waiting
  }

  function Move(s: State, t: TaskId, phase: Phase): State
    requires t in s.tasks
  {
    s.(tasks := s.tasks[t := s.tasks[t].(phase := phase)])
  }

  function Apply(s: State, e: Event): State
    requires Allowed(s, e)
  {
    match e
    case Arrive(t, origin) => s.(tasks := s.tasks[t := Task(origin, if origin.Child? then Finished else Starting)])
    case ReadForUpdate(t) =>
      var output := s.tasks[t].origin.output;
      if output.None? || !s.row.waiting || s.row.data.stack == [] then Move(s, t, Starting)
      else Move(s, t, Writing(WithHead(s.row.data, output.value)))
    case Write(t) => Move(s.(row := s.row.(data := s.tasks[t].phase.snapshot)), t, Starting)
    case ReadForResume(t) => Move(s, t, Resuming(s.row.data))
    case Rewrite(t, data) => Move(s, t, Resuming(data))
    case Resume(t) =>
      var data := s.tasks[t].phase.snapshot;
      if s.row.waiting then Move(s.(row := Row(false, data), handed := s.handed + [(t, data)]), t, Done)
      else Move(s, t, Done)
    case RunnerSaves(data) => s.(row := Row(false, data))
    case WaitAgain(data) => s.(row := Row(true, data))
  }

  /**
   * `updateParentExecutionWithChildResults` between its read and its write: what it will write, if
   * anything. It sets the head of the stack it has read and leaves the rest.
   */
  method UpdateParentExecution(parent: Row, lastExecutedNodeData: Option<Output>) returns (update: Option<ParentData>)
    ensures forall s, t :: At(s, t, Finished) && s.row == parent && s.tasks[t].origin == Child(lastExecutedNodeData) ==>
      Apply(s, ReadForUpdate(t)) == Move(s, t, if update.Some? then Writing(update.value) else Starting)
    ensures update.Some? ==>
      && parent.waiting && |update.value.stack| == |parent.data.stack| > 0
      && update.value.stack[1..] == parent.data.stack[1..] && update.value.rest == parent.data.rest
      && lastExecutedNodeData == Some(update.value.stack[0].input)
      && update.value.stack[0].node == parent.data.stack[0].node
  {
    if lastExecutedNodeData.None? { return None; }
    if !parent.waiting { return None; }
    var nodeExecutionStack := parent.data.stack;
    if |nodeExecutionStack| == 0 { return None; }
    nodeExecutionStack := nodeExecutionStack[0 := nodeExecutionStack[0].(input := lastExecutedNodeData.value)];
    return Some(parent.data.(stack := nodeExecutionStack));
  }

  ghost predicate Runs(s: State, events: seq<Event>)
    decreases |events|
  {
    events == [] || (Allowed(s, events[0]) && Runs(Apply(s, events[0]), events[1..]))
  }

  ghost function After(s: State, events: seq<Event>): State
    requires Runs(s, events)
    decreases |events|
  {
    if events == [] then s else After(Apply(s, events[0]), events[1..])
  }

  // ---------------------------------------------------------------------------
  // One episode
  // ---------------------------------------------------------------------------

  /** An episode starts: the parent waits with `data`, and no task holds anything it read before. */
  ghost predicate EpisodeStart(s: State, data: ParentData) {
    && s.row == Row(true, data) && data.stack != []
    && (forall t :: t in s.tasks ==>
          At(s, t, Done) || At(s, t, if s.tasks[t].origin.Child? then Finished else Starting))
  }

  predicate OneEpisode(events: seq<Event>) {
    forall e :: e in events ==> !e.WaitAgain?
  }

  /** `data` with the output of one of the children at its head. */
  ghost predicate FromChild(s: State, data: ParentData, d: ParentData)
    requires data.stack != []
  {
    exists u :: u in s.tasks && s.tasks[u].origin.Child? && s.tasks[u].origin.output.Some?
                && d == WithHead(data, s.tasks[u].origin.output.value)
  }

  ghost predicate Faithful(s: State, data: ParentData, d: ParentData)
    requires data.stack != []
  {
    d == data || FromChild(s, data, d)
  }

  predicate HasOutput(s: State, t: TaskId) {
    t in s.tasks && s.tasks[t].origin.Child? && s.tasks[t].origin.output.Some?
  }

  predicate ByWebhook(s: State, t: TaskId) {
    t in s.tasks && s.tasks[t].origin.Webhook?
  }

  /** What a task knows while the parent still waits. */
  ghost predicate TaskOk(s: State, data: ParentData, t: TaskId)
    requires data.stack != [] && t in s.tasks
  {
    match s.tasks[t].phase
    case Finished => s.tasks[t].origin.Child?
    case Writing(d) => FromChild(s, data, d)
    case Starting => HasOutput(s, t) ==> FromChild(s, data, s.row.data)
    case Resuming(d) => ByWebhook(s, t) || (Faithful(s, data, d) && (HasOutput(s, t) ==> FromChild(s, data, d)))
    case Done => true
  }

  /** Before the resume everything written is faithful; after it nothing more is handed over. */
  ghost predicate EpisodeInv(s: State, data: ParentData, before: nat) {
    && data.stack != []
    && before <= |s.handed|
    && (s.row.waiting ==>
          && |s.handed| == before && Faithful(s, data, s.row.data)
          && (forall t :: t in s.tasks ==> TaskOk(s, data, t)))
    && (!s.row.waiting ==>
          && |s.handed| == before + 1 && s.handed[before].0 in s.tasks
          && (ByWebhook(s, s.handed[before].0) || Faithful(s, data, s.handed[before].1))
          && (HasOutput(s, s.handed[before].0) ==> FromChild(s, data, s.handed[before].1)))
  }

  /** Tasks keep their origins, so what was faithful stays so. */
  lemma OriginsKeep(s: State, s': State, data: ParentData)
    requires data.stack != []
    requires forall t :: t in s.tasks ==> t in s'.tasks && s'.tasks[t].origin == s.tasks[t].origin
    ensures forall d :: FromChild(s, data, d) ==> FromChild(s', data, d)
    ensures forall d :: Faithful(s, data, d) ==> Faithful(s', data, d)
  {
  }

  lemma WithHeadTwice(data: ParentData, d: ParentData, s: State, output: Output)
    requires data.stack != [] && Faithful(s, data, d)
    ensures d.stack != [] && WithHead(d, output) == WithHead(data, output)
  {
    if d != data {
      var u :| u in s.tasks && s.tasks[u].origin.Child? && s.tasks[u].origin.output.Some?
               && d == WithHead(data, s.tasks[u].origin.output.value);
      assert WithHead(d, output).stack == WithHead(data, output).stack;
    }
  }

  lemma ReadForUpdateKeeps(s: State, data: ParentData, before: nat, t: TaskId)
    requires EpisodeInv(s, data, before) && Allowed(s, ReadForUpdate(t))
    ensures EpisodeInv(Apply(s, ReadForUpdate(t)), data, before)
  {
    var s' := Apply(s, ReadForUpdate(t));
    OriginsKeep(s, s', data);
    if s.row.waiting {
      if HasOutput(s, t) {
        WithHeadTwice(data, s.row.data, s, s.tasks[t].origin.output.value);
        assert FromChild(s, data, WithHead(data, s.tasks[t].origin.output.value));
      }
      forall u | u in s'.tasks ensures TaskOk(s', data, u) {
        assert TaskOk(s, data, u);
      }
    }
  }

  lemma StepKeeps(s: State, data: ParentData, before: nat, e: Event)
    requires EpisodeInv(s, data, before) && Allowed(s, e) && !e.WaitAgain?
    ensures EpisodeInv(Apply(s, e), data, before)
  {
    var s' := Apply(s, e);
    if e.ReadForUpdate? {
      ReadForUpdateKeeps(s, data, before, e.task);
    } else {
      OriginsKeep(s, s', data);
      if s.row.waiting {
        if e.Write? || e.ReadForResume? || e.Rewrite? || e.Resume? {
          assert TaskOk(s, data, e.task);
        }
        forall u | u in s'.tasks ensures s'.row.waiting ==> TaskOk(s', data, u) {
          if u in s.tasks { assert TaskOk(s, data, u); }
        }
      }
    }
  }

  lemma {:induction false} RunKeeps(s: State, data: ParentData, before: nat, events: seq<Event>)
    requires EpisodeInv(s, data, before) && Runs(s, events) && OneEpisode(events)
    ensures EpisodeInv(After(s, events), data, before)
    decreases |events|
  {
    if events != [] {
      assert events[0] in events;
      assert forall e :: e in events[1..] ==> e in events;
      StepKeeps(s, data, before, events[0]);
      RunKeeps(Apply(s, events[0]), data, before, events[1..]);
    }
  }

  /**
   * In one waiting episode, under every interleaving: the parent is resumed at most once; if a child or
   * a timer resumes it, what the runner gets is the data the parent went to wait with, at most its
   * stack head replaced by some child's output; and if a child with an output resumes it, it is
   * replaced.
   */
  lemma ParentGetsAChildsOutput(s: State, data: ParentData, events: seq<Event>)
    requires EpisodeStart(s, data) && Runs(s, events) && OneEpisode(events)
    ensures var s' := After(s, events);
      && |s.handed| <= |s'.handed| <= |s.handed| + 1
      && (|s'.handed| == |s.handed| + 1 && !ByWebhook(s', s'.handed[|s.handed|].0) ==>
            var (t, d) := s'.handed[|s.handed|];
            && Faithful(s', data, d)
            && d.rest == data.rest && |d.stack| == |data.stack| && d.stack[1..] == data.stack[1..]
            && d.stack[0].node == data.stack[0].node
            && (HasOutput(s', t) ==> FromChild(s', data, d)))
  {
    assert EpisodeInv(s, data, |s.handed|);
    RunKeeps(s, data, |s.handed|, events);
  }

  /** A timer that nothing comes between hands over what the parent waits with. */
  lemma TimerAlone(s: State, t: TaskId)
    requires s.row.waiting && t !in s.tasks
    ensures var events := [Arrive(t, Timer), ReadForResume(t), Resume(t)];
      Runs(s, events) && Hands(s, After(s, events), t, s.row.data)
  {
    var s1 := Apply(s, Arrive(t, Timer));
    var s2 := Apply(s1, ReadForResume(t));
    StepRun(s2, Resume(t), []);
    StepRun(s1, ReadForResume(t), [Resume(t)]);
    StepRun(s, Arrive(t, Timer), [ReadForResume(t), Resume(t)]);
  }

  /** And a webhook what it has made of that. */
  lemma WebhookAlone(s: State, t: TaskId, data: ParentData)
    requires s.row.waiting && t !in s.tasks
    ensures var events := [Arrive(t, Webhook), Rewrite(t, data), Resume(t)];
      Runs(s, events) && Hands(s, After(s, events), t, data)
  {
    var s1 := Apply(s, Arrive(t, Webhook));
    var s2 := Apply(s1, Rewrite(t, data));
    StepRun(s2, Resume(t), []);
    StepRun(s1, Rewrite(t, data), [Resume(t)]);
    StepRun(s, Arrive(t, Webhook), [Rewrite(t, data), Resume(t)]);
  }

  /** A child writes nothing when it has no output or the stack is empty, and resumes like a timer. */
  lemma SilentChildAlone(s: State, t: TaskId, output: Option<Output>)
    requires s.row.waiting && t !in s.tasks && (output.None? || s.row.data.stack == [])
    ensures var events := [Arrive(t, Child(output)), ReadForUpdate(t), ReadForResume(t), Resume(t)];
      Runs(s, events) && Hands(s, After(s, events), t, s.row.data)
  {
    var s1 := Apply(s, Arrive(t, Child(output)));
    var s2 := Apply(s1, ReadForUpdate(t));
    var s3 := Apply(s2, ReadForResume(t));
    StepRun(s3, Resume(t), []);
    StepRun(s2, ReadForResume(t), [Resume(t)]);
    StepRun(s1, ReadForUpdate(t), [ReadForResume(t), Resume(t)]);
    StepRun(s, Arrive(t, Child(output)), [ReadForUpdate(t), ReadForResume(t), Resume(t)]);
  }

  /** Otherwise the parent gets the child's output for the node it waits at, and all else as it was. */
  lemma ChildAlone(s: State, t: TaskId, output: Output)
    requires s.row.waiting && t !in s.tasks && s.row.data.stack != []
    ensures var events := [Arrive(t, Child(Some(output))), ReadForUpdate(t), Write(t), ReadForResume(t), Resume(t)];
      var stack := [StackItem(s.row.data.stack[0].node, output)] + s.row.data.stack[1..];
      Runs(s, events) && Hands(s, After(s, events), t, ParentData(stack, s.row.data.rest))
  {
    var s1 := Apply(s, Arrive(t, Child(Some(output))));
    var s2 := Apply(s1, ReadForUpdate(t));
    var s3 := Apply(s2, Write(t));
    var s4 := Apply(s3, ReadForResume(t));
    StepRun(s4, Resume(t), []);
    StepRun(s3, ReadForResume(t), [Resume(t)]);
    StepRun(s2, Write(t), [ReadForResume(t), Resume(t)]);
    StepRun(s1, ReadForUpdate(t), [Write(t), ReadForResume(t), Resume(t)]);
    StepRun(s, Arrive(t, Child(Some(output))), [ReadForUpdate(t), Write(t), ReadForResume(t), Resume(t)]);
    assert WithHead(s.row.data, output).stack
        == [StackItem(s.row.data.stack[0].node, output)] + s.row.data.stack[1..];
  }

  /** The parent was resumed by `t` with `data`, and the other tasks go on as before. */
  predicate Hands(s: State, s': State, t: TaskId, data: ParentData) {
    && s'.handed == s.handed + [(t, data)] && s'.row == Row(false, data)
    && At(s', t, Done) && s'.tasks - {t} == s.tasks - {t}
  }

  /** Whoever comes when the parent does not wait writes nothing, hands nothing over and is done. */
  lemma LateResume(s: State, t: TaskId)
    requires Allowed(s, Resume(t)) && !s.row.waiting
    ensures var s' := Apply(s, Resume(t));
      s'.row == s.row && s'.handed == s.handed && At(s', t, Done) && s'.tasks - {t} == s.tasks - {t}
  {
  }

  /** A write that has been prepared lands, whether the parent waits or runs by then, and wakes nobody. */
  lemma WriteLands(s: State, t: TaskId, data: ParentData)
    requires At(s, t, Writing(data))
    ensures var s' := Apply(s, Write(t));
      && s'.row == Row(s.row.waiting, data) && s'.handed == s.handed
      && At(s', t, Starting) && s'.tasks - {t} == s.tasks - {t}
  {
  }

  /** The runner replaces the data and does not make the parent wait, until it does. */
  lemma RunnerWrites(s: State, data: ParentData)
    requires !s.row.waiting
    ensures Apply(s, RunnerSaves(data)) == s.(row := Row(false, data))
    ensures Apply(s, WaitAgain(data)) == s.(row := Row(true, data))
  {
  }

  /** Nor does a child that finds the parent not waiting write its output. */
  lemma LateUpdate(s: State, t: TaskId)
    requires Allowed(s, ReadForUpdate(t)) && !s.row.waiting
    ensures At(Apply(s, ReadForUpdate(t)), t, Starting)
  {
  }

  // ---------------------------------------------------------------------------
  // Across episodes
  // ---------------------------------------------------------------------------

  /** The second episode: the late write lands, and a timer resumes the parent. */
  lemma LateWriteThenTimer(
    data: ParentData, late: ParentData, handed: seq<(TaskId, ParentData)>, tasks: map<TaskId, Task>)
    requires 0 in tasks && tasks[0].phase == Writing(late) && 2 !in tasks
    ensures var s := State(Row(true, data), tasks, handed);
      var events := [Write(0), Arrive(2, Timer), ReadForResume(2), Resume(2)];
      Runs(s, events) && After(s, events).handed == handed + [(2, late)]
  {
    var s := State(Row(true, data), tasks, handed);
    var s1 := Apply(s, Write(0));
    var s2 := Apply(s1, Arrive(2, Timer));
    var s3 := Apply(s2, ReadForResume(2));
    StepRun(s3, Resume(2), []);
    StepRun(s2, ReadForResume(2), [Resume(2)]);
    StepRun(s1, Arrive(2, Timer), [ReadForResume(2), Resume(2)]);
    StepRun(s, Write(0), [Arrive(2, Timer), ReadForResume(2), Resume(2)]);
  }

  /** A timer comes, reads the row and resumes the parent, while a child has yet to write. */
  lemma TimerResumes(data: ParentData, output: Output, rest: seq<Event>)
    requires data.stack != [] && Runs(AfterFirst(data, output), rest)
    ensures var s := State(Row(true, data), map[0 := Task(Child(Some(output)), Writing(WithHead(data, output)))], []);
      var events := [Arrive(1, Timer), ReadForResume(1), Resume(1)] + rest;
      Runs(s, events) && After(s, events) == After(AfterFirst(data, output), rest)
  {
    var s := State(Row(true, data), map[0 := Task(Child(Some(output)), Writing(WithHead(data, output)))], []);
    var s1 := Apply(s, Arrive(1, Timer));
    var s2 := Apply(s1, ReadForResume(1));
    assert Apply(s2, Resume(1)) == AfterFirst(data, output);
    StepRun(s2, Resume(1), rest);
    StepRun(s1, ReadForResume(1), [Resume(1)] + rest);
    StepRun(s, Arrive(1, Timer), [ReadForResume(1)] + ([Resume(1)] + rest));
    assert [Arrive(1, Timer)] + ([ReadForResume(1)] + ([Resume(1)] + rest))
        == [Arrive(1, Timer), ReadForResume(1), Resume(1)] + rest;
  }

  /** The first episode: a child reads the row, and a timer resumes the parent before the child writes. */
  lemma ChildReadsThenTimer(data: ParentData, output: Output, rest: seq<Event>)
    requires data.stack != []
    requires Runs(AfterFirst(data, output), rest)
    ensures var s := State(Row(true, data), map[], []);
      var events :=
        [Arrive(0, Child(Some(output))), ReadForUpdate(0), Arrive(1, Timer), ReadForResume(1), Resume(1)] + rest;
      Runs(s, events) && After(s, events) == After(AfterFirst(data, output), rest)
  {
    var child := Child(Some(output));
    var s := State(Row(true, data), map[], []);
    var s1 := State(Row(true, data), map[0 := Task(child, Finished)], []);
    var s2 := State(Row(true, data), map[0 := Task(child, Writing(WithHead(data, output)))], []);
    var tail := [Arrive(1, Timer), ReadForResume(1), Resume(1)] + rest;
    TimerResumes(data, output, rest);
    assert Apply(s1, ReadForUpdate(0)) == s2 && Apply(s, Arrive(0, child)) == s1;
    StepRun(s1, ReadForUpdate(0), tail);
    StepRun(s, Arrive(0, child), [ReadForUpdate(0)] + tail);
    assert [Arrive(0, child)] + ([ReadForUpdate(0)] + tail)
        == [Arrive(0, child), ReadForUpdate(0), Arrive(1, Timer), ReadForResume(1), Resume(1)] + rest;
  }

  ghost function AfterFirst(data: ParentData, output: Output): State
    requires data.stack != []
  {
    var tasks := map[0 := Task(Child(Some(output)), Writing(WithHead(data, output))), 1 := Task(Timer, Done)];
    State(Row(false, data), tasks, [(1, data)])
  }

  /**
   * A write that was prepared in one episode and lands in the next replaces the parent's new data
   * wholesale, and a timer then resumes the parent with data of the old episode.
   */
  lemma LateWriteCrossesEpisodes(old_: ParentData, new_: ParentData, output: Output)
    requires old_.stack != [] && new_.stack != []
    ensures
      var s := State(Row(true, old_), map[], []);
      var events := [Arrive(0, Child(Some(output))), ReadForUpdate(0), Arrive(1, Timer), ReadForResume(1), Resume(1)]
                    + [WaitAgain(new_), Write(0), Arrive(2, Timer), ReadForResume(2), Resume(2)];
      && EpisodeStart(s, old_) && Runs(s, events)
      && After(s, events).handed == [(1, old_), (2, WithHead(old_, output))]
  {
    var between := AfterFirst(old_, output);
    var second := [Write(0), Arrive(2, Timer), ReadForResume(2), Resume(2)];
    LateWriteThenTimer(new_, WithHead(old_, output), between.handed, between.tasks);
    StepRun(between, WaitAgain(new_), second);
    var rest := [WaitAgain(new_), Write(0), Arrive(2, Timer), ReadForResume(2), Resume(2)];
    assert [WaitAgain(new_)] + second == rest;
    ChildReadsThenTimer(old_, output, rest);
  }

  /**
   * So is a read: a timer that read the row in one episode resumes the parent in the next, with the
   * data of the old one.
   */
  lemma LateReadCrossesEpisodes(old_: ParentData, new_: ParentData)
    requires old_.stack != [] && new_.stack != []
    ensures
      var s := State(Row(true, old_), map[], []);
      var events := [Arrive(0, Timer), ReadForResume(0), Arrive(1, Timer), ReadForResume(1), Resume(1), WaitAgain(new_),
                     Resume(0)];
      && EpisodeStart(s, old_) && Runs(s, events) && After(s, events).handed == [(1, old_), (0, old_)]
  {
    var s := State(Row(true, old_), map[], []);
    var s1 := Apply(s, Arrive(0, Timer));
    var s2 := Apply(s1, ReadForResume(0));
    var rest := [Arrive(1, Timer), ReadForResume(1), Resume(1), WaitAgain(new_), Resume(0)];
    OvertakenReader(old_, new_);
    assert s2 == State(Row(true, old_), map[0 := Task(Timer, Resuming(old_))], []);
    StepRun(s1, ReadForResume(0), rest);
    StepRun(s, Arrive(0, Timer), [ReadForResume(0)] + rest);
    assert [Arrive(0, Timer)] + ([ReadForResume(0)] + rest)
        == [Arrive(0, Timer), ReadForResume(0), Arrive(1, Timer), ReadForResume(1), Resume(1), WaitAgain(new_),
            Resume(0)];
  }

  /** Another timer resumes the parent before the one that has read the row. */
  lemma OvertakenReader(old_: ParentData, new_: ParentData)
    ensures
      var s := State(Row(true, old_), map[0 := Task(Timer, Resuming(old_))], []);
      var events := [Arrive(1, Timer), ReadForResume(1), Resume(1), WaitAgain(new_), Resume(0)];
      Runs(s, events) && After(s, events).handed == [(1, old_), (0, old_)]
  {
    var s := State(Row(true, old_), map[0 := Task(Timer, Resuming(old_))], []);
    var s1 := Apply(s, Arrive(1, Timer));
    var s2 := Apply(s1, ReadForResume(1));
    var tasks := map[0 := Task(Timer, Resuming(old_)), 1 := Task(Timer, Done)];
    var s3 := State(Row(false, old_), tasks, [(1, old_)]);
    assert Apply(s2, Resume(1)) == s3;
    var s4 := s3.(row := Row(true, new_));
    StepRun(s4, Resume(0), []);
    StepRun(s3, WaitAgain(new_), [Resume(0)]);
    StepRun(s2, Resume(1), [WaitAgain(new_), Resume(0)]);
    StepRun(s1, ReadForResume(1), [Resume(1), WaitAgain(new_), Resume(0)]);
    StepRun(s, Arrive(1, Timer), [ReadForResume(1), Resume(1), WaitAgain(new_), Resume(0)]);
  }

  // ---------------------------------------------------------------------------
  // When an episode is safe from the ones before it
  // ---------------------------------------------------------------------------

  /** What a task would write, or hand over as a child or a timer, is faithful to this episode. */
  ghost predicate UpToDate(s: State, data: ParentData, t: TaskId)
    requires data.stack != [] && t in s.tasks
  {
    match s.tasks[t].phase
    case Writing(d) => Faithful(s, data, d)
    case Resuming(d) => ByWebhook(s, t) || Faithful(s, data, d)
    case _ => true
  }

  ghost predicate NothingStale(s: State, data: ParentData)
    requires data.stack != []
  {
    forall t :: t in s.tasks ==> UpToDate(s, data, t)
  }

  /** All that children and timers have handed over since the first `before` resumes is faithful. */
  ghost predicate HandsFaithful(s: State, data: ParentData, before: nat)
    requires data.stack != []
  {
    forall i :: before <= i < |s.handed| ==> ByWebhook(s, s.handed[i].0) || Faithful(s, data, s.handed[i].1)
  }

  ghost predicate StaysFaithful(s: State, data: ParentData, before: nat)
    requires data.stack != []
  {
    && before <= |s.handed| && HandsFaithful(s, data, before)
    && (forall i :: before <= i < |s.handed| ==> s.handed[i].0 in s.tasks)
    && (s.row.waiting ==> Faithful(s, data, s.row.data) && NothingStale(s, data))
  }

  lemma StepStaysFaithful(s: State, data: ParentData, before: nat, e: Event)
    requires data.stack != [] && StaysFaithful(s, data, before) && Allowed(s, e) && !e.WaitAgain?
    ensures StaysFaithful(Apply(s, e), data, before)
  {
    var s' := Apply(s, e);
    OriginsKeep(s, s', data);
    if s.row.waiting {
      if e.ReadForUpdate? && HasOutput(s, e.task) {
        WithHeadTwice(data, s.row.data, s, s.tasks[e.task].origin.output.value);
        assert FromChild(s, data, WithHead(data, s.tasks[e.task].origin.output.value));
      }
      if e.Write? || e.Resume? { assert UpToDate(s, data, e.task); }
      forall u | u in s'.tasks ensures s'.row.waiting ==> UpToDate(s', data, u) {
        if u in s.tasks { assert UpToDate(s, data, u); }
      }
    }
  }

  lemma {:induction false} RunStaysFaithful(s: State, data: ParentData, before: nat, events: seq<Event>)
    requires data.stack != [] && StaysFaithful(s, data, before) && Runs(s, events) && OneEpisode(events)
    ensures StaysFaithful(After(s, events), data, before)
    decreases |events|
  {
    if events != [] {
      assert events[0] in events;
      assert forall e :: e in events[1..] ==> e in events;
      StepStaysFaithful(s, data, before, events[0]);
      RunStaysFaithful(Apply(s, events[0]), data, before, events[1..]);
    }
  }

  /** A task that holds something stale hands it over, or has it handed over by a timer. */
  lemma StaleIsHandedOver(s: State, data: ParentData, t: TaskId) returns (events: seq<Event>)
    requires s.row.waiting && data.stack != [] && t in s.tasks && !UpToDate(s, data, t)
    ensures Runs(s, events) && OneEpisode(events) && !HandsFaithful(After(s, events), data, |s.handed|)
  {
    if s.tasks[t].phase.Resuming? {
      events := [Resume(t)];
      StepRun(s, Resume(t), []);
      SameChildren(s, Apply(s, Resume(t)), data, s.tasks[t].phase.snapshot);
      assert After(s, events) == Apply(s, Resume(t));
      assert After(s, events).handed[|s.handed|] == (t, s.tasks[t].phase.snapshot);
    } else {
      var u := Fresh(s.tasks.Keys);
      var d := s.tasks[t].phase.snapshot;
      var s1 := Apply(s, Write(t));
      var s2 := Apply(s1, Arrive(u, Timer));
      var s3 := Apply(s2, ReadForResume(u));
      var s4 := Apply(s3, Resume(u));
      events := [Write(t)] + ([Arrive(u, Timer)] + ([ReadForResume(u)] + [Resume(u)]));
      StepRun(s3, Resume(u), []);
      StepRun(s2, ReadForResume(u), [Resume(u)]);
      StepRun(s1, Arrive(u, Timer), [ReadForResume(u)] + [Resume(u)]);
      StepRun(s, Write(t), [Arrive(u, Timer)] + ([ReadForResume(u)] + [Resume(u)]));
      SameChildren(s, s4, data, d);
      assert s4.handed[|s.handed|] == (u, d);
    }
  }

  /** Nothing is faithful in `s'` that was not in `s`: no child has arrived in between. */
  lemma SameChildren(s: State, s': State, data: ParentData, d: ParentData)
    requires data.stack != []
    requires forall u :: u in s'.tasks && s'.tasks[u].origin.Child? ==>
      u in s.tasks && s.tasks[u].origin == s'.tasks[u].origin
    ensures Faithful(s', data, d) ==> Faithful(s, data, d)
  {
  }

  /**
   * In a waiting episode, however it came about, every run hands over faithful data when children and
   * timers resume, if and only if nothing that was read before the episode is still about to be
   * written or handed over, unless it happens to be faithful too.
   */
  lemma FaithfulIffNothingStale(s: State, data: ParentData)
    requires s.row == Row(true, data) && data.stack != []
    ensures (forall events :: Runs(s, events) && OneEpisode(events) ==>
              HandsFaithful(After(s, events), data, |s.handed|))
       <==> NothingStale(s, data)
  {
    if NothingStale(s, data) {
      forall events | Runs(s, events) && OneEpisode(events)
        ensures HandsFaithful(After(s, events), data, |s.handed|)
      {
        RunStaysFaithful(s, data, |s.handed|, events);
      }
    } else {
      var t :| t in s.tasks && !UpToDate(s, data, t);
      var events := StaleIsHandedOver(s, data, t);
    }
  }

  lemma StepRun(s: State, e: Event, rest: seq<Event>)
    requires Allowed(s, e) && Runs(Apply(s, e), rest)
    ensures Runs(s, [e] + rest) && After(s, [e] + rest) == After(Apply(s, e), rest)
  {
    assert ([e] + rest)[1..] == rest;
  }
}
