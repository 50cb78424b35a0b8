/**
 Copies and deletes that run to their end, as events of whole runs: what is proved of one
 operation and what is proved of all runs speak of the same steps.
 */
module CopyEvents {
  import opened Stores
  import opened CopyTask
  import opened NoLoss
  import CopyGroup

  /** An event at other addresses or none: it starts no copy and makes no delete request. */
  predicate Harmless(event: Event) {
    !event.Start? && !event.DeleteStep?
  }

  lemma {:induction false} HarmlessKeeps(d: Discipline, w: World, events: seq<Event>)
    requires forall event :: event in events ==> Harmless(event)
    ensures Keeps(d, w, events)
    decreases |events|
  {
    if events != [] {
      assert events[0] in events && forall event :: event in events[1..] ==> event in events;
      HarmlessKeeps(d, Apply(w, events[0]), events[1..]);
    }
  }

  lemma RunPrepend(w: World, event: Event, events: seq<Event>)
    ensures Run(w, [event] + events) == Run(Apply(w, event), events)
  {
    assert ([event] + events)[1..] == events;
  }

  lemma RunOne(w: World, event: Event)
    ensures Run(w, [event]) == Apply(w, event)
  {
    assert Run(Apply(w, event), [event][1..]) == Apply(w, event);
  }

  /** A task left to itself takes its steps to the end. */
  lemma {:induction false} CompletesAsSteps(w: World, ticket: Ticket) returns (events: seq<Event>)
    requires ticket in w.tasks
    ensures forall event :: event in events ==> event == Step(ticket)
    ensures var (dest, task) := Complete(w.source, w.dest, w.tasks[ticket]);
            Run(w, events) == w.(dest := dest, tasks := w.tasks[ticket := task])
    decreases CopyTask.Rank(w.tasks[ticket])
  {
    var task := w.tasks[ticket];
    if CopyTask.Rank(task) == 0 {
      events := [];
      assert w.tasks[ticket := task] == w.tasks;
    } else {
      var next := Apply(w, Step(ticket));
      StepDescends(w.source, w.dest, task);
      var rest := CompletesAsSteps(next, ticket);
      events := [Step(ticket)] + rest;
      RunPrepend(w, Step(ticket), rest);
      var end := Complete(next.source, next.dest, next.tasks[ticket]).1;
      assert next.tasks[ticket := end] == w.tasks[ticket := end];
    }
  }

  /** A copy from its start, undisturbed, is what the copying method does. */
  lemma CopyAsEvents(w: World, ticket: Ticket, work: Work) returns (events: seq<Event>)
    requires work.Archive? && WorkOk(work) && ticket !in w.tasks
    ensures forall event :: event in events ==> event == Step(ticket) || event == Start(ticket, work)
    ensures !Busy(w.tasks, ticket, AddressOf(work)) ==> Keeps(STRICT, w, events)
    ensures var (dest, end) := CopyGroup.Outcome(w.source, w.dest, work.group, work.tarSize, work.sidecarSize);
            Run(w, events) == w.(dest := dest, tasks := w.tasks[ticket := Task(work, end)])
  {
    var started := Apply(w, Start(ticket, work));
    var steps := CompletesAsSteps(started, ticket);
    events := [Start(ticket, work)] + steps;
    RunPrepend(w, Start(ticket, work), steps);
    HarmlessKeeps(STRICT, started, steps);
    assert events[1..] == steps;
    CopyGroup.StepsGiveOutcome(w.source, w.dest, work.group, work.tarSize, work.sidecarSize);
    CompleteKeepsWork(w.source, w.dest, Task(work, Starting));
    var end := Complete(w.source, w.dest, Task(work, Starting)).1;
    assert started.tasks[ticket := end] == w.tasks[ticket := end];
  }

  lemma {:induction false} CompleteKeepsWork(source: SourceStore, dest: DestStore, task: Task)
    ensures Complete(source, dest, task).1.work == task.work
    decreases CopyTask.Rank(task)
  {
    if CopyTask.Rank(task) > 0 {
      StepDescends(source, dest, task);
      StepStaysAtAddress(source, dest, task);
      CompleteKeepsWork(source, TaskStep(source, dest, task).0, TaskStep(source, dest, task).1);
    }
  }

  /** A copy that ends well and passes verification leaves its group verified and nothing else behind. */
  lemma VerifiedAsEvents(w: World, ticket: Ticket, work: Work) returns (events: seq<Event>)
    requires work.Archive? && WorkOk(work) && ticket !in w.tasks
    requires CopyGroup.Outcome(w.source, w.dest, work.group, work.tarSize, work.sidecarSize).1 == Done
    ensures forall event :: event in events ==>
              event == Step(ticket) || event == Start(ticket, work) || event == Verify(ticket)
    ensures !Busy(w.tasks, ticket, AddressOf(work)) ==> Keeps(STRICT, w, events)
    ensures var dest := CopyGroup.Outcome(w.source, w.dest, work.group, work.tarSize, work.sidecarSize).0;
            Run(w, events) == w.(dest := dest, verified := w.verified + {work.group})
  {
    var copied := CopyAsEvents(w, ticket, work);
    events := copied + [Verify(ticket)];
    var done := Run(w, copied);
    RunAppends(w, copied, [Verify(ticket)]);
    KeepsAppends(STRICT, w, copied, [Verify(ticket)]);
    HarmlessKeeps(STRICT, done, [Verify(ticket)]);
    RunOne(done, Verify(ticket));
    CopyGroup.DoneVerifies(w.source, w.dest, work.group, work.tarSize, work.sidecarSize);
    assert done.tasks - {ticket} == w.tasks;
  }
}
