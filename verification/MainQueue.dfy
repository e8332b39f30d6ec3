/** core/controller/index.ts: the queue of main tasks, worked off by asynchronous
    steps that can interleave with arrivals in any way. */
module MainQueue {

  type Task = nat

  /** `queue` has its newest task first. `scheduled` counts the workers that wait
      for their turn, `running` lists the tasks whose handler is being awaited. */
  datatype State = State(queue: seq<Task>, scheduled: nat, running: seq<Task>, finished: seq<Task>)

  const EMPTY := State([], 0, [], [])

  /** What can happen next: a task arrives, a scheduled worker takes its turn, or
      an awaited handler returns or throws. */
  datatype Step = Arrive(task: Task) | Work | Settle(thrown: bool)

  /** A new task goes to the front; the first in an empty queue schedules a worker. */
  function Arrived(s: State, task: Task): State {
    s.(queue := [task] + s.queue, scheduled := if |s.queue| == 0 then s.scheduled + 1 else s.scheduled)
  }

  /** A worker awaits the handler of the oldest task; with nothing queued it ends. */
  function Worked(s: State): State
    requires s.scheduled > 0
  {
    if |s.queue| == 0 then s.(scheduled := s.scheduled - 1)
    else s.(scheduled := s.scheduled - 1, running := s.running + [s.queue[|s.queue| - 1]])
  }

  /** When a handler is done, however, the last place of the queue goes, and another
      worker is scheduled while tasks are left. */
  function Settled(s: State): State
    requires s.running != [] && s.queue != []
  {
    var left := s.queue[..|s.queue| - 1];
    State(left, if |left| > 0 then s.scheduled + 1 else s.scheduled, s.running[1..], s.finished + [s.running[0]])
  }

  predicate Enabled(s: State, step: Step) {
    match step
    case Arrive(_) => true
    case Work => s.scheduled > 0
    case Settle(_) => s.running != [] && s.queue != []
  }

  function Do(s: State, step: Step): State {
    if !Enabled(s, step) then s
    else
      match step
      case Arrive(task) => Arrived(s, task)
      case Work => Worked(s)
      case Settle(_) => Settled(s)
  }

  function Run(steps: seq<Step>): State {
    if steps == [] then EMPTY else Do(Run(steps[..|steps| - 1]), steps[|steps| - 1])
  }

  function Arrivals(steps: seq<Step>): seq<Task> {
    if steps == [] then []
    else
      var before := Arrivals(steps[..|steps| - 1]);
      var last := steps[|steps| - 1];
      if last.Arrive? then before + [last.task] else before
  }

  function OldestFirst(queue: seq<Task>): seq<Task> {
    if queue == [] then [] else OldestFirst(queue[1..]) + [queue[0]]
  }

  lemma {:induction false} OldestLast(queue: seq<Task>)
    requires queue != []
    ensures OldestFirst(queue) == [queue[|queue| - 1]] + OldestFirst(queue[..|queue| - 1])
  {
    if |queue| > 1 {
      OldestLast(queue[1..]);
      assert queue[1..][..|queue| - 2] == queue[..|queue| - 1][1..];
    }
  }

  /** One worker is scheduled or running exactly when the queue is not empty, and
      what runs is the oldest task. */
  predicate SingleFlight(s: State) {
    && s.scheduled + |s.running| == (if s.queue == [] then 0 else 1)
    && (s.running != [] ==> s.queue != [] && s.running == [s.queue[|s.queue| - 1]])
  }

  lemma ArriveKeeps(s: State, task: Task)
    requires SingleFlight(s)
    ensures SingleFlight(Arrived(s, task))
    ensures Arrived(s, task).finished + OldestFirst(Arrived(s, task).queue) == s.finished + OldestFirst(s.queue) + [task]
  {
    assert ([task] + s.queue)[1..] == s.queue;
  }

  lemma WorkKeeps(s: State)
    requires SingleFlight(s) && s.scheduled > 0
    ensures SingleFlight(Worked(s)) && Worked(s).finished == s.finished && Worked(s).queue == s.queue
  {
  }

  lemma SettleKeeps(s: State)
    requires SingleFlight(s) && s.running != [] && s.queue != []
    ensures SingleFlight(Settled(s))
    ensures Settled(s).finished + OldestFirst(Settled(s).queue) == s.finished + OldestFirst(s.queue)
  {
    OldestLast(s.queue);
  }

  /** MAIN: in every interleaving of arrivals, awaited handlers and failures at most
      one task runs, a worker is there exactly while tasks are queued, and the tasks
      finished and still queued are the arrivals, each once and in order. */
  lemma {:induction false} FifoSingleFlight(steps: seq<Step>)
    ensures SingleFlight(Run(steps))
    ensures Run(steps).finished + OldestFirst(Run(steps).queue) == Arrivals(steps)
  {
    hide SingleFlight, OldestFirst, Arrived, Worked, Settled;
    if steps == [] {
      NothingYet();
    } else {
      var s, step := Run(steps[..|steps| - 1]), steps[|steps| - 1];
      FifoSingleFlight(steps[..|steps| - 1]);
      if Enabled(s, step) {
        match step {
          case Arrive(task) => ArriveKeeps(s, task);
          case Work => WorkKeeps(s);
          case Settle(_) => SettleKeeps(s);
        }
      }
    }
  }

  lemma NothingYet()
    ensures SingleFlight(EMPTY) && EMPTY.finished + OldestFirst(EMPTY.queue) == []
  {
  }

  /** The work that is left: each task needs a worker's turn and a settled handler. */
  function Remaining(s: State): nat {
    2 * |s.queue| + s.scheduled
  }

  /** MAIN: a queued task is never stuck: some step other than an arrival is enabled,
      and each such step leaves less to do. */
  lemma NeverStuck(steps: seq<Step>)
    requires Run(steps).queue != []
    ensures Enabled(Run(steps), Work) || Enabled(Run(steps), Settle(false))
    ensures forall step: Step :: !step.Arrive? && Enabled(Run(steps), step) ==> Remaining(Do(Run(steps), step)) < Remaining(Run(steps))
  {
    FifoSingleFlight(steps);
  }
}
