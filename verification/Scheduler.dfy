/**
  The scheduler: tasks wait in a heap ordered by the time they have used, and every switch
  hands the processor to one that has used the least.
 */
module Scheduler {
  import opened Arith
  import opened MinHeaps
  import opened Words

  const TWO_31 := 0x8000_0000
  const TWO_32 := 0x1_0000_0000
  const PAGE_BYTES := 4096
  const INTERRUPT_FLAG := 0x200
  const TIME_QUANTUM := 5000

  datatype TaskState = Running | InQueue | Terminated | Frozen

  /** The registers an interrupt saves: those start_task sets, and the 16 others. */
  datatype Frame = Frame(rip: nat, rsp: nat, rdi: nat, cs: nat, ss: nat, rflags: nat, rest: seq<nat>)

  datatype Task = Task(saved: Frame, vtime: nat, startedAt: nat, nice: int, state: TaskState)

  /** The scheduler's variables; queue is the array of the heap, and waiting holds the tasks in the queues of all mutexes. */
  datatype Machine = Machine(tasks: seq<Task>, current: nat, queue: seq<nat>, totalVtime: nat, numTasks: nat, waiting: set<nat>)

  // ---------- Comparing times ----------

  /** A uint64_t as the int it is returned as: its low 32 bits, signed. */
  function ToInt(x: nat): int {
    var low := x % TWO_32;
    if low < TWO_31 then low else low - TWO_32
  }

  /** compare_tasks on two times. */
  function CompareTimes(a: nat, b: nat): int { ToInt((a - b) % WORD) }

  lemma Wrapped(x: int)
    requires -WORD < x < WORD
    ensures x % WORD == if x >= 0 then x else x + WORD
  {
  }

  /** The comparison is the difference of the times exactly if that fits an int. */
  lemma CompareIsDifference(a: nat, b: nat)
    requires a < WORD && b < WORD
    ensures -TWO_31 <= CompareTimes(a, b) < TWO_31
    ensures CompareTimes(a, b) == a - b <==> -TWO_31 <= a - b < TWO_31
  {
    Wrapped(a - b);
  }

  /** Its sign is right exactly for some distances modulo 2^32: the smaller time is put first, and is not put last. */
  lemma CompareSign(a: nat, b: nat)
    requires a < b < WORD
    ensures CompareTimes(a, b) < 0 <==> 1 <= (b - a) % TWO_32 <= TWO_31
    ensures CompareTimes(b, a) >= 0 <==> (b - a) % TWO_32 < TWO_31
    ensures CompareTimes(b, a) > 0 <==> 1 <= (b - a) % TWO_32 < TWO_31
  {
    Wrapped(a - b);
    Wrapped(b - a);
    NegatedLow(b - a);
  }

  lemma NegatedLow(d: int)
    requires 0 < d < WORD
    ensures (WORD - d) % TWO_32 == if d % TWO_32 == 0 then 0 else TWO_32 - d % TWO_32
  {
  }

  /** Times further apart can be before each other in a circle. */
  lemma TimesInACircle()
    ensures CompareTimes(0, 1_500_000_000) < 0 && CompareTimes(1_500_000_000, 3_000_000_000) < 0
    ensures CompareTimes(3_000_000_000, 0) < 0
  {
  }

  /** compare_tasks on the tasks of a table. */
  function ByTime(tasks: seq<Task>): (nat, nat) -> int {
    (a: nat, b: nat) => if a < |tasks| && b < |tasks| then CompareTimes(tasks[a].vtime, tasks[b].vtime) else 0
  }

  predicate Live(tasks: seq<Task>, i: nat) { i < |tasks| && tasks[i].state != Terminated }

  /** The comparison orders the tasks of q, and orders those that have not ended by their times. */
  ghost predicate Ordered(tasks: seq<Task>, q: multiset<nat>) {
    && (forall i: nat {:trigger q[i]} :: q[i] > 0 ==> i < |tasks| && tasks[i].vtime < WORD)
    && (forall i: nat, j: nat {:trigger q[i], q[j]} :: q[i] > 0 && q[j] > 0 && Live(tasks, i) && Live(tasks, j) ==>
          tasks[i].vtime - tasks[j].vtime < TWO_31)
    && PreorderOn(ByTime(tasks), q)
  }

  lemma OrderedPair(tasks: seq<Task>, q: multiset<nat>, i: nat, j: nat)
    requires Ordered(tasks, q) && i in q && j in q && Live(tasks, i) && Live(tasks, j)
    ensures i < |tasks| && j < |tasks| && ByTime(tasks)(i, j) == tasks[i].vtime - tasks[j].vtime
  {
    assert q[i] > 0 && q[j] > 0;
    CompareIsDifference(tasks[i].vtime, tasks[j].vtime);
  }

  lemma OrderedIsOrder(tasks: seq<Task>, q: multiset<nat>)
    requires Ordered(tasks, q)
    ensures PreorderOn(ByTime(tasks), q)
  {
  }

  /** The tasks of q have used times less than 2^31 apart. */
  ghost predicate Narrow(tasks: seq<Task>, q: multiset<nat>) {
    && (forall i: nat {:trigger q[i]} :: q[i] > 0 ==> i < |tasks| && tasks[i].vtime < WORD)
    && (forall i: nat, j: nat {:trigger q[i], q[j]} :: q[i] > 0 && q[j] > 0 ==> tasks[i].vtime - tasks[j].vtime < TWO_31)
  }

  lemma NarrowPair(tasks: seq<Task>, q: multiset<nat>, i: nat, j: nat)
    requires Narrow(tasks, q) && i in q && j in q
    ensures i < |tasks| && j < |tasks| && ByTime(tasks)(i, j) == tasks[i].vtime - tasks[j].vtime
  {
    assert q[i] > 0 && q[j] > 0;
    CompareIsDifference(tasks[i].vtime, tasks[j].vtime);
  }

  /** Within such a span of times the comparison orders the tasks. */
  lemma NarrowOrders(tasks: seq<Task>, q: multiset<nat>)
    requires Narrow(tasks, q)
    ensures Ordered(tasks, q)
  {
    var cmp := ByTime(tasks);
    assert PreorderOn(cmp, q) by {
      hide Narrow, ByTime;
      forall a, b {:trigger cmp(a, b), cmp(b, a)} | a in q && b in q && cmp(a, b) < 0 ensures cmp(b, a) >= 0 {
        NarrowPair(tasks, q, a, b);
        NarrowPair(tasks, q, b, a);
      }
      forall a, b, c {:trigger cmp(b, a), cmp(c, b)} | a in q && b in q && c in q && cmp(b, a) >= 0 && cmp(c, b) >= 0
        ensures cmp(c, a) >= 0
      {
        NarrowPair(tasks, q, b, a);
        NarrowPair(tasks, q, c, b);
        NarrowPair(tasks, q, c, a);
      }
    }
  }

  /** No task is before itself, whatever the times. */
  lemma TimesReflexive(tasks: seq<Task>, q: multiset<nat>)
    ensures Reflexive(ByTime(tasks), q)
  {
  }

  // ---------- The invariant ----------

  /** Every task that waits is in the queue once; no task but the current one runs. */
  ghost predicate TaskOk(tasks: seq<Task>, q: multiset<nat>, current: nat, i: nat)
    requires i < |tasks|
  {
    StateOk(tasks[i].state, q[i], i == current)
  }

  ghost predicate StateOk(st: TaskState, queued: nat, isCurrent: bool) {
    match st
    case Running => isCurrent && queued == 0
    case InQueue => queued == 1
    case Frozen => queued <= 1 && (isCurrent ==> queued == 0)
    case Terminated => true
  }

  ghost predicate TasksOk(tasks: seq<Task>, q: multiset<nat>, current: nat) {
    && (forall i: nat {:trigger q[i]} :: q[i] > 0 ==> i < |tasks|)
    && (forall i: nat {:trigger tasks[i]} :: i < |tasks| ==> TaskOk(tasks, q, current, i))
  }

  /** The tasks that wait for a mutex are the frozen ones, and others that were ended while they waited. */
  ghost predicate WaitersOk(tasks: seq<Task>, q: multiset<nat>, current: nat, waiting: set<nat>) {
    && (forall i: nat {:trigger i in waiting} :: i in waiting ==>
          i < |tasks| && tasks[i].state in {Frozen, Terminated} && q[i] <= if i == current then 0 else 1)
    && (forall i: nat {:trigger tasks[i]} :: i < |tasks| && tasks[i].state == Frozen ==> i in waiting)
  }

  ghost predicate Sane(x: Machine) {
    && IsHeap(ByTime(x.tasks), x.queue) && TasksOk(x.tasks, multiset(x.queue), x.current)
    && WaitersOk(x.tasks, multiset(x.queue), x.current, x.waiting)
    && x.totalVtime < WORD && x.numTasks < WORD
  }

  /** Between switches: the current task, and no other, runs. */
  ghost predicate Good(x: Machine) { Sane(x) && x.current < |x.tasks| && x.tasks[x.current].state == Running }

  /** Only states and saved frames differ. */
  ghost predicate SameTimes(tasks: seq<Task>, tasks': seq<Task>, q: multiset<nat>) {
    forall i: nat {:trigger q[i]} :: q[i] > 0 ==> i < |tasks| && i < |tasks'| && tasks'[i].vtime == tasks[i].vtime
  }

  /** No key changes while it is in the heap. */
  lemma HeapKept(tasks: seq<Task>, tasks': seq<Task>, s: seq<nat>)
    requires SameTimes(tasks, tasks', multiset(s)) && IsHeap(ByTime(tasks), s)
    ensures IsHeap(ByTime(tasks'), s)
  {
    hide IsHeap;
    var cmp, cmp' := ByTime(tasks), ByTime(tasks');
    forall a, b {:trigger cmp'(a, b)} | a in multiset(s) && b in multiset(s) ensures cmp'(a, b) == cmp(a, b) {
      assert multiset(s)[a] > 0 && multiset(s)[b] > 0;
    }
    SameKeys(cmp, cmp', s);
  }

  lemma StateChangedOk(tasks: seq<Task>, q: multiset<nat>, current: nat, i: nat, st: TaskState)
    requires TasksOk(tasks, q, current) && i < |tasks|
    requires st == Terminated || (st == Frozen && tasks[i].state == Running) || (st == InQueue && q[i] == 1)
    ensures TasksOk(InState(tasks, i, st), q, current)
    ensures SameTimes(tasks, InState(tasks, i, st), q)
  {
    var r := InState(tasks, i, st);
    forall j: nat | j < |r| ensures TaskOk(r, q, current, j) {
      assert TaskOk(tasks, q, current, j);
      assert r[j] == if j == i then tasks[i].(state := st) else tasks[j];
    }
  }

  lemma RunningNotQueued(tasks: seq<Task>, q: multiset<nat>, current: nat)
    requires TasksOk(tasks, q, current) && current < |tasks| && tasks[current].state == Running
    ensures q[current] == 0
  {
    assert TaskOk(tasks, q, current, current);
  }

  // ---------- What a switch does ----------

  function InState(tasks: seq<Task>, i: nat, st: TaskState): (r: seq<Task>)
    ensures |r| == |tasks|
  {
    if i < |tasks| then tasks[i := tasks[i].(state := st)] else tasks
  }

  /** A time after a run from start to now. */
  function Charged(time: nat, start: nat, now: nat): (r: nat)
    ensures r < WORD
  {
    (time + (now - start) % WORD) % WORD
  }

  /** The table when the current task gives up the processor with frame f at a time. */
  function Parked(tasks: seq<Task>, current: nat, f: Frame, now: nat): (r: seq<Task>)
    ensures |r| == |tasks|
  {
    if current >= |tasks| then tasks else
      var t := tasks[current];
      tasks[current := t.(saved := f,
                          vtime := Charged(t.vtime, t.startedAt, now),
                          state := if t.state == Running then InQueue else t.state)]
  }

  /** The table when task i gets the processor. */
  function Resumed(tasks: seq<Task>, i: nat, now: nat): (r: seq<Task>)
    ensures |r| == |tasks|
  {
    if i < |tasks| then tasks[i := tasks[i].(state := Running, startedAt := now)] else tasks
  }

  predicate Waiting(tasks: seq<Task>, i: nat) { i < |tasks| && tasks[i].state == InQueue }

  /** The loop that pops tasks until one waits: that task, and the heap that is left. */
  function Chosen(tasks: seq<Task>, s: seq<nat>): (r: (nat, seq<nat>))
    decreases |s|
  {
    if s == [] then (0, []) else if Waiting(tasks, s[0]) then (s[0], Popped(ByTime(tasks), s)) else Chosen(tasks, Popped(ByTime(tasks), s))
  }

  /** The tasks the loop drops on its way. */
  function Dropped(tasks: seq<Task>, s: seq<nat>): seq<nat>
    decreases |s|
  {
    if s == [] || Waiting(tasks, s[0]) then [] else [s[0]] + Dropped(tasks, Popped(ByTime(tasks), s))
  }

  /** The heap in which a switch looks for the next task. */
  function Lineup(x: Machine, f: Frame, now: nat): seq<nat> {
    Pushed(ByTime(Parked(x.tasks, x.current, f, now)), x.queue, x.current)
  }

  /** task_switch_isr */
  function SwitchTo(x: Machine, f: Frame, now: nat, later: nat): Machine {
    var parked := Parked(x.tasks, x.current, f, now);
    var (next, rest) := Chosen(parked, Lineup(x, f, now));
    Machine(Resumed(parked, next, later), next, rest,
            if x.current < |x.tasks| then Charged(x.totalVtime, x.tasks[x.current].startedAt, now) else x.totalVtime, x.numTasks, x.waiting)
  }

  /** i has used no more time than any task that waits. */
  ghost predicate LeastTime(tasks: seq<Task>, i: nat) {
    Waiting(tasks, i) && forall j: nat {:trigger Waiting(tasks, j)} :: Waiting(tasks, j) ==> tasks[i].vtime <= tasks[j].vtime
  }

  /** The loop takes apart what it finds: what it drops, what it returns, and what it leaves. */
  lemma {:induction false} ChosenItems(tasks: seq<Task>, s: seq<nat>, someone: nat)
    requires someone in s && Waiting(tasks, someone)
    ensures var (next, rest) := Chosen(tasks, s);
      && Waiting(tasks, next)
      && multiset(s) == multiset(rest) + multiset{next} + multiset(Dropped(tasks, s))
      && forall i: nat {:trigger multiset(Dropped(tasks, s))[i]} :: multiset(Dropped(tasks, s))[i] > 0 ==> !Waiting(tasks, i)
    decreases |s|
  {
    hide ByTime;
    PoppedHeap(ByTime(tasks), s);
    if !Waiting(tasks, s[0]) {
      var rest := Popped(ByTime(tasks), s);
      assert someone in multiset(s);
      assert someone in multiset(rest);
      ChosenItems(tasks, rest, someone);
      var d := Dropped(tasks, rest);
      assert multiset([s[0]] + d) == multiset{s[0]} + multiset(d);
    }
  }

  /** It takes the tasks in the order of their times. */
  lemma {:induction false} ChosenOrder(tasks: seq<Task>, s: seq<nat>, someone: nat)
    requires someone in s && Waiting(tasks, someone)
    requires IsHeap(ByTime(tasks), s) && PreorderOn(ByTime(tasks), multiset(s))
    ensures var (next, rest) := Chosen(tasks, s);
      && IsHeap(ByTime(tasks), rest)
      && (forall x {:trigger Le(ByTime(tasks), next, x)} :: x in multiset(rest) ==> Le(ByTime(tasks), next, x))
      && (forall x {:trigger Le(ByTime(tasks), x, next)} :: x in multiset(Dropped(tasks, s)) ==> Le(ByTime(tasks), x, next))
    decreases |s|
  {
    hide ByTime, IsHeap, PreorderOn, Le;
    var cmp, rest := ByTime(tasks), Popped(ByTime(tasks), s);
    PoppedHeap(cmp, s);
    if Waiting(tasks, s[0]) {
      forall x | x in multiset(rest) ensures Le(cmp, s[0], x) {
        assert multiset(rest)[x] <= multiset(s)[x];
        assert x in multiset(s);
      }
    } else {
      assert someone in multiset(s);
      assert someone in multiset(rest);
      PreorderLess(cmp, multiset(s), multiset(rest));
      ChosenOrder(tasks, rest, someone);
      ChosenItems(tasks, rest, someone);
      var d := Dropped(tasks, rest);
      assert multiset([s[0]] + d) == multiset{s[0]} + multiset(d);
      var next := Chosen(tasks, rest).0;
      assert next in multiset(rest);
      assert next in multiset(s);
    }
  }

  /** A switch from prev is possible: times are close enough, and some task then waits. */
  ghost predicate CanSwitch(x: Machine, f: Frame, now: nat, someone: nat) {
    && x.current < |x.tasks| && x.tasks[x.current].state != InQueue
    && Ordered(Parked(x.tasks, x.current, f, now), multiset(x.queue) + multiset{x.current})
    && Waiting(Parked(x.tasks, x.current, f, now), someone)
  }

  /** A switch from prev to next: prev is parked, and next has used the least time of all that wait. */
  ghost predicate Switched(tasks: seq<Task>, prev: nat, f: Frame, now: nat, later: nat, tasks': seq<Task>, next: nat) {
    && prev < |tasks| && next < |tasks|
    && LeastTime(Parked(tasks, prev, f, now), next)
    && tasks' == Resumed(Parked(tasks, prev, f, now), next, later)
  }

  /** While a switch looks for the next task: all tasks that wait are in q, none runs. */
  ghost predicate LinedUp(tasks: seq<Task>, q: multiset<nat>) {
    && (forall i: nat {:trigger q[i]} :: q[i] > 0 ==> i < |tasks|)
    && (forall i: nat {:trigger tasks[i]} :: i < |tasks| ==> StateOk(tasks[i].state, q[i], false))
  }

  lemma ParkedOk(tasks: seq<Task>, q: multiset<nat>, current: nat, f: Frame, now: nat)
    requires TasksOk(tasks, q, current) && current < |tasks| && tasks[current].state != InQueue
    ensures LinedUp(Parked(tasks, current, f, now), q + multiset{current})
  {
    var r, p := Parked(tasks, current, f, now), q + multiset{current};
    forall i: nat {:trigger p[i]} | p[i] > 0 ensures i < |r| {
      assert i == current || q[i] > 0;
    }
    forall i: nat | i < |r| ensures StateOk(r[i].state, p[i], false) {
      assert TaskOk(tasks, q, current, i);
      assert r[i] == if i == current then r[current] else tasks[i];
    }
  }

  lemma WaitingIsQueued(tasks: seq<Task>, q: multiset<nat>, i: nat)
    requires LinedUp(tasks, q) && Waiting(tasks, i)
    ensures q[i] == 1
  {
    assert StateOk(tasks[i].state, q[i], false);
  }

  lemma ResumedOk(tasks: seq<Task>, q: multiset<nat>, i: nat, now: nat, rest: multiset<nat>, d: multiset<nat>)
    requires LinedUp(tasks, q) && Waiting(tasks, i) && q == rest + multiset{i} + d
    requires forall j: nat {:trigger d[j]} :: d[j] > 0 ==> !Waiting(tasks, j)
    ensures TasksOk(Resumed(tasks, i, now), rest, i)
    ensures SameTimes(tasks, Resumed(tasks, i, now), rest)
  {
    var r := Resumed(tasks, i, now);
    forall j: nat {:trigger rest[j]} | rest[j] > 0 ensures j < |r| && r[j].vtime == tasks[j].vtime {
      assert q[j] > 0;
    }
    forall j: nat | j < |r| ensures TaskOk(r, rest, i, j) {
      assert r[j] == if j == i then r[i] else tasks[j];
      assert StateOk(tasks[j].state, q[j], false) && q[j] == rest[j] + (if j == i then 1 else 0) + d[j];
      WaitingIsQueued(tasks, q, i);
      assert d[j] > 0 ==> !Waiting(tasks, j);
    }
  }

  /** Charging the current task its time leaves the heap in order, unless it is in it. */
  lemma ParkedHeap(tasks: seq<Task>, s: seq<nat>, current: nat, f: Frame, now: nat)
    requires TasksOk(tasks, multiset(s), current) && IsHeap(ByTime(tasks), s)
    requires multiset(s)[current] == 0
    ensures IsHeap(ByTime(Parked(tasks, current, f, now)), s)
  {
    hide IsHeap;
    HeapKept(tasks, Parked(tasks, current, f, now), s);
  }

  /** What every switch does, whatever the times: a waiting task goes on, no other runs, and none that waits is lost. */
  lemma SwitchKeeps(x: Machine, f: Frame, now: nat, later: nat, someone: nat)
    requires TasksOk(x.tasks, multiset(x.queue), x.current) && x.current < |x.tasks| && x.tasks[x.current].state != InQueue
    requires Waiting(Parked(x.tasks, x.current, f, now), someone)
    ensures var parked, y := Parked(x.tasks, x.current, f, now), SwitchTo(x, f, now, later);
      && Waiting(parked, y.current) && y.tasks == Resumed(parked, y.current, later)
      && TasksOk(y.tasks, multiset(y.queue), y.current) && SameTimes(parked, y.tasks, multiset(y.queue))
      && multiset(x.queue) + multiset{x.current} == multiset(y.queue) + multiset{y.current} + multiset(Dropped(parked, Lineup(x, f, now)))
      && someone in Lineup(x, f, now)
  {
    hide TasksOk, LinedUp, Parked, Pushed, Chosen, Dropped, Resumed;
    var parked := Parked(x.tasks, x.current, f, now);
    ParkedOk(x.tasks, multiset(x.queue), x.current, f, now);
    PushedHeap(ByTime(parked), x.queue, x.current);
    var q := Lineup(x, f, now);
    WaitingIsQueued(parked, multiset(q), someone);
    ChosenItems(parked, q, someone);
    var (next, rest) := Chosen(parked, q);
    ResumedOk(parked, multiset(q), next, later, multiset(rest), multiset(Dropped(parked, q)));
  }

  /** In an order of the times, the heap stays one. */
  lemma SwitchHeap(x: Machine, f: Frame, now: nat, later: nat, someone: nat)
    requires TasksOk(x.tasks, multiset(x.queue), x.current) && x.current < |x.tasks| && x.tasks[x.current].state != InQueue
    requires Waiting(Parked(x.tasks, x.current, f, now), someone)
    requires PreorderOn(ByTime(Parked(x.tasks, x.current, f, now)), multiset(x.queue) + multiset{x.current})
    requires IsHeap(ByTime(Parked(x.tasks, x.current, f, now)), x.queue)
    ensures var parked, y := Parked(x.tasks, x.current, f, now), SwitchTo(x, f, now, later);
      && IsHeap(ByTime(y.tasks), y.queue)
      && (forall i {:trigger Le(ByTime(parked), y.current, i)} :: i in multiset(y.queue) ==> Le(ByTime(parked), y.current, i))
      && (forall i {:trigger Le(ByTime(parked), i, y.current)} :: i in multiset(Dropped(parked, Lineup(x, f, now))) ==> Le(ByTime(parked), i, y.current))
  {
    hide TasksOk, Parked, Pushed, Chosen, Dropped, Resumed, IsHeap, PreorderOn, ByTime, SameTimes, Le;
    var parked := Parked(x.tasks, x.current, f, now);
    SwitchKeeps(x, f, now, later, someone);
    PushedHeap(ByTime(parked), x.queue, x.current);
    ChosenOrder(parked, Lineup(x, f, now), someone);
    var y := SwitchTo(x, f, now, later);
    HeapKept(parked, y.tasks, y.queue);
  }

  /** With times close enough: the invariant is kept, and a task with least time goes on. */
  lemma SwitchOk(x: Machine, f: Frame, now: nat, later: nat, someone: nat)
    requires Sane(x) && CanSwitch(x, f, now, someone) && multiset(x.queue)[x.current] == 0
    ensures Good(SwitchTo(x, f, now, later))
    ensures Switched(x.tasks, x.current, f, now, later, SwitchTo(x, f, now, later).tasks, SwitchTo(x, f, now, later).current)
  {
    hide TasksOk, WaitersOk, Parked, IsHeap, PreorderOn, ByTime, SameTimes, Le, Chosen, Dropped, Pushed, Ordered;
    var parked, y := Parked(x.tasks, x.current, f, now), SwitchTo(x, f, now, later);
    WaitersSwitched(x.tasks, multiset(x.queue), x.current, x.waiting, f, now);
    ParkedHeap(x.tasks, x.queue, x.current, f, now);
    OrderedIsOrder(parked, multiset(x.queue) + multiset{x.current});
    SwitchKeeps(x, f, now, later, someone);
    SwitchHeap(x, f, now, later, someone);
    forall j: nat {:trigger Waiting(parked, j)} | Waiting(parked, j) ensures parked[y.current].vtime <= parked[j].vtime {
      LeftInQueue(x, f, now, later, someone, j);
      if j != y.current {
        assert Le(ByTime(parked), y.current, j);
        NotBeforeIs(parked, multiset(x.queue) + multiset{x.current}, y.current, j);
      }
    }
    WaitersResumed(parked, multiset(x.queue) + multiset{x.current}, x.waiting, y.current, later, multiset(y.queue));
    ChargedRange(x, f, now, later);
  }

  /** While a switch looks for the next task. */
  ghost predicate WaitersParked(tasks: seq<Task>, q: multiset<nat>, waiting: set<nat>) {
    && (forall i: nat {:trigger i in waiting} :: i in waiting ==> i < |tasks| && tasks[i].state in {Frozen, Terminated} && q[i] <= 1)
    && (forall i: nat {:trigger tasks[i]} :: i < |tasks| && tasks[i].state == Frozen ==> i in waiting)
  }

  lemma WaitersSwitched(tasks: seq<Task>, q: multiset<nat>, current: nat, waiting: set<nat>, f: Frame, now: nat)
    requires WaitersOk(tasks, q, current, waiting) && current < |tasks|
    ensures WaitersParked(Parked(tasks, current, f, now), q + multiset{current}, waiting)
  {
    hide Charged;
    var r := Parked(tasks, current, f, now);
    forall i: nat | i < |r| && r[i].state == Frozen ensures i in waiting {
      assert tasks[i].state == Frozen;
    }
  }

  lemma WaitersResumed(tasks: seq<Task>, q: multiset<nat>, waiting: set<nat>, next: nat, later: nat, rest: multiset<nat>)
    requires WaitersParked(tasks, q, waiting) && Waiting(tasks, next) && rest <= q
    ensures WaitersOk(Resumed(tasks, next, later), rest, next, waiting)
  {
    var r := Resumed(tasks, next, later);
    forall i: nat | i in waiting ensures i < |r| && r[i].state in {Frozen, Terminated} && rest[i] <= if i == next then 0 else 1 {
      assert rest[i] <= q[i];
    }
    forall i: nat | i < |r| && r[i].state == Frozen ensures i in waiting {
      assert tasks[i].state == Frozen;
    }
  }

  lemma NotBeforeIs(tasks: seq<Task>, q: multiset<nat>, a: nat, b: nat)
    requires Ordered(tasks, q) && a in q && b in q && Live(tasks, a) && Live(tasks, b) && Le(ByTime(tasks), a, b)
    ensures a < |tasks| && b < |tasks| && tasks[a].vtime <= tasks[b].vtime
  {
    hide Ordered, ByTime;
    OrderedPair(tasks, q, b, a);
  }

  lemma ChargedRange(x: Machine, f: Frame, now: nat, later: nat)
    requires x.totalVtime < WORD
    ensures SwitchTo(x, f, now, later).totalVtime < WORD && SwitchTo(x, f, now, later).numTasks == x.numTasks
  {
    hide Charged;
  }

  /** A task that waits is chosen or left in the queue. */
  lemma LeftInQueue(x: Machine, f: Frame, now: nat, later: nat, someone: nat, j: nat)
    requires TasksOk(x.tasks, multiset(x.queue), x.current) && x.current < |x.tasks| && x.tasks[x.current].state != InQueue
    requires Waiting(Parked(x.tasks, x.current, f, now), someone) && Waiting(Parked(x.tasks, x.current, f, now), j)
    ensures var y := SwitchTo(x, f, now, later); j == y.current || j in multiset(y.queue)
    ensures j in multiset(x.queue) + multiset{x.current} && SwitchTo(x, f, now, later).current in multiset(x.queue) + multiset{x.current}
  {
    hide TasksOk, Parked, Chosen, Dropped, Pushed, ByTime, SameTimes, Resumed;
    var parked := Parked(x.tasks, x.current, f, now);
    SwitchKeeps(x, f, now, later, someone);
    ParkedOk(x.tasks, multiset(x.queue), x.current, f, now);
    WaitingIsQueued(parked, multiset(x.queue) + multiset{x.current}, j);
    PushedHeap(ByTime(parked), x.queue, x.current);
    ChosenItems(parked, Lineup(x, f, now), someone);
    assert multiset(Dropped(parked, Lineup(x, f, now)))[j] == 0;
  }

  // ---------- The other operations ----------

  /** The mean of the times, as start_task computes it. */
  function MeanTime(total: nat, tasks: nat): nat { if tasks != 0 then total / tasks else 0 }

  /** A new task, as start_task sets it up. */
  function NewTask(start: nat, context: nat, stack: nat, vtime: nat): Task {
    Task(Frame(start, stack + PAGE_BYTES, context, 0x08, 0x10, INTERRUPT_FLAG, seq(16, _ => 0)), vtime, 0, 0, InQueue)
  }

  /** The place of a new task in the table. */
  function NextId(x: Machine): nat { |x.tasks| }

  function WithNewTask(x: Machine, start: nat, context: nat, stack: nat): (r: seq<Task>)
    ensures |r| == |x.tasks| + 1
  {
    x.tasks + [NewTask(start, context, stack, MeanTime(x.totalVtime, x.numTasks))]
  }

  /** start_task: the new task starts with the mean time of those there are. */
  function Spawned(x: Machine, start: nat, context: nat, stack: nat): Machine {
    var tasks := WithNewTask(x, start, context, stack);
    x.(tasks := tasks, queue := Pushed(ByTime(tasks), x.queue, NextId(x)), numTasks := (x.numTasks + 1) % WORD)
  }

  /** The stores of terminate_task. */
  function Ended(x: Machine, i: nat): Machine {
    if i >= |x.tasks| then x else
      x.(tasks := InState(x.tasks, i, Terminated), totalVtime := (x.totalVtime - x.tasks[i].vtime) % WORD, numTasks := (x.numTasks - 1) % WORD)
  }

  /** The current task has set its state for mutex_lock, and put itself into the queue of the mutex. */
  function Froze(x: Machine): Machine { x.(tasks := InState(x.tasks, x.current, Frozen), waiting := x.waiting + {x.current}) }

  /** mutex_unlock takes task i from the queue of the mutex, and sets its state whatever it is. */
  function Woken(x: Machine, i: nat): Machine { x.(tasks := InState(x.tasks, i, InQueue), waiting := x.waiting - {i}) }

  lemma WaitersStarted(tasks: seq<Task>, q: multiset<nat>, current: nat, waiting: set<nat>, t: Task)
    requires WaitersOk(tasks, q, current, waiting) && t.state == InQueue
    ensures WaitersOk(tasks + [t], q + multiset{|tasks|}, current, waiting)
  {
    var r := tasks + [t];
    forall i: nat | i < |r| && r[i].state == Frozen ensures i in waiting {
      assert r[i] == tasks[i];
    }
  }

  lemma WaitersEnded(tasks: seq<Task>, q: multiset<nat>, current: nat, waiting: set<nat>, i: nat)
    requires WaitersOk(tasks, q, current, waiting)
    ensures WaitersOk(InState(tasks, i, Terminated), q, current, waiting)
  {
    var r := InState(tasks, i, Terminated);
    forall j: nat | j < |r| && r[j].state == Frozen ensures j in waiting {
      assert r[j] == tasks[j];
    }
  }

  lemma WaitersFroze(tasks: seq<Task>, q: multiset<nat>, current: nat, waiting: set<nat>)
    requires WaitersOk(tasks, q, current, waiting) && current < |tasks| && q[current] == 0
    ensures WaitersOk(InState(tasks, current, Frozen), q, current, waiting + {current})
  {
    var r := InState(tasks, current, Frozen);
    forall j: nat | j < |r| && r[j].state == Frozen ensures j in waiting + {current} {
      if j != current { assert r[j] == tasks[j]; }
    }
  }

  lemma WaitersWoken(tasks: seq<Task>, q: multiset<nat>, current: nat, waiting: set<nat>, i: nat)
    requires WaitersOk(tasks, q, current, waiting)
    ensures WaitersOk(InState(tasks, i, InQueue), q, current, waiting - {i})
  {
    var r := InState(tasks, i, InQueue);
    forall j: nat | j < |r| && r[j].state == Frozen ensures j in waiting - {i} {
      assert r[j] == tasks[j];
    }
  }

  lemma StartedOk(tasks: seq<Task>, q: multiset<nat>, current: nat, t: Task)
    requires TasksOk(tasks, q, current) && t.state == InQueue
    ensures TasksOk(tasks + [t], q + multiset{|tasks|}, current) && SameTimes(tasks, tasks + [t], q)
  {
    var r, p := tasks + [t], q + multiset{|tasks|};
    assert q[|tasks|] == 0;
    forall i: nat {:trigger p[i]} | p[i] > 0 ensures i < |r| {
      assert i == |tasks| || q[i] > 0;
    }
    forall i: nat | i < |r| ensures TaskOk(r, p, current, i) {
      if i < |tasks| {
        assert r[i] == tasks[i] && TaskOk(tasks, q, current, i);
      }
    }
  }

  lemma SpawnedOk(x: Machine, start: nat, context: nat, stack: nat)
    requires Sane(x) && Ordered(WithNewTask(x, start, context, stack), multiset(x.queue) + multiset{NextId(x)})
    ensures Sane(Spawned(x, start, context, stack))
    ensures multiset(Spawned(x, start, context, stack).queue) == multiset(x.queue) + multiset{NextId(x)}
  {
    hide IsHeap, Ordered, TasksOk, WaitersOk, ByTime, Pushed, PreorderOn, NewTask;
    var tasks := WithNewTask(x, start, context, stack);
    NewTaskWaits(start, context, stack, MeanTime(x.totalVtime, x.numTasks));
    StartedOk(x.tasks, multiset(x.queue), x.current, tasks[|x.tasks|]);
    WaitersStarted(x.tasks, multiset(x.queue), x.current, x.waiting, tasks[|x.tasks|]);
    HeapKept(x.tasks, tasks, x.queue);
    OrderedIsOrder(tasks, multiset(x.queue) + multiset{NextId(x)});
    PushedHeap(ByTime(tasks), x.queue, NextId(x));
  }

  lemma NewTaskWaits(start: nat, context: nat, stack: nat, vtime: nat)
    ensures NewTask(start, context, stack, vtime).state == InQueue
  {
  }

  lemma EndedOk(x: Machine, i: nat)
    requires Sane(x)
    ensures Sane(Ended(x, i))
  {
    hide IsHeap, TasksOk, WaitersOk, ByTime;
    if i < |x.tasks| {
      WaitersEnded(x.tasks, multiset(x.queue), x.current, x.waiting, i);
      StateChangedOk(x.tasks, multiset(x.queue), x.current, i, Terminated);
      HeapKept(x.tasks, Ended(x, i).tasks, x.queue);
    }
  }

  lemma FrozeOk(x: Machine)
    requires Good(x)
    ensures Sane(Froze(x)) && multiset(x.queue)[x.current] == 0
  {
    hide IsHeap, TasksOk, WaitersOk, ByTime;
    StateChangedOk(x.tasks, multiset(x.queue), x.current, x.current, Frozen);
    HeapKept(x.tasks, Froze(x).tasks, x.queue);
    RunningNotQueued(x.tasks, multiset(x.queue), x.current);
    WaitersFroze(x.tasks, multiset(x.queue), x.current, x.waiting);
  }

  // ---------- Events ----------

  /** What can happen on the one processor: a timer tick, a task started, ended, frozen by a mutex or let go on by it. */
  datatype Event =
    | Tick(f: Frame, now: nat, later: nat)
    | Spawn(start: nat, context: nat, stack: nat)
    | End(i: nat, f: Frame, now: nat, later: nat)
    | Wait(f: Frame, now: nat, later: nat)
    | Wake(i: nat)

  /** The event takes the processor from the current task. */
  predicate Switches(x: Machine, e: Event) { e.Tick? || e.Wait? || (e.End? && e.i == x.current) }

  /** The scheduler's variables when the switch of an event begins. */
  function AtSwitch(x: Machine, e: Event): (r: Machine)
    ensures r.current == x.current && r.queue == x.queue && |r.tasks| == |x.tasks|
  {
    match e
    case Wait(_, _, _) => Froze(x)
    case End(i, _, _, _) => Ended(x, i)
    case _ => x
  }

  function After(x: Machine, e: Event): Machine {
    match e
    case Spawn(start, context, stack) => Spawned(x, start, context, stack)
    case Wake(i) => Woken(x, i)
    case _ => if Switches(x, e) then SwitchTo(AtSwitch(x, e), e.f, e.now, e.later) else AtSwitch(x, e)
  }

  predicate Close(tasks: seq<Task>, s: seq<nat>) {
    && (forall k :: 0 <= k < |s| ==> s[k] < |tasks| && tasks[s[k]].vtime < WORD)
    && (forall k, l :: 0 <= k < |s| && 0 <= l < |s| && Live(tasks, s[k]) && Live(tasks, s[l]) ==> tasks[s[k]].vtime - tasks[s[l]].vtime < TWO_31)
    && (forall k, l :: 0 <= k < |s| && 0 <= l < |s| && ByTime(tasks)(s[k], s[l]) < 0 ==> ByTime(tasks)(s[l], s[k]) >= 0)
    && (forall k, l, n :: 0 <= k < |s| && 0 <= l < |s| && 0 <= n < |s| ==>
          ByTime(tasks)(s[l], s[k]) >= 0 && ByTime(tasks)(s[n], s[l]) >= 0 ==> ByTime(tasks)(s[n], s[k]) >= 0)
  }

  /** Whether the times are close enough, a task waits for the processor, and a task let go on by a mutex is still in the queue. */
  predicate Possible(x: Machine, e: Event) {
    match e
    case Spawn(start, context, stack) => Close(WithNewTask(x, start, context, stack), x.queue + [|x.tasks|])
    case Wake(i) => i in x.waiting && i in x.queue
    case _ =>
      && (e.End? ==> e.i < |x.tasks|)
      && (Switches(x, e) ==>
            var parked := Parked(AtSwitch(x, e).tasks, x.current, e.f, e.now);
            Close(parked, x.queue + [x.current]) && exists i :: 0 <= i < |parked| && parked[i].state == InQueue)
  }

  lemma CloseAt(tasks: seq<Task>, r: seq<nat>, k: nat, l: nat, n: nat)
    requires Close(tasks, r) && k < |r| && l < |r| && n < |r|
    ensures r[k] < |tasks| && tasks[r[k]].vtime < WORD
    ensures Live(tasks, r[k]) && Live(tasks, r[l]) ==> tasks[r[k]].vtime - tasks[r[l]].vtime < TWO_31
    ensures ByTime(tasks)(r[k], r[l]) < 0 ==> ByTime(tasks)(r[l], r[k]) >= 0
    ensures ByTime(tasks)(r[l], r[k]) >= 0 && ByTime(tasks)(r[n], r[l]) >= 0 ==> ByTime(tasks)(r[n], r[k]) >= 0
  {
    hide ByTime, Live;
  }

  lemma PlaceOf(s: seq<nat>, i: nat, a: nat) returns (k: nat)
    requires (multiset(s) + multiset{i})[a] > 0
    ensures k < |s| + 1 && (s + [i])[k] == a
  {
    if a == i {
      k := |s|;
    } else {
      assert a in s;
      k :| k < |s| && s[k] == a;
    }
  }

  lemma CloseIsPreorder(tasks: seq<Task>, s: seq<nat>, i: nat)
    requires Close(tasks, s + [i])
    ensures PreorderOn(ByTime(tasks), multiset(s) + multiset{i})
  {
    hide Close, ByTime, Live;
    var r, q, cmp := s + [i], multiset(s) + multiset{i}, ByTime(tasks);
    forall a, b {:trigger cmp(a, b), cmp(b, a)} | a in q && b in q && cmp(a, b) < 0 ensures cmp(b, a) >= 0 {
      var k := PlaceOf(s, i, a);
      var l := PlaceOf(s, i, b);
      CloseAt(tasks, r, k, l, l);
    }
    forall a, b, c {:trigger cmp(b, a), cmp(c, b)} | a in q && b in q && c in q && cmp(b, a) >= 0 && cmp(c, b) >= 0
      ensures cmp(c, a) >= 0
    {
      var k := PlaceOf(s, i, a);
      var l := PlaceOf(s, i, b);
      var n := PlaceOf(s, i, c);
      CloseAt(tasks, r, k, l, n);
    }
  }

  lemma CloseIsOrdered(tasks: seq<Task>, s: seq<nat>, i: nat)
    requires Close(tasks, s + [i])
    ensures Ordered(tasks, multiset(s) + multiset{i})
  {
    hide Close, ByTime, Live, PreorderOn;
    var r, q := s + [i], multiset(s) + multiset{i};
    CloseIsPreorder(tasks, s, i);
    forall a: nat {:trigger q[a]} | q[a] > 0 ensures a < |tasks| && tasks[a].vtime < WORD {
      var k := PlaceOf(s, i, a);
      CloseAt(tasks, r, k, k, k);
    }
    forall a: nat, b: nat {:trigger q[a], q[b]} | q[a] > 0 && q[b] > 0 && Live(tasks, a) && Live(tasks, b)
      ensures tasks[a].vtime - tasks[b].vtime < TWO_31
    {
      var k := PlaceOf(s, i, a);
      var l := PlaceOf(s, i, b);
      CloseAt(tasks, r, k, l, l);
    }
  }

  ghost function Waiter(tasks: seq<Task>): (i: nat)
    requires exists i :: 0 <= i < |tasks| && tasks[i].state == InQueue
    ensures Waiting(tasks, i)
  {
    var i :| 0 <= i < |tasks| && tasks[i].state == InQueue;
    i
  }

  /** A step: what it does is determined, one task runs, and a switch gives the processor to a task with least time. */
  ghost predicate Step(x: Machine, e: Event, y: Machine) {
    && Possible(x, e) && y == After(x, e) && Good(y)
    && (Switches(x, e) ==> x.current < |x.tasks| && Switched(AtSwitch(x, e).tasks, x.current, e.f, e.now, e.later, y.tasks, y.current))
  }

  lemma SwitchingOk(x: Machine, e: Event)
    requires Good(x) && Switches(x, e)
    ensures Sane(AtSwitch(x, e)) && multiset(x.queue)[x.current] == 0 && AtSwitch(x, e).tasks[x.current].state != InQueue
  {
    hide IsHeap, TasksOk, ByTime;
    RunningNotQueued(x.tasks, multiset(x.queue), x.current);
    match e
    case Wait(_, _, _) => FrozeOk(x);
    case End(i, _, _, _) => EndedOk(x, i);
    case _ =>
  }

  lemma SwitchEventOk(x: Machine, e: Event)
    requires Good(x) && Possible(x, e) && Switches(x, e)
    ensures Step(x, e, After(x, e))
  {
    hide IsHeap, TasksOk, ByTime, Close, Ordered, Parked, SwitchTo, Switched;
    SwitchingOk(x, e);
    var y := AtSwitch(x, e);
    CloseIsOrdered(Parked(y.tasks, x.current, e.f, e.now), x.queue, x.current);
    SwitchOk(y, e.f, e.now, e.later, Waiter(Parked(y.tasks, x.current, e.f, e.now)));
  }

  /** Every possible event keeps the invariant. */
  lemma EventOk(x: Machine, e: Event)
    requires Good(x) && Possible(x, e)
    ensures Step(x, e, After(x, e))
  {
    hide IsHeap, TasksOk, ByTime, Close, Ordered, Parked, SwitchTo, Switched, NewTask;
    match e
    case Spawn(start, context, stack) =>
      CloseIsOrdered(WithNewTask(x, start, context, stack), x.queue, NextId(x));
      SpawnedOk(x, start, context, stack);
    case Wake(i) =>
      WakeOk(x, i);
    case End(i, _, _, _) =>
      if i == x.current {
        SwitchEventOk(x, e);
      } else {
        EndedOk(x, i);
      }
    case _ =>
      SwitchEventOk(x, e);
  }

  /** Letting a task go on that waits for a mutex, or was ended while it did, keeps the invariant exactly if it is still in the queue. */
  lemma WakeOk(x: Machine, i: nat)
    requires Good(x) && i in x.waiting
    ensures i < |x.tasks| && Woken(x, i).tasks[i].state == InQueue
    ensures Good(Woken(x, i)) <==> i in x.queue
  {
    hide IsHeap, ByTime;
    var q, y := multiset(x.queue), Woken(x, i);
    WaitersWoken(x.tasks, q, x.current, x.waiting, i);
    if i in x.queue {
      assert i in q;
      StateChangedOk(x.tasks, q, x.current, i, InQueue);
      HeapKept(x.tasks, y.tasks, x.queue);
    }
    assert TasksOk(y.tasks, q, x.current) ==> TaskOk(y.tasks, q, x.current, i);
    assert i in q <==> i in x.queue;
  }

  lemma FrozenWaits(x: Machine, i: nat)
    requires Good(x) && i < |x.tasks| && x.tasks[i].state == Frozen
    ensures i in x.waiting
  {
  }

  // ---------- Frozen tasks ----------

  /**
    What a switch does to a frozen task in its queue: the task stays exactly if the loop does not
    drop it, and that depends on its time and the time of the task chosen.
   */
  lemma FrozenLeaves(x: Machine, f: Frame, now: nat, later: nat, someone: nat, i: nat)
    requires Sane(x) && CanSwitch(x, f, now, someone) && multiset(x.queue)[x.current] == 0
    requires i < |x.tasks| && x.tasks[i].state == Frozen && (i in x.queue || i == x.current)
    ensures var parked, y := Parked(x.tasks, x.current, f, now), SwitchTo(x, f, now, later);
      && y.current < |parked|
      && (i in y.queue <==> i !in Dropped(parked, Lineup(x, f, now)))
      && (parked[i].vtime != parked[y.current].vtime ==> (i in y.queue <==> parked[i].vtime > parked[y.current].vtime))
  {
    hide TasksOk, IsHeap, PreorderOn, ByTime, SameTimes, Le, Chosen, Dropped, Pushed, Ordered, Charged;
    var parked, y, q := Parked(x.tasks, x.current, f, now), SwitchTo(x, f, now, later), multiset(x.queue) + multiset{x.current};
    ParkedHeap(x.tasks, x.queue, x.current, f, now);
    OrderedIsOrder(parked, q);
    SwitchKeeps(x, f, now, later, someone);
    SwitchHeap(x, f, now, later, someone);
    var d: seq<nat> := Dropped(parked, Lineup(x, f, now));
    OnceQueued(x.tasks, x.queue, x.current, i);
    assert q[i] == multiset(y.queue)[i] + multiset(d)[i];
    assert i in y.queue <==> i in multiset(y.queue);
    assert i in d <==> i in multiset(d);
    assert q[y.current] > 0;
    if i in y.queue {
      assert Le(ByTime(parked), y.current, i);
      NotBeforeIs(parked, q, y.current, i);
    } else {
      assert Le(ByTime(parked), i, y.current);
      NotBeforeIs(parked, q, i, y.current);
    }
  }

  lemma OnceQueued(tasks: seq<Task>, s: seq<nat>, current: nat, i: nat)
    requires TasksOk(tasks, multiset(s), current) && i < |tasks| && tasks[i].state == Frozen && (i in s || i == current)
    requires multiset(s)[current] == 0
    ensures (multiset(s) + multiset{current})[i] == 1
  {
    assert TaskOk(tasks, multiset(s), current, i);
    assert i in s <==> i in multiset(s);
  }

  /** With equal times it depends on the places in the heap. */
  lemma TiesEitherWay()
    ensures var t := NewTask(0, 0, 0, 5);
      var tasks := [t.(state := Frozen), t];
      && IsHeap<nat>(ByTime(tasks), [0, 1]) && Chosen(tasks, [0, 1]) == (1, []) && Dropped(tasks, [0, 1]) == [0]
      && IsHeap<nat>(ByTime(tasks), [1, 0]) && Chosen(tasks, [1, 0]) == (1, [0]) && Dropped(tasks, [1, 0]) == []
  {
    var t := NewTask(0, 0, 0, 5);
    var tasks := [t.(state := Frozen), t];
    var cmp := ByTime(tasks);
    var a: seq<nat>, b: seq<nat> := [0, 1], [1, 0];
    assert LastFirst<nat>(a) == [1] && LastFirst<nat>(b) == [0];
    assert Popped(cmp, a) == [1] && Popped(cmp, b) == [0];
    assert Chosen(tasks, [1]) == (1, []) && Dropped(tasks, [1]) == [];
  }

  // ---------- Runs ----------

  ghost predicate IsRun(history: seq<Machine>, events: seq<Event>) {
    |history| == |events| + 1 && forall k: nat {:trigger events[k]} :: k < |events| ==> Step(history[k], events[k], history[k + 1])
  }

  lemma OneMoreStep(history: seq<Machine>, events: seq<Event>, done: nat, next: Machine)
    requires done < |events| && IsRun(history, events[..done]) && Step(history[done], events[done], next)
    ensures IsRun(history + [next], events[..done + 1])
  {
    hide Step;
    var h, e := history + [next], events[..done + 1];
    forall k: nat | k < |e| ensures Step(h[k], e[k], h[k + 1]) {
      if k < done {
        assert e[k] == events[..done][k];
      }
    }
  }

  lemma StepAt(history: seq<Machine>, events: seq<Event>, k: nat)
    requires IsRun(history, events) && k < |events|
    ensures Step(history[k], events[k], history[k + 1])
  {
  }

  /** One task runs: the current one. */
  ghost predicate OneRuns(x: Machine) {
    x.current < |x.tasks| && forall i: nat {:trigger x.tasks[i]} :: i < |x.tasks| ==> (x.tasks[i].state == Running <==> i == x.current)
  }

  lemma GoodOneRuns(x: Machine)
    requires Good(x)
    ensures OneRuns(x)
  {
    hide IsHeap;
    forall i: nat | i < |x.tasks| ensures x.tasks[i].state == Running <==> i == x.current {
      assert TaskOk(x.tasks, multiset(x.queue), x.current, i);
    }
  }

  /** The event parks task i, which is at f. */
  predicate Parks(x: Machine, e: Event, i: nat, f: Frame) { Switches(x, e) && x.current == i && e.f == f }

  /** What a step does to the frame, and to the state, of a task. */
  lemma StepTasks(x: Machine, e: Event, y: Machine, i: nat)
    requires Step(x, e, y) && i < |x.tasks|
    ensures i < |y.tasks|
    ensures y.tasks[i].saved == if Switches(x, e) && x.current == i then e.f else x.tasks[i].saved
    ensures x.tasks[i].state == Terminated && i != x.current ==>
      y.current != i && y.tasks[i].state == if e == Wake(i) then InQueue else Terminated
  {
    hide Good, SwitchTo, NewTask, Pushed, Charged, Close;
    if Switches(x, e) {
      StepSwitch(x, e, y, i);
    }
  }

  lemma StepSwitch(x: Machine, e: Event, y: Machine, i: nat)
    requires Step(x, e, y) && i < |x.tasks| && Switches(x, e)
    ensures i < |y.tasks| && x.current < |x.tasks|
    ensures y.tasks[i].saved == if x.current == i then e.f else x.tasks[i].saved
    ensures x.tasks[i].state == Terminated && i != x.current ==> y.tasks[i].state == Terminated && y.current != i
  {
    hide Good, SwitchTo, After, Charged;
    var tasks := AtSwitch(x, e).tasks;
    assert tasks[i].saved == x.tasks[i].saved;
    assert i != x.current ==> tasks[i] == x.tasks[i];
  }

  /** A task goes on with the frame of its last switch, however many switches there were between other tasks. */
  lemma {:induction false} GoesOnWhereItLeft(history: seq<Machine>, events: seq<Event>, i: nat, j: nat, k: nat, f: Frame)
    requires IsRun(history, events) && j < k <= |events| && i < |history[j].tasks|
    requires Parks(history[j], events[j], i, f)
    requires forall l: nat {:trigger events[l]} :: j < l < k ==> !(Switches(history[l], events[l]) && history[l].current == i)
    ensures i < |history[k].tasks| && history[k].tasks[i].saved == f
    decreases k
  {
    hide Step;
    StepAt(history, events, k - 1);
    if j < k - 1 {
      GoesOnWhereItLeft(history, events, i, j, k - 1, f);
      assert events[k - 1] == events[k - 1];
    }
    StepTasks(history[k - 1], events[k - 1], history[k], i);
  }

  // ---------- Where a task starts ----------

  /** The frame with which the processor enters start with context as its argument, on a page of stack, interrupts on. */
  predicate EntersAt(f: Frame, start: nat, context: nat, stack: nat) {
    f.rip == start && f.rdi == context && f.rsp == stack + 4096 && f.cs == 8 && f.ss == 16 && f.rflags == 0x200
    && |f.rest| == 16 && forall k :: 0 <= k < 16 ==> f.rest[k] == 0
  }

  lemma NewTaskEnters(start: nat, context: nat, stack: nat, vtime: nat)
    ensures var t := NewTask(start, context, stack, vtime);
      EntersAt(t.saved, start, context, stack) && t.vtime == vtime && t.startedAt == 0 && t.nice == 0 && t.state == InQueue
  {
  }

  /** A task keeps the frame it was started with until a switch takes the processor from it; its first turn begins there. */
  lemma {:induction false} StartsAtEntry(history: seq<Machine>, events: seq<Event>, i: nat, j: nat, k: nat)
    requires IsRun(history, events) && j < k <= |events| && events[j].Spawn? && i == |history[j].tasks|
    requires forall l: nat {:trigger events[l]} :: j < l < k ==> !(Switches(history[l], events[l]) && history[l].current == i)
    ensures i < |history[k].tasks| && EntersAt(history[k].tasks[i].saved, events[j].start, events[j].context, events[j].stack)
    decreases k
  {
    hide Step, EntersAt;
    StepAt(history, events, k - 1);
    if j < k - 1 {
      StartsAtEntry(history, events, i, j, k - 1);
      assert events[k - 1] == events[k - 1];
      StepTasks(history[k - 1], events[k - 1], history[k], i);
    } else {
      StepSpawns(history[j], events[j], history[k]);
    }
  }

  lemma StepSpawns(x: Machine, e: Event, y: Machine)
    requires Step(x, e, y) && e.Spawn?
    ensures |y.tasks| == |x.tasks| + 1 && y.current == x.current && y.tasks[|x.tasks|].startedAt == 0
    ensures EntersAt(y.tasks[|x.tasks|].saved, e.start, e.context, e.stack)
    ensures y.tasks[|x.tasks|].vtime == if x.numTasks == 0 then 0 else x.totalVtime / x.numTasks
  {
    hide Good, Possible, Pushed, NewTask;
    NewTaskEnters(e.start, e.context, e.stack, MeanTime(x.totalVtime, x.numTasks));
  }

  // ---------- What the times are ----------

  predicate Congruent(a: int, b: int) { (a - b) % WORD == 0 }

  lemma CongruentTrans(a: int, b: int, c: int, d: int)
    requires Congruent(a, b + c) && Congruent(b, d)
    ensures Congruent(a, d + c)
  {
    var q, r := (a - (b + c)) / WORD, (b - d) / WORD;
    assert a - (d + c) == (q + r) * WORD;
    MultipleMod(q + r, WORD);
  }

  lemma ModCongruent(a: int)
    ensures Congruent(a % WORD, a)
  {
    var q := a / WORD;
    assert a % WORD - a == -q * WORD;
    MultipleMod(-q, WORD);
  }

  lemma ChargedIs(time: int, start: int, now: int)
    requires time >= 0 && start >= 0 && now >= 0
    ensures Congruent(Charged(time, start, now), time + (now - start))
  {
    ModCongruent(now - start);
    ModCongruent(time + (now - start) % WORD);
    var q := ((now - start) % WORD - (now - start)) / WORD;
    var r := (Charged(time, start, now) - (time + (now - start) % WORD)) / WORD;
    assert Charged(time, start, now) - (time + (now - start)) == (q + r) * WORD;
    MultipleMod(q + r, WORD);
  }

  /** The time-stamp counter when task i last got the processor, by the events from j to k. */
  function Since(history: seq<Machine>, events: seq<Event>, i: nat, j: nat, k: nat): int
    requires j <= k <= |events| < |history|
    decreases k
  {
    if k == j then (if i < |history[j].tasks| then history[j].tasks[i].startedAt else 0)
    else if Switches(history[k - 1], events[k - 1]) && history[k].current == i then events[k - 1].later
    else if events[k - 1].Spawn? && i == |history[k - 1].tasks| then 0
    else Since(history, events, i, j, k - 1)
  }

  /** The time task i has had the processor: over all switches away from it, what passed since it got it. */
  function TimeUsed(history: seq<Machine>, events: seq<Event>, i: nat, j: nat, k: nat): int
    requires j <= k <= |events| < |history|
    decreases k
  {
    if k == j then 0
    else TimeUsed(history, events, i, j, k - 1) + if history[k - 1].current == i then Turn(history, events, j, k - 1) else 0
  }

  /** The time all tasks have had it, less the times of those that were ended. */
  function TotalUsed(history: seq<Machine>, events: seq<Event>, j: nat, k: nat): int
    requires j <= k <= |events| < |history|
    decreases k
  {
    if k == j then 0
    else TotalUsed(history, events, j, k - 1) + Turn(history, events, j, k - 1) - EndedTime(history[k - 1], events[k - 1])
  }

  /** The time that the switch of event k takes into account, if it is one. */
  function Turn(history: seq<Machine>, events: seq<Event>, j: nat, k: nat): int
    requires j <= k < |events| < |history|
  {
    if Switches(history[k], events[k]) then events[k].now - Since(history, events, history[k].current, j, k) else 0
  }

  /** The time of the task that the event ends, if it ends one. */
  function EndedTime(x: Machine, e: Event): nat { if e.End? && e.i < |x.tasks| then x.tasks[e.i].vtime else 0 }

  function TasksStarted(events: seq<Event>, j: nat, k: nat): int
    requires j <= k <= |events|
    decreases k
  {
    if k == j then 0
    else TasksStarted(events, j, k - 1) + if events[k - 1].Spawn? then 1 else if events[k - 1].End? then -1 else 0
  }

  /** What a step does to the times of a task. */
  lemma StepTimes(x: Machine, e: Event, y: Machine, i: nat)
    requires Step(x, e, y) && i < |x.tasks|
    ensures i < |y.tasks|
    ensures y.tasks[i].startedAt == if Switches(x, e) && y.current == i then e.later else x.tasks[i].startedAt
    ensures if Switches(x, e) && x.current == i then Congruent(y.tasks[i].vtime, x.tasks[i].vtime + (e.now - x.tasks[i].startedAt))
            else y.tasks[i].vtime == x.tasks[i].vtime
  {
    hide Good, SwitchTo, NewTask, Pushed, Close, Charged, Congruent;
    if Switches(x, e) {
      var tasks := AtSwitch(x, e).tasks;
      assert tasks[i].vtime == x.tasks[i].vtime && tasks[i].startedAt == x.tasks[i].startedAt;
      ChargedIs(tasks[i].vtime, tasks[i].startedAt, e.now);
    }
  }

  /** And to the totals. */
  lemma StepTotals(x: Machine, e: Event, y: Machine)
    requires Step(x, e, y)
    ensures x.current < |x.tasks| || !Switches(x, e)
    ensures Congruent(y.totalVtime, x.totalVtime + ((if Switches(x, e) then e.now - x.tasks[x.current].startedAt else 0)
                                                   - EndedTime(x, e)))
    ensures Congruent(y.numTasks, x.numTasks + if e.Spawn? then 1 else if e.End? then -1 else 0)
  {
    hide Good, NewTask, Pushed, Close, Charged, Chosen, Lineup, Switched, Parked, Resumed;
    if Switches(x, e) {
      var z := AtSwitch(x, e);
      assert z.tasks[x.current].startedAt == x.tasks[x.current].startedAt;
      ChargedIs(z.totalVtime, z.tasks[x.current].startedAt, e.now);
    }
    match e
    case Spawn(_, _, _) =>
      ModCongruent(x.numTasks + 1);
    case End(i, _, _, _) =>
      ModCongruent(x.totalVtime - x.tasks[i].vtime);
      ModCongruent(x.numTasks - 1);
      if i == x.current {
        CongruentTrans(y.totalVtime, (x.totalVtime - x.tasks[i].vtime) % WORD, e.now - x.tasks[i].startedAt, x.totalVtime - x.tasks[i].vtime);
      }
    case _ =>
  }

  lemma {:induction false} StartedAtIs(history: seq<Machine>, events: seq<Event>, i: nat, j: nat, k: nat)
    requires IsRun(history, events) && j <= k <= |events| && i < |history[k].tasks|
    ensures history[k].tasks[i].startedAt == Since(history, events, i, j, k)
    decreases k
  {
    hide Step;
    if j < k {
      StepAt(history, events, k - 1);
      if i < |history[k - 1].tasks| {
        StartedAtIs(history, events, i, j, k - 1);
        StepTimes(history[k - 1], events[k - 1], history[k], i);
      } else {
        StepNew(history[k - 1], events[k - 1], history[k], i);
        StepSpawns(history[k - 1], events[k - 1], history[k]);
      }
    }
  }

  /** Only start_task makes tasks. */
  lemma StepNew(x: Machine, e: Event, y: Machine, i: nat)
    requires Step(x, e, y) && |x.tasks| <= i < |y.tasks|
    ensures e.Spawn? && i == |x.tasks|
  {
    hide Good, NewTask, Pushed, Close, Charged, Chosen, Lineup, Parked, Resumed;
  }

  /**
    Over every run the time of a task is the time it had, plus what passed between each turn it
    got and the switch that ended it, modulo 2^64.
   */
  lemma {:induction false} TimesAddUp(history: seq<Machine>, events: seq<Event>, i: nat, j: nat, k: nat)
    requires IsRun(history, events) && j <= k <= |events| && i < |history[j].tasks|
    ensures i < |history[k].tasks| && Congruent(history[k].tasks[i].vtime, history[j].tasks[i].vtime + TimeUsed(history, events, i, j, k))
    decreases k
  {
    hide Step, Congruent;
    if j < k {
      TimesAddUp(history, events, i, j, k - 1);
      StepAt(history, events, k - 1);
      StepTimes(history[k - 1], events[k - 1], history[k], i);
      StartedAtIs(history, events, i, j, k - 1);
      var x, e := history[k - 1], events[k - 1];
      if Switches(x, e) && x.current == i {
        CongruentTrans(history[k].tasks[i].vtime, x.tasks[i].vtime, e.now - x.tasks[i].startedAt, history[j].tasks[i].vtime + TimeUsed(history, events, i, j, k - 1));
      }
    } else {
      CongruentSelf(history[j].tasks[i].vtime);
    }
  }

  lemma CongruentSelf(a: int)
    ensures Congruent(a, a) && Congruent(a, a + 0)
  {
  }

  /** And so do the totals that start_task divides. */
  lemma {:induction false} TotalsAddUp(history: seq<Machine>, events: seq<Event>, j: nat, k: nat)
    requires IsRun(history, events) && j <= k <= |events|
    ensures Congruent(history[k].totalVtime, history[j].totalVtime + TotalUsed(history, events, j, k))
    ensures Congruent(history[k].numTasks, history[j].numTasks + TasksStarted(events, j, k))
    decreases k
  {
    hide Step, Congruent;
    if j < k {
      var x, e, y := history[k - 1], events[k - 1], history[k];
      TotalsAddUp(history, events, j, k - 1);
      StepAt(history, events, k - 1);
      StepTotals(x, e, y);
      if Switches(x, e) { StartedAtIs(history, events, x.current, j, k - 1); }
      var d := (if Switches(x, e) then e.now - x.tasks[x.current].startedAt else 0) - EndedTime(x, e);
      CongruentTrans(y.totalVtime, x.totalVtime, d, history[j].totalVtime + TotalUsed(history, events, j, k - 1));
      CongruentTrans(y.numTasks, x.numTasks, if e.Spawn? then 1 else if e.End? then -1 else 0, history[j].numTasks + TasksStarted(events, j, k - 1));
    } else {
      CongruentSelf(history[j].totalVtime);
      CongruentSelf(history[j].numTasks);
    }
  }

  /** i has ended, and does not run. */
  ghost predicate HasEnded(x: Machine, i: nat) { i < |x.tasks| && x.tasks[i].state == Terminated && i != x.current }

  lemma HasEndedStep(x: Machine, e: Event, y: Machine, i: nat)
    requires Step(x, e, y) && HasEnded(x, i)
    ensures HasEnded(y, i) <==> e != Wake(i)
  {
    hide Step;
    StepTasks(x, e, y, i);
  }

  /** A task that ended stays so exactly if no mutex lets it go on: mutex_unlock does not ask whether a waiter has ended. */
  lemma {:induction false} EndedStaysEnded(history: seq<Machine>, events: seq<Event>, i: nat, j: nat, k: nat)
    requires IsRun(history, events) && j <= k <= |events| && HasEnded(history[j], i)
    ensures (forall l: nat {:trigger history[l]} :: j <= l <= k ==> HasEnded(history[l], i))
       <==> (forall l: nat {:trigger events[l]} :: j <= l < k ==> events[l] != Wake(i))
    decreases k
  {
    hide Step, HasEnded;
    if j < k {
      EndedStaysEnded(history, events, i, j, k - 1);
      assert events[k - 1] == events[k - 1] && history[k] == history[k] && history[k - 1] == history[k - 1];
      if HasEnded(history[k - 1], i) {
        StepAt(history, events, k - 1);
        HasEndedStep(history[k - 1], events[k - 1], history[k], i);
      }
    }
  }

  /** The switch of the event drops task i from the queue. */
  predicate Drops(x: Machine, e: Event, i: nat) {
    Switches(x, e) && i in Dropped(Parked(AtSwitch(x, e).tasks, x.current, e.f, e.now), Lineup(AtSwitch(x, e), e.f, e.now))
  }

  /** A step changes whether a task that is frozen before and after is in the queue exactly by dropping it. */
  lemma StepQueue(x: Machine, e: Event, y: Machine, i: nat)
    requires Good(x) && Step(x, e, y) && i < |x.tasks| && i < |y.tasks| && y.tasks[i].state == Frozen
    requires x.tasks[i].state == Frozen || (e.Wait? && i == x.current)
    ensures i in y.queue <==> (i in x.queue || i == x.current) && !Drops(x, e, i)
  {
    hide IsHeap, TasksOk, SwitchTo, Parked, Dropped, Lineup, NewTask, Pushed, ByTime;
    GoodOneRuns(x);
    match e
    case Spawn(start, context, stack) =>
      PushedHeap(ByTime(WithNewTask(x, start, context, stack)), x.queue, NextId(x));
      assert i in y.queue <==> i in multiset(y.queue);
      assert i in x.queue <==> i in multiset(x.queue);
    case Wake(w) =>
    case End(w, _, _, _) =>
      if w == x.current {
        SwitchQueue(x, e, y, i);
      }
    case _ =>
      SwitchQueue(x, e, y, i);
  }

  lemma SwitchQueue(x: Machine, e: Event, y: Machine, i: nat)
    requires Good(x) && Step(x, e, y) && Switches(x, e) && i < |x.tasks| && AtSwitch(x, e).tasks[i].state == Frozen
    ensures i in y.queue <==> (i in x.queue || i == x.current) && !Drops(x, e, i)
  {
    hide IsHeap, TasksOk, SwitchTo, Dropped, Lineup, NewTask, Pushed, ByTime, SameTimes, LeastTime, Froze, Ended, Charged, Chosen;
    var z := AtSwitch(x, e);
    SwitchingOk(x, e);
    var parked := Parked(z.tasks, x.current, e.f, e.now);
    LeastWaits(parked, y.current);
    SwitchKeeps(z, e.f, e.now, e.later, y.current);
    var d: seq<nat> := Dropped(parked, Lineup(z, e.f, e.now));
    assert i in y.queue <==> i in multiset(y.queue);
    assert i in x.queue <==> i in multiset(x.queue);
    assert i in d <==> i in multiset(d);
    if i in x.queue || i == x.current {
      OnceQueued(z.tasks, x.queue, x.current, i);
    }
    assert (multiset(x.queue) + multiset{x.current})[i] == multiset(y.queue)[i] + multiset(d)[i];
  }

  lemma LeastWaits(tasks: seq<Task>, i: nat)
    requires LeastTime(tasks, i)
    ensures Waiting(tasks, i)
  {
  }

  /** A task that has frozen itself is in the queue later exactly if no switch has dropped it in the meantime. */
  lemma {:induction false} FrozenInQueue(history: seq<Machine>, events: seq<Event>, i: nat, j: nat, k: nat)
    requires IsRun(history, events) && Good(history[0]) && j < k <= |events|
    requires events[j].Wait? && history[j].current == i
    requires forall l: nat {:trigger history[l]} :: j < l <= k ==> i < |history[l].tasks| && history[l].tasks[i].state == Frozen
    ensures i in history[k].queue <==> forall l: nat {:trigger events[l]} :: j <= l < k ==> !Drops(history[l], events[l], i)
    decreases k
  {
    hide Step, Drops, Good;
    StepAt(history, events, k - 1);
    GoodAt(history, events, k - 1);
    assert history[k].tasks[i].state == Frozen;
    if j < k - 1 {
      FrozenInQueue(history, events, i, j, k - 1);
      assert history[k - 1].tasks[i].state == Frozen;
      FrozenNotCurrent(history[k - 1], i);
    } else {
      GoodCurrent(history[j]);
    }
    StepQueue(history[k - 1], events[k - 1], history[k], i);
    assert events[k - 1] == events[k - 1];
  }

  lemma GoodAt(history: seq<Machine>, events: seq<Event>, k: nat)
    requires IsRun(history, events) && Good(history[0]) && k <= |events|
    ensures Good(history[k])
  {
    if k > 0 {
      StepAt(history, events, k - 1);
    }
  }

  lemma GoodCurrent(x: Machine)
    requires Good(x)
    ensures x.current < |x.tasks|
  {
  }

  lemma FrozenNotCurrent(x: Machine, i: nat)
    requires Good(x) && i < |x.tasks| && x.tasks[i].state == Frozen
    ensures i != x.current
  {
  }

  /** So letting it go on keeps the invariant, and the task, exactly if no switch has dropped it. */
  lemma WakeAfterRun(history: seq<Machine>, events: seq<Event>, i: nat, j: nat, k: nat)
    requires IsRun(history, events) && Good(history[0]) && j < k <= |events|
    requires events[j].Wait? && history[j].current == i
    requires forall l: nat {:trigger history[l]} :: j < l <= k ==> i < |history[l].tasks| && history[l].tasks[i].state == Frozen
    ensures Good(After(history[k], Wake(i))) <==> forall l: nat {:trigger events[l]} :: j <= l < k ==> !Drops(history[l], events[l], i)
  {
    hide Step, Drops, Good, Woken;
    assert history[k].tasks[i].state == Frozen;
    GoodAt(history, events, k);
    FrozenInQueue(history, events, i, j, k);
    FrozenWaits(history[k], i);
    WakeOk(history[k], i);
  }

  /** For a switch that is possible: the frozen tasks dropped are those with less time than the task that goes on. */
  lemma DropsByTime(x: Machine, e: Event, i: nat)
    requires Good(x) && Possible(x, e) && Switches(x, e)
    requires i < |x.tasks| && AtSwitch(x, e).tasks[i].state == Frozen && (i in x.queue || i == x.current)
    ensures var parked, next := Parked(AtSwitch(x, e).tasks, x.current, e.f, e.now), After(x, e).current;
      && next < |parked|
      && (parked[i].vtime != parked[next].vtime ==> (Drops(x, e, i) <==> parked[i].vtime < parked[next].vtime))
  {
    hide Good, IsHeap, TasksOk, ByTime, Close, Ordered, SwitchTo, Dropped, Froze, Ended;
    var z := AtSwitch(x, e);
    GoodCurrent(x);
    SwitchingOk(x, e);
    var parked := Parked(z.tasks, x.current, e.f, e.now);
    CloseIsOrdered(parked, x.queue, x.current);
    FrozenLeaves(z, e.f, e.now, e.later, Waiter(parked), i);
  }

  // ---------- Lost tasks ----------

  /** Some task the switch of e looks at waits; otherwise heap_pop would go on with an empty heap. */
  ghost predicate Served(x: Machine, e: Event)
    requires Switches(x, e)
  {
    var z := AtSwitch(x, e);
    exists i {:trigger Waiting(Parked(z.tasks, z.current, e.f, e.now), i)} ::
      i in Lineup(z, e.f, e.now) && Waiting(Parked(z.tasks, z.current, e.f, e.now), i)
  }

  /** The events happen one after the other, in order or not. */
  ghost predicate Follows(history: seq<Machine>, events: seq<Event>) {
    && |history| == |events| + 1
    && forall k: nat {:trigger events[k]} :: k < |events| ==>
         history[k + 1] == After(history[k], events[k]) && (Switches(history[k], events[k]) ==> Served(history[k], events[k]))
  }

  /** Out of the queue, and not running. */
  predicate Lost(x: Machine, i: nat) { i < |x.tasks| && i != x.current && i !in x.queue }

  lemma SwitchLost(x: Machine, e: Event, i: nat)
    requires Lost(x, i) && Switches(x, e) && Served(x, e)
    ensures Lost(After(x, e), i)
  {
    hide ByTime, Waiting, Chosen, Pushed, Parked, Resumed, Dropped, Froze, Ended, Charged;
    assert i !in multiset(x.queue);
    var z := AtSwitch(x, e);
    var parked, q := Parked(z.tasks, z.current, e.f, e.now), Lineup(z, e.f, e.now);
    PushedHeap(ByTime(parked), z.queue, z.current);
    var someone :| someone in q && Waiting(parked, someone);
    ChosenItems(parked, q, someone);
    assert i !in multiset(q);
    assert i !in multiset(Chosen(parked, q).1);
  }

  lemma SpawnLost(x: Machine, e: Event, i: nat)
    requires Lost(x, i) && e.Spawn?
    ensures Lost(After(x, e), i)
  {
    hide ByTime, Pushed, NewTask;
    assert i !in multiset(x.queue);
    PushedHeap(ByTime(WithNewTask(x, e.start, e.context, e.stack)), x.queue, NextId(x));
    assert i !in multiset(After(x, e).queue);
  }

  /** Nothing brings such a task back: not its mutex, not another switch. */
  lemma StaysLost(x: Machine, e: Event, i: nat)
    requires Lost(x, i) && (Switches(x, e) ==> Served(x, e))
    ensures Lost(After(x, e), i)
  {
    hide Served, SwitchTo, Spawned;
    if Switches(x, e) {
      SwitchLost(x, e, i);
    } else if e.Spawn? {
      SpawnLost(x, e, i);
    }
  }

  /** A frozen task that a switch has dropped never runs again, whatever happens and whoever unlocks its mutex. */
  lemma {:induction false} LostForever(history: seq<Machine>, events: seq<Event>, i: nat, j: nat, k: nat)
    requires Follows(history, events) && j <= k <= |events| && Lost(history[j], i)
    ensures Lost(history[k], i)
    decreases k
  {
    hide Lost, Served, After;
    if j < k {
      LostForever(history, events, i, j, k - 1);
      assert events[k - 1] == events[k - 1];
      StaysLost(history[k - 1], events[k - 1], i);
    }
  }

  /** i has ended or left the queue, and does not run. */
  ghost predicate Gone(x: Machine, i: nat) { HasEnded(x, i) || Lost(x, i) }

  lemma StaysGone(x: Machine, e: Event, i: nat)
    requires Gone(x, i) && (Switches(x, e) ==> Served(x, e)) && !(e == Wake(i) && i in x.queue)
    ensures Gone(After(x, e), i)
  {
    hide Served, SwitchTo, Pushed, ByTime;
    if i !in x.queue {
      StaysLost(x, e, i);
    } else if Switches(x, e) {
      SwitchGone(x, e, i);
    }
  }

  lemma SwitchGone(x: Machine, e: Event, i: nat)
    requires HasEnded(x, i) && Switches(x, e) && Served(x, e)
    ensures HasEnded(After(x, e), i)
  {
    hide ByTime, Chosen, Pushed, Dropped, Charged, Lineup;
    var z := AtSwitch(x, e);
    var parked, q := Parked(z.tasks, z.current, e.f, e.now), Lineup(z, e.f, e.now);
    var someone :| someone in q && Waiting(parked, someone);
    ChosenItems(parked, q, someone);
    assert z.tasks[i].state == Terminated;
    assert parked[i] == z.tasks[i];
  }

  /** Whatever happens, a task that ended runs again only if a mutex lets it go on while it is still in the queue. */
  lemma {:induction false} EndedNeverRuns(history: seq<Machine>, events: seq<Event>, i: nat, j: nat, k: nat)
    requires Follows(history, events) && j <= k <= |events| && HasEnded(history[j], i)
    requires forall l: nat {:trigger events[l]} :: j <= l < k ==> !(events[l] == Wake(i) && i in history[l].queue)
    ensures Gone(history[k], i) && history[k].current != i
    decreases k
  {
    hide Served, After, IsHeap;
    if j < k {
      EndedNeverRuns(history, events, i, j, k - 1);
      assert events[k - 1] == events[k - 1];
      StaysGone(history[k - 1], events[k - 1], i);
    }
  }

  // ---------- The first switch ----------

  /** The task of the boot code, when it ends. */
  function BootRecord(stack: nat): Task { NewTask(0, 0, stack, 0).(state := Terminated) }

  /** No task has run. */
  ghost predicate Unused(tasks: seq<Task>) {
    forall i: nat {:trigger tasks[i]} :: i < |tasks| ==> tasks[i].state == InQueue && tasks[i].vtime == 0
  }

  /** The machine when the boot code gives up the processor: its task has ended, and is the last of the heap. */
  function BootMachine(x: Machine, stack: nat): Machine {
    x.(tasks := x.tasks + [BootRecord(stack)], current := NextId(x), queue := x.queue + [NextId(x)])
  }

  /** Before main_loop. */
  ghost predicate Early(x: Machine) { Sane(x) && x.totalVtime == 0 && x.numTasks == |x.tasks| % WORD && Unused(x.tasks) }

  /** Nobody has waited for a mutex yet. */
  lemma NobodyWaits(x: Machine, stack: nat, f: Frame, now: nat, next: nat, later: nat, rest: multiset<nat>)
    requires Early(x)
    ensures var z := BootMachine(x, stack); WaitersOk(Resumed(Parked(z.tasks, z.current, f, now), next, later), rest, next, x.waiting)
  {
    hide IsHeap, TasksOk, Charged;
    var z := BootMachine(x, stack);
    var r := Resumed(Parked(z.tasks, z.current, f, now), next, later);
    forall i: nat ensures i !in x.waiting {
      assert i < |x.tasks| ==> x.tasks[i].state == InQueue;
    }
    forall i: nat | i < |r| ensures r[i].state != Frozen {
      if i < |x.tasks| { assert x.tasks[i].state == InQueue; }
    }
  }

  /** The elements below n are of two kinds: t, and the others. */
  ghost predicate TwoKinds(cmp: (nat, nat) -> int, n: nat, t: nat, up: int, down: int) {
    forall i: nat, j: nat {:trigger cmp(i, j)} :: i < n && j < n ==>
      cmp(i, j) == if (i == t) == (j == t) then 0 else if i == t then up else down
  }

  lemma KindsOrder(cmp: (nat, nat) -> int, n: nat, t: nat, up: int, down: int, q: multiset<nat>)
    requires TwoKinds(cmp, n, t, up, down) && !(up < 0 && down < 0)
    requires forall i: nat {:trigger q[i]} :: q[i] > 0 ==> i < n
    ensures PreorderOn(cmp, q)
  {
    forall i: nat | i in q ensures i < n {
      assert q[i] > 0;
    }
  }

  /** Times of 0 and one other time. */
  lemma TimesAreKinds(tasks: seq<Task>, t: nat, d: nat)
    requires t < |tasks| && d < WORD
    requires forall i: nat {:trigger tasks[i]} :: i < |tasks| ==> tasks[i].vtime == if i == t then d else 0
    ensures TwoKinds(ByTime(tasks), |tasks|, t, CompareTimes(d, 0), CompareTimes(0, d))
    ensures CompareTimes(d, 0) < 0 && CompareTimes(0, d) < 0 <==> d % TWO_32 == TWO_31
  {
    hide CompareTimes;
    SelfCompare(d);
    if d > 0 {
      CompareSign(0, d);
    }
    var cmp := ByTime(tasks);
    forall i: nat, j: nat {:trigger cmp(i, j)} | i < |tasks| && j < |tasks|
      ensures cmp(i, j) == if (i == t) == (j == t) then 0 else if i == t then CompareTimes(d, 0) else CompareTimes(0, d)
    {
      assert tasks[i].vtime == tasks[i].vtime && tasks[j].vtime == tasks[j].vtime;
    }
  }

  lemma SelfCompare(d: nat)
    ensures CompareTimes(d, d) == 0 && CompareTimes(0, 0) == 0
  {
  }

  /** A sequence that holds each number below n once has n elements. */
  lemma {:induction false} EachOnce(s: seq<nat>, n: nat)
    requires forall i: nat {:trigger multiset(s)[i]} :: multiset(s)[i] == if i < n then 1 else 0
    ensures |s| == n
    decreases n
  {
    if n == 0 {
      assert multiset(s) == multiset{} && |multiset(s)| == |s|;
    } else {
      var last: nat := n - 1;
      assert multiset(s)[last] == 1;
      assert last in s;
      var k :| 0 <= k < |s| && s[k] == last;
      var r: seq<nat> := s[..k] + s[k + 1..];
      Without(s, k);
      forall i: nat ensures multiset(r)[i] == if i < last then 1 else 0 {
        assert multiset(s)[i] == multiset(r)[i] + if i == last then 1 else 0;
      }
      EachOnce(r, last);
    }
  }

  lemma Without(s: seq<nat>, k: nat)
    requires k < |s|
    ensures multiset(s) == multiset(s[..k] + s[k + 1..]) + multiset{s[k]}
  {
    assert s == s[..k] + [s[k]] + s[k + 1..];
  }

  lemma EarlyQueue(x: Machine)
    requires Early(x)
    ensures |x.queue| == |x.tasks|
    ensures forall k {:trigger x.queue[k]} :: 0 <= k < |x.queue| ==> x.queue[k] < |x.tasks|
  {
    hide IsHeap;
    var q := multiset(x.queue);
    forall i: nat ensures q[i] == if i < |x.tasks| then 1 else 0 {
      if i < |x.tasks| {
        assert TaskOk(x.tasks, q, x.current, i);
      }
    }
    EachOnce(x.queue, |x.tasks|);
    forall k | 0 <= k < |x.queue| ensures x.queue[k] < |x.tasks| {
      assert x.queue[k] in q;
      assert q[x.queue[k]] > 0;
    }
  }

  /** All elements but those at i and j are other than t. */
  ghost predicate OnlyAt(s: seq<nat>, n: nat, t: nat, i: int, j: int) {
    forall k: nat {:trigger s[k]} :: k < |s| ==> s[k] < n && (s[k] == t <==> k == i || k == j)
  }

  /** If t is before the others, it goes up to the root, and what lies behind its way stays. */
  lemma {:induction false} RisesToRoot(cmp: (nat, nat) -> int, s: seq<nat>, n: nat, t: nat, up: int, down: int, i: nat, j: nat)
    requires TwoKinds(cmp, n, t, up, down) && up < 0 && i < |s| && j < |s| && OnlyAt(s, n, t, i, j) && i < j
    ensures OnlyAt(Up(cmp, s, i), n, t, 0, j)
    decreases i
  {
    if i > 0 {
      assert s[i] == t && s[i / 2] != t && s[i / 2] < n;
      assert s[j] == t;
      var r := Swap(s, i, i / 2);
      forall k: nat | k < |r| ensures r[k] < n && (r[k] == t <==> k == i / 2 || k == j) {
        assert s[k] < n;
      }
      RisesToRoot(cmp, r, n, t, up, down, i / 2, j);
    }
  }

  lemma RiseOnce(cmp: (nat, nat) -> int, s: seq<nat>, i: nat)
    requires 0 < i < |s| && cmp(s[i], s[i / 2]) < 0
    ensures Up(cmp, s, i) == Up(cmp, Swap(s, i, i / 2), i / 2)
  {
  }

  /** The heap when the second entry of the boot task is pushed. */
  lemma BootLineup(cmp: (nat, nat) -> int, s0: seq<nat>, n: nat, t: nat, up: int, down: int)
    requires TwoKinds(cmp, n, t, up, down) && t < n && up < 0
    requires |s0| >= 2 && OnlyAt(s0, n, t, -1, -1)
    ensures OnlyAt(Pushed(cmp, s0 + [t], t), n, t, 0, |s0|)
  {
    var m: nat := |s0|;
    var s: seq<nat> := s0 + [t] + [t];
    assert s == (s0 + [t]) + [t];
    forall k: nat | k < |s| ensures s[k] < n && (s[k] == t <==> k == m || k == m + 1) {
      if k < m { assert s[k] == s0[k]; }
    }
    var p: nat := (m + 1) / 2;
    assert s[m + 1] == t && s[p] != t && s[p] < n;
    var r := Swap(s, m + 1, p);
    forall k: nat | k < |r| ensures r[k] < n && (r[k] == t <==> k == p || k == m) {
      assert s[k] < n;
    }
    RiseOnce(cmp, s, m + 1);
    RisesToRoot(cmp, r, n, t, up, down, p, m);
  }

  /** The first pop drops the boot task, the second gives a task, and the other entry of the boot task becomes the root. */
  lemma BootPops(tasks: seq<Task>, q: seq<nat>, t: nat, up: int, down: int, m: nat)
    requires TwoKinds(ByTime(tasks), |tasks|, t, up, down) && t < |tasks|
    requires m >= 2 && |q| == m + 2 && OnlyAt(q, |tasks|, t, 0, m)
    requires forall i: nat {:trigger Waiting(tasks, i)} :: i < |tasks| ==> (Waiting(tasks, i) <==> i != t)
    ensures var u := LastFirst<nat>(LastFirst<nat>(q));
      |u| == m && OnlyAt(u, |tasks|, t, 0, 0) && Chosen(tasks, q).1 == Down(ByTime(tasks), u, 0)
  {
    hide TwoKinds, ByTime, Chosen, Popped, OnlyAt, LastFirst, Waiting;
    var cmp, n := ByTime(tasks), |tasks|;
    LastToFront(q, n, t, m);
    var r := LastFirst<nat>(q);
    RootStays(cmp, r, n, t, up, down);
    PopIs(cmp, q);
    assert !Waiting(tasks, t);
    ChosenSkips(tasks, q);
    PopIs(cmp, r);
    LastBecomesFirst(r, n, t, m);
    assert Waiting(tasks, r[0]);
    ChosenTakes(tasks, r);
  }

  lemma PopIs(cmp: (nat, nat) -> int, s: seq<nat>)
    requires |s| >= 2
    ensures Popped(cmp, s) == Down(cmp, LastFirst<nat>(s), 0)
  {
  }

  lemma ChosenSkips(tasks: seq<Task>, s: seq<nat>)
    requires s != [] && !Waiting(tasks, s[0])
    ensures Chosen(tasks, s) == Chosen(tasks, Popped(ByTime(tasks), s))
  {
  }

  lemma ChosenTakes(tasks: seq<Task>, s: seq<nat>)
    requires s != [] && Waiting(tasks, s[0])
    ensures Chosen(tasks, s) == (s[0], Popped(ByTime(tasks), s))
  {
  }

  lemma LastToFront(q: seq<nat>, n: nat, t: nat, m: nat)
    requires m >= 2 && |q| == m + 2 && OnlyAt(q, n, t, 0, m)
    ensures var r := LastFirst<nat>(q); OnlyAt(r, n, t, m, m) && r[0] != t && r[0] < n && r[1] != t && r[1] < n && q[0] == t
  {
    var r := LastFirst<nat>(q);
    assert q[m + 1] != t && q[m + 1] < n && q[0] == t;
    forall k: nat | k < |r| ensures r[k] < n && (r[k] == t <==> k == m) {
      assert q[k] < n;
    }
  }

  lemma LastBecomesFirst(r: seq<nat>, n: nat, t: nat, m: nat)
    requires m >= 2 && |r| == m + 1 && OnlyAt(r, n, t, m, m)
    ensures OnlyAt(LastFirst<nat>(r), n, t, 0, 0)
  {
    var u := LastFirst<nat>(r);
    assert r[m] == t && r[m] < n;
    forall k: nat | k < |u| ensures u[k] < n && (u[k] == t <==> k == 0) {
      assert r[k] < n;
    }
  }

  /** Equal elements do not move. */
  lemma RootStays(cmp: (nat, nat) -> int, s: seq<nat>, n: nat, t: nat, up: int, down: int)
    requires TwoKinds(cmp, n, t, up, down) && |s| >= 2 && s[0] < n && s[1] < n && (s[1] == t ==> s[0] == t)
    requires s[0] == t ==> s[1] == t || down >= 0
    ensures Down(cmp, s, 0) == s
  {
    assert cmp(s[1], s[0]) >= 0;
  }

  lemma RootIsHeap(cmp: (nat, nat) -> int, u: seq<nat>, n: nat, t: nat, up: int, down: int)
    requires TwoKinds(cmp, n, t, up, down) && down >= 0 && OnlyAt(u, n, t, 0, 0)
    ensures IsHeap(cmp, u)
  {
    forall j {:trigger u[j]} | 0 < j < |u| ensures Le(cmp, u[j / 2], u[j]) {
      assert u[j] < n && u[j / 2] < n;
    }
  }

  /** If t and the others are each before the other, no order is a heap. */
  lemma NeverHeap(cmp: (nat, nat) -> int, s: seq<nat>, n: nat, t: nat, up: int, down: int)
    requires TwoKinds(cmp, n, t, up, down) && up < 0 && down < 0 && t < n
    requires |s| >= 2 && multiset(s)[t] == 1 && forall i: nat {:trigger multiset(s)[i]} :: multiset(s)[i] > 0 ==> i < n
    ensures !IsHeap(cmp, s)
  {
    assert t in s;
    var k :| 0 <= k < |s| && s[k] == t;
    var j := if k == 0 then 1 else k;
    assert s[j] in multiset(s) && s[j / 2] in multiset(s);
    OnceAt(s, t, k, if k == 0 then 1 else k / 2);
    assert cmp(s[j], s[j / 2]) < 0;
    assert !Le(cmp, s[j / 2], s[j]);
  }

  lemma OnceAt(s: seq<nat>, t: nat, k: nat, j: nat)
    requires k < |s| && j < |s| && k != j && s[k] == t && multiset(s)[t] == 1
    ensures s[j] != t
  {
    var lo, hi := if k < j then k else j, if k < j then j else k;
    assert s == s[..lo] + [s[lo]] + s[lo + 1..hi] + [s[hi]] + s[hi + 1..];
  }

  lemma LowBits(now: nat)
    ensures now % WORD % TWO_32 == now % TWO_32
  {
    var q, r := now / WORD, now % WORD;
    assert now == q * TWO_32 * TWO_32 + r;
    assert now == (q * TWO_32 + r / TWO_32) * TWO_32 + r % TWO_32;
  }

  /** The boot machine: every task started before waits with time 0, and is queued once. */
  lemma BootOk(x: Machine, stack: nat, f: Frame, now: nat)
    requires Early(x) && |x.tasks| > 0
    ensures var z, t := BootMachine(x, stack), NextId(x);
      && TasksOk(z.tasks, multiset(z.queue), t) && z.tasks[t].state == Terminated && |z.tasks| == t + 1
      && var parked := Parked(z.tasks, t, f, now);
      && (forall i: nat {:trigger Waiting(parked, i)} :: i <= t ==> (Waiting(parked, i) <==> i != t))
      && (forall i: nat {:trigger parked[i]} :: i <= t ==> parked[i].vtime == if i == t then now % WORD else 0)
  {
    hide IsHeap;
    var z, t, q := BootMachine(x, stack), NextId(x), multiset(x.queue);
    var p := multiset(z.queue);
    assert p == q + multiset{t};
    forall i: nat {:trigger p[i]} | p[i] > 0 ensures i < |z.tasks| {
      assert i == t || q[i] > 0;
    }
    forall i: nat | i < |z.tasks| ensures TaskOk(z.tasks, p, t, i) {
      if i < t {
        assert z.tasks[i] == x.tasks[i] && TaskOk(x.tasks, q, x.current, i);
      }
    }
    var parked := Parked(z.tasks, t, f, now);
    assert Charged(0, 0, now) == now % WORD;
    forall i: nat | i <= t ensures parked[i].vtime == (if i == t then now % WORD else 0) && (Waiting(parked, i) <==> i != t) {
      if i < t { assert parked[i] == x.tasks[i]; }
    }
  }

  /** If the boot task is not before the others, the heap stays one. */
  lemma BootLeaf(x: Machine, stack: nat, f: Frame, now: nat, later: nat, up: int, down: int)
    requires Early(x) && |x.tasks| > 0
    requires TwoKinds(ByTime(Parked(BootMachine(x, stack).tasks, NextId(x), f, now)), |x.tasks| + 1, NextId(x), up, down) && up >= 0
    ensures var y := SwitchTo(BootMachine(x, stack), f, now, later); IsHeap(ByTime(y.tasks), y.queue)
  {
    hide ByTime, IsHeap, TasksOk, SwitchTo, Unused, TwoKinds, PreorderOn, Parked;
    var z, t := BootMachine(x, stack), NextId(x);
    var parked := Parked(z.tasks, t, f, now);
    BootOk(x, stack, f, now);
    EarlyQueue(x);
    QueueBelow(z.tasks, multiset(z.queue), t);
    KindsOrder(ByTime(parked), t + 1, t, up, down, multiset(z.queue) + multiset{t});
    LeafIsHeap(ByTime(parked), x.queue, t + 1, t, up, down);
    assert Waiting(parked, 0);
    SwitchHeap(z, f, now, later, 0);
  }

  lemma QueueBelow(tasks: seq<Task>, q: multiset<nat>, t: nat)
    requires TasksOk(tasks, q, t) && |tasks| == t + 1
    ensures forall i: nat {:trigger (q + multiset{t})[i]} :: (q + multiset{t})[i] > 0 ==> i < t + 1
  {
    forall i: nat | (q + multiset{t})[i] > 0 ensures i < t + 1 {
      assert i == t || q[i] > 0;
    }
  }

  lemma LeafIsHeap(cmp: (nat, nat) -> int, s0: seq<nat>, n: nat, t: nat, up: int, down: int)
    requires TwoKinds(cmp, n, t, up, down) && up >= 0 && t < n
    requires forall k {:trigger s0[k]} :: 0 <= k < |s0| ==> s0[k] < n && s0[k] != t
    ensures IsHeap(cmp, s0 + [t])
  {
    var s := s0 + [t];
    forall j {:trigger s[j]} | 0 < j < |s| ensures Le(cmp, s[j / 2], s[j]) {
      assert s[j / 2] == s0[j / 2];
      if j < |s0| { assert s[j] == s0[j]; }
    }
  }

  /** If it is, two entries of it stand at the root and at the end, and the switch sorts them out. */
  lemma BootRoot(x: Machine, stack: nat, f: Frame, now: nat, later: nat, up: int, down: int)
    requires Early(x) && |x.tasks| >= 2
    requires TwoKinds(ByTime(Parked(BootMachine(x, stack).tasks, NextId(x), f, now)), |x.tasks| + 1, NextId(x), up, down) && up < 0
    ensures var y := SwitchTo(BootMachine(x, stack), f, now, later); IsHeap(ByTime(y.tasks), y.queue) <==> down >= 0
  {
    hide ByTime, IsHeap, TasksOk, TwoKinds, Parked, Chosen, Pushed, Popped, OnlyAt, Unused, Down, SameTimes;
    var z, t := BootMachine(x, stack), NextId(x);
    var parked := Parked(z.tasks, t, f, now);
    var cmp, n: nat, m: nat := ByTime(parked), t + 1, |x.queue|;
    BootOk(x, stack, f, now);
    EarlyQueue(x);
    NoneIsNew(x.queue, n, t);
    BootLineup(cmp, x.queue, n, t, up, down);
    var q := Lineup(z, f, now);
    assert q == Pushed(cmp, x.queue + [t], t);
    BootPops(parked, q, t, up, down, m);
    var u := LastFirst<nat>(LastFirst<nat>(q));
    var y := SwitchTo(z, f, now, later);
    assert y.queue == Down(cmp, u, 0);
    assert Waiting(parked, 0);
    SwitchKeeps(z, f, now, later, 0);
    SameHeap(parked, y.tasks, y.queue);
    if down >= 0 {
      RootStays2(cmp, u, n, t, up, down);
      RootIsHeap(cmp, u, n, t, up, down);
    } else {
      DownItems(cmp, u, 0);
      OnlyAtOnce(u, n, t);
      NeverHeap(cmp, y.queue, n, t, up, down);
    }
  }

  lemma NoneIsNew(s: seq<nat>, n: nat, t: nat)
    requires n == t + 1 && forall k {:trigger s[k]} :: 0 <= k < |s| ==> s[k] < t
    ensures OnlyAt(s, n, t, -1, -1)
  {
  }

  lemma RootStays2(cmp: (nat, nat) -> int, u: seq<nat>, n: nat, t: nat, up: int, down: int)
    requires TwoKinds(cmp, n, t, up, down) && down >= 0 && |u| >= 2 && OnlyAt(u, n, t, 0, 0)
    ensures Down(cmp, u, 0) == u
  {
    assert u[0] == t && u[0] < n && u[1] < n && u[1] != t;
    RootStays(cmp, u, n, t, up, down);
  }

  lemma OnlyAtOnce(u: seq<nat>, n: nat, t: nat)
    requires |u| > 0 && OnlyAt(u, n, t, 0, 0)
    ensures multiset(u)[t] == 1 && forall i: nat {:trigger multiset(u)[i]} :: multiset(u)[i] > 0 ==> i < n
  {
    assert u[0] == t;
    assert u == [t] + u[1..];
    assert t !in u[1..];
    forall i: nat | multiset(u)[i] > 0 ensures i < n {
      assert i in u;
    }
  }

  lemma SameHeap(tasks: seq<Task>, tasks': seq<Task>, s: seq<nat>)
    requires SameTimes(tasks, tasks', multiset(s))
    ensures IsHeap(ByTime(tasks), s) <==> IsHeap(ByTime(tasks'), s)
  {
    hide IsHeap, ByTime;
    if IsHeap(ByTime(tasks), s) { HeapKept(tasks, tasks', s); }
    if IsHeap(ByTime(tasks'), s) { HeapKept(tasks', tasks, s); }
  }

  /** With one task before it, the heap has no choice. */
  lemma BootAlone(x: Machine, stack: nat, f: Frame, now: nat, later: nat)
    requires Early(x) && |x.tasks| == 1
    ensures var y := SwitchTo(BootMachine(x, stack), f, now, later); IsHeap(ByTime(y.tasks), y.queue)
  {
    hide TasksOk, Unused;
    var z := BootMachine(x, stack);
    var parked := Parked(z.tasks, 1, f, now);
    BootOk(x, stack, f, now);
    EarlyQueue(x);
    assert x.queue == [0] && z.queue == [0, 1] && z.queue + [1] == [0, 1, 1];
    TimesReflexive(parked, multiset{1});
    SelfTime(parked, 1);
    assert Lineup(z, f, now) == [0, 1, 1];
    assert Waiting(parked, 0);
    assert LastFirst<nat>([0, 1, 1]) == [1, 1];
    assert Popped(ByTime(parked), [0, 1, 1]) == [1, 1];
    SelfTime(Resumed(parked, 0, later), 1);
  }

  lemma SelfTime(tasks: seq<Task>, i: nat)
    ensures ByTime(tasks)(i, i) == 0
  {
  }

  /**
    The first switch, whatever the time: a task started before goes on, and the boot task does
    not. The heap survives its time exactly if that is not 2^31 modulo 2^32, or the task is alone.
   */
  lemma FirstSwitch(x: Machine, stack: nat, f: Frame, now: nat, later: nat)
    requires Early(x) && |x.tasks| > 0
    ensures var z := BootMachine(x, stack);
      var y := SwitchTo(z, f, now, later);
      && Switched(z.tasks, z.current, f, now, later, y.tasks, y.current) && y.current < |x.tasks|
      && |y.tasks| == |x.tasks| + 1 && y.tasks[|x.tasks|].state == Terminated
      && (Good(y) <==> now % TWO_32 != TWO_31 || |x.tasks| == 1)
  {
    hide ByTime, IsHeap, TasksOk, WaitersOk, Unused, TwoKinds, Parked, Chosen, Pushed, Charged;
    var z, t, d := BootMachine(x, stack), NextId(x), now % WORD;
    var parked, y := Parked(z.tasks, t, f, now), SwitchTo(z, f, now, later);
    BootOk(x, stack, f, now);
    assert Waiting(parked, 0);
    SwitchKeeps(z, f, now, later, 0);
    ChargedRange(z, f, now, later);
    NobodyWaits(x, stack, f, now, y.current, later, multiset(y.queue));
    TimesAreKinds(parked, t, d);
    LowBits(now);
    var up, down := CompareTimes(d, 0), CompareTimes(0, d);
    if up >= 0 {
      BootLeaf(x, stack, f, now, later, up, down);
    } else if |x.tasks| == 1 {
      BootAlone(x, stack, f, now, later);
    } else {
      BootRoot(x, stack, f, now, later, up, down);
    }
    assert !Waiting(parked, t);
    assert y.current < |x.tasks|;
    StaysEnded(z.tasks, t, f, now, y.current, later);
  }

  lemma StaysEnded(tasks: seq<Task>, t: nat, f: Frame, now: nat, next: nat, later: nat)
    requires t < |tasks| && tasks[t].state == Terminated && next != t
    ensures Resumed(Parked(tasks, t, f, now), next, later)[t].state == Terminated
  {
  }

  // ---------- Tasks started after the first switch ----------

  /** Times that stand for numbers less than 2^31 apart, modulo 2^32, compare as these do. */
  lemma CompareRanks(a: nat, b: nat, ra: int, rb: int)
    requires a < WORD && b < WORD && (a - ra) % TWO_32 == 0 && (b - rb) % TWO_32 == 0 && -TWO_31 <= ra - rb < TWO_31
    ensures CompareTimes(a, b) == ra - rb
  {
    Wrapped(a - b);
    var low := (a - b) % WORD % TWO_32;
    assert low == (ra - rb) % TWO_32 by {
      LowOfDifference(a, b, ra, rb);
    }
  }

  lemma LowOfDifference(a: nat, b: nat, ra: int, rb: int)
    requires a < WORD && b < WORD && (a - ra) % TWO_32 == 0 && (b - rb) % TWO_32 == 0
    ensures (a - b) % WORD % TWO_32 == (ra - rb) % TWO_32
  {
    var i, j := (a - ra) / TWO_32, (b - rb) / TWO_32;
    assert a - b == (ra - rb) + (i - j) * TWO_32;
    Wrapped(a - b);
    if a >= b {
      AddMultiple(ra - rb, i - j);
    } else {
      AddMultiple(ra - rb, i - j + TWO_32);
    }
  }

  lemma AddMultiple(x: int, k: int)
    ensures (x + k * TWO_32) % TWO_32 == x % TWO_32
  {
    var q := x / TWO_32;
    assert x + k * TWO_32 == (q + k) * TWO_32 + x % TWO_32;
  }

  /** The mean time m, 0, and the time d of the boot task can be put in order. */
  predicate InLine(d: nat, m: nat) { m < TWO_31 && (d % TWO_32 < TWO_31 || d % TWO_32 > TWO_31 + m) }

  /** The number a time stands for in that order. */
  function Rank(d: nat, m: nat, time: nat): int {
    if time == 0 then 0 else if time == m then m else if d % TWO_32 < TWO_31 then d % TWO_32 else d % TWO_32 - TWO_32
  }

  lemma InLineCompares(d: nat, m: nat, a: nat, b: nat)
    requires InLine(d, m) && d < WORD && a in {0, m, d} && b in {0, m, d}
    ensures CompareTimes(a, b) == Rank(d, m, a) - Rank(d, m, b)
  {
    RankOf(d, m, a);
    RankOf(d, m, b);
    CompareRanks(a, b, Rank(d, m, a), Rank(d, m, b));
  }

  lemma RankOf(d: nat, m: nat, a: nat)
    requires d < WORD && a in {0, m, d}
    ensures (a - Rank(d, m, a)) % TWO_32 == 0
  {
    var q := d / TWO_32;
    assert d - d % TWO_32 == q * TWO_32 && d - (d % TWO_32 - TWO_32) == (q + 1) * TWO_32;
    AddMultiple(0, q);
    AddMultiple(0, q + 1);
  }

  /** Otherwise two of them are before each other, or the three are in a circle. */
  lemma OutOfLine(d: nat, m: nat)
    requires m < TWO_31 && m <= d < WORD && !InLine(d, m)
    ensures || (CompareTimes(0, d) < 0 && CompareTimes(d, 0) < 0) || (CompareTimes(m, d) < 0 && CompareTimes(d, m) < 0)
            || (CompareTimes(d, m) >= 0 && CompareTimes(0, d) >= 0 && CompareTimes(0, m) < 0)
  {
    var e := d % TWO_32;
    RankOf(d, 0, d);
    var q := d / TWO_32;
    assert d - e == q * TWO_32;
    AddMultiple(0, q);
    AddMultiple(0, q + 1);
    assert (d - (e - TWO_32)) == (q + 1) * TWO_32;
    if e == TWO_31 {
      CompareRanks(0, d, 0, e);
      CompareRanks(d, 0, e - TWO_32, 0);
    } else if e == TWO_31 + m {
      CompareRanks(m, d, m, e);
      CompareRanks(d, m, e - TWO_32, m);
    } else {
      CompareRanks(d, m, e, m);
      CompareRanks(0, d, 0, e - TWO_32);
      CompareRanks(0, m, 0, m);
    }
  }

  /** The tasks queued after the first switch: the boot task, whose time is d, and others, whose time is 0. */
  ghost predicate AfterBoot(y: Machine, t: nat, d: nat) {
    && |y.tasks| == t + 1 && t in y.queue && y.tasks[t].state == Terminated
    && (forall k {:trigger y.queue[k]} :: 0 <= k < |y.queue| ==> y.queue[k] <= t)
    && (forall i: nat {:trigger y.tasks[i]} :: i <= t ==> y.tasks[i].vtime == if i == t then d else 0)
    && y.current < t && y.current !in y.queue
    && (forall i: nat {:trigger y.tasks[i]} :: i < t && i != y.current ==> y.tasks[i].state == InQueue)
    && (forall i: nat {:trigger i in y.queue} :: i < t && i != y.current ==> i in y.queue)
  }

  /** The new task can be put in order exactly if it is in line with the others; one task alone always can. */
  lemma CloseAfterBoot(y: Machine, t: nat, d: nat, task: Task)
    requires AfterBoot(y, t, d) && d < WORD && task.state == InQueue && task.vtime == d / t
    ensures Close(y.tasks + [task], y.queue + [t + 1]) <==> t == 1 || InLine(d, d / t)
  {
    hide CompareTimes;
    var m := d / t;
    var r, s := y.tasks + [task], y.queue + [t + 1];
    QuotientAtMost(d, t);
    forall i: nat {:trigger r[i]} | i <= t + 1 ensures r[i].vtime == if i == t + 1 then m else if i == t then d else 0 {
      if i <= t { assert r[i] == y.tasks[i]; }
    }
    forall k {:trigger s[k]} | 0 <= k < |s| ensures s[k] <= t + 1 {
      if k < |y.queue| { assert s[k] == y.queue[k]; }
    }
    if t == 1 {
      OneTaskClose(y, d, task);
    } else if InLine(d, m) {
      InLineClose(r, s, t, d, m);
    } else {
      NotClose(y, t, d, task);
    }
  }

  /** The boot task stays in the queue. */
  lemma BootTaskStays(x: Machine, stack: nat, f: Frame, now: nat, later: nat)
    requires Early(x) && |x.tasks| > 0
    ensures NextId(x) in SwitchTo(BootMachine(x, stack), f, now, later).queue
  {
    hide ByTime, IsHeap, TasksOk, WaitersOk, TwoKinds, Parked, Chosen, Pushed, Popped, OnlyAt, Unused, Down, SameTimes, CompareTimes, Dropped;
    var z, t, d := BootMachine(x, stack), NextId(x), now % WORD;
    var parked, y := Parked(z.tasks, t, f, now), SwitchTo(z, f, now, later);
    BootOk(x, stack, f, now);
    EarlyQueue(x);
    TimesAreKinds(parked, t, d);
    var cmp, n: nat, up, down := ByTime(parked), t + 1, CompareTimes(d, 0), CompareTimes(0, d);
    if up < 0 && |x.tasks| >= 2 {
      NoneIsNew(x.queue, n, t);
      BootLineup(cmp, x.queue, n, t, up, down);
      var q := Lineup(z, f, now);
      BootPops(parked, q, t, up, down, |x.queue|);
      var u := LastFirst<nat>(LastFirst<nat>(q));
      DownItems(cmp, u, 0);
      OnlyAtOnce(u, n, t);
      assert t in multiset(y.queue);
    } else {
      StaysAtEnd(cmp, x.queue, n, t, up, down);
      var q := Lineup(z, f, now);
      assert Waiting(parked, 0) && Waiting(parked, q[0]);
      NoneDropped(parked, q);
      SwitchKeeps(z, f, now, later, 0);
      assert t !in multiset(Dropped(parked, q)) && !Waiting(parked, t);
      assert (multiset(z.queue) + multiset{t})[t] == multiset(y.queue)[t];
      assert t in multiset(y.queue);
    }
  }

  lemma StaysAtEnd(cmp: (nat, nat) -> int, s0: seq<nat>, n: nat, t: nat, up: int, down: int)
    requires TwoKinds(cmp, n, t, up, down) && n == t + 1 && |s0| > 0 && (up >= 0 || |s0| == 1)
    requires forall k {:trigger s0[k]} :: 0 <= k < |s0| ==> s0[k] < t
    ensures var q := Pushed(cmp, s0 + [t], t); q == s0 + [t] + [t] && q[0] == s0[0]
  {
    var s := (s0 + [t]) + [t];
    var p: nat := (|s0| + 1) / 2;
    assert s[|s0| + 1] == t;
    if p < |s0| {
      assert s[p] == s0[p];
    } else {
      assert s[p] == t;
    }
  }

  lemma NoneDropped(tasks: seq<Task>, s: seq<nat>)
    requires s != [] && Waiting(tasks, s[0])
    ensures Dropped(tasks, s) == []
  {
  }

  lemma BootLeaves(x: Machine, stack: nat, f: Frame, now: nat, later: nat)
    requires Early(x) && |x.tasks| > 0
    ensures AfterBoot(SwitchTo(BootMachine(x, stack), f, now, later), |x.tasks|, now % WORD)
  {
    hide ByTime, IsHeap, TasksOk, WaitersOk, Chosen, Pushed, Unused, SameTimes, CompareTimes, Dropped, Lineup, Charged;
    var z, t, d := BootMachine(x, stack), NextId(x), now % WORD;
    var parked, y := Parked(z.tasks, t, f, now), SwitchTo(z, f, now, later);
    BootOk(x, stack, f, now);
    BootTaskStays(x, stack, f, now, later);
    assert Waiting(parked, 0);
    SwitchKeeps(z, f, now, later, 0);
    QueuedOnce(y.tasks, y.queue, y.current);
    assert !Waiting(parked, t) && y.current < t;
    assert y.tasks[t] == parked[t] && parked[t].state == z.tasks[t].state;
    forall i: nat {:trigger y.tasks[i]} | i <= t ensures y.tasks[i].vtime == if i == t then d else 0 {
      assert parked[i].vtime == if i == t then d else 0;
    }
    forall i: nat {:trigger y.tasks[i]} | i < t && i != y.current ensures y.tasks[i].state == InQueue {
      assert Waiting(parked, i);
      assert y.tasks[i] == parked[i];
    }
    forall i: nat {:trigger i in y.queue} | i < t && i != y.current ensures i in y.queue {
      assert y.tasks[i].state == InQueue;
    }
  }

  lemma QueuedOnce(tasks: seq<Task>, s: seq<nat>, current: nat)
    requires TasksOk(tasks, multiset(s), current) && current < |tasks| && tasks[current].state == Running
    ensures current !in s
    ensures forall i: nat {:trigger tasks[i]} :: i < |tasks| && tasks[i].state == InQueue ==> i in s
    ensures forall k {:trigger s[k]} :: 0 <= k < |s| ==> s[k] < |tasks|
  {
    var q := multiset(s);
    assert TaskOk(tasks, q, current, current);
    assert current in s <==> current in q;
    forall i: nat | i < |tasks| && tasks[i].state == InQueue ensures i in s {
      assert TaskOk(tasks, q, current, i) && i in q;
    }
    forall k | 0 <= k < |s| ensures s[k] < |tasks| {
      assert s[k] in q;
      assert q[s[k]] > 0;
    }
  }

  /**
    total_vtime keeps the whole time-stamp counter d of the first switch, so that a task started
    afterwards begins at d / n, with n tasks. It can be put in order exactly if it is alone with one
    other, or that is less than 2^31 and the low 32 bits of d are not between 2^31 and 2^31 + d / n.
   */
  lemma SpawnAfterBoot(x: Machine, stack: nat, f: Frame, now: nat, later: nat, e: Event)
    requires Early(x) && 0 < |x.tasks| < WORD && e.Spawn?
    ensures var d, n := now % WORD, |x.tasks|;
      var y := SwitchTo(BootMachine(x, stack), f, now, later);
      && WithNewTask(y, e.start, e.context, e.stack)[n + 1].vtime == d / n
      && (Possible(y, e) <==> n == 1 || (d / n < TWO_31 && !(TWO_31 <= d % TWO_32 <= TWO_31 + d / n)))
  {
    hide IsHeap, TasksOk, WaitersOk, Close, Parked, Chosen, AfterBoot, Unused, Lineup;
    var z, n, d := BootMachine(x, stack), |x.tasks|, now % WORD;
    var y := SwitchTo(z, f, now, later);
    BootLeaves(x, stack, f, now, later);
    assert Charged(0, 0, now) == d;
    assert y.totalVtime == d && y.numTasks == n;
    AfterBootLength(y, n, d);
    var task := NewTask(e.start, e.context, e.stack, d / n);
    NewTaskWaits(e.start, e.context, e.stack, d / n);
    CloseAfterBoot(y, n, d, task);
  }

  lemma AfterBootLength(y: Machine, t: nat, d: nat)
    requires AfterBoot(y, t, d)
    ensures |y.tasks| == t + 1
  {
  }

  lemma QuotientAtMost(d: nat, t: nat)
    requires t > 0
    ensures d / t <= d && (t == 1 ==> d / t == d)
  {
    var q := d / t;
    assert d == q * t + d % t;
    if q >= 1 {
      TimesAtLeast(t, q);
    }
    if t == 1 {
      assert q * t == q;
    }
  }

  lemma OneTaskClose(y: Machine, d: nat, task: Task)
    requires AfterBoot(y, 1, d) && d < WORD && task.vtime == d
    ensures Close(y.tasks + [task], y.queue + [2])
  {
    hide CompareTimes;
    var r, s := y.tasks + [task], y.queue + [2];
    forall k {:trigger s[k]} | 0 <= k < |s| ensures s[k] < |r| && r[s[k]].vtime == d {
      if k < |y.queue| {
        assert s[k] == y.queue[k];
        assert y.queue[k] in y.queue;
      }
    }
    SelfCompare(d);
  }

  lemma InLineClose(r: seq<Task>, s: seq<nat>, t: nat, d: nat, m: nat)
    requires |r| == t + 2 && d < WORD && m <= d && InLine(d, m)
    requires forall i: nat {:trigger r[i]} :: i <= t + 1 ==> r[i].vtime == if i == t + 1 then m else if i == t then d else 0
    requires r[t].state == Terminated
    requires forall k {:trigger s[k]} :: 0 <= k < |s| ==> s[k] <= t + 1
    ensures Close(r, s)
  {
    hide CompareTimes, InLine, Rank;
    forall k, l {:trigger ByTime(r)(s[k], s[l])} | 0 <= k < |s| && 0 <= l < |s|
      ensures ByTime(r)(s[k], s[l]) == Rank(d, m, r[s[k]].vtime) - Rank(d, m, r[s[l]].vtime)
    {
      InLineCompares(d, m, r[s[k]].vtime, r[s[l]].vtime);
    }
    InLineSmall(d, m);
  }

  lemma InLineSmall(d: nat, m: nat)
    requires InLine(d, m)
    ensures m < TWO_31
  {
  }

  lemma NotClose(y: Machine, t: nat, d: nat, task: Task)
    requires AfterBoot(y, t, d) && d < WORD && task.state == InQueue && task.vtime == d / t <= d && t >= 2 && !InLine(d, d / t)
    ensures !Close(y.tasks + [task], y.queue + [t + 1])
  {
    hide CompareTimes;
    var m := d / t;
    var r, s := y.tasks + [task], y.queue + [t + 1];
    var other: nat := if y.current == 0 then 1 else 0;
    assert y.tasks[other].state == InQueue && other in y.queue;
    var a :| 0 <= a < |y.queue| && y.queue[a] == other;
    var b :| 0 <= b < |y.queue| && y.queue[b] == t;
    var c := |y.queue|;
    assert s[a] == other && s[b] == t && s[c] == t + 1;
    assert r[other] == y.tasks[other] && r[t] == y.tasks[t] && r[t + 1] == task;
    if Close(r, s) {
      CloseAt(r, s, c, a, a);
      CloseAt(r, s, a, b, c);
      CloseAt(r, s, b, c, a);
      CloseAt(r, s, c, b, a);
      OutOfLine(d, m);
      assert false;
    }
  }

  // ---------- The processor ----------

  /** left holds the frame with which each task started or last gave up the processor. */
  ghost predicate Saved(tasks: seq<Task>, left: seq<Frame>, current: nat) {
    |left| == |tasks| && forall i: nat {:trigger left[i]} :: i < |tasks| && i != current ==> tasks[i].saved == left[i]
  }

  /** Whoever resumes does so where it left. */
  lemma ResumedSaved(tasks: seq<Task>, left: seq<Frame>, current: nat, f: Frame, now: nat, next: nat, later: nat)
    requires current < |tasks| && next < |tasks| && Saved(tasks, left, current)
    ensures |left| == |tasks|
    ensures Saved(Resumed(Parked(tasks, current, f, now), next, later), left[current := f], next)
    ensures Resumed(Parked(tasks, current, f, now), next, later)[next].saved == left[current := f][next]
  {
    hide Charged;
    var r, left' := Resumed(Parked(tasks, current, f, now), next, later), left[current := f];
    forall i: nat {:trigger left'[i]} | i < |r| ensures r[i].saved == left'[i] {
      if i != current {
        assert left'[i] == left[i];
      }
    }
    assert r[next].saved == left'[next];
  }

  lemma StateSaved(tasks: seq<Task>, left: seq<Frame>, current: nat, i: nat, st: TaskState)
    requires Saved(tasks, left, current)
    ensures Saved(InState(tasks, i, st), left, current)
  {
  }

  lemma StartedSaved(tasks: seq<Task>, left: seq<Frame>, current: nat, t: Task)
    requires Saved(tasks, left, current)
    ensures Saved(tasks + [t], left + [t.saved], current)
  {
    var r, l := tasks + [t], left + [t.saved];
    forall i: nat {:trigger l[i]} | i < |r| && i != current ensures r[i].saved == l[i] {
      if i < |left| {
        assert l[i] == left[i];
      }
    }
  }

  lemma StartKeeps(x: Machine, left: seq<Frame>, start: nat, context: nat, stack: nat)
    ensures var r := WithNewTask(x, start, context, stack);
      Sane(x) && Saved(x.tasks, left, x.current) && Ordered(r, multiset(x.queue) + multiset{NextId(x)}) ==>
        Sane(Spawned(x, start, context, stack)) && Saved(r, left + [r[NextId(x)].saved], x.current)
  {
    hide Sane, Ordered, Saved, NewTask, Spawned;
    var r := WithNewTask(x, start, context, stack);
    if Sane(x) && Saved(x.tasks, left, x.current) && Ordered(r, multiset(x.queue) + multiset{NextId(x)}) {
      SpawnedOk(x, start, context, stack);
      StartedSaved(x.tasks, left, x.current, r[NextId(x)]);
    }
  }

  /** Before main_loop, for every task. */
  ghost predicate AllSaved(tasks: seq<Task>, left: seq<Frame>) {
    |left| == |tasks| && forall i: nat {:trigger left[i]} :: i < |tasks| ==> tasks[i].saved == left[i]
  }

  /** Times of 0 are close. */
  lemma EarlyOrdered(x: Machine, start: nat, context: nat, stack: nat)
    requires Early(x)
    ensures MeanTime(x.totalVtime, x.numTasks) == 0
    ensures Ordered(WithNewTask(x, start, context, stack), multiset(x.queue) + multiset{NextId(x)})
    ensures Unused(WithNewTask(x, start, context, stack))
  {
    hide IsHeap, ByTime, Ordered;
    var r, p := WithNewTask(x, start, context, stack), multiset(x.queue) + multiset{NextId(x)};
    assert NewTask(start, context, stack, 0).vtime == 0 && NewTask(start, context, stack, 0).state == InQueue;
    forall i: nat | i < |r| ensures r[i].state == InQueue && r[i].vtime == 0 {
      if i < |x.tasks| { assert r[i] == x.tasks[i]; }
    }
    forall i: nat | p[i] > 0 ensures i < |r| {
      assert i == NextId(x) || multiset(x.queue)[i] > 0;
    }
    NarrowOrders(r, p);
  }

  lemma EarlySpawned(x: Machine, left: seq<Frame>, start: nat, context: nat, stack: nat)
    requires Early(x) && AllSaved(x.tasks, left)
    ensures var y := Spawned(x, start, context, stack);
      && Early(y) && y.tasks == x.tasks + [NewTask(start, context, stack, 0)] && AllSaved(y.tasks, left + [y.tasks[NextId(x)].saved])
  {
    hide IsHeap, TasksOk, WaitersOk, ByTime, Unused, NewTask, Ordered, Pushed;
    var y := Spawned(x, start, context, stack);
    EarlyOrdered(x, start, context, stack);
    SpawnedOk(x, start, context, stack);
    var l := left + [y.tasks[NextId(x)].saved];
    forall k: nat {:trigger l[k]} | k < |y.tasks| ensures y.tasks[k].saved == l[k] {
      if k < |left| { assert l[k] == left[k]; }
    }
  }

  /** A task with time 0 stays at the end of the heap. */
  lemma EarlyPush(x: Machine, tasks: seq<Task>)
    requires Early(x) && |tasks| == |x.tasks| + 1 && Unused(tasks)
    ensures Pushed(ByTime(tasks), x.queue, NextId(x)) == x.queue + [NextId(x)]
  {
    EarlyQueue(x);
    var s := x.queue + [NextId(x)];
    var p := s[|x.queue| / 2];
    assert p < |tasks| && tasks[p].vtime == 0 && tasks[NextId(x)].vtime == 0;
    SelfCompare(0);
    assert s[|x.queue|] == NextId(x);
  }

  /** Starting the boot task, making it the current one and ending it gives the machine of the first switch. */
  lemma BootIs(x: Machine, stack: nat)
    requires Early(x)
    ensures Ended(Spawned(x, 0, 0, stack).(current := NextId(x)), NextId(x)) == BootMachine(x, stack)
    ensures WithNewTask(x, 0, 0, stack) == x.tasks + [NewTask(0, 0, stack, 0)]
  {
    hide IsHeap, ByTime, TasksOk, Pushed, Ordered;
    EarlyOrdered(x, 0, 0, stack);
    var tasks := WithNewTask(x, 0, 0, stack);
    EarlyPush(x, tasks);
    var t := NewTask(0, 0, stack, 0);
    assert t.vtime == 0;
    assert (x.tasks + [t])[|x.tasks| := t.(state := Terminated)] == x.tasks + [BootRecord(stack)];
  }

  lemma BootSaved(tasks: seq<Task>, left: seq<Frame>, stack: nat)
    requires AllSaved(tasks, left)
    ensures Saved(tasks + [BootRecord(stack)], left + [BootRecord(stack).saved], |tasks|)
  {
    var r, l := tasks + [BootRecord(stack)], left + [BootRecord(stack).saved];
    forall i: nat {:trigger l[i]} | i < |tasks| ensures r[i].saved == l[i] {
      assert l[i] == left[i];
    }
  }

  lemma ReadySwitch(x: Machine, e: Event) returns (someone: nat)
    requires Good(x) && Possible(x, e) && Switches(x, e)
    ensures Sane(AtSwitch(x, e)) && CanSwitch(AtSwitch(x, e), e.f, e.now, someone) && multiset(x.queue)[x.current] == 0
  {
    hide IsHeap, TasksOk, ByTime, Close, Ordered, Parked;
    SwitchingOk(x, e);
    var y := AtSwitch(x, e);
    CloseIsOrdered(Parked(y.tasks, x.current, e.f, e.now), x.queue, x.current);
    someone := Waiter(Parked(y.tasks, x.current, e.f, e.now));
  }

  /** The parts of a switch, in the order of its steps. */
  lemma SwitchParts(x: Machine, f: Frame, now: nat, later: nat, someone: nat)
    requires TasksOk(x.tasks, multiset(x.queue), x.current) && x.current < |x.tasks| && x.tasks[x.current].state != InQueue
    requires Waiting(Parked(x.tasks, x.current, f, now), someone)
    ensures var parked := Parked(x.tasks, x.current, f, now);
      && Lineup(x, f, now) == Pushed(ByTime(parked), x.queue, x.current) && someone in Lineup(x, f, now)
      && var (next, rest) := Chosen(parked, Lineup(x, f, now));
      && next < |parked|
      && SwitchTo(x, f, now, later) ==
           Machine(Resumed(parked, next, later), next, rest, Charged(x.totalVtime, x.tasks[x.current].startedAt, now), x.numTasks, x.waiting)
  {
    hide TasksOk, ByTime, Chosen, Pushed, Dropped, SameTimes, Charged, Parked, Resumed;
    SwitchKeeps(x, f, now, later, someone);
  }

  class Processor {
    var tasks: seq<Task>
    var current: nat
    const queue: MinHeap<nat>
    var totalVtime: nat
    var numTasks: nat
    /** The tasks in the queues of the mutexes. */
    var waiting: set<nat>
    ghost var left: seq<Frame>

    function Now(): Machine
      reads this, queue, queue.data
      requires queue.Valid()
    {
      Machine(tasks, current, queue.Items(), totalVtime, numTasks, waiting)
    }

    ghost predicate Ready()
      reads this, queue, queue.data
    {
      queue.Valid() && Sane(Now()) && Saved(tasks, left, current)
    }

    /** Between switches. */
    ghost predicate Valid()
      reads this, queue, queue.data
    {
      queue.Valid() && Good(Now()) && Saved(tasks, left, current)
    }

    /** Before main_loop. */
    ghost predicate Booting()
      reads this, queue, queue.data
    {
      queue.Valid() && Early(Now()) && AllSaved(tasks, left)
    }

    constructor ()
      ensures Booting() && tasks == [] && fresh(queue) && fresh(queue.data)
    {
      tasks, current, totalVtime, numTasks, waiting, left := [], 0, 0, 0, {}, [];
      queue := new MinHeap<nat>();
    }

    /** heap_push of task i. */
    method Enqueue(i: nat)
      requires queue.Valid()
      modifies queue`size, queue`data, queue.data
      ensures queue.Valid() && queue.Items() == Pushed(ByTime(tasks), old(queue.Items()), i)
      ensures queue.data == old(queue.data) || fresh(queue.data)
    {
      hide Reflexive, ByTime;
      TimesReflexive(tasks, multiset(queue.Items()) + multiset{i});
      queue.Push(ByTime(tasks), i);
    }

    /** The loop that pops tasks until one waits for the processor. */
    method Choose(ghost someone: nat) returns (next: nat)
      requires queue.Valid() && someone in queue.Items() && Waiting(tasks, someone)
      modifies queue`size, queue.data
      ensures queue.Valid() && (next, queue.Items()) == Chosen(tasks, old(queue.Items()))
    {
      hide Reflexive, ByTime, Popped, Waiting;
      while true
        invariant queue.Valid() && queue.data == old(queue.data) && someone in queue.Items()
        invariant Chosen(tasks, queue.Items()) == Chosen(tasks, old(queue.Items()))
        decreases queue.size
      {
        ghost var s := queue.Items();
        TimesReflexive(tasks, multiset(s));
        next := queue.Pop(ByTime(tasks));
        if Waiting(tasks, next) {
          return;
        }
        PoppedHeap(ByTime(tasks), s);
        assert someone in multiset(s);
        assert someone in multiset(queue.Items());
      }
    }

    /** The current task gives up the processor: its frame is saved, its time charged. */
    method Park(f: Frame, now: nat)
      requires current < |tasks| == |left|
      modifies `tasks, `totalVtime, `left
      ensures tasks == Parked(old(tasks), current, f, now) && left == old(left)[current := f]
      ensures totalVtime == Charged(old(totalVtime), old(tasks[current].startedAt), now)
    {
      var t := tasks[current].(saved := f);
      if t.state == Running {
        t := t.(state := InQueue);
      }
      var delta := (now - t.startedAt) % WORD;
      t := t.(vtime := (t.vtime + delta) % WORD);
      tasks := tasks[current := t];
      totalVtime := (totalVtime + delta) % WORD;
      left := left[current := f];
    }

    /** The current task runs. */
    method Resume(later: nat) returns (resume: Frame, quantum: int)
      requires current < |tasks|
      modifies `tasks
      ensures tasks == Resumed(old(tasks), current, later)
      ensures resume == tasks[current].saved && quantum == 5000 * (20 - tasks[current].nice)
    {
      tasks := tasks[current := tasks[current].(state := Running)];
      resume := tasks[current].saved;
      tasks := tasks[current := tasks[current].(startedAt := later)];
      quantum := TIME_QUANTUM * (20 - tasks[current].nice);
    }

    /** task_switch_isr, whatever the times. */
    method Switch(f: Frame, now: nat, later: nat, ghost someone: nat) returns (resume: Frame, quantum: int)
      requires queue.Valid() && TasksOk(tasks, multiset(queue.Items()), current)
      requires current < |tasks| == |left| && tasks[current].state != InQueue && Waiting(Parked(tasks, current, f, now), someone)
      modifies this, queue`size, queue`data, queue.data
      ensures queue.Valid() && Now() == SwitchTo(old(Now()), f, now, later)
      ensures left == old(left)[old(current) := f]
      ensures current < |tasks| && resume == tasks[current].saved && quantum == 5000 * (20 - tasks[current].nice)
      ensures queue.data == old(queue.data) || fresh(queue.data)
    {
      hide TasksOk, ByTime, Chosen, Pushed, SwitchTo, Lineup, Charged, Parked, Resumed, Waiting;
      ghost var x := Now();
      SwitchParts(x, f, now, later, someone);
      Park(f, now);
      Enqueue(current);
      assert queue.Items() == Lineup(x, f, now);
      current := Choose(someone);
      resume, quantum := Resume(later);
    }

    /**
      With times close enough: the current task is parked with frame f, and a waiting task that has
      used the least time goes on with the frame it was parked with.
     */
    method TaskSwitch(f: Frame, now: nat, later: nat, ghost someone: nat) returns (resume: Frame, quantum: int)
      requires Ready() && CanSwitch(Now(), f, now, someone) && multiset(queue.Items())[current] == 0
      modifies this, queue`size, queue`data, queue.data
      ensures Valid() && Now() == SwitchTo(old(Now()), f, now, later)
      ensures Switched(old(tasks), old(current), f, now, later, tasks, current)
      ensures left == old(left)[old(current) := f] && current < |left| && resume == left[current] == tasks[current].saved
      ensures quantum == 5000 * (20 - tasks[current].nice)
      ensures queue.data == old(queue.data) || fresh(queue.data)
    {
      hide IsHeap, TasksOk, ByTime, SwitchTo, Ordered, Parked, Resumed, LeastTime;
      ghost var tasks0, left0, current0 := tasks, left, current;
      SwitchOk(Now(), f, now, later, someone);
      resume, quantum := Switch(f, now, later, someone);
      ResumedSaved(tasks0, left0, current0, f, now, current, later);
    }

    /** start_task: the new task starts with the mean time of those there are. */
    method StartTask(start: nat, context: nat, stack: nat) returns (i: nat)
      requires queue.Valid()
      modifies `tasks, `numTasks, `left, queue`size, queue`data, queue.data
      ensures queue.Valid() && i == |old(tasks)| && Now() == Spawned(old(Now()), start, context, stack)
      ensures left == old(left) + [tasks[i].saved] && EntersAt(tasks[i].saved, start, context, stack)
      ensures tasks[i].vtime == (if old(numTasks) == 0 then 0 else old(totalVtime) / old(numTasks))
      ensures old(Ready() && Ordered(WithNewTask(Now(), start, context, stack), multiset(queue.Items()) + multiset{NextId(Now())})) ==> Ready()
      ensures queue.data == old(queue.data) || fresh(queue.data)
    {
      hide Sane, ByTime, Ordered, Saved, NewTask, Pushed, EntersAt;
      NewTaskEnters(start, context, stack, MeanTime(totalVtime, numTasks));
      StartKeeps(Now(), left, start, context, stack);
      i := |tasks|;
      var task := NewTask(start, context, stack, MeanTime(totalVtime, numTasks));
      tasks := tasks + [task];
      left := left + [task.saved];
      numTasks := (numTasks + 1) % WORD;
      Enqueue(i);
    }

    /** The stores of terminate_task. */
    method MarkTerminated(i: nat)
      requires queue.Valid() && i < |tasks|
      modifies `tasks, `totalVtime, `numTasks
      ensures Now() == Ended(old(Now()), i)
    {
      tasks := tasks[i := tasks[i].(state := Terminated)];
      totalVtime := (totalVtime - tasks[i].vtime) % WORD;
      numTasks := (numTasks - 1) % WORD;
    }

    /**
      terminate_task: a task that waits is left in the queue, to be dropped when it is taken; the
      current task hands the processor on, and is not resumed.
     */
    method TerminateTask(i: nat, f: Frame, now: nat, later: nat, ghost someone: nat) returns (resume: Frame)
      requires Valid() && i < |tasks|
      requires i == current ==> CanSwitch(Ended(Now(), i), f, now, someone)
      modifies this, queue`size, queue`data, queue.data
      ensures Valid() && Now() == After(old(Now()), End(i, f, now, later))
      ensures i == old(current) ==> current != i && Switched(Ended(old(Now()), i).tasks, i, f, now, later, tasks, current)
      ensures current < |left| && resume == if i == old(current) then left[current] else f
      ensures left == if i == old(current) then old(left)[i := f] else old(left)
      ensures queue.data == old(queue.data) || fresh(queue.data)
    {
      hide IsHeap, TasksOk, ByTime, Ordered, Saved, SwitchTo, Switched;
      ghost var x := Now();
      EndedOk(x, i);
      SavedLength(tasks, left, current);
      StateSaved(tasks, left, current, i, Terminated);
      MarkTerminated(i);
      resume := f;
      if i == current {
        RunningNotQueued(x.tasks, multiset(x.queue), i);
        var quantum;
        resume, quantum := TaskSwitch(f, now, later, someone);
        OtherGoesOn(x, i, Terminated, f, now, later, tasks, current);
      }
    }

    /** mutex_lock on a locked mutex: the current task freezes, and yields. */
    method Freeze(f: Frame, now: nat, later: nat, ghost someone: nat) returns (resume: Frame)
      requires Valid() && CanSwitch(Froze(Now()), f, now, someone)
      modifies this, queue`size, queue`data, queue.data
      ensures Valid() && Now() == After(old(Now()), Wait(f, now, later)) && current != old(current)
      ensures Switched(Froze(old(Now())).tasks, old(current), f, now, later, tasks, current)
      ensures left == old(left)[old(current) := f] && current < |left| && resume == left[current]
      ensures queue.data == old(queue.data) || fresh(queue.data)
    {
      hide IsHeap, TasksOk, ByTime, Ordered, Saved, SwitchTo, Switched, CanSwitch;
      ghost var x := Now();
      FrozeOk(x);
      StateSaved(tasks, left, current, current, Frozen);
      tasks := tasks[current := tasks[current].(state := Frozen)];
      waiting := waiting + {current};
      var quantum;
      resume, quantum := TaskSwitch(f, now, later, someone);
      OtherGoesOn(x, x.current, Frozen, f, now, later, tasks, current);
    }

    /**
      mutex_unlock lets a waiter go on, and does not put it into the queue: all is well exactly if
      the task is still there. It does not ask whether the task has been ended.
     */
    method Thaw(i: nat)
      requires Valid() && i in waiting
      modifies `tasks, `waiting
      ensures i < |tasks| && Now() == After(old(Now()), Wake(i))
      ensures Valid() <==> i in queue.Items()
    {
      hide IsHeap, ByTime, TasksOk, Saved, WaitersOk;
      WakeOk(Now(), i);
      StateSaved(tasks, left, current, i, InQueue);
      tasks := tasks[i := tasks[i].(state := InQueue)];
      waiting := waiting - {i};
    }

    /** start_task before main_loop. */
    method StartEarly(start: nat, context: nat, stack: nat) returns (i: nat)
      requires Booting()
      modifies `tasks, `numTasks, `left, queue`size, queue`data, queue.data
      ensures Booting() && i == |old(tasks)| && tasks == old(tasks) + [NewTask(start, context, stack, 0)]
      ensures EntersAt(tasks[i].saved, start, context, stack) && tasks[i].vtime == 0 && tasks[i].state == InQueue
      ensures queue.data == old(queue.data) || fresh(queue.data)
    {
      hide Early, AllSaved, NewTask, ByTime, Pushed, EntersAt;
      NewTaskEnters(start, context, stack, 0);
      EarlySpawned(Now(), left, start, context, stack);
      i := StartTask(start, context, stack);
    }

    /** The task that stands for the boot code: started, made the current one, and terminated. */
    method BootTask(stack: nat)
      requires Booting()
      modifies this, queue`size, queue`data, queue.data
      ensures queue.Valid() && Now() == BootMachine(old(Now()), stack) && left == old(left) + [BootRecord(stack).saved]
      ensures queue.data == old(queue.data) || fresh(queue.data)
    {
      hide IsHeap, TasksOk, ByTime, Unused, Ordered, Pushed;
      BootIs(Now(), stack);
      var t := StartTask(0, 0, stack);
      current := t;
      MarkTerminated(t);
    }

    /**
      The last part of main_loop: the boot code gives the processor to one of the tasks started
      before. What the time-stamp counter says then decides whether the heap stays in order.
     */
    method MainLoop(stack: nat, f: Frame, now: nat, later: nat) returns (resume: Frame)
      requires Booting() && |tasks| > 0
      modifies this, queue`size, queue`data, queue.data
      ensures queue.Valid() && Now() == SwitchTo(BootMachine(old(Now()), stack), f, now, later)
      ensures Switched(old(tasks) + [BootRecord(stack)], |old(tasks)|, f, now, later, tasks, current)
      ensures |tasks| == |old(tasks)| + 1 && tasks[|old(tasks)|].state == Terminated
      ensures current < |old(tasks)| == |old(left)| && resume == old(left)[current] == old(tasks)[current].saved
      ensures Valid() <==> now % TWO_32 != TWO_31 || |old(tasks)| == 1
      ensures queue.data == old(queue.data) || fresh(queue.data)
    {
      hide IsHeap, TasksOk, ByTime, Unused, BootRecord, SwitchTo, LeastTime, Parked, Resumed;
      ghost var x, left0 := Now(), left;
      FirstSwitch(x, stack, f, now, later);
      BootOk(x, stack, f, now);
      BootSaved(tasks, left, stack);
      BootTask(stack);
      ghost var z, left1 := Now(), left;
      assert Waiting(Parked(z.tasks, z.current, f, now), 0);
      var quantum;
      resume, quantum := Switch(f, now, later, 0);
      ResumedSaved(z.tasks, left1, z.current, f, now, current, later);
      assert left[current] == left0[current];
      assert tasks[current].saved == x.tasks[current].saved;
    }

    /** One event. */
    method Handle(e: Event)
      requires Valid() && Possible(Now(), e)
      modifies this, queue`size, queue`data, queue.data
      ensures Valid() && Step(old(Now()), e, Now())
      ensures queue.data == old(queue.data) || fresh(queue.data)
    {
      hide IsHeap, TasksOk, ByTime, Saved, Switched, Ordered, Close, CanSwitch, SwitchTo, NewTask, Pushed;
      EventOk(Now(), e);
      ghost var someone: nat := 0;
      if Switches(Now(), e) {
        someone := ReadySwitch(Now(), e);
      }
      match e
      case Tick(f, now, later) =>
        var resume, quantum := TaskSwitch(f, now, later, someone);
      case Spawn(start, context, stack) =>
        CloseIsOrdered(WithNewTask(Now(), start, context, stack), queue.Items(), |tasks|);
        var i := StartTask(start, context, stack);
      case End(i, f, now, later) =>
        var resume := TerminateTask(i, f, now, later, someone);
      case Wait(f, now, later) =>
        var resume := Freeze(f, now, later, someone);
      case Wake(i) =>
        Thaw(i);
    }

    /** Any sequence of events, up to one that is not possible. */
    method Run(events: seq<Event>) returns (done: nat, ghost history: seq<Machine>)
      requires Valid()
      modifies this, queue`size, queue`data, queue.data
      ensures Valid() && done <= |events| && (done < |events| ==> !Possible(Now(), events[done]))
      ensures IsRun(history, events[..done]) && history[0] == old(Now()) && history[done] == Now()
      ensures forall k: nat {:trigger history[k]} :: k <= done ==> Good(history[k]) && OneRuns(history[k])
      ensures queue.data == old(queue.data) || fresh(queue.data)
    {
      hide Good, Saved, Step, OneRuns, Possible;
      done, history := 0, [Now()];
      GoodOneRuns(Now());
      while done < |events|
        invariant Valid() && done <= |events| && (queue.data == old(queue.data) || fresh(queue.data))
        invariant IsRun(history, events[..done]) && history[0] == old(Now()) && history[done] == Now()
        invariant forall k: nat {:trigger history[k]} :: k <= done ==> Good(history[k]) && OneRuns(history[k])
      {
        if !Possible(Now(), events[done]) {
          return;
        }
        Handle(events[done]);
        GoodOneRuns(Now());
        OneMoreStep(history, events, done, Now());
        history := history + [Now()];
        done := done + 1;
      }
    }
  }

  /** Tasks started one after the other, and then main_loop: one of them is entered where it was to start. */
  method Begin(starts: seq<Event>, stack: nat, f: Frame, now: nat, later: nat) returns (p: Processor, resume: Frame)
    requires |starts| > 0 && forall k: nat {:trigger starts[k]} :: k < |starts| ==> starts[k].Spawn?
    ensures |p.tasks| == |starts| + 1 && p.current < |starts| && p.tasks[p.current].state == Running
    ensures EntersAt(resume, starts[p.current].start, starts[p.current].context, starts[p.current].stack)
    ensures p.Valid() <==> now % TWO_32 != TWO_31 || |starts| == 1
    ensures fresh(p) && fresh(p.queue) && fresh(p.queue.data)
  {
    hide Good, Early, Saved, AllSaved, SwitchTo, BootRecord, EntersAt, NewTask, Pushed, ByTime, Charged, Parked;
    p := new Processor();
    for k := 0 to |starts|
      invariant p.Booting() && fresh(p) && fresh(p.queue) && fresh(p.queue.data) && |p.tasks| == k
      invariant forall i: nat {:trigger p.tasks[i]} :: i < k ==> EntersAt(p.tasks[i].saved, starts[i].start, starts[i].context, starts[i].stack)
    {
      var i := p.StartEarly(starts[k].start, starts[k].context, starts[k].stack);
    }
    resume := p.MainLoop(stack, f, now, later);
  }

  lemma SavedLength(tasks: seq<Task>, left: seq<Frame>, current: nat)
    requires Saved(tasks, left, current)
    ensures |left| == |tasks|
  {
  }

  /** A task that froze or ended does not go on. */
  lemma OtherGoesOn(x: Machine, i: nat, st: TaskState, f: Frame, now: nat, later: nat, tasks': seq<Task>, next: nat)
    requires st == Frozen || st == Terminated
    requires Switched(InState(x.tasks, i, st), i, f, now, later, tasks', next)
    ensures next != i
  {
    hide Charged;
  }

  // ---------- A run that loses a task ----------

  /** Times below 2^31 are close. */
  lemma SmallIsClose(tasks: seq<Task>, s: seq<nat>)
    requires forall k {:trigger s[k]} :: 0 <= k < |s| ==> s[k] < |tasks|
    requires forall i: nat {:trigger tasks[i]} :: i < |tasks| ==> tasks[i].vtime < TWO_31
    ensures Close(tasks, s)
  {
    forall k, l | 0 <= k < |s| && 0 <= l < |s| ensures ByTime(tasks)(s[k], s[l]) == tasks[s[k]].vtime - tasks[s[l]].vtime {
      CompareIsDifference(tasks[s[k]].vtime, tasks[s[l]].vtime);
    }
  }

  /** Three tasks: i, o, and the boot task, which has ended; queued tasks are among them. */
  ghost predicate Trio(x: Machine, i: nat, o: nat, a: Task, b: Task) {
    && |x.tasks| == 3 && i + o == 1 && x.tasks[i] == a && x.tasks[o] == b
    && x.tasks[2].state == Terminated && x.tasks[2].vtime == 0
  }

  lemma TrioPossible(x: Machine, i: nat, o: nat, a: Task, b: Task, e: Event)
    requires Trio(x, i, o, a, b) && Good(x) && (e.Tick? || (e.Wait? && x.current == i))
    requires a.vtime < 1000 && b.vtime < 1000 && 0 <= e.now - x.tasks[x.current].startedAt < 1000
    requires if e.Tick? then x.current == o else b.state == InQueue
    ensures Possible(x, e)
  {
    hide IsHeap, Close, ByTime;
    var z := AtSwitch(x, e);
    var parked := Parked(z.tasks, x.current, e.f, e.now);
    var q := x.queue + [x.current];
    forall k {:trigger q[k]} | 0 <= k < |q| ensures q[k] < |parked| {
      if k < |x.queue| {
        assert x.queue[k] in multiset(x.queue);
        assert multiset(x.queue)[x.queue[k]] > 0;
      }
    }
    SmallIsClose(parked, q);
    assert parked[o].state == InQueue;
  }

  /** Only o waits, so that o goes on. */
  lemma OnlyWaiter(tasks: seq<Task>, o: nat, next: nat)
    requires LeastTime(tasks, next) && forall j: nat {:trigger Waiting(tasks, j)} :: Waiting(tasks, j) ==> j == o
    ensures next == o
  {
  }

  function Fresh(): Task { NewTask(0, 0, 0, 0) }

  /** The one that runs freezes after 5 ticks, and stays in the queue when the other goes on. */
  lemma TrioFreezes(x: Machine, i: nat, o: nat, f: Frame, y: Machine)
    requires Good(x) && Trio(x, i, o, Fresh().(state := Running), Fresh()) && x.current == i
    requires y == After(x, Wait(f, 5, 0))
    ensures Possible(x, Wait(f, 5, 0)) && Good(y) && y.current == o && i in y.queue
    ensures Trio(y, i, o, Fresh().(saved := f, vtime := 5, state := Frozen), Fresh().(state := Running))
  {
    hide Good, Possible, SwitchTo, Drops, After;
    var e := Wait(f, 5, 0);
    TrioPossible(x, i, o, Fresh().(state := Running), Fresh(), e);
    EventOk(x, e);
    var parked := Parked(AtSwitch(x, e).tasks, x.current, e.f, e.now);
    assert parked[i] == Fresh().(saved := f, vtime := 5, state := Frozen);
    assert parked[o] == Fresh() && parked[2] == x.tasks[2];
    OnlyWaiter(parked, o, y.current);
    DropsByTime(x, e, i);
    SwitchQueue(x, e, y, i);
  }

  /** The next turn of the other, after 20, drops it. */
  lemma TrioDrops(x: Machine, i: nat, o: nat, f: Frame, y: Machine)
    requires Good(x) && Trio(x, i, o, Fresh().(saved := f, vtime := 5, state := Frozen), Fresh().(state := Running))
    requires x.current == o && i in x.queue && y == After(x, Tick(f, 20, 0))
    ensures Possible(x, Tick(f, 20, 0)) && Good(y) && Lost(y, i) && y.tasks[i].state == Frozen
  {
    hide Good, Possible, SwitchTo, Drops, After;
    var e := Tick(f, 20, 0);
    TrioPossible(x, i, o, Fresh().(saved := f, vtime := 5, state := Frozen), Fresh().(state := Running), e);
    EventOk(x, e);
    var parked := Parked(AtSwitch(x, e).tasks, x.current, e.f, e.now);
    assert parked[i] == x.tasks[i] && parked[2] == x.tasks[2];
    assert parked[o] == Fresh().(saved := f, vtime := 20);
    OnlyWaiter(parked, o, y.current);
    DropsByTime(x, e, i);
    SwitchQueue(x, e, y, i);
  }

  /** Two tasks started before main_loop, and the first of them running. */
  method StartTwo(f: Frame) returns (p: Processor, i: nat, ghost o: nat)
    ensures p.Valid() && p.current == i && Trio(p.Now(), i, o, Fresh().(state := Running), Fresh())
    ensures fresh(p) && fresh(p.queue) && fresh(p.queue.data)
  {
    hide Good, Early, Saved, AllSaved, SwitchTo;
    p := new Processor();
    var a := p.StartEarly(0, 0, 0);
    var b := p.StartEarly(0, 0, 0);
    ghost var was := p.tasks;
    assert was == [Fresh(), Fresh()];
    var resume := p.MainLoop(0, f, 0, 0);
    i, o := p.current, 1 - p.current;
    BootCharge();
    ghost var parked := Parked(was + [BootRecord(0)], 2, f, 0);
    assert parked[..2] == was && parked[2].vtime == 0;
  }

  lemma BootCharge()
    ensures Charged(0, 0, 0) == 0
  {
  }

  /** And then freezing. */
  method FreezeFirst(f: Frame) returns (p: Processor, i: nat, ghost o: nat, ghost x: Machine)
    ensures Good(x) && x.current == i && p.Valid() && Step(x, Wait(f, 5, 0), p.Now())
    ensures p.current == o && i in p.queue.Items() && p.Now() == After(x, Wait(f, 5, 0))
    ensures Trio(p.Now(), i, o, Fresh().(saved := f, vtime := 5, state := Frozen), Fresh().(state := Running))
    ensures fresh(p) && fresh(p.queue) && fresh(p.queue.data)
  {
    hide Good, Saved, Step, Possible, Trio, After, Fresh;
    p, i, o := StartTwo(f);
    x := p.Now();
    TrioFreezes(x, i, o, f, After(x, Wait(f, 5, 0)));
    p.Handle(Wait(f, 5, 0));
    StepIs(x, Wait(f, 5, 0), p.Now());
  }

  /** A run that loses a task: it freezes, is dropped from the queue, and unlocking its mutex comes too late. */
  method LostTask(f: Frame) returns (p: Processor, i: nat, ghost events: seq<Event>, ghost history: seq<Machine>)
    ensures p.Valid() && |events| == 2 && IsRun(history, events) && Good(history[0])
    ensures events[0].Wait? && events[1].Tick? && history[0].current == i && history[2] == p.Now()
    ensures i in history[1].queue && Lost(p.Now(), i) && p.tasks[i].state == Frozen
    ensures !Good(After(p.Now(), Wake(i)))
  {
    hide Good, Saved, Step, Possible, Trio, Woken, SwitchTo, Fresh;
    ghost var o, x;
    p, i, o, x := FreezeFirst(f);
    ghost var y := p.Now();
    TrioDrops(y, i, o, f, After(y, Tick(f, 20, 0)));
    p.Handle(Tick(f, 20, 0));
    ghost var z := p.Now();
    StepIs(y, Tick(f, 20, 0), z);
    events, history := [Wait(f, 5, 0), Tick(f, 20, 0)], [x, y, z];
    FrozenWaits(z, i);
    WakeOk(z, i);
  }

  lemma FourSteps(history: seq<Machine>, events: seq<Event>)
    requires |events| == 4 && |history| == 5
    requires Step(history[0], events[0], history[1]) && Step(history[1], events[1], history[2])
    requires Step(history[2], events[2], history[3]) && Step(history[3], events[3], history[4])
    ensures IsRun(history, events)
  {
    hide Step;
  }

  lemma StepIs(x: Machine, e: Event, y: Machine)
    requires Step(x, e, y)
    ensures y == After(x, e)
  {
  }

  /** The other ends the frozen one, and unlocks the mutex. */
  lemma TrioEnds(x: Machine, i: nat, o: nat, f: Frame)
    requires Good(x) && Trio(x, i, o, Fresh().(saved := f, vtime := 5, state := Frozen), Fresh().(state := Running))
    requires x.current == o && i in x.queue
    ensures var y := After(x, End(i, f, 0, 0)); var z := After(y, Wake(i));
      && Possible(x, End(i, f, 0, 0)) && Good(y) && HasEnded(y, i) && i in y.queue
      && Possible(y, Wake(i)) && Good(z) && z.current == o
      && Trio(z, i, o, Fresh().(saved := f, vtime := 5, state := InQueue), Fresh().(state := Running))
  {
    hide Good, SwitchTo;
    FrozenWaits(x, i);
    EventOk(x, End(i, f, 0, 0));
    EventOk(After(x, End(i, f, 0, 0)), Wake(i));
  }

  /** It has used less time than the other, and goes on. */
  lemma TrioRevives(x: Machine, i: nat, o: nat, f: Frame, y: Machine)
    requires Good(x) && Trio(x, i, o, Fresh().(saved := f, vtime := 5, state := InQueue), Fresh().(state := Running))
    requires x.current == o && y == After(x, Tick(f, 20, 0))
    ensures Possible(x, Tick(f, 20, 0)) && Good(y) && y.current == i
  {
    hide Good, Possible, SwitchTo, After;
    var e := Tick(f, 20, 0);
    TrioPossible(x, i, o, Fresh().(saved := f, vtime := 5, state := InQueue), Fresh().(state := Running), e);
    EventOk(x, e);
    var parked := Parked(AtSwitch(x, e).tasks, x.current, e.f, e.now);
    assert parked[i] == x.tasks[i] && parked[2] == x.tasks[2];
    assert parked[o] == Fresh().(saved := f, vtime := 20);
    assert Waiting(parked, i);
  }

  /** A run that brings an ended task back: it is ended while it waits for a mutex, and the mutex lets it go on. */
  method RevivedTask(f: Frame) returns (p: Processor, i: nat, ghost events: seq<Event>, ghost history: seq<Machine>)
    ensures p.Valid() && |events| == 4 && IsRun(history, events) && Good(history[0])
    ensures events[0].Wait? && history[0].current == i && events[1].End? && events[1].i == i && events[2] == Wake(i)
    ensures HasEnded(history[2], i) && i in history[2].queue && history[4] == p.Now() && p.current == i
  {
    hide Good, Saved, Step, Possible, Trio, After, HasEnded, Fresh, IsRun;
    ghost var o, h0;
    p, i, o, h0 := FreezeFirst(f);
    ghost var h1 := p.Now();
    TrioEnds(h1, i, o, f);
    p.Handle(End(i, f, 0, 0));
    ghost var h2 := p.Now();
    StepIs(h1, End(i, f, 0, 0), h2);
    p.Handle(Wake(i));
    ghost var h3 := p.Now();
    StepIs(h2, Wake(i), h3);
    TrioRevives(h3, i, o, f, After(h3, Tick(f, 20, 0)));
    p.Handle(Tick(f, 20, 0));
    ghost var h4 := p.Now();
    StepIs(h3, Tick(f, 20, 0), h4);
    events, history := [Wait(f, 5, 0), End(i, f, 0, 0), Wake(i), Tick(f, 20, 0)], [h0, h1, h2, h3, h4];
    FourSteps(history, events);
  }
}
