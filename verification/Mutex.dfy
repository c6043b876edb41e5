/**
  The mutex, used by any number of tasks. Each statement that touches shared memory is a step,
  and the steps of different tasks mix in any order.
 */
module Mutex {
  datatype Status = Running | InQueue | Frozen

  /** Where a task is: in mutex_lock, in mutex_unlock, between the two, or elsewhere. */
  datatype Place =
    | Idle
    | LockSpin | LockTest | Freezing | Queueing | LockRelease | Yielding | Taking | TakenRelease
    | Holding
    | UnlockSpin | Clearing | Draining | Thawing(task: nat) | UnlockRelease

  /** spin and locked are the two flags of the mutex, queue its waiting tasks. */
  datatype State = State(place: seq<Place>, status: seq<Status>, spin: bool, locked: bool, queue: seq<nat>)

  /** What happens next: a task goes on, calls one of the functions, or is switched by the scheduler. */
  datatype Move = Go(t: nat) | CallLock(t: nat) | CallUnlock(t: nat) | Switch(t: nat, to: Status)

  function At(s: State, t: nat, p: Place): (r: State)
    requires t < |s.place|
    ensures |r.place| == |s.place| && r.status == s.status
  {
    s.(place := s.place[t := p])
  }

  /** The next statement of task t. */
  function Going(s: State, t: nat): State
    requires t < |s.place| == |s.status|
  {
    match s.place[t]
    case Idle => s
    case Holding => s
    // spinlock_lock: test and set
    case LockSpin => if s.spin then s else At(s, t, LockTest).(spin := true)
    case LockTest => if s.locked then At(s, t, Freezing) else At(s, t, Taking)
    case Freezing => At(s, t, Queueing).(status := s.status[t := Frozen])
    case Queueing => At(s, t, LockRelease).(queue := s.queue + [t])
    case LockRelease => At(s, t, Yielding).(spin := false)
    // the scheduler gives the processor only to tasks that are not frozen
    case Yielding => if s.status[t] == Frozen then s else At(s, t, LockSpin).(status := s.status[t := Running])
    case Taking => At(s, t, TakenRelease).(locked := true)
    case TakenRelease => At(s, t, Holding).(spin := false)
    case UnlockSpin => if s.spin then s else At(s, t, Clearing).(spin := true)
    case Clearing => At(s, t, Draining).(locked := false)
    case Draining => if s.queue == [] then At(s, t, UnlockRelease) else At(s, t, Thawing(s.queue[0])).(queue := s.queue[1..])
    case Thawing(w) => if w < |s.status| then At(s, t, Draining).(status := s.status[w := InQueue]) else At(s, t, Draining)
    case UnlockRelease => At(s, t, Idle).(spin := false)
  }

  /** Only the task that holds the mutex unlocks it. */
  function Next(s: State, m: Move): (r: State)
    requires |s.place| == |s.status|
    ensures |r.place| == |r.status| == |s.place|
  {
    if m.t >= |s.place| then s else
      match m
      case Go(t) => Going(s, t)
      case CallLock(t) => if s.place[t] == Idle then At(s, t, LockSpin) else s
      case CallUnlock(t) => if s.place[t] == Holding then At(s, t, UnlockSpin) else s
      case Switch(t, to) => if s.status[t] != Frozen && to != Frozen then s.(status := s.status[t := to]) else s
  }

  function Initial(n: nat): State {
    State(seq(n, _ => Idle), seq(n, _ => InQueue), false, false, [])
  }

  function After(n: nat, run: seq<Move>): (r: State)
    ensures |r.place| == |r.status| == n
  {
    if run == [] then Initial(n) else Next(After(n, run[..|run| - 1]), run[|run| - 1])
  }

  /** The task has the spinlock. */
  predicate InWindow(p: Place) {
    match p
    case Idle | LockSpin | Yielding | Holding | UnlockSpin => false
    case _ => true
  }

  /** The task has set locked, and not yet cleared it. */
  predicate Owns(p: Place) { p.TakenRelease? || p.Holding? || p.UnlockSpin? || p.Clearing? }

  /** The unlocking task has not emptied the queue yet. */
  predicate Emptying(p: Place) { p.Draining? || p.Thawing? }

  ghost predicate SpinOk(s: State) {
    && (forall i: nat, j: nat {:trigger s.place[i], s.place[j]} :: i < |s.place| && j < |s.place| && InWindow(s.place[i]) && InWindow(s.place[j]) ==> i == j)
    && (forall i: nat {:trigger s.place[i]} :: i < |s.place| && InWindow(s.place[i]) ==> s.spin)
  }

  /** What the place of a task says about locked. */
  predicate LockedAt(p: Place, locked: bool, queue: seq<nat>) {
    match p
    case Freezing | Queueing | LockRelease => locked
    case Taking => !locked
    case Draining | Thawing(_) => !locked
    case UnlockRelease => !locked && queue == []
    case _ => true
  }

  ghost predicate LockedOk(s: State) {
    && (forall i: nat, j: nat {:trigger s.place[i], s.place[j]} :: i < |s.place| && j < |s.place| && Owns(s.place[i]) && Owns(s.place[j]) ==> i == j)
    && (forall i: nat {:trigger s.place[i]} :: i < |s.place| && Owns(s.place[i]) ==> s.locked)
    && (s.locked ==> exists i: nat {:trigger s.place[i]} :: i < |s.place| && Owns(s.place[i]))
    && (forall i: nat {:trigger s.place[i]} :: i < |s.place| ==> LockedAt(s.place[i], s.locked, s.queue))
  }

  /** Some task is about to let w go on. */
  ghost predicate Thaws(s: State, w: nat) {
    exists i: nat {:trigger s.place[i]} :: i < |s.place| && s.place[i] == Thawing(w)
  }

  ghost predicate Waits(s: State, w: nat) {
    w < |s.place| == |s.status| && s.status[w] == Frozen && (s.place[w] == LockRelease || s.place[w] == Yielding)
  }

  /** The frozen tasks are those in the queue, but for one that is on its way into or out of it. */
  ghost predicate QueueOk(s: State) {
    && |s.place| == |s.status|
    && (forall k: nat {:trigger s.queue[k]} :: k < |s.queue| ==> Waits(s, s.queue[k]))
    && (forall k: nat, l: nat {:trigger s.queue[k], s.queue[l]} :: k < |s.queue| && l < |s.queue| && s.queue[k] == s.queue[l] ==> k == l)
    && (forall w: nat {:trigger s.status[w]} :: w < |s.status| && s.status[w] == Frozen ==> s.place[w] == Queueing || (Waits(s, w) && (w in s.queue || Thaws(s, w))))
    && (forall i: nat {:trigger s.place[i]} :: i < |s.place| && s.place[i].Thawing? ==> Waits(s, s.place[i].task) && s.place[i].task !in s.queue)
    && (forall i: nat {:trigger s.place[i]} :: i < |s.place| && s.place[i] == Queueing ==> s.status[i] == Frozen && i !in s.queue)
  }

  /** Whoever waits does so for a mutex that is locked or just being unlocked. */
  ghost predicate NoneForgotten(s: State) {
    s.queue != [] && !s.locked ==> exists i: nat {:trigger s.place[i]} :: i < |s.place| && Emptying(s.place[i])
  }

  ghost predicate Inv(s: State) { SpinOk(s) && LockedOk(s) && QueueOk(s) && NoneForgotten(s) }

  /** One task moves at a time. */
  lemma OneMoves(s: State, m: Move)
    requires |s.place| == |s.status| && m.t < |s.place|
    ensures Next(s, m).place == s.place[m.t := Next(s, m).place[m.t]]
  {
    if m.Go? {
      OneGoes(s, m.t);
    }
  }

  lemma OneGoes(s: State, t: nat)
    requires t < |s.place| == |s.status|
    ensures Going(s, t).place == s.place[t := Going(s, t).place[t]]
  {
  }

  /** The spinlock lets only one into the window. */
  lemma SpinMoves(s: State, m: Move)
    requires |s.place| == |s.status| && m.t < |s.place|
    ensures InWindow(Next(s, m).place[m.t]) ==> if InWindow(s.place[m.t]) then Next(s, m).spin == s.spin else !s.spin && Next(s, m).spin
    ensures !InWindow(Next(s, m).place[m.t]) && !InWindow(s.place[m.t]) ==> Next(s, m).spin == s.spin
  {
  }

  lemma SpinKept(s: State, m: Move)
    requires |s.place| == |s.status| && SpinOk(s)
    ensures SpinOk(Next(s, m))
  {
    hide Next, InWindow;
    if m.t < |s.place| {
      OneMoves(s, m);
      SpinMoves(s, m);
    } else {
      NoMove(s, m);
    }
  }

  lemma NoMove(s: State, m: Move)
    requires |s.place| == |s.status| <= m.t
    ensures Next(s, m) == s
  {
  }

  /** Whoever reads or writes locked is in the window. */
  lemma LockedMoves(s: State, m: Move)
    requires |s.place| == |s.status| && m.t < |s.place| && LockedAt(s.place[m.t], s.locked, s.queue)
    ensures Owns(Next(s, m).place[m.t]) ==> Next(s, m).locked == (s.locked || !Owns(s.place[m.t])) && (Owns(s.place[m.t]) || !s.locked)
    ensures !Owns(Next(s, m).place[m.t]) ==> Next(s, m).locked == (s.locked && !Owns(s.place[m.t]))
    ensures LockedAt(Next(s, m).place[m.t], Next(s, m).locked, Next(s, m).queue)
    ensures Next(s, m).locked != s.locked || Next(s, m).queue != s.queue ==> InWindow(s.place[m.t])
    ensures !InWindow(s.place[m.t]) ==> Next(s, m).queue == s.queue
  {
  }

  lemma OutsideIsFree(p: Place, locked: bool, queue: seq<nat>)
    requires !InWindow(p)
    ensures LockedAt(p, locked, queue)
  {
  }

  lemma LockedKept(s: State, m: Move)
    requires |s.place| == |s.status| && SpinOk(s) && LockedOk(s)
    ensures LockedOk(Next(s, m))
  {
    hide Next, InWindow, Owns, LockedAt;
    if m.t >= |s.place| {
      NoMove(s, m);
      return;
    }
    var r, t := Next(s, m), m.t;
    OneMoves(s, m);
    LockedMoves(s, m);
    forall i: nat | i < |r.place| ensures LockedAt(r.place[i], r.locked, r.queue) {
      if i != t && InWindow(s.place[t]) {
        assert !InWindow(s.place[i]);
        OutsideIsFree(r.place[i], r.locked, r.queue);
      }
    }
    if r.locked {
      if Owns(r.place[t]) {
      } else {
        var i: nat :| i < |s.place| && Owns(s.place[i]);
        assert r.place[i] == s.place[i];
      }
    }
  }

  /** A place that has nothing to do with the queue. */
  predicate Apart(p: Place) { !p.Queueing? && !p.LockRelease? && !p.Yielding? && !p.Thawing? }

  /** The task stays where it was for the queue, or is not in it before and after. */
  predicate QuietStep(p: Place, frozen: bool, p': Place) {
    if Apart(p') then Apart(p) || (!frozen && p == Yielding) else p == p' || (p == LockRelease && p' == Yielding)
  }

  /** Moves that change neither queue nor who is frozen. */
  lemma QuietKept(s: State, r: State, t: nat, p: Place)
    requires SpinOk(s) && QueueOk(s) && t < |s.place|
    requires r.place == s.place[t := p] && r.queue == s.queue && |r.status| == |s.status|
    requires forall i: nat {:trigger r.status[i]} :: i < |r.status| ==> (r.status[i] == Frozen <==> s.status[i] == Frozen)
    requires QuietStep(s.place[t], s.status[t] == Frozen, p)
    ensures QueueOk(r)
  {
    hide SpinOk;
    assert forall w: nat :: w < |s.place| && Waits(s, w) ==> Waits(r, w);
    assert forall i: nat {:trigger r.place[i]} :: i < |r.place| && r.place[i].Thawing? ==> r.place[i] == s.place[i];
    forall w: nat | w < |r.status| && r.status[w] == Frozen
      ensures r.place[w] == Queueing || (Waits(r, w) && (w in r.queue || Thaws(r, w)))
    {
      assert s.status[w] == Frozen;
      if Thaws(s, w) {
        var i: nat :| i < |s.place| && s.place[i] == Thawing(w);
        assert r.place[i] == Thawing(w);
      }
    }
  }

  /** While one task is in the window, no other is between freezing and queueing, or letting one go on. */
  ghost predicate Alone(s: State, t: nat) {
    forall i: nat {:trigger s.place[i]} :: i < |s.place| && i != t ==> !s.place[i].Queueing? && !s.place[i].LockRelease? && !s.place[i].Thawing?
  }

  lemma WindowAlone(s: State, t: nat)
    requires SpinOk(s) && t < |s.place| && InWindow(s.place[t])
    ensures Alone(s, t)
  {
  }

  lemma FreezeKept(s: State, t: nat)
    requires QueueOk(s) && t < |s.place| && s.place[t] == Freezing && Alone(s, t)
    ensures QueueOk(s.(place := s.place[t := Queueing], status := s.status[t := Frozen]))
  {
    var r := s.(place := s.place[t := Queueing], status := s.status[t := Frozen]);
    assert s.status[t] != Frozen;
    assert forall w: nat :: w != t && Waits(s, w) ==> Waits(r, w);
    assert forall w: nat :: !Thaws(s, w);
  }

  lemma EnqueueKept(s: State, t: nat)
    requires QueueOk(s) && t < |s.place| && s.place[t] == Queueing && Alone(s, t)
    ensures QueueOk(s.(place := s.place[t := LockRelease], queue := s.queue + [t]))
  {
    var r := s.(place := s.place[t := LockRelease], queue := s.queue + [t]);
    assert forall w: nat :: w != t && Waits(s, w) ==> Waits(r, w);
    assert forall w: nat :: !Thaws(s, w);
    assert r.queue[|s.queue|] == t;
    forall w: nat | w < |r.status| && r.status[w] == Frozen ensures Waits(r, w) && w in r.queue {
      assert s.status[w] == Frozen;
    }
    forall k: nat | k < |r.queue| ensures Waits(r, r.queue[k]) {
      if k < |s.queue| {
        assert r.queue[k] == s.queue[k];
      }
    }
  }

  lemma DequeueKept(s: State, t: nat)
    requires QueueOk(s) && t < |s.place| && s.place[t] == Draining && s.queue != [] && Alone(s, t)
    ensures QueueOk(s.(place := s.place[t := Thawing(s.queue[0])], queue := s.queue[1..]))
  {
    var w0 := s.queue[0];
    var r := s.(place := s.place[t := Thawing(w0)], queue := s.queue[1..]);
    Shorter(s.queue);
    assert forall w: nat :: Waits(s, w) ==> Waits(r, w);
    assert forall w: nat :: !Thaws(s, w);
    assert r.place[t] == Thawing(w0);
    forall w: nat | w < |r.status| && r.status[w] == Frozen ensures Waits(r, w) && (w in r.queue || Thaws(r, w)) {
      assert s.status[w] == Frozen;
      assert w in s.queue;
    }
  }

  /** A queue without its first element. */
  lemma Shorter(q: seq<nat>)
    requires q != [] && forall k: nat, l: nat {:trigger q[k], q[l]} :: k < |q| && l < |q| && q[k] == q[l] ==> k == l
    ensures forall k: nat {:trigger q[1..][k]} :: k < |q| - 1 ==> q[1..][k] in q && q[1..][k] != q[0]
    ensures forall k: nat, l: nat {:trigger q[1..][k], q[1..][l]} :: k < |q| - 1 && l < |q| - 1 && q[1..][k] == q[1..][l] ==> k == l
    ensures forall w: nat {:trigger w in q} :: w in q ==> w == q[0] || w in q[1..]
  {
  }

  lemma ThawKept(s: State, t: nat)
    requires QueueOk(s) && t < |s.place| && s.place[t].Thawing? && Alone(s, t)
    ensures s.place[t].task < |s.status|
    ensures QueueOk(s.(place := s.place[t := Draining], status := s.status[s.place[t].task := InQueue]))
  {
    var w0 := s.place[t].task;
    assert Waits(s, w0) && w0 !in s.queue;
    var r := s.(place := s.place[t := Draining], status := s.status[w0 := InQueue]);
    assert forall w: nat :: w != w0 && Waits(s, w) ==> Waits(r, w);
    assert forall w: nat :: Thaws(s, w) ==> w == w0;
    forall w: nat | w < |r.status| && r.status[w] == Frozen ensures Waits(r, w) && w in r.queue {
      assert w != w0 && s.status[w] == Frozen;
    }
  }

  /** The moves that change the queue or freeze or free a task. */
  predicate Stirs(p: Place, queue: seq<nat>) { p == Freezing || p == Queueing || (p == Draining && queue != []) || p.Thawing? }

  lemma StirKept(s: State, t: nat)
    requires QueueOk(s) && t < |s.place| && Stirs(s.place[t], s.queue) && Alone(s, t)
    ensures |s.place| == |s.status| && QueueOk(Going(s, t))
  {
    hide QueueOk, Alone;
    QueueLength(s);
    match s.place[t]
    case Freezing => FreezeKept(s, t);
    case Queueing => EnqueueKept(s, t);
    case Thawing(_) => ThawKept(s, t);
    case _ => DequeueKept(s, t);
  }

  lemma QuietGoes(s: State, t: nat)
    requires t < |s.place| == |s.status| && !Stirs(s.place[t], s.queue)
    ensures Going(s, t).queue == s.queue
    ensures Going(s, t).status == s.status || (s.status[t] != Frozen && Going(s, t).status == s.status[t := Running])
    ensures QuietStep(s.place[t], s.status[t] == Frozen, Going(s, t).place[t])
  {
  }

  lemma QuietMoves(s: State, m: Move)
    requires |s.place| == |s.status| && m.t < |s.place| && (m.Go? ==> !Stirs(s.place[m.t], s.queue))
    ensures Next(s, m).queue == s.queue
    ensures forall i: nat {:trigger Next(s, m).status[i]} :: i < |s.status| ==> (Next(s, m).status[i] == Frozen <==> s.status[i] == Frozen)
    ensures QuietStep(s.place[m.t], s.status[m.t] == Frozen, Next(s, m).place[m.t])
  {
    hide Going, Stirs;
    if m.Go? {
      QuietGoes(s, m.t);
    }
  }

  lemma QueueKept(s: State, m: Move)
    requires SpinOk(s) && QueueOk(s)
    ensures |s.place| == |s.status| && QueueOk(Next(s, m))
  {
    hide QueueOk, SpinOk, Alone, Going, Apart, QuietStep;
    QueueLength(s);
    if m.t < |s.place| {
      if m.Go? && Stirs(s.place[m.t], s.queue) {
        WindowAlone(s, m.t);
        StirKept(s, m.t);
      } else {
        OneMoves(s, m);
        QuietMoves(s, m);
        QuietKept(s, Next(s, m), m.t, Next(s, m).place[m.t]);
      }
    }
  }

  lemma QueueLength(s: State)
    requires QueueOk(s)
    ensures |s.place| == |s.status|
  {
  }

  lemma ForgottenKept(s: State, m: Move)
    requires |s.place| == |s.status| && SpinOk(s) && LockedOk(s) && NoneForgotten(s)
    ensures NoneForgotten(Next(s, m))
  {
    if Next(s, m).queue != [] && !Next(s, m).locked {
      var r, t := Next(s, m), m.t;
      if s.queue != [] && !s.locked {
        var i: nat :| i < |s.place| && Emptying(s.place[i]);
        assert Emptying(r.place[i]);
      } else {
        assert Emptying(r.place[t]);
      }
    }
  }

  lemma InitialOk(n: nat)
    ensures Inv(Initial(n))
  {
  }

  /** The invariant holds after every interleaving. */
  lemma {:induction false} AlwaysOk(n: nat, run: seq<Move>)
    ensures Inv(After(n, run))
  {
    hide Inv, SpinOk, LockedOk, QueueOk, NoneForgotten, Next;
    if run == [] {
      InitialOk(n);
    } else {
      var s, m := After(n, run[..|run| - 1]), run[|run| - 1];
      AlwaysOk(n, run[..|run| - 1]);
      Kept(s, m);
    }
  }

  lemma Kept(s: State, m: Move)
    requires |s.place| == |s.status| && Inv(s)
    ensures Inv(Next(s, m))
  {
    hide SpinOk, LockedOk, QueueOk, NoneForgotten, Next;
    SpinKept(s, m);
    LockedKept(s, m);
    QueueKept(s, m);
    ForgottenKept(s, m);
  }

  /** At most one task is between the return of mutex_lock and mutex_unlock, and locked says whether one is. */
  lemma OneHolder(n: nat, run: seq<Move>, i: nat, j: nat)
    requires i < n && j < n && Owns(After(n, run).place[i]) && Owns(After(n, run).place[j])
    ensures i == j && After(n, run).locked
  {
    AlwaysOk(n, run);
  }

  /** The number of times w is in the queue. */
  function Times(q: seq<nat>, w: nat): nat { multiset(q)[w] }

  lemma DistinctTimes(q: seq<nat>, w: nat)
    requires forall k: nat, l: nat {:trigger q[k], q[l]} :: k < |q| && l < |q| && q[k] == q[l] ==> k == l
    ensures Times(q, w) == if w in q then 1 else 0
  {
    if w in q {
      var k :| 0 <= k < |q| && q[k] == w;
      assert q == q[..k] + [w] + q[k + 1..];
      assert w !in q[..k] && w !in q[k + 1..];
    }
  }

  /**
    A task is in the queue at most once, and only while it is frozen; outside the spinlocked
    windows the frozen tasks are exactly those in the queue.
   */
  lemma QueuedOnce(n: nat, run: seq<Move>, w: nat)
    requires w < n
    ensures Times(After(n, run).queue, w) <= 1
    ensures After(n, run).status[w] != Frozen ==> Times(After(n, run).queue, w) == 0
    ensures (forall i: nat {:trigger After(n, run).place[i]} :: i < n ==> !InWindow(After(n, run).place[i])) && After(n, run).status[w] == Frozen ==>
              Times(After(n, run).queue, w) == 1 && After(n, run).place[w] == Yielding
  {
    hide SpinOk, LockedOk, NoneForgotten;
    AlwaysOk(n, run);
    var s := After(n, run);
    DistinctTimes(s.queue, w);
    if s.status[w] == Frozen && forall i: nat {:trigger s.place[i]} :: i < n ==> !InWindow(s.place[i]) {
      assert !InWindow(s.place[w]) && !Thaws(s, w);
    }
  }

  /** Outside the windows, a task waits only for a mutex that some task holds. */
  lemma NobodyForgotten(n: nat, run: seq<Move>, w: nat)
    requires w < n && !After(n, run).locked && After(n, run).status[w] == Frozen
    ensures exists i: nat {:trigger After(n, run).place[i]} :: i < n && InWindow(After(n, run).place[i])
  {
    AlwaysOk(n, run);
    var s := After(n, run);
    if !InWindow(s.place[w]) {
      if w !in s.queue {
        assert Thaws(s, w);
      }
    }
  }

  /** When mutex_unlock lets the spinlock go, no task is frozen any more: all that were enqueued before go on. */
  lemma UnlockFreesAll(n: nat, run: seq<Move>, u: nat, w: nat)
    requires u < n && w < n && After(n, run).place[u] == UnlockRelease
    ensures After(n, run).status[w] != Frozen
  {
    AlwaysOk(n, run);
    var s := After(n, run);
    assert InWindow(s.place[u]) && LockedAt(s.place[u], s.locked, s.queue);
    assert w != u ==> !InWindow(s.place[w]);
    assert !Thaws(s, w);
  }

  /** How many steps the task still needs to leave the window. */
  function Remaining(p: Place, queue: seq<nat>): nat {
    match p
    case LockTest => 4
    case Freezing => 3
    case Queueing => 2
    case LockRelease => 1
    case Taking => 2
    case TakenRelease => 1
    case Clearing => 3 + 2 * |queue|
    case Draining => 2 + 2 * |queue|
    case Thawing(_) => 3 + 2 * |queue|
    case UnlockRelease => 1
    case _ => 0
  }

  /** The spinlock is held for a bounded number of steps of its holder, whatever the others do. */
  lemma WindowEnds(n: nat, run: seq<Move>, t: nat, m: Move)
    requires t < n && InWindow(After(n, run).place[t])
    ensures m == Go(t) ==> Remaining(Next(After(n, run), m).place[t], Next(After(n, run), m).queue) < Remaining(After(n, run).place[t], After(n, run).queue)
    ensures m.t != t ==> Next(After(n, run), m).place[t] == After(n, run).place[t] && Next(After(n, run), m).queue == After(n, run).queue
  {
    AlwaysOk(n, run);
    var s := After(n, run);
    if m.t < n && m.t != t {
      assert !InWindow(s.place[m.t]);
      LockedMoves(s, m);
    }
  }
}
