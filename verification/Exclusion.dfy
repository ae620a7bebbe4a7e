/** Jobs that share a lock key (`run_job` and `try_run_exclusive`,
    shared/scheduler/scheduler.py), interleaved in any way. A lock is an
    `asyncio.Lock`: releasing it unlocks it and wakes the first waiter, which
    takes it when it is next scheduled; until then others queue behind. */
module Exclusion {
  import opened Options

  type Task = nat
  type Key = string

  /** A lock, and what happened on its key: the bodies running under it, the
      calls let in so far, and those whose body has started, both in order. */
  datatype Lock = Lock(locked: bool, waiting: seq<Task>, woken: bool,
                       running: multiset<Task>, admitted: seq<Task>, started: seq<Task>)

  const Fresh := Lock(false, [], false, multiset{}, [], [])

  /** `acquire`, up to where it returns or suspends. */
  function Acquire(l: Lock, t: Task): Lock {
    var l' := l.(admitted := l.admitted + [t]);
    if !l.locked && l.waiting == [] then Start(l', t) else l'.(waiting := l.waiting + [t])
  }

  /** The lock is taken, and the body runs. */
  function Start(l: Lock, t: Task): Lock {
    l.(locked := true, running := l.running + multiset{t}, started := l.started + [t])
  }

  /** The woken waiter goes on. */
  function Resume(l: Lock): Lock
    requires l.woken && l.waiting != []
  {
    Start(l.(woken := false, waiting := l.waiting[1..]), l.waiting[0])
  }

  /** A body ends, whether it returned or raised, and `release` follows. */
  function Finish(l: Lock, t: Task): Lock
    requires t in l.running
  {
    l.(locked := false, woken := l.waiting != [], running := l.running - multiset{t})
  }

  // ---------------------------------------------------------------------
  // The scheduler
  // ---------------------------------------------------------------------

  /** The locks by key, made when first asked for, and bodies without a key. */
  datatype State = State(locks: map<Key, Lock>, free: multiset<Task>)

  function LockFor(s: State, k: Key): Lock { if k in s.locks then s.locks[k] else Fresh }

  datatype Event =
    | RunJob(task: Task, key: Option<Key>)
    | TryRun(task: Task, k: Key)
    | Resumes(k: Key)
    | Finishes(task: Task, key: Option<Key>)

  predicate Enabled(s: State, e: Event) {
    match e
    case RunJob(_, _) => true
    case TryRun(_, _) => true
    case Resumes(k) => LockFor(s, k).woken && LockFor(s, k).waiting != []
    case Finishes(t, Some(k)) => t in LockFor(s, k).running
    case Finishes(t, None) => t in s.free
  }

  /** `try_run_exclusive` answers that the key is busy. */
  predicate Refused(s: State, e: Event) { e.TryRun? && LockFor(s, e.k).locked }

  function Put(s: State, k: Key, l: Lock): State { s.(locks := s.locks[k := l]) }

  function Next(s: State, e: Event): State
    requires Enabled(s, e)
  {
    match e
    case RunJob(t, Some(k)) => Put(s, k, Acquire(LockFor(s, k), t))
    case RunJob(t, None) => s.(free := s.free + multiset{t})
    case TryRun(t, k) => if Refused(s, e) then Put(s, k, LockFor(s, k)) else Put(s, k, Acquire(LockFor(s, k), t))
    case Resumes(k) => Put(s, k, Resume(LockFor(s, k)))
    case Finishes(t, Some(k)) => Put(s, k, Finish(LockFor(s, k), t))
    case Finishes(t, None) => s.(free := s.free - multiset{t})
  }

  predicate Possible(s: State, run: seq<Event>)
    decreases |run|
  {
    run == [] || (Enabled(s, run[0]) && Possible(Next(s, run[0]), run[1..]))
  }

  function After(s: State, run: seq<Event>): State
    requires Possible(s, run)
    decreases |run|
  {
    if run == [] then s else After(Next(s, run[0]), run[1..])
  }

  const Idle := State(map[], multiset{})

  // ---------------------------------------------------------------------
  // What every run keeps
  // ---------------------------------------------------------------------

  predicate Sound(l: Lock) {
    && |l.running| == (if l.locked then 1 else 0)
    && (l.woken <==> !l.locked && l.waiting != [])
    && l.started + l.waiting == l.admitted
  }

  predicate AllSound(s: State) { forall k | k in s.locks :: Sound(s.locks[k]) }

  lemma StepSound(s: State, e: Event)
    requires AllSound(s) && Enabled(s, e)
    ensures AllSound(Next(s, e))
  {
    match e
    case RunJob(t, Some(k)) => AcquireSound(LockFor(s, k), t);
    case TryRun(t, k) => AcquireSound(LockFor(s, k), t);
    case Resumes(k) => ResumeSound(LockFor(s, k));
    case _ =>
  }

  lemma AcquireSound(l: Lock, t: Task)
    requires Sound(l)
    ensures Sound(Acquire(l, t))
  {}

  lemma ResumeSound(l: Lock)
    requires Sound(l) && l.woken
    ensures Sound(Resume(l))
  {
    assert l.started + [l.waiting[0]] + l.waiting[1..] == l.started + l.waiting;
  }

  lemma {:induction false} RunSound(s: State, run: seq<Event>)
    requires AllSound(s) && Possible(s, run)
    ensures AllSound(After(s, run))
    decreases |run|
  {
    if run != [] {
      StepSound(s, run[0]);
      RunSound(Next(s, run[0]), run[1..]);
    }
  }

  /** However calls interleave, two bodies never run under one key, and a lock is
      held exactly while a body runs under it. */
  lemma AtMostOneBody(run: seq<Event>, k: Key)
    requires Possible(Idle, run)
    ensures var l := LockFor(After(Idle, run), k); |l.running| <= 1 && (l.locked <==> |l.running| == 1)
  {
    RunSound(Idle, run);
  }

  /** Nobody let in is lost, starts twice, or starts out of turn. */
  lemma FirstComeFirstServed(run: seq<Event>, k: Key)
    requires Possible(Idle, run)
    ensures var l := LockFor(After(Idle, run), k); l.started <= l.admitted && l.started + l.waiting == l.admitted
  {
    RunSound(Idle, run);
  }

  /** What happens on one key leaves the others alone. */
  lemma OtherKeys(s: State, e: Event, k: Key)
    requires Enabled(s, e) && match e case RunJob(_, key) => key != Some(k) case Finishes(_, key) => key != Some(k)
                                   case TryRun(_, j) => j != k case Resumes(j) => j != k
    ensures LockFor(Next(s, e), k) == LockFor(s, k)
  {}

  // ---------------------------------------------------------------------
  // Nobody waits for ever
  // ---------------------------------------------------------------------

  predicate OwnStep(e: Event, k: Key) { e == Resumes(k) || (e.Finishes? && e.key == Some(k)) }

  /** A run of a key's bodies ending and its woken waiters going on, and nothing
      else, after which everybody let in by now has started. */
  predicate Drained(s: State, k: Key, run: seq<Event>) {
    && Possible(s, run) && (forall i | 0 <= i < |run| :: OwnStep(run[i], k))
    && LockFor(After(s, run), k).waiting == []
    && LockFor(After(s, run), k).started == LockFor(s, k).admitted
  }

  lemma DrainedCons(s: State, k: Key, e: Event, run: seq<Event>)
    requires Enabled(s, e) && OwnStep(e, k) && Drained(Next(s, e), k, run)
    ensures Drained(s, k, [e] + run)
  {
    assert ([e] + run)[1..] == run;
  }

  /** No wake-up is lost: two steps a waiter are enough to start them all. */
  lemma {:induction false} Drains(s: State, k: Key) returns (run: seq<Event>)
    requires AllSound(s)
    ensures Drained(s, k, run) && |run| <= 2 * |LockFor(s, k).waiting|
    decreases |LockFor(s, k).waiting|
  {
    var l := LockFor(s, k);
    if l.waiting == [] {
      run := [];
    } else if l.locked {
      var t :| t in l.running;
      var s1 := Next(s, Finishes(t, Some(k)));
      StepSound(s, Finishes(t, Some(k)));
      StepSound(s1, Resumes(k));
      run := Drains(Next(s1, Resumes(k)), k);
      DrainedCons(s1, k, Resumes(k), run);
      DrainedCons(s, k, Finishes(t, Some(k)), [Resumes(k)] + run);
      run := [Finishes(t, Some(k))] + ([Resumes(k)] + run);
    } else {
      StepSound(s, Resumes(k));
      run := Drains(Next(s, Resumes(k)), k);
      DrainedCons(s, k, Resumes(k), run);
      run := [Resumes(k)] + run;
    }
  }

  // ---------------------------------------------------------------------
  // Trying without queueing
  // ---------------------------------------------------------------------

  /** A try that is not refused runs its body at once exactly when nobody is
      waiting; otherwise it queues. It is refused exactly when a body runs. */
  lemma TryRunIff(s: State, t: Task, k: Key)
    requires AllSound(s)
    ensures var l := LockFor(s, k); var l' := LockFor(Next(s, TryRun(t, k)), k);
            && (Refused(s, TryRun(t, k)) <==> |l.running| == 1)
            && (Refused(s, TryRun(t, k)) ==> l' == l)
            && (l'.started == l.started + [t] <==> !l.locked && !l.woken)
            && (l'.waiting == l.waiting + [t] <==> l.woken)
  {
    assert Sound(LockFor(s, k));
  }

  /** The source promises that a try never queues behind a scheduled job. It does
      when it comes between a release and the turn of the waiter just woken. */
  lemma TryRunQueues()
    ensures var run := [RunJob(1, Some("ingest")), RunJob(2, Some("ingest")), Finishes(1, Some("ingest"))];
            && Possible(Idle, run)
            && !Refused(After(Idle, run), TryRun(3, "ingest"))
            && LockFor(Next(After(Idle, run), TryRun(3, "ingest")), "ingest").waiting == [2, 3]
  {
    var k := "ingest";
    var run := [RunJob(1, Some(k)), RunJob(2, Some(k)), Finishes(1, Some(k))];
    var s1 := Next(Idle, run[0]);
    assert s1.locks[k] == Lock(true, [], false, multiset{1}, [1], [1]);
    var s2 := Next(s1, run[1]);
    assert s2.locks[k] == Lock(true, [2], false, multiset{1}, [1, 2], [1]);
    var s3 := Next(s2, run[2]);
    assert s3.locks[k] == Lock(false, [2], true, multiset{}, [1, 2], [1]);
    assert run[1..] == [run[1], run[2]] && run[1..][1..] == [run[2]] && run[1..][1..][1..] == [];
    assert After(s3, []) == s3 && After(s2, run[1..][1..]) == s3 && After(s1, run[1..]) == s3;
  }
}
