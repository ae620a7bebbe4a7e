/** Read-modify-write against a page revision, retried on conflict
    (shared/inbox/interface.py `_write` over the store contract of
    shared/wiki/lapis_client.py), as interleaved steps of any number of writers
    and of people editing the page. */
module Occ {
  import opened Options

  const WRITE_ATTEMPTS := 3

  /** The page as a store holds it. */
  datatype File<T> = File(content: T, revision: string)

  /** A writer's change: from the page, or from no page, to the page it writes;
      None when the content cannot be read and the change raises. */
  type Change<!T> = Option<T> -> Option<T>

  /** Where one `_write` stands. */
  datatype Phase<T> =
    | Ready(attempt: nat)
    | HasRead(attempt: nat, seen: Option<File<T>>)
    | Returned
    | Raised

  datatype Event<T> = Committed(writer: nat) | Edited(content: Option<T>)

  /** `bound` is every revision ever given to a content. */
  datatype World<T> = World(file: Option<File<T>>, bound: map<string, T>, writers: seq<Phase<T>>, log: seq<Event<T>>)

  datatype Step<T> = Read(c: nat) | Write(c: nat, revision: string) | Edit(content: Option<T>, revision: string)

  function Content<T>(f: Option<File<T>>): Option<T> {
    match f case Some(x) => Some(x.content) case None => None
  }

  /** A store never gives one revision to two contents. */
  predicate FreshFor<T(==)>(w: World<T>, revision: string, content: T) {
    revision in w.bound ==> w.bound[revision] == content
  }

  function Store<T>(w: World<T>, content: T, revision: string): World<T> {
    w.(file := Some(File(content, revision)), bound := w.bound[revision := content])
  }

  /** `create` succeeds on a missing page, `write` on the revision read. */
  predicate Matches<T(==)>(seen: Option<File<T>>, now: Option<File<T>>) {
    match seen
    case None => now.None?
    case Some(f) => now.Some? && now.value.revision == f.revision
  }

  ghost predicate Enabled<T(!new)>(changes: seq<Change<T>>, w: World<T>, s: Step<T>) {
    match s
    case Read(c) => c < |w.writers| && w.writers[c].Ready?
    case Write(c, r) =>
      && c < |w.writers| && c < |changes| && w.writers[c].HasRead?
      && (changes[c](Content(w.writers[c].seen)).Some? ==> FreshFor(w, r, changes[c](Content(w.writers[c].seen)).value))
    case Edit(content, r) => content.Some? ==> FreshFor(w, r, content.value)
  }

  function Next<T(==)>(changes: seq<Change<T>>, w: World<T>, s: Step<T>): World<T> {
    match s
    case Read(c) =>
      if c < |w.writers| && w.writers[c].Ready?
          then w.(writers := w.writers[c := HasRead(w.writers[c].attempt, w.file)])
      else w
    case Write(c, r) =>
      if c < |w.writers| && c < |changes| && w.writers[c].HasRead? then
        var HasRead(n, seen) := w.writers[c];
        match changes[c](Content(seen))
        case None => w.(writers := w.writers[c := Raised])
        case Some(content) =>
          if Matches(seen, w.file) then
            Store(w, content, r).(writers := w.writers[c := Returned], log := w.log + [Committed(c)])
          else if n + 1 < WRITE_ATTEMPTS then w.(writers := w.writers[c := Ready(n + 1)])
          else w.(writers := w.writers[c := Raised])
      else w
    case Edit(content, r) =>
      var e := w.(log := w.log + [Edited(content)]);
      match content
      case None => e.(file := None)
      case Some(x) => Store(e, x, r)
  }

  function RunSteps<T(==)>(changes: seq<Change<T>>, w: World<T>, steps: seq<Step<T>>): World<T>
    decreases |steps|
  {
    if steps == [] then w else RunSteps(changes, Next(changes, w, steps[0]), steps[1..])
  }

  ghost predicate Possible<T(!new)>(changes: seq<Change<T>>, w: World<T>, steps: seq<Step<T>>)
    decreases |steps|
  {
    steps != [] ==> Enabled(changes, w, steps[0]) && Possible(changes, Next(changes, w, steps[0]), steps[1..])
  }

  function Start<T>(file: Option<File<T>>, writers: nat): World<T> {
    World(file, if file.Some? then map[file.value.revision := file.value.content] else map[],
          seq(writers, _ => Ready(0)), [])
  }

  // ---------------------------------------------------------------------
  // What a run leaves
  // ---------------------------------------------------------------------

  /** The page after the logged events: each committed change applied, once and
      in commit order, to the page as it then was. */
  function Replay<T>(changes: seq<Change<T>>, first: Option<T>, log: seq<Event<T>>): Option<T> {
    if log == [] then first
    else Effect(changes, Replay(changes, first, log[..|log| - 1]), log[|log| - 1])
  }

  function Effect<T>(changes: seq<Change<T>>, before: Option<T>, e: Event<T>): Option<T> {
    if e.Edited? then e.content
    else if e.writer < |changes| then changes[e.writer](before)
    else before
  }

  /** Every committed change could be made to the page it met. */
  predicate Sound<T>(changes: seq<Change<T>>, first: Option<T>, log: seq<Event<T>>) {
    log != [] ==>
      var e, rest := log[|log| - 1], log[..|log| - 1];
      Sound(changes, first, rest)
      && (e.Committed? ==> e.writer < |changes| && changes[e.writer](Replay(changes, first, rest)).Some?)
  }

  function Commits<T(==)>(log: seq<Event<T>>, c: nat): nat {
    if log == [] then 0 else Commits(log[..|log| - 1], c) + if log[|log| - 1] == Committed(c) then 1 else 0
  }

  /** The page is the replay of the log, and a writer is in the log exactly if
      it returned, and then once. */
  ghost predicate Inv<T(!new)>(changes: seq<Change<T>>, first: Option<T>, w: World<T>) {
    && Content(w.file) == Replay(changes, first, w.log) && Sound(changes, first, w.log)
    && (w.file.Some? ==> w.file.value.revision in w.bound && w.bound[w.file.value.revision] == w.file.value.content)
    && |w.writers| == |changes|
    && forall c | 0 <= c < |w.writers| :: WriterInv(w, c)
  }

  ghost predicate WriterInv<T(!new)>(w: World<T>, c: nat)
    requires c < |w.writers|
  {
    && Commits(w.log, c) == (if w.writers[c].Returned? then 1 else 0)
    && (w.writers[c].Ready? || w.writers[c].HasRead? ==> w.writers[c].attempt < WRITE_ATTEMPTS)
    && (w.writers[c].HasRead? && w.writers[c].seen.Some? ==>
        var f := w.writers[c].seen.value; f.revision in w.bound && w.bound[f.revision] == f.content)
  }

  lemma ReplayStep<T>(changes: seq<Change<T>>, first: Option<T>, log: seq<Event<T>>, e: Event<T>)
    ensures Replay(changes, first, log + [e]) == Effect(changes, Replay(changes, first, log), e)
    ensures Sound(changes, first, log + [e]) == (Sound(changes, first, log)
              && (e.Committed? ==> e.writer < |changes| && changes[e.writer](Replay(changes, first, log)).Some?))
  {
    assert (log + [e])[..|log|] == log;
  }

  lemma CommitsStep<T>(log: seq<Event<T>>, e: Event<T>, c: nat)
    ensures Commits(log + [e], c) == Commits(log, c) + if e == Committed(c) then 1 else 0
  {
    assert (log + [e])[..|log|] == log;
  }

  /** What was read is still what the matching revision stands for. */
  lemma SeenIsCurrent<T(!new)>(changes: seq<Change<T>>, first: Option<T>, w: World<T>, c: nat)
    requires Inv(changes, first, w) && c < |w.writers| && w.writers[c].HasRead? && Matches(w.writers[c].seen, w.file)
    ensures Content(w.writers[c].seen) == Content(w.file)
  {
    assert WriterInv(w, c);
  }

  lemma OtherWriters<T(!new)>(w: World<T>, v: World<T>, c: nat, d: nat)
    requires c < |w.writers| && |v.writers| == |w.writers| && d < |w.writers| && d != c
    requires WriterInv(w, d) && v.writers[d] == w.writers[d]
    requires forall r | r in w.bound :: r in v.bound && v.bound[r] == w.bound[r]
    requires v.log == w.log || v.log == w.log + [Committed(c)]
    ensures WriterInv(v, d)
  {
    CommitsStep(w.log, Committed(c), d);
  }

  lemma NextKeepsInv<T(!new)>(changes: seq<Change<T>>, first: Option<T>, w: World<T>, s: Step<T>)
    requires Inv(changes, first, w) && Enabled(changes, w, s)
    ensures Inv(changes, first, Next(changes, w, s))
  {
    hide Replay, Commits, Sound;
    var v := Next(changes, w, s);
    match s {
      case Read(c) =>
        forall d | 0 <= d < |v.writers| ensures WriterInv(v, d) { assert WriterInv(w, d); }
      case Edit(content, r) =>
        ReplayStep(changes, first, w.log, Edited(content));
        forall d | 0 <= d < |v.writers| ensures WriterInv(v, d) {
          assert WriterInv(w, d);
          CommitsStep(w.log, Edited(content), d);
        }
      case Write(c, r) =>
        assert WriterInv(w, c);
        ReplayStep(changes, first, w.log, Committed(c));
        CommitsStep(w.log, Committed(c), c);
        if Matches(w.writers[c].seen, w.file) { SeenIsCurrent(changes, first, w, c); }
        forall d | 0 <= d < |v.writers| && d != c ensures WriterInv(v, d) {
          assert WriterInv(w, d);
          OtherWriters(w, v, c, d);
        }
    }
  }

  /** In every interleaving of writers and edits: the page is the replay of what
      was committed and edited, in order; each write that returned was applied
      exactly once, to the page current at its commit; each that raised, or is
      not done, not at all. */
  lemma {:induction false} RunKeepsInv<T(!new)>(changes: seq<Change<T>>, first: Option<T>, w: World<T>,
      steps: seq<Step<T>>)
    requires Inv(changes, first, w) && Possible(changes, w, steps)
    ensures Inv(changes, first, RunSteps(changes, w, steps))
    decreases |steps|
  {
    hide Inv, Enabled, Next;
    if steps != [] {
      NextKeepsInv(changes, first, w, steps[0]);
      RunKeepsInv(changes, first, Next(changes, w, steps[0]), steps[1..]);
    }
  }

  lemma EveryRunIsAReplay<T(!new)>(changes: seq<Change<T>>, file: Option<File<T>>, steps: seq<Step<T>>)
    requires Possible(changes, Start(file, |changes|), steps)
    ensures var w := RunSteps(changes, Start(file, |changes|), steps);
            && Content(w.file) == Replay(changes, Content(file), w.log) && Sound(changes, Content(file), w.log)
            && |w.writers| == |changes|
            && forall c | 0 <= c < |changes| :: Commits(w.log, c) == (if w.writers[c].Returned? then 1 else 0)
  {
    var w0 := Start(file, |changes|);
    assert forall c | 0 <= c < |changes| :: WriterInv(w0, c);
    RunKeepsInv(changes, Content(file), w0, steps);
    var w := RunSteps(changes, w0, steps);
    forall c | 0 <= c < |changes|
      ensures Commits(w.log, c) == (if w.writers[c].Returned? then 1 else 0)
    {
      assert WriterInv(w, c);
    }
  }

  // ---------------------------------------------------------------------
  // Properties every commit keeps
  // ---------------------------------------------------------------------

  /** What every change and every edit keeps holds in every reachable page. */
  lemma {:induction false} ReplayKeeps<T(!new)>(changes: seq<Change<T>>, first: Option<T>, log: seq<Event<T>>,
      good: Option<T> -> bool)
    requires good(first)
    requires forall c, x | 0 <= c < |changes| && good(x) && changes[c](x).Some? :: good(changes[c](x))
    requires forall e | e in log :: e.Edited? ==> good(e.content)
    requires Sound(changes, first, log)
    ensures good(Replay(changes, first, log))
  {
    if log != [] {
      ReplayKeeps(changes, first, log[..|log| - 1], good);
      assert log[|log| - 1] in log;
    }
  }
}
