/** One channel's threads, cached over the vault (shared/wiki/threads.py). */
module ThreadStore {
  import opened Options
  import opened Vault
  import opened Text

  /** What the store reads from a thread page. */
  datatype Facts = Facts(slug: string, state: string, last: Option<int>)

  datatype Stored = Stored(path: Path, facts: Facts, content: string, revision: string, archived: bool)

  /** How page text is read: its facts, if it parses and is a thread, and what
      dumping the parsed page gives. */
  datatype Pages = Pages(facts: string -> Option<Facts>, dump: string -> string)

  /** Dumping a thread page keeps its facts. */
  ghost predicate PagesOk(g: Pages) {
    forall c {:trigger g.dump(c)} :: g.facts(c).Some? ==> g.facts(g.dump(c)) == g.facts(c)
  }

  /** A revision is never empty. */
  ghost predicate Hashes(rev: string -> string) { forall c :: rev(c) != "" }

  /** `_to_thread`. */
  function ToThread(g: Pages, rev: string -> string, p: Path, content: string, archived: bool): Option<Stored> {
    match g.facts(content)
    case None => None
    case Some(f) => Some(Stored(p, f, content, rev(content), archived))
  }

  predicate IsThread(g: Pages, files: Files, dir: string, p: Path) {
    p in files && p.dir == dir && g.facts(files[p]).Some?
  }

  /** File names equal to slugs. */
  predicate NamesMatch(g: Pages, files: Files, dir: string) {
    forall p | p in files && IsThread(g, files, dir, p) :: g.facts(files[p]).value.slug == p.name
  }

  /** What loading the pages `which` of a directory returns. */
  function LoadSome(g: Pages, rev: string -> string, files: Files, dir: string, archived: bool,
      which: set<Path>): map<string, Stored>
  {
    map p | p in which && IsThread(g, files, dir, p) :: p.name := ToThread(g, rev, p, files[p], archived).value
  }

  /** What a fresh `_load` of a directory returns. */
  function Load(g: Pages, rev: string -> string, files: Files, dir: string, archived: bool): map<string, Stored> {
    LoadSome(g, rev, files, dir, archived, files.Keys)
  }

  lemma LoadSomeHas(g: Pages, rev: string -> string, files: Files, dir: string, archived: bool, which: set<Path>,
      slug: string)
    ensures var m := LoadSome(g, rev, files, dir, archived, which); var p := Path(dir, slug);
            && (slug in m <==> p in which && IsThread(g, files, dir, p))
            && (slug in m ==> m[slug] == ToThread(g, rev, p, files[p], archived).value)
  {
    hide ToThread;
    if Path(dir, slug) in which && IsThread(g, files, dir, Path(dir, slug)) { assert Path(dir, slug).name == slug; }
  }

  /** What is loaded: each thread page of the directory under its name, as it is in
      the vault. */
  lemma LoadMeans(g: Pages, rev: string -> string, files: Files, dir: string, archived: bool, slug: string)
    ensures var m, p := Load(g, rev, files, dir, archived), Path(dir, slug);
            && (slug in m <==> p in files && g.facts(files[p]).Some?)
            && (slug in m ==> m[slug] == Stored(p, g.facts(files[p]).value, files[p], rev(files[p]), archived))
  {
    LoadHas(g, rev, files, dir, archived, slug);
  }

  lemma LoadHas(g: Pages, rev: string -> string, files: Files, dir: string, archived: bool, slug: string)
    ensures var m := Load(g, rev, files, dir, archived); var p := Path(dir, slug);
            && (slug in m <==> IsThread(g, files, dir, p))
            && (slug in m ==> m[slug] == ToThread(g, rev, p, files[p], archived).value)
  {
    hide ToThread, LoadSome;
    LoadSomeHas(g, rev, files, dir, archived, files.Keys, slug);
  }

  lemma LoadAdd(g: Pages, rev: string -> string, files: Files, dir: string, archived: bool, which: set<Path>, p: Path)
    requires p in files && p.dir == dir && p !in which
    ensures LoadSome(g, rev, files, dir, archived, which + {p})
            == if IsThread(g, files, dir, p)
               then
                 LoadSome(g, rev, files, dir, archived, which)
                   [p.name := ToThread(g, rev, p, files[p], archived).value]
               else LoadSome(g, rev, files, dir, archived, which)
  {
    hide ToThread, LoadSome;
    ThreadIs(g, rev, p, files[p], archived);
    var was := LoadSome(g, rev, files, dir, archived, which);
    var now := LoadSome(g, rev, files, dir, archived, which + {p});
    assert p == Path(dir, p.name);
    LoadSomeHas(g, rev, files, dir, archived, which, p.name);
    forall slug
      ensures slug in now <==> slug in was || (slug == p.name && IsThread(g, files, dir, p))
      ensures slug in now && slug != p.name ==> now[slug] == was[slug]
      ensures slug in now && slug == p.name && IsThread(g, files, dir, p)
              ==> now[slug] == ToThread(g, rev, p, files[p], archived).value
    {
      LoadSomeHas(g, rev, files, dir, archived, which, slug);
      LoadSomeHas(g, rev, files, dir, archived, which + {p}, slug);
    }
  }

  lemma LoadOther(g: Pages, rev: string -> string, files: Files, dir: string, archived: bool, now: Files)
    requires forall p: Path | p.dir == dir :: (p in now <==> p in files) && (p in files ==> now[p] == files[p])
    ensures Load(g, rev, now, dir, archived) == Load(g, rev, files, dir, archived)
    ensures NamesMatch(g, files, dir) ==> NamesMatch(g, now, dir)
  {
    hide ToThread, Load;
    var was, m := Load(g, rev, files, dir, archived), Load(g, rev, now, dir, archived);
    forall slug ensures (slug in m <==> slug in was) && (slug in m ==> m[slug] == was[slug]) {
      LoadHas(g, rev, files, dir, archived, slug);
      LoadHas(g, rev, now, dir, archived, slug);
    }
  }

  /** Putting a thread page at its own name changes that entry only. */
  lemma LoadPut(g: Pages, rev: string -> string, files: Files, dir: string, archived: bool, p: Path, content: string)
    requires p.dir == dir && g.facts(content).Some? && NamesMatch(g, files, dir)
             && g.facts(content).value.slug == p.name
    ensures Load(g, rev, files[p := content], dir, archived)
            == Load(g, rev, files, dir, archived)[p.name := ToThread(g, rev, p, content, archived).value]
    ensures NamesMatch(g, files[p := content], dir)
  {
    hide ToThread, Load;
    ThreadIs(g, rev, p, content, archived);
    var was, now := Load(g, rev, files, dir, archived), Load(g, rev, files[p := content], dir, archived);
    assert p == Path(dir, p.name);
    forall slug
      ensures slug in now <==> slug in was || slug == p.name
      ensures slug in now ==> now[slug] == if slug == p.name then ToThread(g, rev, p, content, archived).value
              else was[slug]
    {
      LoadHas(g, rev, files, dir, archived, slug);
      LoadHas(g, rev, files[p := content], dir, archived, slug);
    }
  }

  lemma LoadDelete(g: Pages, rev: string -> string, files: Files, dir: string, archived: bool, p: Path)
    requires p.dir == dir && NamesMatch(g, files, dir)
    ensures Load(g, rev, files - {p}, dir, archived) == Load(g, rev, files, dir, archived) - {p.name}
    ensures NamesMatch(g, files - {p}, dir)
  {
    hide ToThread, Load;
    var was, now := Load(g, rev, files, dir, archived), Load(g, rev, files - {p}, dir, archived);
    forall slug
      ensures slug in now <==> slug in was && slug != p.name
      ensures slug in now ==> now[slug] == was[slug]
    {
      LoadHas(g, rev, files, dir, archived, slug);
      LoadHas(g, rev, files - {p}, dir, archived, slug);
    }
  }

  lemma LoadNone(g: Pages, rev: string -> string, files: Files, dir: string, archived: bool)
    ensures LoadSome(g, rev, files, dir, archived, {}) == map[]
  {}

  lemma LoadWhole(g: Pages, rev: string -> string, files: Files, dir: string, archived: bool, done: set<Path>)
    requires done == set p | p in files && p.dir == dir
    ensures LoadSome(g, rev, files, dir, archived, done) == Load(g, rev, files, dir, archived)
  {
    hide ToThread, LoadSome, Load;
    var m, all := LoadSome(g, rev, files, dir, archived, done), Load(g, rev, files, dir, archived);
    forall slug ensures (slug in m <==> slug in all) && (slug in m ==> m[slug] == all[slug]) {
      LoadSomeHas(g, rev, files, dir, archived, done, slug);
      LoadHas(g, rev, files, dir, archived, slug);
    }
  }

  lemma ThreadIs(g: Pages, rev: string -> string, p: Path, content: string, archived: bool)
    ensures var t := ToThread(g, rev, p, content, archived);
            t.Some? == g.facts(content).Some? && (t.Some? ==> t.value.facts == g.facts(content).value)
  {}

  // ---------------------------------------------------------------------
  // Minting an id
  // ---------------------------------------------------------------------

  /** The base, then `-2`, `-3`, ... */
  function Candidate(base: string, k: nat): string { if k == 1 then base else base + "-" + Digits(k) }

  /** A thread has the id, or a page is where its page would be. */
  predicate Used(live: map<string, Stored>, archived: map<string, Stored>, files: Files, dir: string,
      id: string)
  {
    id in live || id in archived || Path(dir, id) in files
  }

  /** The first candidate is the base itself, and the others are numbered from 2. */
  lemma CandidatesUsed(live: map<string, Stored>, archived: map<string, Stored>, files: Files,
      dir: string, base: string, k: nat)
    requires k >= 1 && !Used(live, archived, files, dir, Candidate(base, k))
    requires forall j: nat | 1 <= j < k :: Used(live, archived, files, dir, Candidate(base, j))
    ensures if Used(live, archived, files, dir, base) then
              k >= 2 && Candidate(base, k) == base + "-" + Digits(k)
              && forall j: nat | 2 <= j < k :: Used(live, archived, files, dir, base + "-" + Digits(j))
            else Candidate(base, k) == base
  {
    assert Candidate(base, 1) == base;
    forall j: nat | 2 <= j < k ensures Used(live, archived, files, dir, base + "-" + Digits(j)) {
      assert Candidate(base, j) == base + "-" + Digits(j);
    }
  }

  lemma CandidatesDiffer(base: string, i: nat, j: nat)
    requires Candidate(base, i) == Candidate(base, j)
    ensures i == j
  {
    DigitsValue(i);
    DigitsValue(j);
    if i != 1 && j != 1 {
      assert Candidate(base, i)[|base| + 1..] == Digits(i) && Candidate(base, j)[|base| + 1..] == Digits(j);
    }
  }

  function Tried(base: string, k: nat): set<string> { set i | 1 <= i < k :: Candidate(base, i) }

  function Names(files: Files): set<string> { set p | p in files :: p.name }

  lemma NamedBy(files: Files, p: Path)
    requires p in files
    ensures p.name in Names(files)
  {}

  lemma NextUntried(base: string, k: nat)
    requires k >= 1
    ensures Candidate(base, k) !in Tried(base, k) && Tried(base, k + 1) == Tried(base, k) + {Candidate(base, k)}
  {
    forall i | 1 <= i < k ensures Candidate(base, i) != Candidate(base, k) {
      if Candidate(base, i) == Candidate(base, k) { CandidatesDiffer(base, i, k); }
    }
  }

  // ---------------------------------------------------------------------
  // Marking threads stale
  // ---------------------------------------------------------------------

  /** The active threads of `which` that are due. */
  function Due(l: map<string, Stored>, which: set<string>, due: Facts -> bool): set<string> {
    set s | s in which && s in l && l[s].facts.state == "active" && due(l[s].facts)
  }

  /** The vault with those pages of a directory rewritten. */
  function Rewritten(files: Files, dir: string, names: set<string>, f: string -> string): Files {
    map p | p in files :: if p.dir == dir && p.name in names then f(files[p]) else files[p]
  }

  lemma NothingDue(l: map<string, Stored>, due: Facts -> bool)
    ensures Due(l, {}, due) == {} && Due(l, l.Keys - l.Keys, due) == {}
  {}

  lemma DueAdd(l: map<string, Stored>, which: set<string>, s: string, due: Facts -> bool)
    requires s in l
    ensures Due(l, which + {s}, due)
            == if l[s].facts.state == "active" && due(l[s].facts) then Due(l, which, due) + {s}
               else Due(l, which, due) + Due(l, {s}, due)
    ensures !(l[s].facts.state == "active" && due(l[s].facts)) ==> Due(l, which + {s}, due) == Due(l, which, due)
  {}

  lemma NothingRewritten(files: Files, dir: string, f: string -> string)
    ensures Rewritten(files, dir, {}, f) == files
  {}

  lemma RewrittenAdd(files: Files, dir: string, names: set<string>, s: string, f: string -> string)
    requires s !in names && Path(dir, s) in Rewritten(files, dir, names, f)
    ensures Path(dir, s) in files && Rewritten(files, dir, names, f)[Path(dir, s)] == files[Path(dir, s)]
    ensures Rewritten(files, dir, names + {s}, f)
            == Rewritten(files, dir, names, f)[Path(dir, s) := f(Rewritten(files, dir, names, f)[Path(dir, s)])]
  {
    var was, now := Rewritten(files, dir, names, f), Rewritten(files, dir, names + {s}, f);
    forall p | p in files
      ensures now[p] == if p == Path(dir, s) then f(files[p]) else was[p]
    {
      if p.dir == dir && p.name == s { assert p == Path(dir, s); }
    }
  }

  // ---------------------------------------------------------------------
  // Archiving, one store operation at a time
  // ---------------------------------------------------------------------

  /** The target is free, or already holds exactly this content. */
  predicate Movable(files: Files, target: Path, content: string) {
    target in files ==> files[target] == content
  }

  /** The vault with a page moved, if it can be: created, then deleted. */
  function MoveOne(files: Files, source: Path, target: Path, content: string): Files {
    if Movable(files, target, content) then files[target := content] - {source} else files
  }

  function DumpAt(files: Files, dir: string, s: string, dump: string -> string): string
    requires Path(dir, s) in files
  {
    dump(files[Path(dir, s)])
  }

  /** The threads a person ended. */
  function Ended(l: map<string, Stored>): set<string> { set s | s in l && l[s].facts.state == "ended" }

  lemma EndedAre(l: map<string, Stored>)
    ensures forall s | s in Ended(l) :: s in l
  {}

  predicate CanMove(files: Files, liveDir: string, archiveDir: string, s: string, dump: string -> string) {
    Path(liveDir, s) in files && Movable(files, Path(archiveDir, s), DumpAt(files, liveDir, s, dump))
  }

  /** The vault with the movable threads of `names` in the archive. */
  function MoveAll(files: Files, liveDir: string, archiveDir: string, names: set<string>, dump: string -> string): Files
  {
    map p | p in files.Keys + (set s | s in names :: Path(archiveDir, s))
        && (p in files || CanMove(files, liveDir, archiveDir, p.name, dump))
        && !(p.dir == liveDir && p.name in names && CanMove(files, liveDir, archiveDir, p.name, dump)) ::
      if p in files then files[p] else DumpAt(files, liveDir, p.name, dump)
  }

  /** The threads of `names` that get moved. */
  function Moving(files: Files, liveDir: string, archiveDir: string, names: set<string>,
      dump: string -> string): set<string>
  {
    set s | s in names && CanMove(files, liveDir, archiveDir, s, dump)
  }

  lemma MovingNext(files: Files, liveDir: string, archiveDir: string, names: set<string>, s: string,
      dump: string -> string)
    ensures Moving(files, liveDir, archiveDir, names + {s}, dump)
            == if CanMove(files, liveDir, archiveDir, s, dump)
                then Moving(files, liveDir, archiveDir, names, dump) + {s}
               else Moving(files, liveDir, archiveDir, names, dump)
  {
    hide CanMove;
  }

  lemma MoveNone(files: Files, liveDir: string, archiveDir: string, dump: string -> string)
    ensures MoveAll(files, liveDir, archiveDir, {}, dump) == files && Moving(files, liveDir, archiveDir, {}, dump) == {}
  {}

  /** One more thread moved. */
  lemma MoveNext(files: Files, liveDir: string, archiveDir: string, names: set<string>, s: string,
      dump: string -> string)
    requires liveDir != archiveDir && s !in names && Path(liveDir, s) in files
    ensures var now := MoveAll(files, liveDir, archiveDir, names, dump);
            var content := DumpAt(files, liveDir, s, dump);
            && Path(liveDir, s) in now && now[Path(liveDir, s)] == files[Path(liveDir, s)]
            && (Movable(now, Path(archiveDir, s), content) <==> CanMove(files, liveDir, archiveDir, s, dump))
            && MoveAll(files, liveDir, archiveDir, names + {s}, dump)
               == MoveOne(now, Path(liveDir, s), Path(archiveDir, s), content)
  {
    hide DumpAt;
    var now, next := MoveAll(files, liveDir, archiveDir, names, dump),
        MoveAll(files, liveDir, archiveDir, names + {s}, dump);
    var content := DumpAt(files, liveDir, s, dump);
    var moved := MoveOne(now, Path(liveDir, s), Path(archiveDir, s), content);
    forall p ensures (p in next <==> p in moved) && (p in next ==> next[p] == moved[p]) {
      assert p == Path(p.dir, p.name);
      if p.name == s && p.dir == archiveDir && p !in files {
        assert p in (set t | t in names + {s} :: Path(archiveDir, t));
      }
    }
  }

  /** The threads moved are those ended whose page in the archive is missing or the
      same; they are gone from where they were and in the archive as they are
      dumped, and no other page changes. */
  ghost predicate Archived(files: Files, live: map<string, Stored>, liveDir: string, archiveDir: string,
      dump: string -> string, moved: set<string>, now: Files)
    requires forall s | s in live :: Path(liveDir, s) in files
  {
    && (forall s :: s in moved <==>
          s in live && live[s].facts.state == "ended"
          && (Path(archiveDir, s) in files ==> files[Path(archiveDir, s)] == dump(files[Path(liveDir, s)])))
    && (forall s | s in moved ::
          Path(liveDir, s) !in now && Path(archiveDir, s) in now
          && now[Path(archiveDir, s)] == dump(files[Path(liveDir, s)]))
    && forall p: Path | !(p.name in moved && (p.dir == liveDir || p.dir == archiveDir)) ::
         (p in now <==> p in files) && (p in files ==> now[p] == files[p])
  }

  lemma MoveAllArchives(files: Files, live: map<string, Stored>, liveDir: string, archiveDir: string,
      dump: string -> string)
    requires liveDir != archiveDir && forall s | s in live :: Path(liveDir, s) in files
    ensures Archived(files, live, liveDir, archiveDir, dump,
              Moving(files, liveDir, archiveDir, Ended(live), dump),
              MoveAll(files, liveDir, archiveDir, Ended(live), dump))
  {
    var names := Ended(live);
    var moved, now := Moving(files, liveDir, archiveDir, names, dump),
        MoveAll(files, liveDir, archiveDir, names, dump);
    forall s | s in moved
      ensures Path(liveDir, s) !in now && Path(archiveDir, s) in now
              && now[Path(archiveDir, s)] == dump(files[Path(liveDir, s)])
    {
      assert Path(archiveDir, s) in (set t | t in names :: Path(archiveDir, t));
    }
    forall p: Path | !(p.name in moved && (p.dir == liveDir || p.dir == archiveDir))
      ensures (p in now <==> p in files) && (p in files ==> now[p] == files[p])
    {
      assert p == Path(p.dir, p.name);
    }
  }

  // ---------------------------------------------------------------------
  // Archiving that stops half-way
  // ---------------------------------------------------------------------

  /** The threads of `done` dealt with, and perhaps one more created in the
      archive and not yet deleted. */
  predicate Stage(files: Files, now: Files, liveDir: string, archiveDir: string, names: set<string>,
      dump: string -> string,
      done: set<string>, half: Option<string>)
  {
    && done <= names
    && match half
       case None => now == MoveAll(files, liveDir, archiveDir, done, dump)
       case Some(s) =>
         && s in names && s !in done && CanMove(files, liveDir, archiveDir, s, dump)
         && now
            == MoveAll(files, liveDir, archiveDir, done, dump)[Path(archiveDir, s) := DumpAt(files, liveDir, s, dump)]
  }

  /** A vault that archiving may leave where it stops, in whatever order it
      visits the ended threads. */
  ghost predicate Midway(files: Files, now: Files, liveDir: string, archiveDir: string, names: set<string>,
      dump: string -> string)
  {
    exists done, half :: Stage(files, now, liveDir, archiveDir, names, dump, done, half)
  }

  /** Wherever archiving stops, every ended thread is at its source or at its
      target with its content; no page at a target is overwritten, no other
      page changes, and no other appears. */
  lemma StoppedArchiveIsSafe(files: Files, now: Files, liveDir: string, archiveDir: string, names: set<string>,
      dump: string -> string)
    requires liveDir != archiveDir && (forall s | s in names :: Path(liveDir, s) in files)
    requires Midway(files, now, liveDir, archiveDir, names, dump)
    ensures forall s | s in names :: var source, target := Path(liveDir, s), Path(archiveDir, s);
              || (source in now && now[source] == files[source])
              || (target in now && now[target] == dump(files[source]))
    ensures forall p | p in files && !(p.dir == liveDir && p.name in names) :: p in now && now[p] == files[p]
    ensures forall p | p in now && p !in files ::
              p.dir == archiveDir && p.name in names && now[p] == dump(files[Path(liveDir, p.name)])
  {
    var done, half :| Stage(files, now, liveDir, archiveDir, names, dump, done, half);
    forall p
      ensures p in files && !(p.dir == liveDir && p.name in names) ==> p in now && now[p] == files[p]
      ensures p in now && p !in files ==>
                p.dir == archiveDir && p.name in names && now[p] == dump(files[Path(liveDir, p.name)])
    {
      assert p == Path(p.dir, p.name);
    }
    forall s | s in names
      ensures var source, target := Path(liveDir, s), Path(archiveDir, s);
              || (source in now && now[source] == files[source])
              || (target in now && now[target] == dump(files[source]))
    {
      var target := Path(archiveDir, s);
      if s in done { assert target in (set t | t in done :: Path(archiveDir, t)); }
    }
  }

  /** Every vault from the `from`-th on is one archiving may stop at. */
  ghost predicate Stops(past: seq<Files>, from: nat, files: Files, liveDir: string, archiveDir: string,
      names: set<string>,
      dump: string -> string)
  {
    forall n | from <= n < |past| :: Midway(files, past[n], liveDir, archiveDir, names, dump)
  }

  lemma NoStops(past: seq<Files>, files: Files, liveDir: string, archiveDir: string, names: set<string>,
      dump: string -> string)
    ensures Stops(past, |past|, files, liveDir, archiveDir, names, dump)
  {}

  /** One more thread dealt with: each vault on the way is the one before it,
      the one after it, or the one with the page in both places. */
  predicate MovedBy(was: seq<Files>, past: seq<Files>, before: Files, after: Files, made: Files, moved: bool) {
    was <= past && forall n | |was| <= n < |past| :: past[n] == before || past[n] == after || (moved && past[n] == made)
  }

  lemma StopsMore(was: seq<Files>, past: seq<Files>, from: nat, files: Files, liveDir: string, archiveDir: string,
      names: set<string>, dump: string -> string, done: set<string>, s: string)
    requires liveDir != archiveDir && done <= names && s in names && s !in done && Path(liveDir, s) in files
    requires from <= |was| && Stops(was, from, files, liveDir, archiveDir, names, dump)
    requires var before := MoveAll(files, liveDir, archiveDir, done, dump);
             MovedBy(was, past, before, MoveAll(files, liveDir, archiveDir, done + {s}, dump),
                     before[Path(archiveDir, s) := DumpAt(files, liveDir, s, dump)],
                         CanMove(files, liveDir, archiveDir, s, dump))
    ensures Stops(past, from, files, liveDir, archiveDir, names, dump) && past[..from] == was[..from] && |was| <= |past|
  {
    hide MoveAll, CanMove, Midway;
    Stages(files, liveDir, archiveDir, names, dump, done, s);
    forall n | from <= n < |past| ensures Midway(files, past[n], liveDir, archiveDir, names, dump) {
      if n < |was| { assert past[n] == was[n]; }
    }
  }

  /** What the vault is while one more thread is dealt with. */
  lemma Stages(files: Files, liveDir: string, archiveDir: string, names: set<string>, dump: string -> string,
      done: set<string>, s: string)
    requires liveDir != archiveDir && done <= names && s in names && s !in done && Path(liveDir, s) in files
    ensures var was := MoveAll(files, liveDir, archiveDir, done, dump);
            var made := was[Path(archiveDir, s) := DumpAt(files, liveDir, s, dump)];
            && Midway(files, was, liveDir, archiveDir, names, dump)
            && Midway(files, MoveAll(files, liveDir, archiveDir, done + {s}, dump), liveDir, archiveDir, names, dump)
            && (CanMove(files, liveDir, archiveDir, s, dump) ==> Midway(files, made, liveDir, archiveDir, names, dump))
  {
    hide MoveAll, CanMove;
    var was := MoveAll(files, liveDir, archiveDir, done, dump);
    assert Stage(files, was, liveDir, archiveDir, names, dump, done, None);
    assert Stage(files, MoveAll(files, liveDir, archiveDir, done + {s}, dump), liveDir, archiveDir, names, dump,
           done + {s}, None);
    if CanMove(files, liveDir, archiveDir, s, dump) {
      assert Stage(files, was[Path(archiveDir, s) := DumpAt(files, liveDir, s, dump)], liveDir, archiveDir, names,
             dump, done, Some(s));
    }
  }

  predicate IsEnded(g: Pages, files: Files, p: Path) {
    p in files && g.facts(files[p]).Some? && g.facts(files[p]).value.state == "ended"
  }

  lemma EndedIs(g: Pages, rev: string -> string, files: Files, dir: string, s: string)
    ensures s in Ended(Load(g, rev, files, dir, false)) <==> IsEnded(g, files, Path(dir, s))
  {
    hide Load, ToThread;
    LoadHas(g, rev, files, dir, false, s);
    if Path(dir, s) in files { ThreadIs(g, rev, Path(dir, s), files[Path(dir, s)], false); }
  }

  /** What one page is at a stage. */
  lemma StageAt(files: Files, now: Files, liveDir: string, archiveDir: string, names: set<string>,
      dump: string -> string,
      done: set<string>, half: Option<string>, s: string)
    requires liveDir != archiveDir && Stage(files, now, liveDir, archiveDir, names, dump, done, half)
    ensures var source, target := Path(liveDir, s), Path(archiveDir, s);
            var can := CanMove(files, liveDir, archiveDir, s, dump);
            && (source in now <==> source in files && !(s in done && can))
            && (source in now ==> now[source] == files[source])
            && (target in now <==> target in files || (can && (s in done || half == Some(s))))
            && (target in now ==> now[target] == if target in files then files[target] else dump(files[source]))
  {
    if s in done { assert Path(archiveDir, s) in (set t | t in done :: Path(archiveDir, t)); }
  }

  /** Archiving again, by a store that loads what a stopped run has left, ends
      where the run would have ended. */
  lemma StoppedArchiveResumes(g: Pages, rev: string -> string, files: Files, now: Files, liveDir: string,
      archiveDir: string)
    requires PagesOk(g) && liveDir != archiveDir && NamesMatch(g, files, liveDir) && NamesMatch(g, files, archiveDir)
    requires Midway(files, now, liveDir, archiveDir, Ended(Load(g, rev, files, liveDir, false)), g.dump)
    ensures NamesMatch(g, now, liveDir) && NamesMatch(g, now, archiveDir)
    ensures MoveAll(now, liveDir, archiveDir, Ended(Load(g, rev, now, liveDir, false)), g.dump)
            == MoveAll(files, liveDir, archiveDir, Ended(Load(g, rev, files, liveDir, false)), g.dump)
  {
    var names, left := Ended(Load(g, rev, files, liveDir, false)), Ended(Load(g, rev, now, liveDir, false));
    var done, half :| Stage(files, now, liveDir, archiveDir, names, g.dump, done, half);
    hide Load, Ended, MoveAll;
    forall s
      ensures s in left <==> s in names && !(s in done && CanMove(files, liveDir, archiveDir, s, g.dump))
      ensures s in left ==> (CanMove(now, liveDir, archiveDir, s, g.dump)
              <==> CanMove(files, liveDir, archiveDir, s, g.dump))
    {
      EndedIs(g, rev, files, liveDir, s);
      EndedIs(g, rev, now, liveDir, s);
      StageAt(files, now, liveDir, archiveDir, names, g.dump, done, half, s);
    }
    StageNames(g, files, now, liveDir, archiveDir, names, done, half);
    SameEnd(g, files, now, liveDir, archiveDir, names, left, done, half);
  }

  lemma StageNames(g: Pages, files: Files, now: Files, liveDir: string, archiveDir: string, names: set<string>,
      done: set<string>, half: Option<string>)
    requires PagesOk(g) && liveDir != archiveDir && NamesMatch(g, files, liveDir) && NamesMatch(g, files, archiveDir)
    requires Stage(files, now, liveDir, archiveDir, names, g.dump, done, half)
    requires forall s | s in names :: IsEnded(g, files, Path(liveDir, s))
    ensures NamesMatch(g, now, liveDir) && NamesMatch(g, now, archiveDir)
  {
    hide MoveAll;
    forall p | p in now && (IsThread(g, now, liveDir, p) || IsThread(g, now, archiveDir, p))
      ensures g.facts(now[p]).value.slug == p.name
    {
      var source := Path(liveDir, p.name);
      assert p == Path(p.dir, p.name);
      StageAt(files, now, liveDir, archiveDir, names, g.dump, done, half, p.name);
      if p in files {
        assert IsThread(g, files, p.dir, p);
      } else {
        assert p.name in names && IsThread(g, files, liveDir, source);
        assert now[p] == g.dump(files[source]);
      }
    }
  }

  lemma SameEnd(g: Pages, files: Files, now: Files, liveDir: string, archiveDir: string, names: set<string>,
      left: set<string>,
      done: set<string>, half: Option<string>)
    requires liveDir != archiveDir && Stage(files, now, liveDir, archiveDir, names, g.dump, done, half)
    requires forall s :: s in left <==> s in names && !(s in done && CanMove(files, liveDir, archiveDir, s, g.dump))
    requires forall s | s in left :: (CanMove(now, liveDir, archiveDir, s, g.dump)
             <==> CanMove(files, liveDir, archiveDir, s, g.dump))
    ensures MoveAll(now, liveDir, archiveDir, left, g.dump) == MoveAll(files, liveDir, archiveDir, names, g.dump)
  {
    var one, other := MoveAll(now, liveDir, archiveDir, left, g.dump),
        MoveAll(files, liveDir, archiveDir, names, g.dump);
    forall p ensures (p in one <==> p in other) && (p in one ==> one[p] == other[p]) {
      assert p == Path(p.dir, p.name);
      StageAt(files, now, liveDir, archiveDir, names, g.dump, done, half, p.name);
      MoveAllAt(now, liveDir, archiveDir, left, g.dump, p);
      MoveAllAt(files, liveDir, archiveDir, names, g.dump, p);
      if p.dir != liveDir && p.dir != archiveDir {
        StageElsewhere(files, now, liveDir, archiveDir, names, g.dump, done, half, p);
      }
    }
  }

  lemma MoveAllAt(files: Files, liveDir: string, archiveDir: string, names: set<string>, dump: string -> string,
      p: Path)
    requires liveDir != archiveDir
    ensures var m := MoveAll(files, liveDir, archiveDir, names, dump);
            var can := p.name in names && CanMove(files, liveDir, archiveDir, p.name, dump);
            && (p in m <==> (p in files && !(p.dir == liveDir && can)) || (p.dir == archiveDir && can))
            && (p in m ==> m[p] == if p in files then files[p] else DumpAt(files, liveDir, p.name, dump))
  {
    assert p == Path(p.dir, p.name);
    if p.dir == archiveDir && p.name in names { assert p in (set t | t in names :: Path(archiveDir, t)); }
  }

  lemma StageElsewhere(files: Files, now: Files, liveDir: string, archiveDir: string, names: set<string>,
      dump: string -> string,
      done: set<string>, half: Option<string>, p: Path)
    requires liveDir != archiveDir && Stage(files, now, liveDir, archiveDir, names, dump, done, half)
    requires p.dir != liveDir && p.dir != archiveDir
    ensures (p in now <==> p in files) && (p in now ==> now[p] == files[p])
  {
    MoveAllAt(files, liveDir, archiveDir, done, dump, p);
  }

  // ---------------------------------------------------------------------
  // The store
  // ---------------------------------------------------------------------

  class ThreadStore {
    const vault: LocalDir
    const pages: Pages
    const liveDir: string
    const archiveDir: string
    var live: Option<map<string, Stored>>
    var archived: Option<map<string, Stored>>

    ghost function LiveNow(): map<string, Stored>
      reads vault
    {
      Load(pages, vault.rev, vault.files, liveDir, false)
    }

    ghost function ArchiveNow(): map<string, Stored>
      reads vault
    {
      Load(pages, vault.rev, vault.files, archiveDir, true)
    }

    /** Each cache, once filled, is what a fresh load would return, revisions
        included. */
    ghost predicate Coherent()
      reads this, vault
    {
      && PagesOk(pages) && liveDir != archiveDir && Hashes(vault.rev)
      && NamesMatch(pages, vault.files, liveDir) && NamesMatch(pages, vault.files, archiveDir)
      && (live.Some? ==> live.value == LiveNow()) && (archived.Some? ==> archived.value == ArchiveNow())
    }

    constructor (vault: LocalDir, pages: Pages, liveDir: string, archiveDir: string)
      requires PagesOk(pages) && liveDir != archiveDir && Hashes(vault.rev)
      requires NamesMatch(pages, vault.files, liveDir) && NamesMatch(pages, vault.files, archiveDir)
      ensures Coherent() && this.vault == vault && this.pages == pages && this.liveDir == liveDir
              && this.archiveDir == archiveDir
    {
      this.vault, this.pages, this.liveDir, this.archiveDir := vault, pages, liveDir, archiveDir;
      live, archived := None, None;
    }

    /** `_load`: page by page, by the slug each page carries. */
    method LoadDir(dir: string, inArchive: bool) returns (out: map<string, Stored>)
      requires NamesMatch(pages, vault.files, dir)
      ensures out == Load(pages, vault.rev, vault.files, dir, inArchive)
    {
      hide LoadSome, ToThread;
      out := map[];
      var todo := set p | p in vault.files && p.dir == dir;
      ghost var all, done: set<Path> := todo, {};
      LoadNone(pages, vault.rev, vault.files, dir, inArchive);
      while todo != {}
        invariant done + todo == all && done !! todo && all == set p | p in vault.files && p.dir == dir
        invariant out == LoadSome(pages, vault.rev, vault.files, dir, inArchive, done)
        decreases |todo|
      {
        var p :| p in todo;
        var thread := ToThread(pages, vault.rev, p, vault.files[p], inArchive);
        LoadAdd(pages, vault.rev, vault.files, dir, inArchive, done, p);
        ThreadIs(pages, vault.rev, p, vault.files[p], inArchive);
        if thread.Some? {
          out := out[thread.value.facts.slug := thread.value];
        }
        todo := todo - {p};
        done := done + {p};
      }
      LoadWhole(pages, vault.rev, vault.files, dir, inArchive, done);
    }

    method Live() returns (m: map<string, Stored>)
      requires Coherent()
      modifies this`live
      ensures Coherent() && live == Some(m) && m == LiveNow()
    {
      if live.None? {
        var loaded := LoadDir(liveDir, false);
        live := Some(loaded);
      }
      m := live.value;
    }

    method Archive() returns (m: map<string, Stored>)
      requires Coherent()
      modifies this`archived
      ensures Coherent() && archived == Some(m) && m == ArchiveNow()
    {
      if archived.None? {
        var loaded := LoadDir(archiveDir, true);
        archived := Some(loaded);
      }
      m := archived.value;
    }

    /** `get`: a thread wherever it is, as the vault now holds it. */
    method Get(slug: string) returns (t: Option<Stored>)
      requires Coherent()
      modifies this`live, this`archived
      ensures Coherent()
      ensures t == if slug in LiveNow() then Some(LiveNow()[slug])
                   else if slug in ArchiveNow() then Some(ArchiveNow()[slug]) else None
    {
      var l := Live();
      if slug in l { return Some(l[slug]); }
      var a := Archive();
      t := if slug in a then Some(a[slug]) else None;
    }

    /** `create`: the first id of the sequence that no thread and no page has.
        The search ends because only finitely many ids are taken. */
    method Create(base: string, render: string -> string) returns (slug: string)
      requires Coherent()
      requires forall s :: pages.facts(render(s)).Some? && pages.facts(render(s)).value.slug == s
      modifies this`live, this`archived, vault`files, vault`past
      ensures Coherent()
      ensures slug !in old(LiveNow()) && slug !in old(ArchiveNow()) && Path(liveDir, slug) !in old(vault.files)
      ensures vault.files == old(vault.files)[Path(liveDir, slug) := render(slug)]
      ensures !Used(old(LiveNow()), old(ArchiveNow()), old(vault.files), liveDir, base) ==> slug == base
      ensures Used(old(LiveNow()), old(ArchiveNow()), old(vault.files), liveDir, base) ==>
                exists k: nat :: k >= 2 && slug == base + "-" + Digits(k)
                  && forall j: nat | 2 <= j < k ::
                       Used(old(LiveNow()), old(ArchiveNow()), old(vault.files), liveDir, base + "-" + Digits(j))
    {
      hide Load, NamesMatch, PagesOk, Candidate, Tried, Digits;
      var l := Live();
      var a := Archive();
      var taken := l.Keys + a.Keys;
      var suffix := 1;
      ghost var names := Names(vault.files);
      while true
        invariant suffix >= 1 && Coherent() && vault.files == old(vault.files) && live == Some(l) && archived == Some(a)
        invariant forall j: nat | 1 <= j < suffix :: Used(l, a, vault.files, liveDir, Candidate(base, j))
        decreases names - Tried(base, suffix)
      {
        slug := Candidate(base, suffix);
        NextUntried(base, suffix);
        suffix := suffix + 1;
        if slug in taken {
          TakenIsNamed(slug);
          continue;
        }
        var created := CreatePage(slug, render(slug));
        if created {
          CandidatesUsed(old(LiveNow()), old(ArchiveNow()), old(vault.files), liveDir, base, suffix - 1);
          return;
        }
        NamedBy(vault.files, Path(liveDir, slug));
      }
    }

    /** One try: the page is created if there is none, and cached. */
    method CreatePage(slug: string, content: string) returns (created: bool)
      requires Coherent() && live.Some?
      requires pages.facts(content).Some? && pages.facts(content).value.slug == slug
      modifies this`live, vault`files, vault`past
      ensures Coherent() && live.Some? && created == (Path(liveDir, slug) !in old(vault.files))
      ensures created ==> vault.files == old(vault.files)[Path(liveDir, slug) := content]
      ensures !created ==> vault.files == old(vault.files) && live == old(live)
    {
      hide Load, NamesMatch, PagesOk;
      ghost var files := vault.files;
      created := vault.Create(Path(liveDir, slug), content);
      if created {
        LoadPut(pages, vault.rev, files, liveDir, false, Path(liveDir, slug), content);
        LoadOther(pages, vault.rev, files, archiveDir, true, vault.files);
        ThreadIs(pages, vault.rev, Path(liveDir, slug), content, false);
        live := Some(live.value[slug := ToThread(pages, vault.rev, Path(liveDir, slug), content, false).value]);
      }
    }

    lemma TakenIsNamed(slug: string)
      requires slug in LiveNow() || slug in ArchiveNow()
      ensures slug in Names(vault.files)
    {
      LoadHas(pages, vault.rev, vault.files, liveDir, false, slug);
      LoadHas(pages, vault.rev, vault.files, archiveDir, true, slug);
      if slug in LiveNow() {
        assert Path(liveDir, slug) in vault.files;
      } else {
        assert Path(archiveDir, slug) in vault.files;
      }
    }

    /** `_write` of a live thread's page: never a conflict, since the cache has
        the vault's revision. */
    method WriteThread(thread: Stored, content: string) returns (written: bool)
      requires Coherent() && live.Some? && thread.facts.slug in live.value && live.value[thread.facts.slug] == thread
      requires pages.facts(content).Some? && pages.facts(content).value.slug == thread.facts.slug
      modifies this`live, vault`files, vault`notes, vault`past
      ensures Coherent() && written && live.Some? && vault.notes == old(vault.notes)
      ensures thread.facts.slug in LiveNow() && LiveNow()[thread.facts.slug].facts == pages.facts(content).value
      ensures vault.files == old(vault.files)[thread.path := content]
      ensures live.value
              == old(live).value[thread.facts.slug := ToThread(pages, vault.rev, thread.path, content, false).value]
    {
      hide Load, NamesMatch, PagesOk;
      var slug := thread.facts.slug;
      LoadHas(pages, vault.rev, vault.files, liveDir, false, slug);
      ghost var files := vault.files;
      var result := vault.Write(thread.path, content, thread.revision);
      written := result == Written;
      LoadPut(pages, vault.rev, files, liveDir, false, thread.path, content);
      LoadOther(pages, vault.rev, files, archiveDir, true, vault.files);
      ThreadIs(pages, vault.rev, thread.path, content, false);
      live := Some(live.value[slug := ToThread(pages, vault.rev, thread.path, content, false).value]);
    }

    /** `revise`: `edits` is what the new material makes of the page, up to and
        with its last message's time, and `activate` sets the state. The thread's
        page alone changes; a stale thread is active again. */
    method Revise(slug: string, edits: string -> string, activate: string -> string, last: int) returns (revived: bool)
      requires Coherent() && slug in LiveNow()
      requires forall c {:trigger edits(c)} ::
                 pages.facts(c).Some? ==> pages.facts(edits(c)) == Some(pages.facts(c).value.(last := Some(last)))
      requires forall c {:trigger activate(c)} ::
                 pages.facts(c).Some? ==> pages.facts(activate(c)) == Some(pages.facts(c).value.(state := "active"))
      modifies this`live, vault`files, vault`notes, vault`past
      ensures Coherent() && vault.notes == old(vault.notes)
      ensures revived == (old(LiveNow())[slug].facts.state == "stale")
      ensures var was := old(vault.files)[Path(liveDir, slug)];
              vault.files == old(vault.files)[Path(liveDir, slug) := if revived then activate(edits(was))
                  else edits(was)]
      ensures slug in LiveNow()
      ensures var was := old(LiveNow())[slug].facts;
              LiveNow()[slug].facts == Facts(was.slug, if was.state == "stale" then "active" else was.state, Some(last))
    {
      hide Load, NamesMatch, PagesOk, ToThread;
      var l := Live();
      LiveThread(slug);
      var thread := l[slug];
      var content := edits(thread.content);
      assert pages.facts(content) == Some(thread.facts.(last := Some(last)));
      revived := thread.facts.state == "stale";
      if revived { content := activate(content); }
      var written := WriteThread(thread, content);
    }

    /** `mark_stale`: every active thread that is due turns stale, and nothing
        else changes. `due` is being silent for long enough. */
    method MarkStale(due: Facts -> bool, stale: string -> string) returns (marked: set<string>)
      requires Coherent()
      requires forall c {:trigger stale(c)} ::
                 pages.facts(c).Some? ==> pages.facts(stale(c)) == Some(pages.facts(c).value.(state := "stale"))
      modifies this`live, vault`files, vault`notes, vault`past
      ensures Coherent() && vault.notes == old(vault.notes)
      ensures marked == Due(old(LiveNow()), old(LiveNow()).Keys, due)
      ensures vault.files == Rewritten(old(vault.files), liveDir, marked, stale)
    {
      hide Load, NamesMatch, PagesOk, Due, Rewritten;
      var l := Live();
      marked := {};
      var todo := l.Keys;
      NothingDue(l, due);
      NothingRewritten(vault.files, liveDir, stale);
      while todo != {}
        invariant Coherent() && live.Some? && todo <= l.Keys && live.value.Keys == l.Keys
        invariant vault.notes == old(vault.notes)
        invariant forall s | s in todo :: live.value[s] == l[s]
        invariant marked == Due(l, l.Keys - todo, due) && marked !! todo
        invariant vault.files == Rewritten(old(vault.files), liveDir, marked, stale)
        decreases |todo|
      {
        var s :| s in todo;
        DueAdd(l, l.Keys - todo, s, due);
        assert l.Keys - todo + {s} == l.Keys - (todo - {s});
        ghost var files := vault.files;
        var done := MarkOne(s, l[s], due, stale);
        if done {
          RewrittenAdd(old(vault.files), liveDir, marked, s, stale);
          marked := marked + {s};
        }
        todo := todo - {s};
      }
      assert l.Keys - {} == l.Keys;
    }

    method MarkOne(s: string, thread: Stored, due: Facts -> bool, stale: string -> string) returns (done: bool)
      requires Coherent() && live.Some? && s in live.value && live.value[s] == thread
      requires forall c {:trigger stale(c)} ::
                 pages.facts(c).Some? ==> pages.facts(stale(c)) == Some(pages.facts(c).value.(state := "stale"))
      modifies this`live, vault`files, vault`notes, vault`past
      ensures Coherent() && live.Some? && live.value.Keys == old(live).value.Keys && vault.notes == old(vault.notes)
      ensures forall t | t in live.value && t != s :: live.value[t] == old(live).value[t]
      ensures done == (thread.facts.state == "active" && due(thread.facts))
      ensures Path(liveDir, s) in old(vault.files)
      ensures vault.files
              == if done then old(vault.files)[Path(liveDir, s) := stale(old(vault.files)[Path(liveDir, s)])]
                 else old(vault.files)
    {
      hide Load, NamesMatch, PagesOk;
      LiveThread(s);
      done := thread.facts.state == "active" && due(thread.facts);
      if done {
        var written := WriteThread(thread, stale(thread.content));
      }
    }

    lemma LiveThread(s: string)
      requires Coherent() && s in LiveNow()
      ensures var t := LiveNow()[s];
              t.path == Path(liveDir, s) && t.path in vault.files && t.content == vault.files[t.path]
              && pages.facts(t.content) == Some(t.facts) && t.facts.slug == s && t.revision == vault.rev(t.content)
    {
      LoadHas(pages, vault.rev, vault.files, liveDir, false, s);
    }

    /** Archiving one ended thread: created in the archive, then deleted. */
    method ArchiveOne(s: string, thread: Stored) returns (moved: bool)
      requires Coherent() && live.Some? && s in live.value && live.value[s] == thread
      modifies this`live, this`archived, vault`files, vault`past
      ensures Coherent() && live.Some? && Path(liveDir, s) in old(vault.files)
      ensures live.value == if moved then old(live).value - {s} else old(live).value
      ensures var content := pages.dump(old(vault.files)[Path(liveDir, s)]);
              && moved == Movable(old(vault.files), Path(archiveDir, s), content)
              && vault.files == MoveOne(old(vault.files), Path(liveDir, s), Path(archiveDir, s), content)
              && MovedBy(old(vault.past), vault.past, old(vault.files), vault.files,
                         old(vault.files)[Path(archiveDir, s) := content], moved)
    {
      hide Load, NamesMatch;
      LiveThread(s);
      var content, target := pages.dump(thread.content), Path(archiveDir, s);
      ghost var files := vault.files;
      var created := vault.Create(target, content);
      if !created && vault.files[target] != content { return false; }
      ghost var made := vault.files;
      assert made == files[target := content];
      ThreadIs(pages, vault.rev, target, content, true);
      LoadPut(pages, vault.rev, files, archiveDir, true, target, content);
      LoadOther(pages, vault.rev, files, liveDir, false, made);
      vault.Delete(thread.path);
      LoadDelete(pages, vault.rev, made, liveDir, false, thread.path);
      LoadOther(pages, vault.rev, made, archiveDir, true, vault.files);
      live := Some(live.value - {s});
      if archived.None? {
        var loaded := LoadDir(archiveDir, true);
        archived := Some(loaded);
      }
      archived := Some(archived.value[s := ToThread(pages, vault.rev, target, content, true).value]);
      moved := true;
    }

    /** `archive_ended`: every ended thread whose archive page is missing or
        identical is moved; every other page stays as it was. */
    method ArchiveEnded() returns (moved: set<string>)
      requires Coherent()
      modifies this`live, this`archived, vault`files, vault`past
      ensures Coherent()
      ensures vault.files == MoveAll(old(vault.files), liveDir, archiveDir, Ended(old(LiveNow())), pages.dump)
      ensures moved == Moving(old(vault.files), liveDir, archiveDir, Ended(old(LiveNow())), pages.dump)
      ensures old(vault.past) <= vault.past
      ensures Stops(vault.past, |old(vault.past)|, old(vault.files), liveDir, archiveDir, Ended(old(LiveNow())),
              pages.dump)
    {
      hide Load, NamesMatch, PagesOk, MoveAll, MoveOne, CanMove, Ended, Moving, Movable, MovedBy, Stops;
      var l := Live();
      var ended := Ended(l);
      var todo := ended;
      moved := {};
      ghost var files := vault.files;
      EndedAre(l);
      AllInFiles(ended);
      MoveNone(files, liveDir, archiveDir, pages.dump);
      assert ended - todo == {};
      assert Stops(vault.past, |vault.past|, files, liveDir, archiveDir, ended, pages.dump) by {
        NoStops(vault.past, files, liveDir, archiveDir, ended, pages.dump);
      }
      while todo != {}
        invariant Coherent() && live.Some? && todo <= ended
        invariant forall s | s in todo :: s in live.value && live.value[s] == l[s]
        invariant vault.files == MoveAll(files, liveDir, archiveDir, ended - todo, pages.dump)
        invariant moved == Moving(files, liveDir, archiveDir, ended - todo, pages.dump)
        invariant |old(vault.past)| <= |vault.past| && vault.past[..|old(vault.past)|] == old(vault.past)
        invariant Stops(vault.past, |old(vault.past)|, files, liveDir, archiveDir, ended, pages.dump)
        decreases |todo|
      {
        var s :| s in todo;
        MoveNext(files, liveDir, archiveDir, ended - todo, s, pages.dump);
        MovingNext(files, liveDir, archiveDir, ended - todo, s, pages.dump);
        assert ended - todo + {s} == ended - (todo - {s});
        ghost var past := vault.past;
        var done := ArchiveOne(s, l[s]);
        StopsMore(past, vault.past, |old(vault.past)|, files, liveDir, archiveDir, ended, pages.dump, ended - todo, s);
        if done { moved := moved + {s}; }
        todo := todo - {s};
      }
      assert ended - {} == ended;
    }

    lemma AllInFiles(names: set<string>)
      requires Coherent() && forall s | s in names :: s in LiveNow()
      ensures forall s | s in names :: Path(liveDir, s) in vault.files
    {
      forall s | s in names ensures Path(liveDir, s) in vault.files { LiveThread(s); }
    }
  }

  // ---------------------------------------------------------------------
  // Relocating a channel
  // ---------------------------------------------------------------------

  datatype Move = Move(source: Path, target: Path)

  /** From one directory to another: no two pages share a source or a target,
      and no target is a source. */
  predicate GoodMoves(moves: seq<Move>) {
    && (forall i, j | 0 <= i < j < |moves| :: moves[i].source != moves[j].source && moves[i].target != moves[j].target)
    && (forall i, j | 0 <= i < |moves| && 0 <= j < |moves| :: moves[i].source != moves[j].target)
  }

  /** The sources whose target is taken, in order. */
  function LeftBehind(files: Files, moves: seq<Move>): seq<Path> {
    if moves == [] then [] else
      var m := moves[|moves| - 1];
      LeftBehind(files, moves[..|moves| - 1])
      + if m.source in files && m.target in files then [m.source] else []
  }

  /** Page `p` after the first `n` moves, `edit` being what a moved page
      becomes. */
  predicate Relocated(files: Files, now: Files, m: Move, edit: (Path, string) -> string) {
    if m.source in files && m.target !in files then
      m.source !in now && m.target in now && now[m.target] == edit(m.source, files[m.source])
    else Same(files, now, m.source) && Same(files, now, m.target)
  }

  /** Every move made, or refused as its target is taken, and nothing else changed. */
  ghost predicate AllRelocated(files: Files, now: Files, moves: seq<Move>, edit: (Path, string) -> string) {
    && (forall i | 0 <= i < |moves| :: Relocated(files, now, moves[i], edit))
    && (forall p | p in files || p in now :: Apart(moves, p) ==> Same(files, now, p))
  }

  predicate Apart(moves: seq<Move>, p: Path) {
    forall i | 0 <= i < |moves| :: p != moves[i].source && p != moves[i].target
  }

  predicate Same(files: Files, now: Files, p: Path) {
    (p in now <==> p in files) && (p in files ==> now[p] == files[p])
  }

  /** `relocate`: pages whose target is free are moved, edited on the way; the
      paths returned are exactly the sources whose target existed, and those
      pages, and all others, are untouched. Every vault on the way is one a stop
      may leave. */
  method Relocate(vault: LocalDir, moves: seq<Move>, edit: (Path, string) -> string) returns (left: seq<Path>)
    requires GoodMoves(moves)
    modifies vault`files, vault`past
    ensures old(vault.past) <= vault.past
    ensures AllStopped(vault.past, |old(vault.past)|, old(vault.files), moves, edit)
    ensures left == LeftBehind(old(vault.files), moves)
    ensures AllRelocated(old(vault.files), vault.files, moves, edit)
  {
    hide GoodMoves, Underway, AllRelocated, AllStopped;
    left := [];
    ghost var files := vault.files;
    NothingMoved(vault.past, files, moves, edit);
    for n := 0 to |moves|
      invariant left == LeftBehind(files, moves[..n]) && Underway(files, vault.files, moves, n, edit)
      invariant |old(vault.past)| <= |vault.past| && vault.past[..|old(vault.past)|] == old(vault.past)
      invariant AllStopped(vault.past, |old(vault.past)|, files, moves, edit)
    {
      assert moves[..n + 1][..n] == moves[..n];
      MoveNextPage(files, vault.files, moves, n, edit);
      ghost var past, was := vault.past, vault.files;
      var refused := RelocateOne(vault, moves[n], edit);
      StoppedMore(past, vault.past, |old(vault.past)|, files, was, moves, n, edit);
      if refused { left := left + [moves[n].source]; }
    }
    assert moves[..|moves|] == moves;
    AllMoved(files, vault.files, moves, edit);
  }

  /** One page: created at its target, if that is free, then deleted. */
  method RelocateOne(vault: LocalDir, m: Move, edit: (Path, string) -> string) returns (refused: bool)
    modifies vault`files, vault`past
    ensures refused == (m.source in old(vault.files) && m.target in old(vault.files))
    ensures vault.files == MovePage(old(vault.files), m, edit)
    ensures MovedBy(old(vault.past), vault.past, old(vault.files), vault.files, CopyPage(old(vault.files), m, edit),
                    m.source in old(vault.files) && !refused)
  {
    refused := false;
    if m.source in vault.files {
      var created := vault.Create(m.target, edit(m.source, vault.files[m.source]));
      if created { vault.Delete(m.source); } else { refused := true; }
    }
  }

  function CopyPage(now: Files, m: Move, edit: (Path, string) -> string): Files {
    if m.source in now then now[m.target := edit(m.source, now[m.source])] else now
  }

  ghost predicate AllStopped(past: seq<Files>, from: nat, files: Files, moves: seq<Move>,
      edit: (Path, string) -> string)
  {
    forall n | from <= n < |past| :: Stopped(files, past[n], moves, edit)
  }

  lemma NothingMoved(past: seq<Files>, files: Files, moves: seq<Move>, edit: (Path, string) -> string)
    ensures Underway(files, files, moves, 0, edit) && AllStopped(past, |past|, files, moves, edit)
  {}

  lemma AllMoved(files: Files, now: Files, moves: seq<Move>, edit: (Path, string) -> string)
    requires Underway(files, now, moves, |moves|, edit)
    ensures AllRelocated(files, now, moves, edit)
  {}

  lemma StoppedMore(was: seq<Files>, past: seq<Files>, from: nat, files: Files, now: Files, moves: seq<Move>, n: nat,
      edit: (Path, string) -> string)
    requires GoodMoves(moves) && n < |moves| && Underway(files, now, moves, n, edit)
    requires from <= |was| && AllStopped(was, from, files, moves, edit)
    requires var m := moves[n];
             MovedBy(was, past, now, MovePage(now, m, edit), CopyPage(now, m, edit),
               m.source in now && m.target !in now)
    ensures AllStopped(past, from, files, moves, edit) && past[..from] == was[..from] && |was| <= |past|
  {
    StoppedAt(files, now, moves, n, edit);
    hide GoodMoves, Underway, Stopped, MovePage;
    forall k | from <= k < |past| ensures Stopped(files, past[k], moves, edit) {
      if k < |was| { assert past[k] == was[k]; }
    }
  }

  /** The first `n` moves made or refused, and nothing else touched. */
  ghost predicate Underway(files: Files, now: Files, moves: seq<Move>, n: nat, edit: (Path, string) -> string) {
    && n <= |moves|
    && (forall i | 0 <= i < n :: Relocated(files, now, moves[i], edit))
    && (forall i | n <= i < |moves| :: Same(files, now, moves[i].source) && Same(files, now, moves[i].target))
    && (forall p | p in files || p in now :: Apart(moves, p) ==> Same(files, now, p))
  }

  function MovePage(now: Files, m: Move, edit: (Path, string) -> string): Files {
    if m.source in now && m.target !in now then now[m.target := edit(m.source, now[m.source])] - {m.source} else now
  }

  lemma MoveNextPage(files: Files, now: Files, moves: seq<Move>, n: nat, edit: (Path, string) -> string)
    requires GoodMoves(moves) && n < |moves| && Underway(files, now, moves, n, edit)
    ensures Underway(files, MovePage(now, moves[n], edit), moves, n + 1, edit)
    ensures Same(files, now, moves[n].source) && Same(files, now, moves[n].target)
  {
    hide MovePage, Relocated, Same;
    var m := moves[n];
    var next := MovePage(now, m, edit);
    assert Same(files, now, m.source) && Same(files, now, m.target);
    forall p | p != m.source && p != m.target ensures Same(now, next, p) { OtherPage(now, m, edit, p); }
    MovedPage(files, now, m, edit);
    forall i | 0 <= i < n ensures Relocated(files, next, moves[i], edit) {
      assert moves[i].source != m.source && moves[i].target != m.target;
      StillRelocated(files, now, next, moves[i], edit);
    }
    forall i | n < i < |moves| ensures Same(files, next, moves[i].source) && Same(files, next, moves[i].target) {
      assert moves[i].source != m.source && moves[i].target != m.target;
      SameStill(files, now, next, moves[i].source);
      SameStill(files, now, next, moves[i].target);
    }
    forall p | p in files || p in next ensures Apart(moves, p) ==> Same(files, next, p) {
      if Apart(moves, p) {
        assert p != moves[n].source && p != moves[n].target;
        InBoth(now, next, p);
        SameStill(files, now, next, p);
      }
    }
  }

  // ---------------------------------------------------------------------
  // Relocating that stops half-way
  // ---------------------------------------------------------------------

  /** The first `n` moves dealt with, and with `made` the next page created and
      not yet deleted. */
  ghost predicate Paused(files: Files, now: Files, moves: seq<Move>, edit: (Path, string) -> string, n: nat, made: bool)
  {
    if !made then Underway(files, now, moves, n, edit)
    else
      && n < |moves| && moves[n].source in files && moves[n].target !in files
      && moves[n].target in now && now[moves[n].target] == edit(moves[n].source, files[moves[n].source])
      && Underway(files, now - {moves[n].target}, moves, n, edit)
  }

  ghost predicate Stopped(files: Files, now: Files, moves: seq<Move>, edit: (Path, string) -> string) {
    exists n: nat, made :: Paused(files, now, moves, edit, n, made)
  }

  lemma StoppedAt(files: Files, now: Files, moves: seq<Move>, n: nat, edit: (Path, string) -> string)
    requires GoodMoves(moves) && n < |moves| && Underway(files, now, moves, n, edit)
    ensures Stopped(files, now, moves, edit) && Stopped(files, MovePage(now, moves[n], edit), moves, edit)
    ensures var m := moves[n];
            m.source in now && m.target !in now ==>
              Stopped(files, now[m.target := edit(m.source, now[m.source])], moves, edit)
  {
    var m := moves[n];
    MoveNextPage(files, now, moves, n, edit);
    hide GoodMoves;
    assert Paused(files, now, moves, edit, n, false)
           && Paused(files, MovePage(now, m, edit), moves, edit, n + 1, false);
    if m.source in now && m.target !in now {
      var made := now[m.target := edit(m.source, now[m.source])];
      assert made - {m.target} == now;
      hide Underway;
      assert Paused(files, made, moves, edit, n, true);
    }
  }

  /** Wherever relocating stops, every page to move is at its source or, edited,
      at its target; no page at a target is overwritten, and no other changes. */
  lemma StoppedRelocationIsSafe(files: Files, now: Files, moves: seq<Move>, edit: (Path, string) -> string)
    requires GoodMoves(moves) && Stopped(files, now, moves, edit)
    ensures forall i | 0 <= i < |moves| && moves[i].source in files :: var m := moves[i];
              || (m.source in now && now[m.source] == files[m.source])
              || (m.target in now && now[m.target] == edit(m.source, files[m.source]))
    ensures forall i | 0 <= i < |moves| && moves[i].target in files :: Same(files, now, moves[i].target)
    ensures forall p | p in files || p in now :: Apart(moves, p) ==> Same(files, now, p)
  {
    var n: nat, made :| Paused(files, now, moves, edit, n, made);
    var was := if made then now - {moves[n].target} else now;
    assert Underway(files, was, moves, n, edit);
    forall i | 0 <= i < |moves|
      ensures var m := moves[i]; m.source in files ==>
                (m.source in now && now[m.source] == files[m.source])
                || (m.target in now && now[m.target] == edit(m.source, files[m.source]))
      ensures moves[i].target in files ==> Same(files, now, moves[i].target)
    {
      if i < n { assert Relocated(files, was, moves[i], edit); }
      assert made ==> moves[i].source != moves[n].target && (i != n ==> moves[i].target != moves[n].target);
    }
    forall p | (p in files || p in now) && Apart(moves, p) ensures Same(files, now, p) {
      assert made ==> p != moves[n].target;
      assert p in files || p in was;
    }
  }

  lemma {:induction false} LeftIs(files: Files, moves: seq<Move>, p: Path)
    ensures p in LeftBehind(files, moves)
            <==> exists i | 0 <= i < |moves| :: moves[i].source == p && p in files && moves[i].target in files
  {
    if moves != [] {
      var rest := moves[..|moves| - 1];
      LeftIs(files, rest, p);
      assert forall i | 0 <= i < |rest| :: moves[i] == rest[i];
    }
  }

  /** Relocating again after a stop between two pages ends where the run would
      have ended, and reports the same sources. */
  lemma StoppedRelocationResumes(files: Files, now: Files, end: Files, moves: seq<Move>,
      edit: (Path, string) -> string, n: nat)
    requires GoodMoves(moves) && Paused(files, now, moves, edit, n, false) && AllRelocated(now, end, moves, edit)
    ensures AllRelocated(files, end, moves, edit)
    ensures forall p :: p in LeftBehind(now, moves) <==> p in LeftBehind(files, moves)
  {
    hide GoodMoves;
    forall i | 0 <= i < |moves| ensures Relocated(files, end, moves[i], edit) {
      assert Relocated(now, end, moves[i], edit);
      if i < n { assert Relocated(files, now, moves[i], edit); }
    }
    forall p | (p in files || p in end) && Apart(moves, p) ensures Same(files, end, p) {
      assert Same(now, end, p) && (p in files || p in now ==> Same(files, now, p));
    }
    forall p ensures p in LeftBehind(now, moves) <==> p in LeftBehind(files, moves) {
      LeftIs(now, moves, p);
      LeftIs(files, moves, p);
      forall i | 0 <= i < |moves| && moves[i].source == p
        ensures p in now && moves[i].target in now <==> p in files && moves[i].target in files
      {
        if i < n { assert Relocated(files, now, moves[i], edit); }
      }
    }
  }

  /** After a stop between creating a page and deleting its source, relocating
      again finishes all the others, and leaves that page in both places: its
      target now exists, so its source is reported as left behind as well. */
  lemma StoppedRelocationReports(files: Files, now: Files, end: Files, moves: seq<Move>,
      edit: (Path, string) -> string, n: nat)
    requires GoodMoves(moves) && Paused(files, now, moves, edit, n, true) && AllRelocated(now, end, moves, edit)
    ensures forall i | 0 <= i < |moves| && i != n :: Relocated(files, end, moves[i], edit)
    ensures forall p | p in files || p in end :: Apart(moves, p) ==> Same(files, end, p)
    ensures var m := moves[n];
            && m.source in end && end[m.source] == files[m.source]
            && m.target in end && end[m.target] == edit(m.source, files[m.source])
    ensures forall p :: p in LeftBehind(now, moves) <==> p in LeftBehind(files, moves) || p == moves[n].source
  {
    var m := moves[n];
    var was := now - {m.target};
    assert Relocated(now, end, m, edit) && Same(files, was, m.source);
    forall i | 0 <= i < |moves| && i != n ensures Relocated(files, end, moves[i], edit) {
      assert moves[i].source != m.target && moves[i].target != m.target;
      assert Relocated(now, end, moves[i], edit);
      if i < n { assert Relocated(files, was, moves[i], edit); }
    }
    forall p | (p in files || p in end) && Apart(moves, p) ensures Same(files, end, p) {
      assert p != m.target;
      assert Same(now, end, p) && (p in files || p in was ==> Same(files, was, p));
    }
    forall p ensures p in LeftBehind(now, moves) <==> p in LeftBehind(files, moves) || p == m.source {
      LeftIs(now, moves, p);
      LeftIs(files, moves, p);
      forall i | 0 <= i < |moves| && moves[i].source == p && i != n
        ensures p in now && moves[i].target in now <==> p in files && moves[i].target in files
      {
        assert moves[i].source != m.target && moves[i].target != m.target;
        if i < n { assert Relocated(files, was, moves[i], edit); }
      }
    }
  }

  lemma OtherPage(now: Files, m: Move, edit: (Path, string) -> string, p: Path)
    requires p != m.source && p != m.target
    ensures Same(now, MovePage(now, m, edit), p)
  {}

  lemma SameStill(files: Files, now: Files, next: Files, p: Path)
    requires Same(files, now, p) && Same(now, next, p)
    ensures Same(files, next, p)
  {}

  lemma InBoth(now: Files, next: Files, p: Path)
    requires Same(now, next, p)
    ensures p in next ==> p in now
  {}

  lemma StillRelocated(files: Files, now: Files, next: Files, m: Move, edit: (Path, string) -> string)
    requires Relocated(files, now, m, edit) && Same(now, next, m.source) && Same(now, next, m.target)
    ensures Relocated(files, next, m, edit)
  {}

  lemma MovedPage(files: Files, now: Files, m: Move, edit: (Path, string) -> string)
    requires Same(files, now, m.source) && Same(files, now, m.target) && m.source != m.target
    ensures Relocated(files, MovePage(now, m, edit), m, edit)
  {}
}
