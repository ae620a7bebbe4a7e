/** Structured assignment (agents/wa_agent/assign.py): an untrusted answer is
    checked, salvaged, and turned into buckets. */
module Assignment {
  import opened Options
  import opened Text
  import opened Placement
  import Chunking

  const CHATTER := "chatter"
  const ASSIGN_MAX_RETRIES := 2

  datatype NewThread = NewThread(id: string, title: string, description: string)

  datatype Pick = Pick(messageId: string, thread: string)

  /** What a model may answer: anything of the right shape. */
  datatype Answer = Answer(newThreads: seq<NewThread>, picks: seq<Pick>)

  // ---------------------------------------------------------------------
  // `^new-(\d+)$`
  // ---------------------------------------------------------------------

  /** The digits of a `new-N` reference; `$` also allows a final newline. */
  function NewNumber(ref: string): (n: Option<string>)
    ensures n.Some? ==> AllDigits(n.value)
  {
    if !("new-" <= ref) then None
    else if AllDigits(ref[4..]) then Some(ref[4..])
    else if EndsNL(ref) && |ref| > 5 && AllDigits(ref[4..|ref| - 1]) then Some(ref[4..|ref| - 1])
    else None
  }

  function BucketKey(ref: string): string {
    match NewNumber(ref)
    case Some(n) => "new-thread:" + n
    case None => ref
  }

  // ---------------------------------------------------------------------
  // Checking an answer
  // ---------------------------------------------------------------------

  datatype Problem =
    | NotNewForm(id: string) | Taken(id: string) | DeclaredTwice(id: string) | EmptyTitle(id: string)
    | UnknownThread(messageId: string, thread: string)
    | Unanswered(ids: seq<string>) | NotAsked(ids: seq<string>) | AnsweredTwice(ids: seq<string>)

  function Times(picks: seq<Pick>, id: string): nat {
    if picks == [] then 0 else Times(picks[..|picks| - 1], id) + if picks[|picks| - 1].messageId == id then 1 else 0
  }

  predicate BlankTitle(nt: NewThread) { Trim(nt.title) == "" }

  /** A declaration that starts a thread: well-formed, free, first, titled. */
  predicate GoodNew(nts: seq<NewThread>, i: nat, carried: set<string>, next: nat)
    requires i < |nts|
  {
    var id := nts[i].id;
    NewNumber(id).Some?
    && (id in carried
        || (Value(NewNumber(id).value) >= next && !BlankTitle(nts[i]) && forall j | 0 <= j < i :: nts[j].id != id))
  }

  /** The ids an answer declares itself. */
  function DeclaredIds(nts: seq<NewThread>, carried: set<string>): set<string> {
    set i | 0 <= i < |nts| && NewNumber(nts[i].id).Some? && nts[i].id !in carried :: nts[i].id
  }

  function ValidRefs(known: set<string>, carried: set<string>, declared: set<string>): set<string> {
    known + carried + declared + {CHATTER}
  }

  /** Every asked message once, nobody else, and only threads that exist. */
  predicate Usable(a: Answer, asked: seq<string>, known: set<string>, carried: set<string>, next: nat) {
    && (forall i | 0 <= i < |a.newThreads| :: GoodNew(a.newThreads, i, carried, next))
    && (forall p | p in a.picks :: p.thread in ValidRefs(known, carried, DeclaredIds(a.newThreads, carried)))
    && (forall id | id in asked :: Times(a.picks, id) == 1)
    && (forall p | p in a.picks :: p.messageId in asked)
  }

  lemma {:induction false} TimesPositive(picks: seq<Pick>, id: string)
    ensures Times(picks, id) > 0 <==> exists p :: p in picks && p.messageId == id
  {
    if picks != [] {
      var r := picks[..|picks| - 1];
      TimesPositive(r, id);
      assert picks == r + [picks[|picks| - 1]];
    }
  }

  method CheckNewThreads(nts: seq<NewThread>, carried: set<string>, next: nat)
      returns (problems: seq<Problem>, declared: set<string>)
    ensures declared == DeclaredIds(nts, carried)
    ensures problems == [] <==> forall i | 0 <= i < |nts| :: GoodNew(nts, i, carried, next)
  {
    hide NewNumber, Value, BlankTitle;
    problems, declared := [], {};
    for i := 0 to |nts|
      invariant declared == DeclaredIds(nts[..i], carried)
      invariant problems == [] <==> forall j | 0 <= j < i :: GoodNew(nts, j, carried, next)
    {
      var nt := nts[i];
      assert nts[..i + 1] == nts[..i] + [nt];
      var m := NewNumber(nt.id);
      assert GoodNew(nts, i, carried, next)
        <==> m.Some?
             && (nt.id in carried
                 || (Value(m.value) >= next && !BlankTitle(nt) && forall j | 0 <= j < i :: nts[j].id != nt.id));
      hide GoodNew;
      if m.None? {
        problems := problems + [NotNewForm(nt.id)];
      } else if nt.id !in carried {
        assert nt.id in declared <==> !forall j | 0 <= j < i :: nts[j].id != nt.id;
        if Value(m.value) < next { problems := problems + [Taken(nt.id)]; }
        if nt.id in declared { problems := problems + [DeclaredTwice(nt.id)]; }
        declared := declared + {nt.id};
        if BlankTitle(nt) { problems := problems + [EmptyTitle(nt.id)]; }
      }
    }
    assert nts[..|nts|] == nts;
  }

  method CheckPicks(picks: seq<Pick>, valid: set<string>) returns (problems: seq<Problem>, seen: map<string, nat>)
    ensures problems == [] <==> forall p | p in picks :: p.thread in valid
    ensures forall id :: id in seen <==> Times(picks, id) > 0
    ensures forall id | id in seen :: seen[id] == Times(picks, id)
  {
    problems, seen := [], map[];
    for i := 0 to |picks|
      invariant problems == [] <==> forall p | p in picks[..i] :: p.thread in valid
      invariant forall id :: id in seen <==> Times(picks[..i], id) > 0
      invariant forall id | id in seen :: seen[id] == Times(picks[..i], id)
    {
      var a := picks[i];
      assert picks[..i + 1][..i] == picks[..i];
      assert picks[..i + 1] == picks[..i] + [a];
      seen := seen[a.messageId := (if a.messageId in seen then seen[a.messageId] else 0) + 1];
      if a.thread !in valid {
        problems := problems + [UnknownThread(a.messageId, a.thread)];
      }
    }
    assert picks[..|picks|] == picks;
  }

  function Filter(ids: seq<string>, keep: string -> bool): (r: seq<string>)
    ensures forall id :: id in r <==> id in ids && keep(id)
  {
    if ids == [] then [] else (if keep(ids[0]) then [ids[0]] else []) + Filter(ids[1..], keep)
  }

  function PickIds(picks: seq<Pick>): (r: seq<string>)
    ensures |r| == |picks| && forall i | 0 <= i < |r| :: r[i] == picks[i].messageId
  {
    if picks == [] then [] else [picks[0].messageId] + PickIds(picks[1..])
  }

  /** `_validate_assignment`: no problems exactly when the answer maps each
      asked message once, to a thread that exists, and declares its new threads
      properly. */
  method Validate(a: Answer, asked: seq<string>, known: set<string>, carried: set<string>, next: nat)
      returns (problems: seq<Problem>)
    ensures problems == [] <==> Usable(a, asked, known, carried, next)
  {
    hide GoodNew, ValidRefs, DeclaredIds;
    var declared: set<string>;
    problems, declared := CheckNewThreads(a.newThreads, carried, next);
    var bad, seen := CheckPicks(a.picks, ValidRefs(known, carried, declared));
    problems := problems + bad;
    var given := PickIds(a.picks);
    var missing := Filter(asked, id => id !in seen);
    if missing != [] { problems := problems + [Unanswered(missing)]; }
    var extra := Filter(given, id => id !in asked);
    if extra != [] { problems := problems + [NotAsked(extra)]; }
    var dupes := Filter(given, id => id in seen && seen[id] > 1 && id in asked);
    if dupes != [] { problems := problems + [AnsweredTwice(dupes)]; }
    FilterEmpty(missing, asked, id => id !in seen);
    FilterEmpty(extra, given, id => id !in asked);
    FilterEmpty(dupes, given, id => id in seen && seen[id] > 1 && id in asked);
    EachOnce(a.picks, asked, seen, given);
  }

  lemma FilterEmpty(r: seq<string>, ids: seq<string>, keep: string -> bool)
    requires forall id :: id in r <==> id in ids && keep(id)
    ensures r == [] <==> forall id | id in ids :: !keep(id)
  {
    if r != [] { assert r[0] in r; }
  }

  lemma EachOnce(picks: seq<Pick>, asked: seq<string>, seen: map<string, nat>, given: seq<string>)
    requires given == PickIds(picks)
    requires forall id :: id in seen <==> Times(picks, id) > 0
    requires forall id | id in seen :: seen[id] == Times(picks, id)
    ensures (forall id | id in asked :: id in seen)
            && (forall id | id in given :: !(id in seen && seen[id] > 1 && id in asked))
            <==> forall id | id in asked :: Times(picks, id) == 1
    ensures (forall id | id in given :: id in asked) <==> forall p | p in picks :: p.messageId in asked
  {
    forall id ensures id in given <==> Times(picks, id) > 0 {
      TimesPositive(picks, id);
      if id in given { var i :| 0 <= i < |given| && given[i] == id; assert picks[i] in picks; }
      if Times(picks, id) > 0 {
        var p :| p in picks && p.messageId == id;
        var i :| 0 <= i < |picks| && picks[i] == p;
        assert given[i] == id;
      }
    }
    forall p | p in picks ensures p.messageId in given {
      var i :| 0 <= i < |picks| && picks[i] == p;
      assert given[i] == p.messageId;
    }
    forall id | id in given ensures exists p :: p in picks && p.messageId == id {
      TimesPositive(picks, id);
    }
  }

  // ---------------------------------------------------------------------
  // Salvaging an answer
  // ---------------------------------------------------------------------

  /** The thread the answer gives a message: the last one, as in a dict. */
  function RefOf(picks: seq<Pick>, id: string): Option<string> {
    if picks == [] then None
    else if picks[|picks| - 1].messageId == id then Some(picks[|picks| - 1].thread)
    else RefOf(picks[..|picks| - 1], id)
  }

  /** The declarations kept: new, well-formed and titled; a repeat replaces. */
  function Declared(nts: seq<NewThread>, carried: set<string>): map<string, NewThread> {
    if nts == [] then map[] else
      var nt, rest := nts[|nts| - 1], Declared(nts[..|nts| - 1], carried);
      if NewNumber(nt.id).Some? && nt.id !in carried && !BlankTitle(nt) then rest[nt.id := nt] else rest
  }

  lemma {:induction false} DeclaredAre(nts: seq<NewThread>, carried: set<string>)
    ensures forall id | id in Declared(nts, carried) :: NewNumber(id).Some? && id !in carried
  {
    hide NewNumber, BlankTitle;
    if nts != [] { DeclaredAre(nts[..|nts| - 1], carried); }
  }

  lemma {:induction false} DeclaredHolds(nts: seq<NewThread>, carried: set<string>, i: nat)
    requires i < |nts| && NewNumber(nts[i].id).Some? && nts[i].id !in carried && !BlankTitle(nts[i])
    ensures nts[i].id in Declared(nts, carried)
  {
    hide NewNumber, BlankTitle;
    if i < |nts| - 1 { DeclaredHolds(nts[..|nts| - 1], carried, i); }
  }

  lemma {:induction false} RefOfOnce(picks: seq<Pick>, id: string)
    requires Times(picks, id) > 0
    ensures RefOf(picks, id).Some? && Pick(id, RefOf(picks, id).value) in picks
  {
    var last := picks[|picks| - 1];
    if last.messageId != id {
      RefOfOnce(picks[..|picks| - 1], id);
    } else {
      assert last == Pick(id, last.thread) && last in picks;
    }
  }

  /** The references salvaging accepts. */
  function Accepted(a: Answer, known: set<string>, carried: set<string>): set<string> {
    ValidRefs(known, carried, Declared(a.newThreads, carried).Keys)
  }

  /** After an answer without problems no message falls back to chatter. */
  lemma UsableLeavesNone(a: Answer, asked: seq<string>, known: set<string>, carried: set<string>, next: nat, id: string)
    requires Usable(a, asked, known, carried, next) && id in asked
    ensures RefOf(a.picks, id).Some? && RefOf(a.picks, id).value in Accepted(a, known, carried)
  {
    hide NewNumber, BlankTitle, Value;
    RefOfOnce(a.picks, id);
    var ref := RefOf(a.picks, id).value;
    assert Pick(id, ref).thread in ValidRefs(known, carried, DeclaredIds(a.newThreads, carried));
    if ref in DeclaredIds(a.newThreads, carried) {
      var i :| 0 <= i < |a.newThreads| && NewNumber(a.newThreads[i].id).Some? && a.newThreads[i].id !in carried
        && a.newThreads[i].id == ref;
      assert GoodNew(a.newThreads, i, carried, next);
      DeclaredHolds(a.newThreads, carried, i);
    }
  }

  /** `_ask_with_retries`; `tries(k)` is what attempt `k` returns, None if it
      raised. A clean answer ends the asking; else the last one given is used. */
  method AskWithRetries(tries: nat -> Option<Answer>, asked: seq<string>, known: set<string>, carried: set<string>,
      next: nat)
      returns (last: Option<Answer>, problems: seq<Problem>, calls: nat)
    ensures 1 <= calls <= ASSIGN_MAX_RETRIES + 1
    ensures last.None? <==> forall k | 0 <= k < calls :: tries(k).None?
    ensures last.Some? ==> exists k :: 0 <= k < calls && tries(k) == last && forall j | k < j < calls :: tries(j).None?
    ensures last.Some? ==> (problems == [] <==> Usable(last.value, asked, known, carried, next))
    ensures last.None? ==> problems == []
    ensures calls <= ASSIGN_MAX_RETRIES ==> last.Some? && problems == []
    ensures forall k | 0 <= k < calls - 1 && tries(k).Some? :: !Usable(tries(k).value, asked, known, carried, next)
  {
    hide Usable;
    last, problems, calls := None, [], 0;
    while calls < ASSIGN_MAX_RETRIES + 1
      invariant calls <= ASSIGN_MAX_RETRIES + 1
      invariant last.None? <==> forall k | 0 <= k < calls :: tries(k).None?
      invariant last.Some? ==>
                  exists k :: 0 <= k < calls && tries(k) == last && forall j | k < j < calls :: tries(j).None?
      invariant last.Some? ==> problems != [] && !Usable(last.value, asked, known, carried, next)
      invariant last.None? ==> problems == []
      invariant forall k | 0 <= k < calls && tries(k).Some? :: !Usable(tries(k).value, asked, known, carried, next)
    {
      var t := tries(calls);
      calls := calls + 1;
      if t.Some? {
        problems := Validate(t.value, asked, known, carried, next);
        last := t;
        assert tries(calls - 1) == last;
        if problems == [] { break; }
      }
    }
  }
}
