/** `assign_batch` (agents/wa_agent/assign.py): replies first, then the model's
    answers chunk by chunk, whatever they are. */
module Batches {
  import opened Options
  import opened Text
  import opened Placement
  import opened Assignment
  import Chunking

  const CHARS_PER_TOKEN := 3

  /** `estimate_tokens`: a ceiling of a third of the length. */
  function EstimateTokens(text: string): nat { (|text| + CHARS_PER_TOKEN - 1) / CHARS_PER_TOKEN }

  function LineCost(m: Message): nat { EstimateTokens(m.line) + 1 }

  /** Where a bucket's messages may go: chatter, a thread that exists, or a
      new thread that is declared. */
  ghost predicate GoodKey(k: string, known: set<string>, find: string -> Option<string>,
      newThreads: map<string, NewThread>)
  {
    k == CHATTER || k in known || k in newThreads || exists t :: find(t) == Some(k)
  }

  ghost predicate GoodKeys(b: Buckets, known: set<string>, find: string -> Option<string>,
      newThreads: map<string, NewThread>)
  {
    forall k | k in b :: GoodKey(k, known, find, newThreads)
  }

  /** Every bucket key so far is good, or is that of a thread of this chunk. */
  ghost predicate KeysOrUsed(b: Buckets, known: set<string>, find: string -> Option<string>,
      newThreads: map<string, NewThread>, used: set<string>) {
    forall k | k in b :: GoodKey(k, known, find, newThreads) || exists ref :: ref in used && k == BucketKey(ref)
  }

  /** Messages of a chunk the answer leaves without a thread. */
  function Lost(ms: seq<Message>, chunk: seq<nat>, a: Answer, refs: set<string>): nat
    requires forall k | 0 <= k < |chunk| :: chunk[k] < |ms|
  {
    if chunk == [] then 0 else
      var ref := RefOf(a.picks, ms[chunk[|chunk| - 1]].id);
      Lost(ms, chunk[..|chunk| - 1], a, refs) + if ref.Some? && ref.value in refs then 0 else 1
  }

  /** No message of a chunk is lost when its answer has no problems. */
  lemma {:induction false} NoneLost(ms: seq<Message>, chunk: seq<nat>, asked: seq<string>, a: Answer,
      known: set<string>, carried: set<string>, next: nat)
    requires forall k | 0 <= k < |chunk| :: chunk[k] < |ms| && ms[chunk[k]].id in asked
    requires Usable(a, asked, known, carried, next)
    ensures Lost(ms, chunk, a, Accepted(a, known, carried)) == 0
  {
    hide Usable, Accepted, RefOf;
    if chunk != [] {
      NoneLost(ms, chunk[..|chunk| - 1], asked, a, known, carried, next);
      UsableLeavesNone(a, asked, known, carried, next, ms[chunk[|chunk| - 1]].id);
    }
  }

  /** The key and thread a chunk's message gets; None for a lost one. */
  function RefFor(m: Message, a: Answer, refs: set<string>): Option<string> {
    var ref := RefOf(a.picks, m.id);
    if ref.Some? && ref.value in refs then ref else None
  }

  lemma RefAccepted(answer: Option<Answer>, m: Message, ref: Option<string>, known: set<string>, carried: set<string>,
      declared: set<string>)
    requires ref == if answer.None? then None else RefFor(m, answer.value, Accepted(answer.value, known, carried))
    requires answer.Some? ==> declared == Declared(answer.value.newThreads, carried).Keys
    ensures ref.Some? ==> ref.value in ValidRefs(known, carried, declared)
  {
    hide RefOf, Declared;
  }

  /** Where the answer puts a message: chatter, if it names no thread that exists. */
  function KeyIn(m: Message, answer: Option<Answer>, known: set<string>, carried: set<string>): string {
    var ref := if answer.None? then None else RefFor(m, answer.value, Accepted(answer.value, known, carried));
    if ref.None? then CHATTER else BucketKey(ref.value)
  }

  // ---------------------------------------------------------------------
  // What an answer says of a message
  // ---------------------------------------------------------------------

  /** The last pick that names the message. */
  ghost predicate Picked(picks: seq<Pick>, id: string, t: string) {
    exists j :: 0 <= j < |picks| && picks[j] == Pick(id, t) && forall k | j < k < |picks| :: picks[k].messageId != id
  }

  /** `new-N` for these digits; a newline may end it. */
  predicate NewForm(t: string, digits: string) {
    digits != "" && (forall i | 0 <= i < |digits| :: IsDigit(digits[i]))
    && (t == "new-" + digits || t == "new-" + digits + "\n")
  }

  /** The answer declares the thread, with a title. */
  ghost predicate Declares(nts: seq<NewThread>, t: string) {
    exists i :: 0 <= i < |nts| && nts[i].id == t && Trim(nts[i].title) != ""
  }

  /** The bucket of a thread the answer may name: one that exists, chatter, or a new
      one that was minted before or that the answer declares. */
  ghost predicate LeadsTo(a: Answer, known: set<string>, carried: set<string>, t: string, key: string) {
    || (t in known && key == t)
    || (t == "chatter" && key == "chatter")
    || exists d :: NewForm(t, d) && (t in carried || Declares(a.newThreads, t)) && key == "new-thread:" + d
  }

  /** The answer puts the message in this bucket. */
  ghost predicate Goes(id: string, answer: Option<Answer>, known: set<string>, carried: set<string>, key: string) {
    answer.Some? && exists t :: Picked(answer.value.picks, id, t) && LeadsTo(answer.value, known, carried, t, key)
  }

  /** The answer names no thread for the message, or none that exists. */
  ghost predicate Unthreaded(id: string, answer: Option<Answer>, known: set<string>, carried: set<string>) {
    forall key :: !Goes(id, answer, known, carried, key)
  }

  lemma {:induction false} PickedIs(picks: seq<Pick>, id: string, t: string)
    ensures Picked(picks, id, t) <==> RefOf(picks, id) == Some(t)
  {
    if picks != [] {
      var n := |picks| - 1;
      PickedIs(picks[..n], id, t);
      if picks[n].messageId == id {
        if Picked(picks, id, t) {
          var j :| 0 <= j < |picks| && picks[j] == Pick(id, t)
              && forall k | j < k < |picks| :: picks[k].messageId != id;
        }
        if picks[n].thread == t { assert picks[n] == Pick(id, t); }
      } else {
        if Picked(picks, id, t) {
          var j :| 0 <= j < |picks| && picks[j] == Pick(id, t)
              && forall k | j < k < |picks| :: picks[k].messageId != id;
          assert picks[..n][j] == Pick(id, t);
        }
        if Picked(picks[..n], id, t) {
          var j :| 0 <= j < n && picks[..n][j] == Pick(id, t) && forall k | j < k < n :: picks[..n][k].messageId != id;
          assert picks[j] == Pick(id, t) && forall k | j < k < n :: picks[k] == picks[..n][k];
        }
      }
    }
  }

  lemma NewFormIs(t: string, d: string)
    ensures NewForm(t, d) <==> NewNumber(t) == Some(d)
  {
    if NewForm(t, d) {
      assert t[4..] == d || (t[4..] == d + "\n" && t[4..|t| - 1] == d);
      if t[4..] == d + "\n" { assert !IsDigit(t[4..][|d|]); }
    }
    if NewNumber(t) == Some(d) {
      assert t == "new-" + t[4..];
      if !AllDigits(t[4..]) { assert t[4..] == t[4..|t| - 1] + [t[|t| - 1]]; }
    }
  }

  lemma {:induction false} DeclaresIs(nts: seq<NewThread>, carried: set<string>, t: string)
    ensures t in Declared(nts, carried) <==> NewNumber(t).Some? && t !in carried && Declares(nts, t)
  {
    hide NewNumber;
    DeclaredAre(nts, carried);
    if Declares(nts, t) && NewNumber(t).Some? && t !in carried {
      var i :| 0 <= i < |nts| && nts[i].id == t && Trim(nts[i].title) != "";
      DeclaredHolds(nts, carried, i);
    }
    if t in Declared(nts, carried) { DeclaredTitled(nts, carried, t); }
  }

  lemma {:induction false} DeclaredTitled(nts: seq<NewThread>, carried: set<string>, t: string)
    requires t in Declared(nts, carried)
    ensures Declares(nts, t)
  {
    hide NewNumber;
    var n := |nts| - 1;
    if nts[n].id == t && Trim(nts[n].title) != "" {
    } else {
      DeclaredTitled(nts[..n], carried, t);
      var i :| 0 <= i < n && nts[..n][i].id == t && Trim(nts[..n][i].title) != "";
      assert nts[i] == nts[..n][i];
    }
  }

  /** The references accepted are those that lead somewhere, each to its own bucket. */
  lemma LeadsToIs(a: Answer, known: set<string>, carried: set<string>, t: string, key: string)
    requires PlainSlugs(known) && forall r | r in carried :: NewNumber(r).Some?
    ensures LeadsTo(a, known, carried, t, key) <==> t in Accepted(a, known, carried) && key == BucketKey(t)
  {
    hide NewNumber, NewForm, Declared, Declares;
    ChatterIsPlain();
    DeclaresIs(a.newThreads, carried, t);
    if NewNumber(t).Some? { NewFormIs(t, NewNumber(t).value); }
    forall d ensures NewForm(t, d) <==> NewNumber(t) == Some(d) { NewFormIs(t, d); }
  }

  /** A message's thread and key are what the answer says. */
  lemma GoesIs(m: Message, answer: Option<Answer>, known: set<string>, carried: set<string>, key: string)
    requires PlainSlugs(known) && forall r | r in carried :: NewNumber(r).Some?
    ensures Goes(m.id, answer, known, carried, key)
            <==> answer.Some? && RefFor(m, answer.value, Accepted(answer.value, known, carried)).Some?
                 && key == KeyIn(m, answer, known, carried)
  {
    hide NewNumber, Accepted, BucketKey, LeadsTo, Picked, RefOf, PlainSlugs;
    if answer.Some? {
      var a := answer.value;
      forall t ensures Picked(a.picks, m.id, t) <==> RefOf(a.picks, m.id) == Some(t) { PickedIs(a.picks, m.id, t); }
      if RefOf(a.picks, m.id).Some? { LeadsToIs(a, known, carried, RefOf(a.picks, m.id).value, key); }
    }
  }

  lemma UnthreadedIs(m: Message, answer: Option<Answer>, known: set<string>, carried: set<string>)
    requires PlainSlugs(known) && forall r | r in carried :: NewNumber(r).Some?
    ensures Unthreaded(m.id, answer, known, carried)
            <==> answer.None? || RefFor(m, answer.value, Accepted(answer.value, known, carried)).None?
    ensures Unthreaded(m.id, answer, known, carried) ==> KeyIn(m, answer, known, carried) == "chatter"
  {
    hide NewNumber, Accepted, BucketKey, Goes, RefOf, PlainSlugs;
    forall key
      ensures Goes(m.id, answer, known, carried, key)
              <==> answer.Some? && RefFor(m, answer.value, Accepted(answer.value, known, carried)).Some?
                   && key == KeyIn(m, answer, known, carried)
    {
      GoesIs(m, answer, known, carried, key);
    }
    assert answer.Some? && RefFor(m, answer.value, Accepted(answer.value, known, carried)).Some?
           ==> Goes(m.id, answer, known, carried, KeyIn(m, answer, known, carried));
  }

  /** What was placed stays where it was. */
  ghost predicate Stay(ms: seq<Message>, p: Placed, q: Placed) {
    forall i | 0 <= i < |ms| && In(ms, p, i) :: In(ms, q, i) && Key(ms, q, i) == Key(ms, p, i)
  }

  lemma StayMoved(ms: seq<Message>, p: Placed, f0: Buckets, p0: Placed, f: Buckets, q: Placed, d: nat, key: string)
    requires Stay(ms, p, p0) && d < |ms| && !In(ms, p0, d) && Queued(ms, f, q)
    requires forall i | 0 <= i < |ms| :: Moved(ms, f0, p0, f, q, d, key, i)
    requires Target(ms, d).None?
    ensures Stay(ms, p, q) && Stay(ms, p0, q) && In(ms, q, d) && Key(ms, q, d) == key
  {
    hide In, Key, Waiters, Target;
    assert Moved(ms, f0, p0, f, q, d, key, d);
    WaiterReplies(ms, f, q, d);
    forall i | 0 <= i < |ms| && In(ms, p, i) ensures In(ms, q, i) && Key(ms, q, i) == Key(ms, p, i) {
      assert Moved(ms, f0, p0, f, q, d, key, i);
    }
    forall i | 0 <= i < |ms| && In(ms, p0, i) ensures In(ms, q, i) && Key(ms, q, i) == Key(ms, p0, i) {
      assert Moved(ms, f0, p0, f, q, d, key, i);
    }
  }

  /** Each message of a chunk is where its answer puts it. */
  ghost predicate ChunkPlaced(ms: seq<Message>, p: Placed, chunk: seq<nat>, answer: Option<Answer>, known: set<string>,
      carried: set<string>)
    requires forall k | 0 <= k < |chunk| :: chunk[k] < |ms|
  {
    forall k | 0 <= k < |chunk| :: In(ms, p, chunk[k])
        && Key(ms, p, chunk[k]) == KeyIn(ms[chunk[k]], answer, known, carried)
  }

  lemma ChunkStays(ms: seq<Message>, p: Placed, q: Placed, chunk: seq<nat>, answer: Option<Answer>, known: set<string>,
      carried: set<string>)
    requires forall k | 0 <= k < |chunk| :: chunk[k] < |ms|
    requires ChunkPlaced(ms, p, chunk, answer, known, carried) && Stay(ms, p, q)
    ensures ChunkPlaced(ms, q, chunk, answer, known, carried)
  {
    hide In, Key, KeyIn;
  }

  /** A message of the chunk is given this thread. */
  ghost predicate NamedFor(ms: seq<Message>, chunk: seq<nat>, a: Answer, refs: set<string>, t: string)
    requires forall k | 0 <= k < |chunk| :: chunk[k] < |ms|
  {
    exists k :: 0 <= k < |chunk| && RefFor(ms[chunk[k]], a, refs) == Some(t)
  }

  lemma NamedSnoc(ms: seq<Message>, chunk: seq<nat>, i: nat, a: Answer, refs: set<string>)
    requires i < |ms| && forall k | 0 <= k < |chunk| :: chunk[k] < |ms|
    ensures forall t ::
              NamedFor(ms, chunk + [i], a, refs, t)
              <==> NamedFor(ms, chunk, a, refs, t) || RefFor(ms[i], a, refs) == Some(t)
  {
    hide RefFor;
    var c := chunk + [i];
    forall t
      ensures NamedFor(ms, c, a, refs, t) <==> NamedFor(ms, chunk, a, refs, t) || RefFor(ms[i], a, refs) == Some(t)
    {
      assert c[|chunk|] == i;
      if NamedFor(ms, chunk, a, refs, t) {
        var k :| 0 <= k < |chunk| && RefFor(ms[chunk[k]], a, refs) == Some(t);
        assert c[k] == chunk[k];
      }
    }
  }

  /** One message of a chunk, to the key its answer names. */
  method PutNext(p: Placement, i: nat, key: string, ghost rest: seq<nat>, ghost start: Placed, ghost before: seq<nat>,
      ghost answer: Option<Answer>, ghost known: set<string>, ghost carried: set<string>)
    requires p.Valid() && rest != [] && rest[0] == i < |p.messages|
             && Routed(p.messages, p.followers, p.placed, rest, |p.messages|)
    requires (forall k | 0 <= k < |before| :: before[k] < |p.messages|) && Stay(p.messages, start, p.placed)
             && ChunkPlaced(p.messages, p.placed, before, answer, known, carried)
    requires key == KeyIn(p.messages[i], answer, known, carried)
    modifies p
    ensures p.Valid() && Routed(p.messages, p.followers, p.placed, rest[1..], |p.messages|)
    ensures Stay(p.messages, start, p.placed)
            && ChunkPlaced(p.messages, p.placed, before + [i], answer, known, carried)
    ensures p.buckets.Keys == old(p.buckets).Keys + {key}
  {
    hide Routed, Moved, KeyIn, Consistent, Queued, Together, GoodBatch;
    ghost var f, q := p.followers, p.placed;
    AskedRoot(p.messages, f, q, rest);
    AskedReady(p.messages, f, q, rest, key);
    p.Put(i, key);
    RoutedTake(p.messages, f, q, p.followers, p.placed, rest, key);
    StayMoved(p.messages, start, f, q, p.followers, p.placed, i, key);
    ChunkStays(p.messages, q, p.placed, before, answer, known, carried);
    ChunkSnoc(p.messages, p.placed, before, i, answer, known, carried);
  }

  /** One chunk: each message to the thread its answer names, or to chatter. */
  method PutChunk(p: Placement, chunk: seq<nat>, ghost later: seq<nat>, answer: Option<Answer>,
      known: set<string>, carried: set<string>, ghost find: string -> Option<string>,
      ghost newThreads: map<string, NewThread>, ghost usedBefore: set<string>)
      returns (lost: nat, used: set<string>)
    requires p.Valid() && Routed(p.messages, p.followers, p.placed, chunk + later, |p.messages|)
    requires KeysOrUsed(p.buckets, known, find, newThreads, usedBefore) && PlainSlugs(known)
    requires forall k | 0 <= k < |chunk| :: chunk[k] < |p.messages|
    modifies p
    ensures p.Valid() && Routed(p.messages, p.followers, p.placed, later, |p.messages|)
    ensures Stay(p.messages, old(p.placed), p.placed)
            && ChunkPlaced(p.messages, p.placed, chunk, answer, known, carried)
    ensures KeysOrUsed(p.buckets, known, find, newThreads, usedBefore + used)
    ensures answer.None? ==> lost == |chunk| && used == {}
    ensures answer.Some? ==> lost == Lost(p.messages, chunk, answer.value, Accepted(answer.value, known, carried))
    ensures answer.Some? ==> used <= carried + Declared(answer.value.newThreads, carried).Keys
    ensures answer.Some? ==> forall t | t in carried + Declared(answer.value.newThreads, carried).Keys ::
              t in used <==> NamedFor(p.messages, chunk, answer.value, Accepted(answer.value, known, carried), t)
  {
    hide Routed, Moved, Accepted, RefOf, BucketKey, Declared, Consistent, Queued, Together, GoodBatch, GoodKey,
         NamedFor,
         ChunkPlaced, Stay, KeysOrUsed;
    StaySame(p.messages, p.placed);
    NothingPut(p.messages, p.placed, answer, known, carried);
    if answer.Some? { NoneNamed(p.messages, answer.value, Accepted(answer.value, known, carried)); }
    KeysKeep(p.buckets, known, find, newThreads, usedBefore);
    lost, used := 0, {};
    var refs := if answer.Some? then Accepted(answer.value, known, carried) else {};
    var declared := if answer.Some? then Declared(answer.value.newThreads, carried).Keys else {};
    assert chunk[0..] == chunk;
    ghost var start := p.placed;
    for n := 0 to |chunk|
      invariant p.Valid() && Routed(p.messages, p.followers, p.placed, chunk[n..] + later, |p.messages|)
      invariant Stay(p.messages, start, p.placed)
                && ChunkPlaced(p.messages, p.placed, chunk[..n], answer, known, carried)
      invariant KeysOrUsed(p.buckets, known, find, newThreads, usedBefore + used)
      invariant answer.None? ==> lost == n && used == {}
      invariant answer.Some? ==> lost == Lost(p.messages, chunk[..n], answer.value, refs)
      invariant used <= carried + declared
      invariant answer.Some? ==> forall t | t in carried + declared ::
                  t in used <==> NamedFor(p.messages, chunk[..n], answer.value, refs, t)
    {
      var i := chunk[n];
      assert chunk[..n + 1] == chunk[..n] + [i] && chunk[..n + 1][..n] == chunk[..n] && (chunk[n..] + later)[0] == i
             && (chunk[n..] + later)[1..] == chunk[n + 1..] + later;
      ghost var b, was := p.buckets, used;
      var ref := if answer.None? then None else RefFor(p.messages[i], answer.value, refs);
      var key := if ref.None? then CHATTER else BucketKey(ref.value);
      PutNext(p, i, key, chunk[n..] + later, start, chunk[..n], answer, known, carried);
      if ref.None? {
        lost := lost + 1;
      } else if ref.value in declared || ref.value in carried {
        used := used + {ref.value};
      }
      if answer.Some? { NamedSnoc(p.messages, chunk[..n], i, answer.value, refs); }
      RefAccepted(answer, p.messages[i], ref, known, carried, declared);
      KeyAdded(b, p.buckets, key, ref, known, carried, declared, find, newThreads, usedBefore + was, usedBefore + used);
    }
    assert chunk[..|chunk|] == chunk && chunk[|chunk|..] + later == later;
  }

  lemma StaySame(ms: seq<Message>, p: Placed)
    ensures Stay(ms, p, p)
  {}

  lemma NothingPut(ms: seq<Message>, p: Placed, answer: Option<Answer>, known: set<string>, carried: set<string>)
    ensures ChunkPlaced(ms, p, [], answer, known, carried)
  {}

  lemma NoneNamed(ms: seq<Message>, a: Answer, refs: set<string>)
    ensures forall t :: !NamedFor(ms, [], a, refs, t)
  {}

  lemma KeysKeep(b: Buckets, known: set<string>, find: string -> Option<string>, newThreads: map<string, NewThread>,
      used: set<string>)
    requires KeysOrUsed(b, known, find, newThreads, used)
    ensures KeysOrUsed(b, known, find, newThreads, used + {})
  {
    assert used + {} == used;
  }

  lemma ChunkSnoc(ms: seq<Message>, p: Placed, chunk: seq<nat>, i: nat, answer: Option<Answer>, known: set<string>,
      carried: set<string>)
    requires i < |ms| && forall k | 0 <= k < |chunk| :: chunk[k] < |ms|
    requires ChunkPlaced(ms, p, chunk, answer, known, carried) && In(ms, p, i)
             && Key(ms, p, i) == KeyIn(ms[i], answer, known, carried)
    ensures ChunkPlaced(ms, p, chunk + [i], answer, known, carried)
  {
    hide In, Key, KeyIn;
  }

  lemma AskedRoot(ms: seq<Message>, f: Buckets, p: Placed, toAsk: seq<nat>)
    requires toAsk != [] && Routed(ms, f, p, toAsk, |ms|)
    ensures toAsk[0] < |ms| && Target(ms, toAsk[0]).None?
  {
    assert toAsk[0] in toAsk;
  }

  /** Slugs that cannot be mistaken for a new thread's number. */
  predicate PlainSlugs(known: set<string>) { forall s | s in known :: NewNumber(s).None? }

  lemma ChatterIsPlain()
    ensures NewNumber(CHATTER).None? && BucketKey(CHATTER) == CHATTER
  {}

  /** The key of a message that is placed, and how it is good. */
  lemma KeyAdded(b: Buckets, c: Buckets, key: string, ref: Option<string>, known: set<string>, carried: set<string>,
      declared: set<string>, find: string -> Option<string>, newThreads: map<string, NewThread>,
      used: set<string>, more: set<string>)
    requires PlainSlugs(known) && c.Keys == b.Keys + {key} && used <= more
    requires KeysOrUsed(b, known, find, newThreads, used)
    requires key == if ref.None? then CHATTER else BucketKey(ref.value)
    requires ref.Some? ==> ref.value in ValidRefs(known, carried, declared)
    requires ref.Some? && (ref.value in declared || ref.value in carried) ==> ref.value in more
    ensures KeysOrUsed(c, known, find, newThreads, more)
  {
    hide NewNumber;
    ChatterIsPlain();
    forall k | k in c ensures GoodKey(k, known, find, newThreads) || exists r :: r in more && k == BucketKey(r) {
      if k in b {
        if !GoodKey(k, known, find, newThreads) {
          var r :| r in used && k == BucketKey(r);
          assert r in more;
        }
      } else if ref.Some? && ref.value in more {
        assert k == BucketKey(ref.value);
      }
    }
  }

  /** The chunk's new threads that got messages, folded into the context. */
  method FoldNewThreads(nts: seq<NewThread>, declared: map<string, NewThread>, used: set<string>,
      newThreads: map<string, NewThread>, carried: set<string>, next: nat)
      returns (threads: map<string, NewThread>, refs: set<string>, index: nat)
    requires forall id | id in declared :: NewNumber(id).Some?
    requires forall id | id in declared :: exists j :: 0 <= j < |nts| && nts[j].id == id
    ensures newThreads.Keys <= threads.Keys && index >= next
    ensures forall id | id in declared && id in used :: BucketKey(id) in threads && Value(NewNumber(id).value) < index
    ensures refs == carried + (used * declared.Keys)
    ensures forall k | k in threads ::
              || (k in newThreads && threads[k] == newThreads[k])
              || exists id :: id in declared && id in used && BucketKey(id) == k && threads[k] == declared[id]
    ensures forall id | id in declared && id in used ::
              exists d :: d in declared && d in used && BucketKey(d) == BucketKey(id)
                  && threads[BucketKey(id)] == declared[d]
  {
    hide NewNumber, BucketKey, Value;
    threads, refs, index := newThreads, carried, next;
    ghost var done: set<string> := {};
    for j := 0 to |nts|
      invariant newThreads.Keys <= threads.Keys && index >= next
      invariant done == set k | 0 <= k < j && nts[k].id in declared && nts[k].id in used :: nts[k].id
      invariant forall id | id in done ::
                  id in declared && BucketKey(id) in threads && Value(NewNumber(id).value) < index
      invariant refs == carried + done && done <= declared.Keys * used
      invariant forall k | k in threads ::
                  || (k in newThreads && threads[k] == newThreads[k] && forall id | id in done :: BucketKey(id) != k)
                  || exists id :: id in done && BucketKey(id) == k && threads[k] == declared[id]
    {
      var id := nts[j].id;
      if id in declared && id in used && !(exists k :: 0 <= k < j && nts[k].id == id) {
        threads := threads[BucketKey(id) := declared[id]];
        refs := refs + {id};
        index := if Value(NewNumber(id).value) + 1 > index then Value(NewNumber(id).value) + 1 else index;
        done := done + {id};
      }
    }
    assert done == used * declared.Keys;
  }

  /** What the lines of a chunk cost. */
  function ChunkCost(ms: seq<Message>, chunk: seq<nat>): nat
    requires forall k | 0 <= k < |chunk| :: chunk[k] < |ms|
  {
    if chunk == [] then 0 else LineCost(ms[chunk[0]]) + ChunkCost(ms, chunk[1..])
  }

  /** One message, however large, or several within both limits. */
  predicate ChunkFits(ms: seq<Message>, chunk: seq<nat>, budget: int, most: int)
    requires forall k | 0 <= k < |chunk| :: chunk[k] < |ms|
  {
    chunk != [] && (|chunk| == 1 || (ChunkCost(ms, chunk) <= budget && |chunk| <= most))
  }

  lemma {:induction false} CostSnoc(ms: seq<Message>, chunk: seq<nat>, i: nat)
    requires i < |ms| && forall k | 0 <= k < |chunk| :: chunk[k] < |ms|
    ensures ChunkCost(ms, chunk + [i]) == ChunkCost(ms, chunk) + LineCost(ms[i])
  {
    if chunk == [] {
      assert chunk + [i] == [i] && [i][1..] == [];
    } else {
      assert (chunk + [i])[1..] == chunk[1..] + [i];
      CostSnoc(ms, chunk[1..], i);
    }
  }

  lemma {:induction false} TotalIsCost(ms: seq<Message>, chunk: seq<nat>, cost: nat -> nat)
    requires forall k | 0 <= k < |chunk| :: chunk[k] < |ms| && cost(chunk[k]) == LineCost(ms[chunk[k]])
    ensures Chunking.Total(chunk, cost) == ChunkCost(ms, chunk)
  {
    if chunk != [] {
      var last := |chunk| - 1;
      TotalIsCost(ms, chunk[..last], cost);
      CostSnoc(ms, chunk[..last], chunk[last]);
      assert chunk == chunk[..last] + [chunk[last]];
    }
  }

  /** The first chunk of what remains. */
  method FirstChunk(ms: seq<Message>, rest: seq<nat>, budget: int, most: int) returns (chunk: seq<nat>)
    requires rest != [] && forall k | 0 <= k < |rest| :: rest[k] < |ms|
    ensures chunk != [] && |chunk| <= |rest| && chunk == rest[..|chunk|] && ChunkFits(ms, chunk, budget, most)
  {
    var cost: nat -> nat := i => if 0 <= i < |ms| then LineCost(ms[i]) else 0;
    var chunks := Chunking.ChunkMessages(rest, cost, budget, most);
    assert Chunking.Concat(chunks) == rest && chunks != [];
    chunk := chunks[0];
    assert chunk in chunks && chunk == rest[..|chunk|];
    assert forall k | 0 <= k < |chunk| :: chunk[k] == rest[k];
    TotalIsCost(ms, chunk, cost);
  }

  function IdsOf(ms: seq<Message>, chunk: seq<nat>): (r: seq<string>)
    requires forall k | 0 <= k < |chunk| :: chunk[k] < |ms|
    ensures |r| == |chunk| && forall k | 0 <= k < |r| :: r[k] == ms[chunk[k]].id
  {
    seq(|chunk|, k requires 0 <= k < |chunk| => ms[chunk[k]].id)
  }

  // ---------------------------------------------------------------------
  // The rounds of a batch
  // ---------------------------------------------------------------------

  /** One chunk, the answer used for it, and the threads minted before it. */
  datatype Round = Round(chunk: seq<nat>, answer: Option<Answer>, carried: set<string>)

  /** The answer used is one the model gave, unless it gave none. */
  ghost predicate Given(tries: nat -> Option<Answer>, answer: Option<Answer>) {
    if answer.None? then forall k | 0 <= k <= ASSIGN_MAX_RETRIES :: tries(k).None?
    else exists k | 0 <= k <= ASSIGN_MAX_RETRIES :: tries(k) == answer
  }

  /** The answer of the round declares the thread and gives it a message. */
  ghost predicate Minted(ms: seq<Message>, r: Round, t: string) {
    r.answer.Some? && (exists d :: NewForm(t, d)) && Declares(r.answer.value.newThreads, t)
    && exists k :: 0 <= k < |r.chunk| && r.chunk[k] < |ms| && Picked(r.answer.value.picks, ms[r.chunk[k]].id, t)
  }

  ghost predicate MintedBefore(ms: seq<Message>, rounds: seq<Round>, n: nat, t: string)
    requires n <= |rounds|
  {
    exists m :: 0 <= m < n && Minted(ms, rounds[m], t)
  }

  /** What a round finds minted is what the rounds before it minted. */
  ghost predicate MintedInTurn(ms: seq<Message>, rounds: seq<Round>) {
    forall n, t | 0 <= n < |rounds| :: t in rounds[n].carried <==> MintedBefore(ms, rounds, n, t)
  }

  lemma MintedSnoc(ms: seq<Message>, rounds: seq<Round>, r: Round, after: set<string>)
    requires MintedInTurn(ms, rounds) && forall t :: t in r.carried <==> MintedBefore(ms, rounds, |rounds|, t)
    requires forall t :: t in after <==> t in r.carried || Minted(ms, r, t)
    ensures MintedInTurn(ms, rounds + [r])
    ensures forall t :: t in after <==> MintedBefore(ms, rounds + [r], |rounds| + 1, t)
  {
    hide Minted;
    var all := rounds + [r];
    forall n, t | 0 <= n <= |rounds| ensures MintedBefore(ms, all, n, t) <==> MintedBefore(ms, rounds, n, t) {
      assert forall m | 0 <= m < |rounds| :: all[m] == rounds[m];
    }
    forall t ensures MintedBefore(ms, all, |rounds| + 1, t)
        <==> MintedBefore(ms, rounds, |rounds|, t) || Minted(ms, r, t) {
      assert all[|rounds|] == r && forall m | 0 <= m < |rounds| :: all[m] == rounds[m];
    }
    forall n, t | 0 <= n < |all| ensures t in all[n].carried <==> MintedBefore(ms, all, n, t) {
      if n < |rounds| { assert all[n] == rounds[n]; }
    }
  }

  /** The threads a chunk's messages are given, of those the answer declares. */
  lemma MintedIs(ms: seq<Message>, r: Round, known: set<string>, t: string)
    requires (forall k | 0 <= k < |r.chunk| :: r.chunk[k] < |ms|) && t !in r.carried
    ensures Minted(ms, r, t)
            <==> r.answer.Some? && t in Declared(r.answer.value.newThreads, r.carried)
                 && NamedFor(ms, r.chunk, r.answer.value, Accepted(r.answer.value, known, r.carried), t)
  {
    hide NewNumber, Declared, Declares, RefOf, NewForm, Picked;
    if r.answer.Some? {
      var a := r.answer.value;
      DeclaresIs(a.newThreads, r.carried, t);
      if NewNumber(t).Some? { NewFormIs(t, NewNumber(t).value); }
      forall d ensures NewForm(t, d) <==> NewNumber(t) == Some(d) { NewFormIs(t, d); }
      forall k | 0 <= k < |r.chunk| ensures Picked(a.picks, ms[r.chunk[k]].id, t)
          <==> RefOf(a.picks, ms[r.chunk[k]].id) == Some(t) {
        PickedIs(a.picks, ms[r.chunk[k]].id, t);
      }
    }
  }

  /** The last titled declaration of its thread. */
  ghost predicate LastTitled(nts: seq<NewThread>, nt: NewThread) {
    Trim(nt.title) != "" && exists i :: 0 <= i < |nts| && LastAt(nts, nt, i)
  }

  predicate LastAt(nts: seq<NewThread>, nt: NewThread, i: nat)
    requires i < |nts|
  {
    nts[i] == nt && forall j | i < j < |nts| && nts[j].id == nt.id :: Trim(nts[j].title) == ""
  }

  /** The answer's declaration of a thread, and the bucket it is for. */
  ghost predicate DeclaredFor(a: Answer, nt: NewThread, key: string) {
    LastTitled(a.newThreads, nt) && exists d :: NewForm(nt.id, d) && key == "new-thread:" + d
  }

  /** The round minted this thread, for this bucket. */
  ghost predicate MintedFor(ms: seq<Message>, r: Round, nt: NewThread, key: string) {
    r.answer.Some? && nt.id !in r.carried && Minted(ms, r, nt.id) && DeclaredFor(r.answer.value, nt, key)
  }

  /** Every new thread is one that some round minted, as its answer declares it. */
  ghost predicate ThreadsMinted(ms: seq<Message>, rounds: seq<Round>, newThreads: map<string, NewThread>) {
    forall k | k in newThreads :: exists r :: r in rounds && MintedFor(ms, r, newThreads[k], k)
  }

  lemma ThreadsMintedSnoc(ms: seq<Message>, rounds: seq<Round>, r: Round, was: map<string, NewThread>,
      now: map<string, NewThread>)
    requires ThreadsMinted(ms, rounds, was)
    requires forall k | k in now :: (k in was && now[k] == was[k]) || MintedFor(ms, r, now[k], k)
    ensures ThreadsMinted(ms, rounds + [r], now)
  {
    hide MintedFor;
    forall k | k in now ensures exists x :: x in rounds + [r] && MintedFor(ms, x, now[k], k) {
      if MintedFor(ms, r, now[k], k) {
        assert r in rounds + [r];
      } else {
        var x :| x in rounds && MintedFor(ms, x, was[k], k);
        assert x in rounds + [r];
      }
    }
  }

  lemma TitledLater(nts: seq<NewThread>, last: NewThread, nt: NewThread)
    requires LastTitled(nts, nt) && (last.id == nt.id ==> Trim(last.title) == "")
    ensures LastTitled(nts + [last], nt)
  {
    hide Trim;
    var i :| 0 <= i < |nts| && LastAt(nts, nt, i);
    assert LastAt(nts + [last], nt, i);
  }

  lemma TitledNow(nts: seq<NewThread>, last: NewThread)
    requires Trim(last.title) != ""
    ensures LastTitled(nts + [last], last)
  {
    hide Trim;
    assert LastAt(nts + [last], last, |nts|);
  }

  lemma {:induction false} DeclaredAt(nts: seq<NewThread>, carried: set<string>, t: string)
    requires t in Declared(nts, carried)
    ensures Declared(nts, carried)[t].id == t && LastTitled(nts, Declared(nts, carried)[t])
  {
    hide NewNumber, Trim, LastTitled;
    var n := |nts| - 1;
    var last := nts[n];
    assert nts == nts[..n] + [last];
    if NewNumber(last.id).Some? && last.id !in carried && !BlankTitle(last) && last.id == t {
      TitledNow(nts[..n], last);
    } else {
      DeclaredAre(nts[..n], carried);
      DeclaredAt(nts[..n], carried, t);
      TitledLater(nts[..n], last, Declared(nts, carried)[t]);
    }
  }

  lemma DeclaredLast(a: Answer, carried: set<string>, t: string)
    requires t in Declared(a.newThreads, carried)
    ensures var nt := Declared(a.newThreads, carried)[t]; nt.id == t && DeclaredFor(a, nt, BucketKey(t))
  {
    hide NewNumber, LastTitled, Declared;
    DeclaredAt(a.newThreads, carried, t);
    DeclaredAre(a.newThreads, carried);
    NewFormIs(t, NewNumber(t).value);
  }

  /** The threads folded in are minted by the round. */
  lemma FoldedMinted(ms: seq<Message>, r: Round, known: set<string>, used: set<string>, lines: set<string>,
      was: map<string, NewThread>, now: map<string, NewThread>)
    requires r.answer.Some? && (forall k | 0 <= k < |r.chunk| :: r.chunk[k] < |ms|) && used <= r.carried
    requires forall t | t in r.carried + Declared(r.answer.value.newThreads, r.carried).Keys && t in lines
             && t !in used ::
               NamedFor(ms, r.chunk, r.answer.value, Accepted(r.answer.value, known, r.carried), t)
    requires var declared := Declared(r.answer.value.newThreads, r.carried);
             forall k | k in now ::
               (k in was && now[k] == was[k])
               || exists id :: id in declared && id in lines && BucketKey(id) == k && now[k] == declared[id]
    ensures forall k | k in now :: (k in was && now[k] == was[k]) || MintedFor(ms, r, now[k], k)
  {
    hide NewNumber, Declared, BucketKey, Accepted, NamedFor, Minted, DeclaredFor;
    var declared := Declared(r.answer.value.newThreads, r.carried);
    DeclaredAre(r.answer.value.newThreads, r.carried);
    forall k | k in now && !(k in was && now[k] == was[k]) ensures MintedFor(ms, r, now[k], k) {
      var id :| id in declared && id in lines && BucketKey(id) == k && now[k] == declared[id];
      DeclaredLast(r.answer.value, r.carried, id);
      MintedIs(ms, r, known, id);
    }
  }

  predicate InBatch(ms: seq<Message>, rounds: seq<Round>) {
    forall r | r in rounds :: forall k | 0 <= k < |r.chunk| :: r.chunk[k] < |ms|
  }

  function RoundLost(ms: seq<Message>, r: Round, known: set<string>): nat
    requires forall k | 0 <= k < |r.chunk| :: r.chunk[k] < |ms|
  {
    if r.answer.None? then |r.chunk| else Lost(ms, r.chunk, r.answer.value, Accepted(r.answer.value, known, r.carried))
  }

  function TotalLost(ms: seq<Message>, rounds: seq<Round>, known: set<string>): nat
    requires InBatch(ms, rounds)
  {
    if rounds == [] then 0
    else
      var r := rounds[|rounds| - 1];
      assert r in rounds;
      TotalLost(ms, rounds[..|rounds| - 1], known) + RoundLost(ms, r, known)
  }

  function AskedIn(rounds: seq<Round>): seq<nat> {
    if rounds == [] then [] else AskedIn(rounds[..|rounds| - 1]) + rounds[|rounds| - 1].chunk
  }

  /** What was asked, and how it was answered. */
  ghost predicate RoundsAre(ms: seq<Message>, p: Placed, rounds: seq<Round>, tries: nat -> (nat -> Option<Answer>),
      known: set<string>)
  {
    && InBatch(ms, rounds)
    && forall n | 0 <= n < |rounds| ::
         Given(tries(n), rounds[n].answer)
         && ChunkPlaced(ms, p, rounds[n].chunk, rounds[n].answer, known, rounds[n].carried)
  }

  lemma RoundsSnoc(ms: seq<Message>, p: Placed, q: Placed, rounds: seq<Round>, r: Round,
      tries: nat -> (nat -> Option<Answer>),
      known: set<string>)
    requires RoundsAre(ms, p, rounds, tries, known) && Stay(ms, p, q)
    requires (forall k | 0 <= k < |r.chunk| :: r.chunk[k] < |ms|) && Given(tries(|rounds|), r.answer)
    requires ChunkPlaced(ms, q, r.chunk, r.answer, known, r.carried)
    ensures RoundsAre(ms, q, rounds + [r], tries, known)
    ensures AskedIn(rounds + [r]) == AskedIn(rounds) + r.chunk
    ensures TotalLost(ms, rounds + [r], known) == TotalLost(ms, rounds, known) + RoundLost(ms, r, known)
  {
    hide ChunkPlaced, Stay, Given, Accepted;
    assert (rounds + [r])[..|rounds|] == rounds;
    forall n | 0 <= n < |rounds|
      ensures ChunkPlaced(ms, q, rounds[n].chunk, rounds[n].answer, known, rounds[n].carried)
    {
      assert rounds[n] in rounds;
      ChunkStays(ms, p, q, rounds[n].chunk, rounds[n].answer, known, rounds[n].carried);
    }
  }

  /** What is asked about is what neither the batch nor a stored thread places. */
  lemma ToAskIs(ms: seq<Message>, find: string -> Option<string>, f: Buckets, p: Placed, toAsk: seq<nat>)
    requires Queued(ms, f, p) && Routed(ms, f, p, toAsk, |ms|) && RootsRouted(ms, find, p, toAsk)
    ensures NoDup(toAsk) && forall i: nat :: i in toAsk <==> i < |ms| && Asked(ms, find, i)
    ensures forall i | 0 <= i < |ms| && Target(ms, i).None? && !Asked(ms, find, i) :: In(ms, p, i)
  {
    hide In, Key, Waiters, Target, NoDup;
    forall i | 0 <= i < |ms| && Target(ms, i).None? && !Asked(ms, find, i) ensures In(ms, p, i) {
      assert Dealt(ms, f, p, toAsk, i);
      WaiterReplies(ms, f, p, i);
    }
    forall i | 0 <= i < |ms| && Asked(ms, find, i) ensures i in toAsk {
      assert Dealt(ms, f, p, toAsk, i);
      WaiterReplies(ms, f, p, i);
    }
  }

  /** Each asked message is in the bucket its round's answer names. */
  ghost predicate KeysKept(ms: seq<Message>, b: Buckets, rounds: seq<Round>, known: set<string>)
    requires InBatch(ms, rounds)
  {
    forall n, k | 0 <= n < |rounds| && 0 <= k < |rounds[n].chunk| ::
      (rounds[n] in rounds) && InBucket(b, KeyIn(ms[rounds[n].chunk[k]], rounds[n].answer, known, rounds[n].carried),
          rounds[n].chunk[k])
  }

  /** Each asked message is in the bucket its round's answer puts it in, and in
      chatter if the answer names no thread for it, or none there is. */
  ghost predicate AnswersKept(ms: seq<Message>, b: Buckets, rounds: seq<Round>, known: set<string>) {
    forall n, k | 0 <= n < |rounds| && 0 <= k < |rounds[n].chunk| :: AnswerKept(ms, b, rounds[n], k, known)
  }

  ghost predicate AnswerKept(ms: seq<Message>, b: Buckets, r: Round, k: nat, known: set<string>)
    requires k < |r.chunk|
  {
    var i := r.chunk[k];
    && i < |ms|
    && (forall key | Goes(ms[i].id, r.answer, known, r.carried, key) :: InBucket(b, key, i))
    && (Unthreaded(ms[i].id, r.answer, known, r.carried) ==> InBucket(b, "chatter", i))
  }

  /** The message was asked about, and its answer gives it no thread. */
  ghost predicate LeftOut(ms: seq<Message>, rounds: seq<Round>, known: set<string>, i: nat)
    requires i < |ms|
  {
    exists n, k :: 0 <= n < |rounds| && 0 <= k < |rounds[n].chunk| && OutAt(ms[i].id, rounds[n], k, known, i)
  }

  ghost predicate OutAt(id: string, r: Round, k: nat, known: set<string>, i: nat)
    requires k < |r.chunk|
  {
    r.chunk[k] == i && Unthreaded(id, r.answer, known, r.carried)
  }

  ghost function AllLeftOut(ms: seq<Message>, rounds: seq<Round>, known: set<string>): set<nat> {
    set i: nat | i < |ms| && LeftOut(ms, rounds, known, i)
  }

  predicate PlainCarried(rounds: seq<Round>) {
    forall r, t | r in rounds && t in r.carried :: NewNumber(t).Some?
  }

  lemma CarriedPlain(ms: seq<Message>, rounds: seq<Round>)
    requires MintedInTurn(ms, rounds)
    ensures PlainCarried(rounds)
  {
    hide NewNumber, Declares, NewForm, Picked;
    forall r, t | r in rounds && t in r.carried ensures NewNumber(t).Some? {
      var n :| 0 <= n < |rounds| && rounds[n] == r;
      assert MintedBefore(ms, rounds, n, t);
      var m :| 0 <= m < n && Minted(ms, rounds[m], t);
      var d :| NewForm(t, d);
      NewFormIs(t, d);
    }
  }

  lemma KeptAsAnswered(ms: seq<Message>, b: Buckets, rounds: seq<Round>, known: set<string>)
    requires InBatch(ms, rounds) && KeysKept(ms, b, rounds, known) && PlainSlugs(known) && PlainCarried(rounds)
    ensures AnswersKept(ms, b, rounds, known)
  {
    hide KeyIn, RefFor, NewNumber, PlainSlugs, Goes, Unthreaded, Accepted, InBucket;
    forall n, k | 0 <= n < |rounds| && 0 <= k < |rounds[n].chunk| ensures AnswerKept(ms, b, rounds[n], k, known) {
      var r := rounds[n];
      assert r in rounds && InBucket(b, KeyIn(ms[r.chunk[k]], r.answer, known, r.carried), r.chunk[k]);
      var m := ms[r.chunk[k]];
      forall key | Goes(m.id, r.answer, known, r.carried, key) ensures InBucket(b, key, r.chunk[k]) {
        GoesIs(m, r.answer, known, r.carried, key);
      }
      UnthreadedIs(m, r.answer, known, r.carried);
    }
  }

  // ---------------------------------------------------------------------
  // Counting the unassigned
  // ---------------------------------------------------------------------

  /** The messages of a chunk that get no thread, in order. */
  ghost function Outs(ms: seq<Message>, chunk: seq<nat>, answer: Option<Answer>, known: set<string>,
      carried: set<string>)
      : (r: seq<nat>)
    requires forall k | 0 <= k < |chunk| :: chunk[k] < |ms|
  {
    if chunk == [] then [] else
      var n := |chunk| - 1;
      Outs(ms, chunk[..n], answer, known, carried)
      + if Unthreaded(ms[chunk[n]].id, answer, known, carried) then [chunk[n]] else []
  }

  lemma {:induction false} OutsAre(ms: seq<Message>, chunk: seq<nat>, answer: Option<Answer>, known: set<string>,
      carried: set<string>)
    requires forall k | 0 <= k < |chunk| :: chunk[k] < |ms|
    ensures forall i :: i in Outs(ms, chunk, answer, known, carried)
                        <==> i in chunk && i < |ms| && Unthreaded(ms[i].id, answer, known, carried)
    ensures NoDup(chunk) ==> NoDup(Outs(ms, chunk, answer, known, carried))
  {
    hide Unthreaded, NoDup;
    if chunk == [] {
      NothingTwice();
    } else {
      var n := |chunk| - 1;
      var rest := Outs(ms, chunk[..n], answer, known, carried);
      OutsAre(ms, chunk[..n], answer, known, carried);
      assert chunk == chunk[..n] + [chunk[n]];
      if NoDup(chunk) {
        NoDupInit(chunk);
        assert rest + [] == rest;
        if chunk[n] !in rest && NoDup(rest) { NoDupSnoc(rest, chunk[n]); }
      }
    }
  }

  lemma NothingTwice()
    ensures NoDup<nat>([])
  {}

  lemma NoDupInit(s: seq<nat>)
    requires s != [] && NoDup(s)
    ensures NoDup(s[..|s| - 1]) && s[|s| - 1] !in s[..|s| - 1]
  {}

  lemma NoDupSnoc(s: seq<nat>, x: nat)
    requires NoDup(s) && x !in s
    ensures NoDup(s + [x])
  {
    forall k | 0 <= k < |s| ensures s[k] != x { assert s[k] in s; }
  }

  lemma {:induction false} OutsCounted(ms: seq<Message>, chunk: seq<nat>, answer: Option<Answer>, known: set<string>,
      carried: set<string>)
    requires forall k | 0 <= k < |chunk| :: chunk[k] < |ms|
    requires PlainSlugs(known) && forall r | r in carried :: NewNumber(r).Some?
    ensures |Outs(ms, chunk, answer, known, carried)|
            == if answer.None? then |chunk| else Lost(ms, chunk, answer.value, Accepted(answer.value, known, carried))
  {
    hide Unthreaded, Accepted, NewNumber, PlainSlugs;
    if chunk != [] {
      var n := |chunk| - 1;
      OutsCounted(ms, chunk[..n], answer, known, carried);
      UnthreadedIs(ms[chunk[n]], answer, known, carried);
    }
  }

  ghost function AllOuts(ms: seq<Message>, rounds: seq<Round>, known: set<string>): seq<nat>
    requires InBatch(ms, rounds)
  {
    if rounds == [] then [] else
      var r := rounds[|rounds| - 1];
      assert r in rounds;
      AllOuts(ms, rounds[..|rounds| - 1], known) + Outs(ms, r.chunk, r.answer, known, r.carried)
  }

  lemma {:induction false} AllOutsAre(ms: seq<Message>, rounds: seq<Round>, known: set<string>)
    requires InBatch(ms, rounds) && PlainSlugs(known) && PlainCarried(rounds) && NoDup(AskedIn(rounds))
    ensures var s := AllOuts(ms, rounds, known);
            && |s| == TotalLost(ms, rounds, known) && NoDup(s) && (forall i | i in s :: i in AskedIn(rounds))
            && forall i: nat :: i in s <==> i < |ms| && LeftOut(ms, rounds, known, i)
  {
    hide Unthreaded, NewNumber, PlainSlugs, Accepted, Lost, NoDup;
    if rounds != [] {
      var n := |rounds| - 1;
      var rest, r := rounds[..n], rounds[n];
      assert r in rounds && rounds == rest + [r] && forall x | x in rest :: x in rounds;
      NoDupParts(AskedIn(rest), r.chunk);
      AllOutsAre(ms, rest, known);
      OutsAre(ms, r.chunk, r.answer, known, r.carried);
      OutsCounted(ms, r.chunk, r.answer, known, r.carried);
      var a, b := AllOuts(ms, rest, known), Outs(ms, r.chunk, r.answer, known, r.carried);
      NoDupJoin(a, b, AskedIn(rest), r.chunk);
      forall i | 0 <= i < |ms|
        ensures LeftOut(ms, rounds, known, i) <==> LeftOut(ms, rest, known, i) || i in b
      {
        LeftOutSnoc(ms, rest, r, known, i);
      }
    }
  }

  lemma LeftOutSnoc(ms: seq<Message>, rest: seq<Round>, r: Round, known: set<string>, i: nat)
    requires i < |ms|
    ensures LeftOut(ms, rest + [r], known, i)
            <==> LeftOut(ms, rest, known, i) || (i in r.chunk && Unthreaded(ms[i].id, r.answer, known, r.carried))
  {
    hide Unthreaded;
    var all := rest + [r];
    if LeftOut(ms, rest, known, i) {
      var n, k :| 0 <= n < |rest| && 0 <= k < |rest[n].chunk| && OutAt(ms[i].id, rest[n], k, known, i);
      assert all[n] == rest[n];
    }
    if i in r.chunk && Unthreaded(ms[i].id, r.answer, known, r.carried) {
      var k :| 0 <= k < |r.chunk| && r.chunk[k] == i;
      assert all[|rest|] == r && OutAt(ms[i].id, all[|rest|], k, known, i);
    }
    if LeftOut(ms, all, known, i) {
      var n, k :| 0 <= n < |all| && 0 <= k < |all[n].chunk| && OutAt(ms[i].id, all[n], k, known, i);
      if n < |rest| { assert OutAt(ms[i].id, rest[n], k, known, i); }
    }
  }

  lemma NoDupParts(a: seq<nat>, b: seq<nat>)
    requires NoDup(a + b)
    ensures NoDup(a) && NoDup(b) && forall x | x in a :: x !in b
  {
    var s := a + b;
    forall i, j | 0 <= i < j < |a| ensures a[i] != a[j] { assert s[i] != s[j]; }
    forall i, j | 0 <= i < j < |b| ensures b[i] != b[j] { assert s[|a| + i] != s[|a| + j]; }
    forall i, j | 0 <= i < |a| && 0 <= j < |b| ensures a[i] != b[j] { assert s[i] != s[|a| + j]; }
  }

  lemma NoDupJoin(a: seq<nat>, b: seq<nat>, c: seq<nat>, d: seq<nat>)
    requires NoDup(a) && NoDup(b) && (forall x | x in a :: x in c) && (forall x | x in b :: x in d)
    requires forall x | x in c :: x !in d
    ensures NoDup(a + b)
  {
    var s := a + b;
    forall i, j | 0 <= i < j < |s| ensures s[i] != s[j] {
      if i < |a| { assert s[i] in a; }
      if j >= |a| { assert s[j] in b; }
    }
  }

  /** The count of the unassigned is of those no answer gives a thread. */
  lemma LostAreLeftOut(ms: seq<Message>, rounds: seq<Round>, known: set<string>)
    requires InBatch(ms, rounds) && PlainSlugs(known) && PlainCarried(rounds) && NoDup(AskedIn(rounds))
    ensures TotalLost(ms, rounds, known) == |AllLeftOut(ms, rounds, known)|
  {
    hide PlainSlugs, LeftOut, NoDup, PlainCarried;
    AllOutsAre(ms, rounds, known);
    var s := AllOuts(ms, rounds, known);
    CardOf(s, AllLeftOut(ms, rounds, known));
  }

  lemma {:induction false} CardOf(s: seq<nat>, c: set<nat>)
    requires NoDup(s) && forall x: nat :: x in c <==> x in s
    ensures |c| == |s|
  {
    if s == [] {
      assert c == {};
    } else {
      var r, x := s[..|s| - 1], s[|s| - 1];
      assert s == r + [x] && x !in r;
      CardOf(r, c - {x});
    }
  }

  predicate InBucket(b: Buckets, k: string, i: nat) { k in b && i in b[k] }

  lemma PlacedInBuckets(ms: seq<Message>, find: string -> Option<string>, b: Buckets, p: Placed, rounds: seq<Round>,
      tries: nat -> (nat -> Option<Answer>), known: set<string>, was: Placed)
    requires Bucketed(ms, b, p) && RoundsAre(ms, p, rounds, tries, known) && Stay(ms, was, p)
    ensures KeysKept(ms, b, rounds, known)
    ensures forall i | 0 <= i < |ms| && In(ms, was, i) :: InBucket(b, Key(ms, was, i), i)
  {
    hide In, Key, KeyIn, Given;
    forall n, k | 0 <= n < |rounds| && 0 <= k < |rounds[n].chunk|
      ensures rounds[n] in rounds
      ensures InBucket(b, KeyIn(ms[rounds[n].chunk[k]], rounds[n].answer, known, rounds[n].carried), rounds[n].chunk[k])
    {
      assert ChunkPlaced(ms, p, rounds[n].chunk, rounds[n].answer, known, rounds[n].carried);
    }
  }

  /** Each chunk keeps to what squeezing the context left it. */
  predicate RoundsFit(ms: seq<Message>, rounds: seq<Round>, budget: nat -> int, most: int)
    requires InBatch(ms, rounds)
  {
    forall n | 0 <= n < |rounds| :: (rounds[n] in rounds) && ChunkFits(ms, rounds[n].chunk, budget(n), most)
  }

  lemma RoundsFitSnoc(ms: seq<Message>, rounds: seq<Round>, r: Round, budget: nat -> int, most: int)
    requires InBatch(ms, rounds + [r]) && InBatch(ms, rounds) && RoundsFit(ms, rounds, budget, most)
    requires (forall k | 0 <= k < |r.chunk| :: r.chunk[k] < |ms|) && ChunkFits(ms, r.chunk, budget(|rounds|), most)
    ensures RoundsFit(ms, rounds + [r], budget, most)
  {
    hide ChunkFits;
    var all := rounds + [r];
    forall n | 0 <= n < |all| ensures all[n] in all && ChunkFits(ms, all[n].chunk, budget(n), most) {
      if n < |rounds| { assert rounds[n] in rounds; }
    }
  }

  /** `assign_batch`. `tries(n)(k)` is what the model returns for chunk `n` at
      attempt `k`, and `budget(n)` what squeezing the context leaves the chunk.

      Whatever the answers: every message in no reply cycle is in exactly one
      bucket and no other message is in any, each bucket is in batch order, a
      reply is with the message it replies to, and every bucket is chatter, an
      existing thread, or a new thread that is declared. `rounds` is what was
      asked: every message that neither replies to one of the batch nor to a
      stored thread, once; each is where its round's answer puts it, and the
      count of the unassigned is of those no answer places. */
  method AssignBatch(ms: seq<Message>, known: set<string>, find: string -> Option<string>,
      tries: nat -> (nat -> Option<Answer>), budget: nat -> int, most: int)
      returns (p: Placement, newThreads: map<string, NewThread>, unassigned: nat, ghost rounds: seq<Round>)
    requires GoodBatch(ms) && PlainSlugs(known)
    ensures fresh(p) && p.messages == ms
    ensures NoDup(AskedIn(rounds))
    ensures forall i: nat ::
              i in AskedIn(rounds)
              <==> i < |ms| && Root(ms, i) && (ms[i].replyTo == "" || find(ms[i].replyTo).None?)
    ensures forall i | 0 <= i < |ms| && Root(ms, i) && ms[i].replyTo != "" && find(ms[i].replyTo).Some? ::
              InBucket(p.buckets, find(ms[i].replyTo).value, i)
    ensures InBatch(ms, rounds) && forall n | 0 <= n < |rounds| :: Given(tries(n), rounds[n].answer)
    ensures RoundsFit(ms, rounds, budget, most)
    ensures AnswersKept(ms, p.buckets, rounds, known) && MintedInTurn(ms, rounds)
    ensures unassigned == |AllLeftOut(ms, rounds, known)|
    ensures Partition(ms, p.buckets) && forall k | k in p.buckets :: Ascending(p.buckets[k])
    ensures GoodKeys(p.buckets, known, find, newThreads) && ThreadsMinted(ms, rounds, newThreads)
  {
    hide GoodBatch, Consistent, Queued, Together, Free, In, Routed, NewNumber, BucketKey, PlainSlugs, RoundsAre,
         Stay, TotalLost, Given, AnswersKept, KeysKept, InBatch, RootsRouted, NoDup, Key, MintedInTurn, Minted,
             AllLeftOut,
         LeftOut, MintedFor, ThreadsMinted;
    p := new Placement(ms);
    p.RouteReplies(find);
    newThreads, unassigned, rounds := map[], 0, [];
    ghost var routed, asked := p.placed, p.toAsk;
    ToAskIs(ms, find, p.followers, routed, asked);
    NoRounds(ms, routed, tries, known);
    var rest: seq<nat>, round, carried: set<string>, used: set<string>, next := p.toAsk, 0, {}, {}, 1;
    while rest != []
      invariant fresh(p) && p.Valid() && p.messages == ms && Routed(ms, p.followers, p.placed, rest, |ms|)
      invariant GoodKeys(p.buckets, known, find, newThreads) && Carried(carried, used, newThreads)
      invariant round == |rounds| && AskedIn(rounds) + rest == asked && Stay(ms, routed, p.placed)
      invariant RoundsAre(ms, p.placed, rounds, tries, known) && InBatch(ms, rounds)
                && unassigned == TotalLost(ms, rounds, known)
      invariant RoundsFit(ms, rounds, budget, most)
      invariant ThreadsMinted(ms, rounds, newThreads)
      invariant MintedInTurn(ms, rounds) && forall t :: t in carried <==> MintedBefore(ms, rounds, |rounds|, t)
      decreases |rest|
    {
      var lost;
      ghost var before := p.placed;
      ghost var made;
      ghost var threads := newThreads;
      rest, lost, newThreads, carried, used, next, made :=
        OneChunk(p, rest, known, find, tries(round), budget(round), most, newThreads, carried, used, next);
      StayOn(ms, routed, before, p.placed);
      RoundsSnoc(ms, before, p.placed, rounds, made, tries, known);
      RoundsIn(ms, p.placed, rounds + [made], tries, known);
      RoundsFitSnoc(ms, rounds, made, budget, most);
      MintedSnoc(ms, rounds, made, carried);
      ThreadsMintedSnoc(ms, rounds, made, threads, newThreads);
      Assoc(AskedIn(rounds), made.chunk, rest);
      unassigned, round, rounds := unassigned + lost, round + 1, rounds + [made];
    }
    assert AskedIn(rounds) + [] == AskedIn(rounds);
    forall i | 0 <= i < |ms| ensures In(ms, p.placed, i) <==> Free(ms, i) {
      PlacedIffFree(ms, p.buckets, p.followers, p.placed, i);
    }
    p.Finish();
    PlacedPartition(ms, p.buckets, p.placed);
    ConsistentBuckets(ms, p.buckets, p.placed);
    PlacedInBuckets(ms, find, p.buckets, p.placed, rounds, tries, known, routed);
    RoundsGiven(ms, p.placed, rounds, tries, known);
    RootsKept(ms, find, routed, asked, p.buckets);
    forall i | 0 <= i < |ms| ensures Target(ms, i).None? <==> Root(ms, i) { TargetMeans(ms, i); }
    CarriedPlain(ms, rounds);
    KeptAsAnswered(ms, p.buckets, rounds, known);
    LostAreLeftOut(ms, rounds, known);
  }

  lemma NoRounds(ms: seq<Message>, p: Placed, tries: nat -> (nat -> Option<Answer>), known: set<string>)
    ensures RoundsAre(ms, p, [], tries, known) && InBatch(ms, []) && TotalLost(ms, [], known) == 0 && Stay(ms, p, p)
    ensures AskedIn([]) == [] && (forall s: seq<nat> :: [] + s == s) && MintedInTurn(ms, [])
            && ThreadsMinted(ms, [], map[])
  {}

  lemma StayOn(ms: seq<Message>, p: Placed, q: Placed, r: Placed)
    requires Stay(ms, p, q) && Stay(ms, q, r)
    ensures Stay(ms, p, r)
  {
    hide In, Key;
  }

  lemma RoundsIn(ms: seq<Message>, p: Placed, rounds: seq<Round>, tries: nat -> (nat -> Option<Answer>),
      known: set<string>)
    requires RoundsAre(ms, p, rounds, tries, known)
    ensures InBatch(ms, rounds)
  {}

  lemma RoundsGiven(ms: seq<Message>, p: Placed, rounds: seq<Round>, tries: nat -> (nat -> Option<Answer>),
      known: set<string>)
    requires RoundsAre(ms, p, rounds, tries, known)
    ensures forall n | 0 <= n < |rounds| :: Given(tries(n), rounds[n].answer)
  {}

  lemma ConsistentBuckets(ms: seq<Message>, b: Buckets, p: Placed)
    requires Consistent(ms, b, p)
    ensures Bucketed(ms, b, p)
  {}

  /** What a stored thread takes is in its bucket. */
  lemma RootsKept(ms: seq<Message>, find: string -> Option<string>, was: Placed, toAsk: seq<nat>, b: Buckets)
    requires RootsRouted(ms, find, was, toAsk)
    requires forall i: nat :: i in toAsk <==> i < |ms| && Asked(ms, find, i)
    requires forall i | 0 <= i < |ms| && In(ms, was, i) :: InBucket(b, Key(ms, was, i), i)
    requires forall i | 0 <= i < |ms| && Target(ms, i).None? && !Asked(ms, find, i) :: In(ms, was, i)
    ensures forall i | 0 <= i < |ms| && Target(ms, i).None? && !Asked(ms, find, i) ::
              InBucket(b, find(ms[i].replyTo).value, i)
  {
    hide In, Key, Target;
  }

  /** The messages in no reply cycle, each in one bucket, with the message it
      replies to. */
  ghost predicate Partition(ms: seq<Message>, b: Buckets) {
    && (forall i | 0 <= i < |ms| :: Free(ms, i) <==> exists k :: k in b && i in b[k])
    && (forall k, i | k in b && i in b[k] :: i < |ms| && forall l | l in b && i in b[l] :: l == k)
    && (forall k, i | k in b && i in b[k] && i < |ms| && Target(ms, i).Some? :: Target(ms, i).value in b[k])
  }

  lemma PlacedPartition(ms: seq<Message>, b: Buckets, p: Placed)
    requires Consistent(ms, b, p) && Together(ms, p)
    requires forall i | 0 <= i < |ms| :: In(ms, p, i) <==> Free(ms, i)
    ensures Partition(ms, b)
  {
    hide In, Key, Free, Holder, Target;
    forall i | 0 <= i < |ms| ensures Free(ms, i) <==> exists k :: k in b && i in b[k] {
      if In(ms, p, i) { assert Key(ms, p, i) in b; }
    }
    forall k, i | k in b && i in b[k]
      ensures i < |ms| && (forall l | l in b && i in b[l] :: l == k)
      ensures i < |ms| && (Target(ms, i).Some? ==> Target(ms, i).value in b[k])
    {
      assert In(ms, p, i) && Key(ms, p, i) == k;
      if Target(ms, i).Some? { assert WithTarget(ms, p, i, k); }
    }
  }

  /** Threads minted so far: declared, and the ones that got messages. */
  predicate Carried(carried: set<string>, used: set<string>, newThreads: map<string, NewThread>) {
    used <= carried && forall ref | ref in carried :: BucketKey(ref) in newThreads
  }

  lemma RestInBatch(ms: seq<Message>, f: Buckets, p: Placed, rest: seq<nat>)
    requires Routed(ms, f, p, rest, |ms|)
    ensures forall k | 0 <= k < |rest| :: rest[k] < |ms|
  {
    forall k | 0 <= k < |rest| ensures rest[k] < |ms| { assert rest[k] in rest; }
  }

  /** Once this chunk's threads are declared every key is good. */
  lemma KeysSettled(b: Buckets, known: set<string>, find: string -> Option<string>, was: map<string, NewThread>,
      newThreads: map<string, NewThread>, carried: set<string>, used: set<string>)
    requires KeysOrUsed(b, known, find, was, used) && was.Keys <= newThreads.Keys && Carried(carried, used, newThreads)
    ensures GoodKeys(b, known, find, newThreads)
  {
    hide BucketKey;
    forall k | k in b ensures GoodKey(k, known, find, newThreads) {
      if !GoodKey(k, known, find, was) {
        var ref :| ref in used && k == BucketKey(ref);
      }
    }
  }

  /** One chunk of `assign_batch`: cut, ask, place, fold. */
  method OneChunk(p: Placement, rest: seq<nat>, known: set<string>, ghost find: string -> Option<string>,
      tries: nat -> Option<Answer>, budget: int, most: int,
      newThreads: map<string, NewThread>, carried: set<string>, used: set<string>, next: nat)
      returns (later: seq<nat>, lost: nat, threads: map<string, NewThread>, refs: set<string>, lines: set<string>,
          index: nat, ghost made: Round)
    requires p.Valid() && rest != [] && Routed(p.messages, p.followers, p.placed, rest, |p.messages|)
             && PlainSlugs(known)
    requires GoodKeys(p.buckets, known, find, newThreads) && Carried(carried, used, newThreads)
    modifies p
    ensures p.Valid() && Routed(p.messages, p.followers, p.placed, later, |p.messages|) && |later| < |rest|
    ensures GoodKeys(p.buckets, known, find, threads) && Carried(refs, lines, threads)
    ensures rest == made.chunk + later && made.carried == carried && Given(tries, made.answer)
    ensures (forall k | 0 <= k < |made.chunk| :: made.chunk[k] < |p.messages|)
            && ChunkFits(p.messages, made.chunk, budget, most) && lost == RoundLost(p.messages, made, known)
    ensures Stay(p.messages, old(p.placed), p.placed)
    ensures ChunkPlaced(p.messages, p.placed, made.chunk, made.answer, known, made.carried)
    ensures forall t :: t in refs <==> t in carried || Minted(p.messages, made, t)
    ensures newThreads.Keys <= threads.Keys
    ensures forall k | k in threads ::
              (k in newThreads && threads[k] == newThreads[k]) || MintedFor(p.messages, made, threads[k], k)
  {
    hide GoodBatch, Consistent, Queued, Together, Routed, Declared, NewNumber, BucketKey, Usable, PlainSlugs,
         GoodKey, Stay, ChunkPlaced, Accepted, Minted, NamedFor, MintedFor;
    RestInBatch(p.messages, p.followers, p.placed, rest);
    var chunk := FirstChunk(p.messages, rest, budget, most);
    later := rest[|chunk|..];
    assert rest == chunk + later;
    var answer, problems, calls := AskWithRetries(tries, IdsOf(p.messages, chunk), known, carried, next);
    var fromChunk;
    lost, fromChunk := PutChunk(p, chunk, later, answer, known, carried, find, newThreads, used);
    made := Round(chunk, answer, carried);
    lines := used + fromChunk;
    threads, refs, index := newThreads, carried, next;
    if answer.Some? {
      var nts := answer.value.newThreads;
      DeclaredSources(nts, carried);
      threads, refs, index := FoldNewThreads(nts, Declared(nts, carried), lines, newThreads, carried, next);
    }
    KeysSettled(p.buckets, known, find, newThreads, threads, refs, lines);
    forall t ensures t in refs <==> t in carried || Minted(p.messages, made, t) {
      if t !in carried { MintedIs(p.messages, made, known, t); }
    }
    if answer.Some? { FoldedMinted(p.messages, made, known, used, lines, newThreads, threads); }
  }

  lemma {:induction false} DeclaredSources(nts: seq<NewThread>, carried: set<string>)
    ensures forall id | id in Declared(nts, carried) ::
              NewNumber(id).Some? && id !in carried && exists j :: 0 <= j < |nts| && nts[j].id == id
  {
    hide NewNumber;
    if nts != [] {
      var r := nts[..|nts| - 1];
      DeclaredSources(r, carried);
      forall id | id in Declared(nts, carried) ensures exists j :: 0 <= j < |nts| && nts[j].id == id {
        if id in Declared(r, carried) {
          var j :| 0 <= j < |r| && r[j].id == id;
          assert nts[j].id == id;
        }
      }
    }
  }
}
