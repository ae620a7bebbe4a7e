/** Assignment by the small router first (agents/wa_agent/assign_jev.py): what it
    is unsure of is handed, with its direct replies, to the structured
    assigner. */
module HandOver {
  import opened Options
  import opened Placement
  import opened Assignment
  import opened Batches

  /** What the router says of one message. */
  datatype Choice = Choice(option: string, confidence: real)

  /** `_needs_worker`: no answer, not an existing thread or chatter, or unsure. */
  predicate NeedsWorker(c: Option<Choice>, known: set<string>, threshold: real) {
    c.None? || c.value.option !in known + {CHATTER} || c.value.confidence < threshold
  }

  // ---------------------------------------------------------------------
  // Taking one message out of those to ask about
  // ---------------------------------------------------------------------

  lemma RoutedWithout(ms: seq<Message>, f0: Buckets, p0: Placed, f: Buckets, p: Placed, a: seq<nat>, d: nat,
      b: seq<nat>,
      key: string)
    requires Routed(ms, f0, p0, a + [d] + b, |ms|) && d < |ms|
    requires forall i | 0 <= i < |ms| :: Moved(ms, f0, p0, f, p, d, key, i)
    ensures Routed(ms, f, p, a + b, |ms|)
  {
    hide In, Key, Waiters, Target;
    var l := a + [d] + b;
    DropOne(a, d, b);
    hide NoDup;
    forall i | 0 <= i < |ms| ensures Dealt(ms, f, p, a + b, i) {
      assert Moved(ms, f0, p0, f, p, d, key, i) && Dealt(ms, f0, p0, l, i);
    }
  }

  lemma DropOne(a: seq<nat>, d: nat, b: seq<nat>)
    requires NoDup(a + [d] + b)
    ensures NoDup(a + b) && forall i :: i in a + b <==> i in a + [d] + b && i != d
  {
    var l, r := a + [d] + b, a + b;
    assert forall k | 0 <= k < |r| :: r[k] == l[if k < |a| then k else k + 1];
    assert l[|a|] == d;
    forall i ensures i in r <==> i in l && i != d {
      if i in l && i != d {
        var k :| 0 <= k < |l| && l[k] == i;
        assert r[if k < |a| then k else k - 1] == i;
      }
    }
  }

  lemma MiddleReady(ms: seq<Message>, f: Buckets, p: Placed, a: seq<nat>, d: nat, b: seq<nat>, key: string)
    requires Routed(ms, f, p, a + [d] + b, |ms|)
    ensures d < |ms| && !In(ms, p, d) && d !in Waiters(f) && Free(ms, d) && WithTarget(ms, p, d, key)
  {
    hide In, Key, Waiters, NoDup;
    assert d in a + [d] + b && Dealt(ms, f, p, a + [d] + b, d);
    FreeRoot(ms, d);
  }

  /** A message nobody but the worker can place: no message of the batch and no
      stored thread takes it, and the router is unsure. */
  predicate LeftToWorker(ms: seq<Message>, find: string -> Option<string>, choice: nat -> Option<Choice>,
      known: set<string>, threshold: real, i: nat)
    requires i < |ms|
  {
    Asked(ms, find, i) && NeedsWorker(choice(i), known, threshold)
  }

  /** Where a message goes that replies to nobody in the batch: to the stored
      thread it replies to, or where the router is sure it belongs. */
  function RootKey(ms: seq<Message>, find: string -> Option<string>, choice: nat -> Option<Choice>,
      known: set<string>, threshold: real, i: nat): string
    requires i < |ms| && Target(ms, i).None? && !LeftToWorker(ms, find, choice, known, threshold, i)
  {
    if Asked(ms, find, i) then choice(i).value.option else find(ms[i].replyTo).value
  }

  /** The held are left to the worker, and other such messages are not placed. */
  ghost predicate Chosen(ms: seq<Message>, find: string -> Option<string>, choice: nat -> Option<Choice>,
      known: set<string>, threshold: real, p: Placed, held: seq<nat>)
  {
    && (forall i | i in held :: i < |ms| && LeftToWorker(ms, find, choice, known, threshold, i))
    && (forall i | 0 <= i < |ms| && Target(ms, i).None? && In(ms, p, i) ::
          !LeftToWorker(ms, find, choice, known, threshold, i)
          && Key(ms, p, i) == RootKey(ms, find, choice, known, threshold, i))
  }

  lemma ChosenPut(ms: seq<Message>, find: string -> Option<string>, choice: nat -> Option<Choice>, known: set<string>,
      threshold: real, f0: Buckets, p0: Placed, f: Buckets, p: Placed, held: seq<nat>, d: nat)
    requires Chosen(ms, find, choice, known, threshold, p0, held) && Queued(ms, f0, p0) && d < |ms| && !In(ms, p0, d)
    requires Asked(ms, find, d) && !NeedsWorker(choice(d), known, threshold)
    requires forall i | 0 <= i < |ms| :: Moved(ms, f0, p0, f, p, d, choice(d).value.option, i)
    ensures Chosen(ms, find, choice, known, threshold, p, held)
  {
    var key := choice(d).value.option;
    hide In, Key, Waiters, Target;
    forall i | 0 <= i < |ms| && Target(ms, i).None? && In(ms, p, i)
      ensures !LeftToWorker(ms, find, choice, known, threshold, i)
      ensures Key(ms, p, i) == RootKey(ms, find, choice, known, threshold, i)
    {
      assert Moved(ms, f0, p0, f, p, d, key, i);
      WaiterReplies(ms, f0, p0, i);
    }
  }

  /** The router's own placements; `held` is what it leaves to the worker. */
  method RouteAsked(p: Placement, choice: nat -> Option<Choice>, known: set<string>, threshold: real,
      ghost find: string -> Option<string>) returns (held: seq<nat>)
    requires p.Valid() && Routed(p.messages, p.followers, p.placed, p.toAsk, |p.messages|)
    requires RootsRouted(p.messages, find, p.placed, p.toAsk)
    requires GoodKeys(p.buckets, known, find, map[])
    modifies p
    ensures p.Valid() && Routed(p.messages, p.followers, p.placed, held, |p.messages|)
    ensures GoodKeys(p.buckets, known, find, map[])
    ensures Chosen(p.messages, find, choice, known, threshold, p.placed, held)
  {
    hide Routed, Moved, Consistent, Queued, Together, GoodBatch;
    held := [];
    var asked := p.toAsk;
    assert forall n | 0 <= n < |asked| :: asked[n] in p.toAsk;
    assert held + asked[0..] == asked;
    for n := 0 to |asked|
      invariant p.Valid() && Routed(p.messages, p.followers, p.placed, held + asked[n..], |p.messages|)
      invariant GoodKeys(p.buckets, known, find, map[])
      invariant Chosen(p.messages, find, choice, known, threshold, p.placed, held)
    {
      var d := asked[n];
      assert held + asked[n..] == held + [d] + asked[n + 1..];
      if NeedsWorker(choice(d), known, threshold) {
        held := held + [d];
      } else {
        var key := choice(d).value.option;
        ghost var f, q := p.followers, p.placed;
        MiddleReady(p.messages, f, q, held, d, asked[n + 1..], key);
        p.Put(d, key);
        RoutedWithout(p.messages, f, q, p.followers, p.placed, held, d, asked[n + 1..], key);
        ChosenPut(p.messages, find, choice, known, threshold, f, q, p.followers, p.placed, held, d);
      }
    }
    assert held + asked[|asked|..] == held;
  }

  // ---------------------------------------------------------------------
  // The messages handed over
  // ---------------------------------------------------------------------

  /** The held messages and the replies waiting directly for them. */
  function Handed(ms: seq<Message>, f: Buckets, held: seq<nat>): seq<nat>
    requires forall k | 0 <= k < |held| :: held[k] < |ms|
  {
    if held == [] then [] else
      var h := held[|held| - 1];
      Handed(ms, f, held[..|held| - 1]) + [h] + WaitingFor(f, ms[h].srcIds)
  }

  ghost predicate DirectTo(ms: seq<Message>, held: seq<nat>, i: nat) {
    i < |ms| && Target(ms, i).Some? && Target(ms, i).value in held
  }

  /** Exactly the held, and the waiting whose target is held. */
  lemma {:induction false} HandedAre(ms: seq<Message>, f: Buckets, p: Placed, held: seq<nat>, i: nat)
    requires GoodBatch(ms) && Queued(ms, f, p) && forall k | 0 <= k < |held| :: held[k] < |ms|
    ensures i in Handed(ms, f, held) <==> i in held || (i in Waiters(f) && DirectTo(ms, held, i))
  {
    hide GoodBatch, Holder, In;
    if held != [] {
      var h, rest := held[|held| - 1], held[..|held| - 1];
      HandedAre(ms, f, p, rest, i);
      WaitingForIs(f, ms[h].srcIds);
      assert held == rest + [h];
      WaitsForHolder(ms, f, p, h, i);
    }
  }

  lemma WaitsForHolder(ms: seq<Message>, f: Buckets, p: Placed, h: nat, i: nat)
    requires GoodBatch(ms) && Queued(ms, f, p) && h < |ms|
    ensures i in WaitingFor(f, ms[h].srcIds) <==> i in Waiters(f) && i < |ms| && Target(ms, i) == Some(h)
  {
    hide In;
    WaitingForIs(f, ms[h].srcIds);
    if i in WaitingFor(f, ms[h].srcIds) {
      var t :| t in ms[h].srcIds && t in f && i in f[t];
      HolderIs(ms, t, h);
    }
    if i in Waiters(f) && i < |ms| && Target(ms, i) == Some(h) {
      var t :| t in f && i in f[t];
      assert ms[i].replyTo == t;
    }
  }

  // ---------------------------------------------------------------------
  // The smaller batch
  // ---------------------------------------------------------------------

  function Part(ms: seq<Message>, which: seq<nat>): (r: seq<Message>)
    requires forall k | 0 <= k < |which| :: which[k] < |ms|
    ensures |r| == |which| && forall k | 0 <= k < |r| :: r[k] == ms[which[k]]
  {
    seq(|which|, k requires 0 <= k < |which| => ms[which[k]])
  }

  lemma PartIsGood(ms: seq<Message>, which: seq<nat>)
    requires GoodBatch(ms) && Ascending(which) && forall k | 0 <= k < |which| :: which[k] < |ms|
    ensures GoodBatch(Part(ms, which))
  {
    var b := Part(ms, which);
    forall i, x, j, y | 0 <= i < |b| && 0 <= x < |b[i].srcIds| && 0 <= j < |b| && 0 <= y < |b[j].srcIds|
        && b[i].srcIds[x] == b[j].srcIds[y]
      ensures i == j && x == y
    {
      assert ms[which[i]].srcIds[x] == ms[which[j]].srcIds[y];
    }
  }

  lemma {:induction false} HolderNone(ms: seq<Message>, src: string)
    requires Holder(ms, src).None?
    ensures forall i | 0 <= i < |ms| :: src !in ms[i].srcIds
  {
    if ms != [] { HolderNone(ms[..|ms| - 1], src); }
  }

  /** A reply's target in the part is its target in the batch, if that is in the
      part, and else nothing. */
  lemma PartTarget(ms: seq<Message>, which: seq<nat>, k: nat)
    requires GoodBatch(ms) && Ascending(which) && (forall n | 0 <= n < |which| :: which[n] < |ms|) && k < |which|
    ensures var t := Target(Part(ms, which), k);
            && (t.Some? ==> Target(ms, which[k]) == Some(which[t.value]))
            && (forall n | 0 <= n < |which| :: Target(ms, which[k]) == Some(which[n]) ==> t == Some(n))
  {
    var b := Part(ms, which);
    PartIsGood(ms, which);
    var src := ms[which[k]].replyTo;
    var h := Holder(b, src);
    if h.Some? { HolderIs(ms, src, which[h.value]); }
    hide GoodBatch;
    forall n | 0 <= n < |which| && Target(ms, which[k]) == Some(which[n]) ensures Target(b, k) == Some(n) {
      assert src in b[n].srcIds;
      HolderIs(b, src, n);
    }
  }

  /** Everything handed over can be placed: a held message replies to nobody of
      the batch, and its direct replies follow it. */
  lemma HandedFree(ms: seq<Message>, which: seq<nat>, held: seq<nat>, k: nat)
    requires GoodBatch(ms) && Ascending(which) && (forall n | 0 <= n < |which| :: which[n] < |ms|) && k < |which|
    requires forall i | i in held :: i in which && i < |ms| && Target(ms, i).None?
    requires forall n | 0 <= n < |which| :: which[n] in held || DirectTo(ms, held, which[n])
    ensures Free(Part(ms, which), k)
  {
    hide GoodBatch, Free, Target;
    PartTarget(ms, which, k);
    if which[k] in held {
      FreeRoot(Part(ms, which), k);
    } else {
      var h := Target(ms, which[k]).value;
      var n :| 0 <= n < |which| && which[n] == h;
      PartTarget(ms, which, n);
      FreeRoot(Part(ms, which), n);
      FreeStep(Part(ms, which), k);
    }
  }

  // ---------------------------------------------------------------------
  // Merging the two results
  // ---------------------------------------------------------------------

  function At(b: Buckets, k: string): seq<nat> { if k in b then b[k] else [] }

  /** Positions of the part, as positions of the batch. */
  function Back(bucket: seq<nat>, which: seq<nat>): (r: seq<nat>)
    requires forall n | 0 <= n < |bucket| :: bucket[n] < |which|
    ensures |r| == |bucket| && forall n | 0 <= n < |r| :: r[n] == which[bucket[n]]
  {
    seq(|bucket|, n requires 0 <= n < |bucket| => which[bucket[n]])
  }

  ghost predicate Within(b: Buckets, n: nat) { forall k | k in b :: forall j | 0 <= j < |b[k]| :: b[k][j] < n }

  /** `_merge` and `finish`: both results in one, in batch order. */
  function Merged(b: Buckets, c: Buckets, which: seq<nat>, n: nat): Buckets
    requires Within(c, |which|)
  {
    map k | k in b.Keys + c.Keys :: InOrder(At(b, k) + Back(At(c, k), which), n)
  }

  lemma MergedHas(b: Buckets, c: Buckets, which: seq<nat>, n: nat, k: string, i: nat)
    requires Within(c, |which|) && i < n
    ensures var m := Merged(b, c, which, n);
            (k in m && i in m[k]) <==> (k in b && i in b[k]) || (exists j :: k in c && j in c[k] && which[j] == i)
  {
    var m := Merged(b, c, which, n);
    if k in m {
      InOrderKeeps(At(b, k) + Back(At(c, k), which), n);
      var r := Back(At(c, k), which);
      if i in r {
        var x :| 0 <= x < |r| && r[x] == i;
        assert At(c, k)[x] in c[k];
      }
      if exists j :: k in c && j in c[k] && which[j] == i {
        var j :| k in c && j in c[k] && which[j] == i;
        var x :| 0 <= x < |c[k]| && c[k][x] == j;
        assert r[x] == i;
      }
    }
  }

  // ---------------------------------------------------------------------
  // Who is placed, and who is dropped
  // ---------------------------------------------------------------------

  /** Replies from one message to the next, up to one that replies to nobody in
      the batch. */
  ghost predicate Chain(ms: seq<Message>, c: seq<nat>) {
    && c != [] && (forall k | 0 <= k < |c| :: c[k] < |ms|)
    && (forall k | 0 <= k < |c| - 1 :: Target(ms, c[k]) == Some(c[k + 1]))
    && Target(ms, c[|c| - 1]).None?
  }

  /** A message lost: it is in a reply cycle or behind one, or its replies lead,
      by way of another reply, to a message left to the worker. */
  ghost predicate Dropped(ms: seq<Message>, find: string -> Option<string>, choice: nat -> Option<Choice>,
      known: set<string>, threshold: real, i: nat)
  {
    !Free(ms, i) || exists c :: LongChain(ms, find, choice, known, threshold, i, c)
  }

  ghost predicate LongChain(ms: seq<Message>, find: string -> Option<string>, choice: nat -> Option<Choice>,
      known: set<string>, threshold: real, i: nat, c: seq<nat>)
  {
    |c| >= 3 && Chain(ms, c) && c[0] == i && LeftToWorker(ms, find, choice, known, threshold, c[|c| - 1])
  }

  ghost function AllDropped(ms: seq<Message>, find: string -> Option<string>, choice: nat -> Option<Choice>,
      known: set<string>, threshold: real): set<nat>
  {
    set i: nat | i < |ms| && Dropped(ms, find, choice, known, threshold, i)
  }

  /** Waiting for a message that itself waits: nobody hands it over. */
  ghost function Stranded(ms: seq<Message>, f: Buckets, held: seq<nat>): set<nat> {
    set i | i in Waiters(f) && !DirectTo(ms, held, i)
  }

  /** Every message but the dropped in one bucket, with the one it replies to. */
  ghost predicate Outcome(ms: seq<Message>, dropped: set<nat>, m: Buckets) {
    && (forall i | 0 <= i < |ms| :: (exists k :: k in m && i in m[k]) <==> i !in dropped)
    && (forall k, i | k in m && i in m[k] :: i < |ms| && forall l | l in m && i in m[l] :: l == k)
    && (forall k, i | k in m && i in m[k] && i < |ms| && Target(ms, i).Some? :: Target(ms, i).value in m[k])
    && (forall k | k in m :: Ascending(m[k]))
  }

  /** The state after the router, and the part handed over. */
  ghost predicate Split(ms: seq<Message>, b: Buckets, f: Buckets, p: Placed, held: seq<nat>, which: seq<nat>,
      c: Buckets)
  {
    && GoodBatch(ms) && Consistent(ms, b, p) && Queued(ms, f, p) && Together(ms, p) && Routed(ms, f, p, held, |ms|)
    && Ascending(which) && (forall n | 0 <= n < |which| :: which[n] < |ms|)
    && (forall i :: i in which <==> i in held || (i in Waiters(f) && DirectTo(ms, held, i)))
    && Partition(Part(ms, which), c) && Within(c, |which|)
    && (forall n | 0 <= n < |which| :: Free(Part(ms, which), n))
  }

  /** A message from the first result, or one handed over. */
  lemma WhereItIs(ms: seq<Message>, b: Buckets, f: Buckets, p: Placed, held: seq<nat>, which: seq<nat>, c: Buckets,
      k: string, i: nat)
    requires Split(ms, b, f, p, held, which, c) && i < |ms|
    ensures var m := Merged(b, c, which, |ms|);
            (k in m && i in m[k]) <==> (k in b && i in b[k]) || (exists j :: k in c && j in c[k] && which[j] == i)
    ensures k in b && i in b[k] ==> In(ms, p, i) && Key(ms, p, i) == k && i !in which
    ensures (exists j :: k in c && j in c[k] && which[j] == i) ==> i in which
  {
    hide GoodBatch, Queued, Together, In, Key, Waiters, Partition, Free, Merged, Holder;
    MergedHas(b, c, which, |ms|, k, i);
    assert Dealt(ms, f, p, held, i);
    if exists j :: k in c && j in c[k] && which[j] == i {
      var j :| k in c && j in c[k] && which[j] == i;
      InWithin(c, |which|, k, j);
    }
  }

  lemma InWithin(c: Buckets, n: nat, k: string, j: nat)
    requires Within(c, n) && k in c && j in c[k]
    ensures j < n
  {
    var x :| 0 <= x < |c[k]| && c[k][x] == j;
  }

  lemma PlacedUnlessDropped(ms: seq<Message>, b: Buckets, f: Buckets, p: Placed, held: seq<nat>, which: seq<nat>,
      c: Buckets, i: nat)
    requires Split(ms, b, f, p, held, which, c) && i < |ms|
    ensures var m := Merged(b, c, which, |ms|); (exists k :: k in m && i in m[k]) <==> i !in Stranded(ms, f, held)
  {
    hide GoodBatch, Queued, Together, In, Key, Waiters, Free, Merged, Holder;
    var m := Merged(b, c, which, |ms|);
    assert Dealt(ms, f, p, held, i);
    if exists k :: k in m && i in m[k] {
      var k :| k in m && i in m[k];
      WhereItIs(ms, b, f, p, held, which, c, k, i);
    }
    if In(ms, p, i) {
      WhereItIs(ms, b, f, p, held, which, c, Key(ms, p, i), i);
    } else if i in which {
      var n :| 0 <= n < |which| && which[n] == i;
      assert Free(Part(ms, which), n);
      var k :| k in c && n in c[k];
      WhereItIs(ms, b, f, p, held, which, c, k, i);
    }
  }

  lemma OneBucket(ms: seq<Message>, b: Buckets, f: Buckets, p: Placed, held: seq<nat>, which: seq<nat>, c: Buckets,
      k: string, l: string, i: nat)
    requires Split(ms, b, f, p, held, which, c) && i < |ms|
    requires var m := Merged(b, c, which, |ms|); k in m && i in m[k] && l in m && i in m[l]
    ensures k == l
  {
    hide GoodBatch, Queued, Together, In, Key, Waiters, Free, Merged, Holder, Routed, Consistent;
    WhereItIs(ms, b, f, p, held, which, c, k, i);
    WhereItIs(ms, b, f, p, held, which, c, l, i);
    if !(k in b && i in b[k]) {
      var x :| k in c && x in c[k] && which[x] == i;
      var y :| l in c && y in c[l] && which[y] == i;
      InWithin(c, |which|, k, x);
      InWithin(c, |which|, l, y);
      assert x == y;
    }
  }

  lemma WithItsTarget(ms: seq<Message>, b: Buckets, f: Buckets, p: Placed, held: seq<nat>, which: seq<nat>,
      c: Buckets, k: string, i: nat)
    requires Split(ms, b, f, p, held, which, c) && i < |ms| && Target(ms, i).Some?
    requires var m := Merged(b, c, which, |ms|); k in m && i in m[k]
    ensures Target(ms, i).value in Merged(b, c, which, |ms|)[k]
  {
    hide GoodBatch, Queued, In, Key, Waiters, Free, Merged, Holder;
    var j := Target(ms, i).value;
    WhereItIs(ms, b, f, p, held, which, c, k, i);
    WhereItIs(ms, b, f, p, held, which, c, k, j);
    if k in b && i in b[k] {
      assert WithTarget(ms, p, i, k);
    } else {
      var x :| k in c && x in c[k] && which[x] == i;
      InWithin(c, |which|, k, x);
      assert i in which;
      HeldAreRoots(ms, f, p, held, i);
      assert j in held && j in which;
      var n :| 0 <= n < |which| && which[n] == j;
      PartTarget(ms, which, x);
      assert n in c[k];
    }
  }

  lemma HeldAreRoots(ms: seq<Message>, f: Buckets, p: Placed, held: seq<nat>, i: nat)
    requires Routed(ms, f, p, held, |ms|)
    ensures i in held ==> i < |ms| && Target(ms, i).None?
  {}

  lemma OutcomeHolds(ms: seq<Message>, b: Buckets, f: Buckets, p: Placed, held: seq<nat>, which: seq<nat>, c: Buckets)
    requires Split(ms, b, f, p, held, which, c)
    ensures Outcome(ms, Stranded(ms, f, held), Merged(b, c, which, |ms|))
  {
    hide Split, Stranded, Target;
    WithinOf(ms, b, f, p, held, which, c);
    var m := Merged(b, c, which, |ms|);
    forall i | 0 <= i < |ms| ensures (exists k :: k in m && i in m[k]) <==> i !in Stranded(ms, f, held) {
      PlacedUnlessDropped(ms, b, f, p, held, which, c, i);
    }
    forall k | k in m ensures Ascending(m[k]) && forall i | i in m[k] :: i < |ms| {
      InOrderKeeps(At(b, k) + Back(At(c, k), which), |ms|);
    }
    hide Merged;
    forall k, i, l | k in m && i in m[k] && l in m && i in m[l] ensures l == k {
      OneBucket(ms, b, f, p, held, which, c, k, l, i);
    }
    forall k, i | k in m && i in m[k] && i < |ms| && Target(ms, i).Some? ensures Target(ms, i).value in m[k] {
      WithItsTarget(ms, b, f, p, held, which, c, k, i);
    }
  }

  lemma WithinOf(ms: seq<Message>, b: Buckets, f: Buckets, p: Placed, held: seq<nat>, which: seq<nat>, c: Buckets)
    requires Split(ms, b, f, p, held, which, c)
    ensures Within(c, |which|)
  {}

  // ---------------------------------------------------------------------
  // Who is dropped, told from what comes in
  // ---------------------------------------------------------------------

  ghost predicate Ends(ms: seq<Message>, i: nat) { exists c :: Chain(ms, c) && c[0] == i }

  lemma {:induction false} ChainFree(ms: seq<Message>, c: seq<nat>)
    requires Chain(ms, c)
    ensures Free(ms, c[0])
  {
    hide Free, Target;
    if |c| == 1 {
      FreeRoot(ms, c[0]);
    } else {
      ChainFree(ms, c[1..]);
      FreeStep(ms, c[0]);
    }
  }

  /** A message in no cycle is where some chain of replies starts. */
  lemma FreeEnds(ms: seq<Message>, i: nat)
    requires i < |ms| && Free(ms, i)
    ensures Ends(ms, i)
  {
    var c := set k: nat | k < |ms| && !Ends(ms, k);
    hide Target;
    forall k | k in c ensures k < |ms| && Target(ms, k).Some? && Target(ms, k).value in c { EndlessStep(ms, k); }
    assert ReplyClosed(ms, c);
  }

  lemma EndlessStep(ms: seq<Message>, i: nat)
    requires i < |ms| && !Ends(ms, i)
    ensures Target(ms, i).Some? && !Ends(ms, Target(ms, i).value)
  {
    hide Target;
    assert Target(ms, i).None? ==> Chain(ms, [i]);
    forall d | Chain(ms, d) && Target(ms, i) == Some(d[0]) ensures Chain(ms, [i] + d) {}
  }

  /** A reply to a message of the batch is placed exactly if that message is. */
  lemma PlacedWithTarget(ms: seq<Message>, b: Buckets, f: Buckets, p: Placed, held: seq<nat>, i: nat)
    requires Consistent(ms, b, p) && Queued(ms, f, p) && Together(ms, p) && Routed(ms, f, p, held, |ms|)
    requires i < |ms| && Target(ms, i).Some?
    ensures In(ms, p, i) <==> In(ms, p, Target(ms, i).value)
    ensures !In(ms, p, i) ==> i in Waiters(f)
  {
    hide Holder, NoDup, Bucketed, Key, Free;
    assert Dealt(ms, f, p, held, i);
    if In(ms, p, i) {
      assert WithTarget(ms, p, i, Key(ms, p, i));
    } else {
      var t :| t in f && i in f[t];
    }
  }

  /** A whole chain is placed, or its last message is held and the others wait. */
  lemma {:induction false} ChainTogether(ms: seq<Message>, b: Buckets, f: Buckets, p: Placed, held: seq<nat>,
      c: seq<nat>)
    requires Consistent(ms, b, p) && Queued(ms, f, p) && Together(ms, p) && Routed(ms, f, p, held, |ms|) && Chain(ms, c)
    ensures In(ms, p, c[0]) <==> c[|c| - 1] !in held
    ensures |c| > 1 ==> (c[0] in Waiters(f) <==> c[|c| - 1] in held)
  {
    hide Consistent, Together, In, Waiters, Target;
    if |c| == 1 {
      assert Dealt(ms, f, p, held, c[0]);
      WaiterReplies(ms, f, p, c[0]);
    } else {
      hide Queued;
      ChainTogether(ms, b, f, p, held, c[1..]);
      PlacedWithTarget(ms, b, f, p, held, c[0]);
      assert Dealt(ms, f, p, held, c[0]);
    }
  }

  /** The state after the router tells who is dropped as the batch, the stored
      threads and the choices do. */
  lemma StrandedIsDropped(ms: seq<Message>, b: Buckets, f: Buckets, p: Placed, held: seq<nat>,
      find: string -> Option<string>,
      choice: nat -> Option<Choice>, known: set<string>, threshold: real)
    requires Consistent(ms, b, p) && Queued(ms, f, p) && Together(ms, p) && Routed(ms, f, p, held, |ms|)
    requires Chosen(ms, find, choice, known, threshold, p, held)
    ensures forall i | 0 <= i < |ms| :: i in Stranded(ms, f, held) <==> Dropped(ms, find, choice, known, threshold, i)
  {
    hide Consistent, Queued, Together, Routed, Chosen, Stranded, Dropped;
    forall i | 0 <= i < |ms| ensures i in Stranded(ms, f, held) <==> Dropped(ms, find, choice, known, threshold, i) {
      if Free(ms, i) {
        FreeEnds(ms, i);
        var c :| Chain(ms, c) && c[0] == i;
        FreeStranded(ms, b, f, p, held, find, choice, known, threshold, c);
      } else {
        CyclesStranded(ms, b, f, p, held, i);
        assert Dropped(ms, find, choice, known, threshold, i) by {
          CyclesDropped(ms, find, choice, known, threshold, i);
        }
      }
    }
  }

  lemma CyclesDropped(ms: seq<Message>, find: string -> Option<string>, choice: nat -> Option<Choice>,
      known: set<string>,
      threshold: real, i: nat)
    requires !Free(ms, i)
    ensures Dropped(ms, find, choice, known, threshold, i)
  {}

  lemma CyclesStranded(ms: seq<Message>, b: Buckets, f: Buckets, p: Placed, held: seq<nat>, i: nat)
    requires Together(ms, p) && Routed(ms, f, p, held, |ms|) && i < |ms| && !Free(ms, i)
    ensures i in Stranded(ms, f, held)
  {
    hide In, Key, Waiters, Free, Target, NoDup;
    assert Dealt(ms, f, p, held, i);
    if Target(ms, i).None? { FreeRoot(ms, i); }
    if DirectTo(ms, held, i) {
      FreeRoot(ms, Target(ms, i).value);
      FreeStep(ms, i);
    }
  }

  lemma FreeStranded(ms: seq<Message>, b: Buckets, f: Buckets, p: Placed, held: seq<nat>,
      find: string -> Option<string>,
      choice: nat -> Option<Choice>, known: set<string>, threshold: real, c: seq<nat>)
    requires Consistent(ms, b, p) && Queued(ms, f, p) && Together(ms, p) && Routed(ms, f, p, held, |ms|)
    requires Chosen(ms, find, choice, known, threshold, p, held) && Chain(ms, c) && Free(ms, c[0])
    ensures c[0] in Stranded(ms, f, held) <==> Dropped(ms, find, choice, known, threshold, c[0])
  {
    hide Consistent, Together, In, Waiters, Target, Free, LeftToWorker;
    var root := c[|c| - 1];
    ChainTogether(ms, b, f, p, held, c);
    ChainTogether(ms, b, f, p, held, [root]);
    assert root in held <==> LeftToWorker(ms, find, choice, known, threshold, root);
    WaiterReplies(ms, f, p, c[0]);
    if |c| >= 3 {
      assert Target(ms, c[1]) == Some(c[1 + 1]) && Target(ms, c[0]) == Some(c[0 + 1]);
      assert root in held ==> LongChain(ms, find, choice, known, threshold, c[0], c);
    }
    if d :| LongChain(ms, find, choice, known, threshold, c[0], d) { ChainIs(ms, c, d); }
  }

  /** There is one chain from a message. */
  lemma {:induction false} ChainIs(ms: seq<Message>, c: seq<nat>, d: seq<nat>)
    requires Chain(ms, c) && Chain(ms, d) && c[0] == d[0]
    ensures c == d
  {
    hide Target;
    assert |c| > 1 ==> Target(ms, c[0]) == Some(c[0 + 1]);
    assert |d| > 1 ==> Target(ms, d[0]) == Some(d[0 + 1]);
    if |c| > 1 && |d| > 1 {
      ChainIs(ms, c[1..], d[1..]);
      assert c == [c[0]] + c[1..] && d == [d[0]] + d[1..];
    }
  }

  lemma ChainStep(ms: seq<Message>, c: seq<nat>, k: nat)
    requires Chain(ms, c) && k + 1 < |c|
    ensures c[k] < |ms| && Target(ms, c[k]) == Some(c[k + 1])
  {}

  lemma ShortChain(ms: seq<Message>, c: seq<nat>)
    requires Chain(ms, c) && forall k | 0 <= k < |ms| && Target(ms, k).Some? :: Target(ms, Target(ms, k).value).None?
    ensures |c| <= 2
  {
    hide Chain, Target;
    if |c| >= 3 {
      ChainStep(ms, c, 1);
      ChainStep(ms, c, 0);
    }
  }

  /** Where no reply is itself replied to, only cycles drop a message. */
  lemma ShallowDropsNothing(ms: seq<Message>, find: string -> Option<string>, choice: nat -> Option<Choice>,
      known: set<string>, threshold: real, i: nat)
    requires i < |ms| && forall k | 0 <= k < |ms| && Target(ms, k).Some? :: Target(ms, Target(ms, k).value).None?
    ensures !Dropped(ms, find, choice, known, threshold, i)
  {
    hide Target, Free, LeftToWorker;
    forall c | Chain(ms, c) ensures |c| <= 2 { ShortChain(ms, c); }
    if Target(ms, i).None? {
      FreeRoot(ms, i);
    } else {
      FreeRoot(ms, Target(ms, i).value);
      FreeStep(ms, i);
    }
  }

  /** A question, a reply to it, and a reply to that: when the router says nothing
      of the question, the last message is lost. */
  lemma DropHappens()
    ensures var ms := [Message("a", ["a"], "", ""), Message("b", ["b"], "a", ""), Message("c", ["c"], "b", "")];
            GoodBatch(ms) && AllDropped(ms, _ => None, _ => None, {}, 0.5) == {2}
  {
    var ms := [Message("a", ["a"], "", ""), Message("b", ["b"], "a", ""), Message("c", ["c"], "b", "")];
    assert "a"[0] != "b"[0] && "b"[0] != "c"[0] && "a"[0] != "c"[0];
    HolderIs(ms, "a", 0);
    HolderIs(ms, "b", 1);
    hide Holder;
    assert Target(ms, 0) == None && Target(ms, 1) == Some(0) && Target(ms, 2) == Some(1);
    hide GoodBatch;
    ThirdIsDropped(ms);
  }

  lemma ThirdIsDropped(ms: seq<Message>)
    requires |ms| == 3 && ms[0].replyTo == "" && Target(ms, 1) == Some(0) && Target(ms, 2) == Some(1)
    ensures AllDropped(ms, _ => None, _ => None, {}, 0.5) == {2}
  {
    hide Holder;
    assert Target(ms, 0) == None;
    hide Target;
    FreeRoot(ms, 0);
    FreeStep(ms, 1);
    FreeStep(ms, 2);
    hide Free;
    assert Chain(ms, [0]) && Chain(ms, [1, 0]);
    assert LongChain(ms, _ => None, _ => None, {}, 0.5, 2, [2, 1, 0]);
    forall c | Chain(ms, c) && c[0] == 0 ensures |c| < 3 { ChainIs(ms, c, [0]); }
    forall c | Chain(ms, c) && c[0] == 1 ensures |c| < 3 { ChainIs(ms, c, [1, 0]); }
  }

  /** A message handed over is where the worker's answer puts it. */
  ghost predicate HandedKept(ms: seq<Message>, m: Buckets, handed: seq<nat>, r: Round, k: nat, known: set<string>)
    requires k < |r.chunk|
  {
    var x := r.chunk[k];
    && x < |handed| && handed[x] < |ms|
    && (forall key | Goes(ms[handed[x]].id, r.answer, known, r.carried, key) :: InBucket(m, key, handed[x]))
    && (Unthreaded(ms[handed[x]].id, r.answer, known, r.carried) ==> InBucket(m, "chatter", handed[x]))
  }

  lemma WorkerKept(ms: seq<Message>, b: Buckets, c: Buckets, which: seq<nat>, rounds: seq<Round>, known: set<string>)
    requires Within(c, |which|) && (forall n | 0 <= n < |which| :: which[n] < |ms|)
    requires AnswersKept(Part(ms, which), c, rounds, known)
    ensures forall n, k | 0 <= n < |rounds| && 0 <= k < |rounds[n].chunk| ::
              HandedKept(ms, Merged(b, c, which, |ms|), which, rounds[n], k, known)
  {
    hide Goes, Unthreaded, Merged;
    forall n, k | 0 <= n < |rounds| && 0 <= k < |rounds[n].chunk|
      ensures HandedKept(ms, Merged(b, c, which, |ms|), which, rounds[n], k, known)
    {
      var r := rounds[n];
      assert AnswerKept(Part(ms, which), c, r, k, known);
      var x := r.chunk[k];
      forall key | InBucket(c, key, x) ensures InBucket(Merged(b, c, which, |ms|), key, which[x]) {
        MergedHas(b, c, which, |ms|, key, which[x]);
      }
    }
  }

  /** The router is sure of this option. */
  predicate Sure(c: Option<Choice>, known: set<string>, threshold: real) {
    c.Some? && (c.value.option in known || c.value.option == "chatter") && c.value.confidence >= threshold
  }

  /** Some round of the worker's asks about the message. */
  predicate AskedOver(handed: seq<nat>, rounds: seq<Round>, i: nat) {
    exists x :: x in AskedIn(rounds) && 0 <= x < |handed| && handed[x] == i
  }

  /** What the router is not sure of is asked of the worker. */
  lemma UnsureAsked(ms: seq<Message>, find: string -> Option<string>, choice: nat -> Option<Choice>, known: set<string>,
      threshold: real, f: Buckets, p: Placed, held: seq<nat>, which: seq<nat>, rounds: seq<Round>, i: nat)
    requires GoodBatch(ms) && Ascending(which) && forall n | 0 <= n < |which| :: which[n] < |ms|
    requires Routed(ms, f, p, held, |ms|) && Queued(ms, f, p) && Chosen(ms, find, choice, known, threshold, p, held)
    requires forall i :: i in which <==> i in held || (i in Waiters(f) && DirectTo(ms, held, i))
    requires forall x: nat ::
               x in AskedIn(rounds)
               <==> x < |which| && Root(Part(ms, which), x)
                    && (Part(ms, which)[x].replyTo == "" || find(Part(ms, which)[x].replyTo).None?)
    requires i < |ms| && LeftToWorker(ms, find, choice, known, threshold, i)
    ensures AskedOver(which, rounds, i)
  {
    hide GoodBatch, Target, In, Waiters, Queued, Key, RootKey, Ascending, NeedsWorker;
    assert Dealt(ms, f, p, held, i);
    WaiterReplies(ms, f, p, i);
    assert i in held && i in which;
    var x :| 0 <= x < |which| && which[x] == i;
    PartIsGood(ms, which);
    PartTarget(ms, which, x);
    TargetMeans(Part(ms, which), x);
    assert x in AskedIn(rounds);
  }

  /** `assign_with_jev`. Whatever the router and the worker answer: each message
      is in exactly one bucket, with the message it replies to, or it is dropped
      and in none; every bucket is chatter, an existing thread, or a declared new
      one. What replies to nobody in the batch goes to the stored thread it
      replies to, or where the router is sure of it, or where the worker's answer
      puts it. */
  method AssignWithRouter(ms: seq<Message>, known: set<string>, find: string -> Option<string>,
      choice: nat -> Option<Choice>, threshold: real,
      tries: nat -> (nat -> Option<Answer>), budget: nat -> int, most: int)
      returns (buckets: Buckets, newThreads: map<string, NewThread>, ghost handed: seq<nat>, ghost rounds: seq<Round>)
    requires GoodBatch(ms) && PlainSlugs(known)
    ensures Outcome(ms, AllDropped(ms, find, choice, known, threshold), buckets)
    ensures GoodKeys(buckets, known, find, newThreads)
    ensures forall i | 0 <= i < |ms| && Root(ms, i) && ms[i].replyTo != "" && find(ms[i].replyTo).Some? ::
              InBucket(buckets, find(ms[i].replyTo).value, i)
    ensures forall i | 0 <= i < |ms| && Root(ms, i) && (ms[i].replyTo == "" || find(ms[i].replyTo).None?) ::
              if Sure(choice(i), known, threshold) then InBucket(buckets, choice(i).value.option, i)
              else AskedOver(handed, rounds, i)
    ensures forall n | 0 <= n < |rounds| :: Given(tries(n), rounds[n].answer)
    ensures forall n, k | 0 <= n < |rounds| && 0 <= k < |rounds[n].chunk| ::
              HandedKept(ms, buckets, handed, rounds[n], k, known)
  {
    hide GoodBatch, Consistent, Queued, Together, Routed, Partition, Free, Outcome, PlainSlugs, Chosen;
    var p := new Placement(ms);
    p.RouteReplies(find);
    var held := RouteAsked(p, choice, known, threshold, find);
    RestInBatch(ms, p.followers, p.placed, held);
    var which := InOrder(Handed(ms, p.followers, held), |ms|);
    handed := which;
    HandedPart(ms, p.buckets, p.followers, p.placed, held, which);
    var q: Placement, lost: nat;
    q, newThreads, lost, rounds := AssignBatch(Part(ms, which), known, find, tries, budget, most);
    HandedSplit(ms, p.buckets, p.followers, p.placed, held, which, q.buckets);
    buckets := Merged(p.buckets, q.buckets, which, |ms|);
    OutcomeHolds(ms, p.buckets, p.followers, p.placed, held, which, q.buckets);
    StrandedIsDropped(ms, p.buckets, p.followers, p.placed, held, find, choice, known, threshold);
    OutcomeOf(ms, Stranded(ms, p.followers, held), AllDropped(ms, find, choice, known, threshold), buckets);
    MergedKeys(p.buckets, q.buckets, which, |ms|, known, find, newThreads);
    RootsMerged(ms, p.buckets, p.followers, p.placed, held, which, q.buckets, find, choice, known, threshold);
    WorkerKept(ms, p.buckets, q.buckets, which, rounds, known);
    forall i | 0 <= i < |ms| && LeftToWorker(ms, find, choice, known, threshold, i) ensures AskedOver(handed, rounds,
        i) {
      UnsureAsked(ms, find, choice, known, threshold, p.followers, p.placed, held, which, rounds, i);
    }
    RootsAsGiven(ms, find, choice, known, threshold, buckets, handed, rounds);
  }

  /** The same told from the batch, the stored threads and the choices. */
  lemma RootsAsGiven(ms: seq<Message>, find: string -> Option<string>, choice: nat -> Option<Choice>,
      known: set<string>,
      threshold: real, m: Buckets, handed: seq<nat>, rounds: seq<Round>)
    requires GoodBatch(ms)
    requires forall i | 0 <= i < |ms| && Target(ms, i).None? && !LeftToWorker(ms, find, choice, known, threshold, i) ::
               var k := RootKey(ms, find, choice, known, threshold, i); k in m && i in m[k]
    requires forall i | 0 <= i < |ms| && LeftToWorker(ms, find, choice, known, threshold, i) ::
               AskedOver(handed, rounds, i)
    ensures forall i | 0 <= i < |ms| && Root(ms, i) && ms[i].replyTo != "" && find(ms[i].replyTo).Some? ::
              InBucket(m, find(ms[i].replyTo).value, i)
    ensures forall i | 0 <= i < |ms| && Root(ms, i) && (ms[i].replyTo == "" || find(ms[i].replyTo).None?) ::
              if Sure(choice(i), known, threshold) then InBucket(m, choice(i).value.option, i)
              else AskedOver(handed, rounds, i)
  {
    hide GoodBatch, Target, Root, AskedOver;
    forall i | 0 <= i < |ms| && Root(ms, i)
      ensures Target(ms, i).None?
      ensures Asked(ms, find, i) ==> (NeedsWorker(choice(i), known, threshold) <==> !Sure(choice(i), known, threshold))
    {
      TargetMeans(ms, i);
    }
  }

  lemma OutcomeOf(ms: seq<Message>, one: set<nat>, other: set<nat>, m: Buckets)
    requires Outcome(ms, one, m) && forall i | 0 <= i < |ms| :: i in one <==> i in other
    ensures Outcome(ms, other, m)
  {
    hide Target;
  }

  lemma RootsMerged(ms: seq<Message>, b: Buckets, f: Buckets, p: Placed, held: seq<nat>, which: seq<nat>, c: Buckets,
      find: string -> Option<string>, choice: nat -> Option<Choice>, known: set<string>, threshold: real)
    requires Split(ms, b, f, p, held, which, c) && Chosen(ms, find, choice, known, threshold, p, held)
    ensures forall i | 0 <= i < |ms| && Target(ms, i).None? && !LeftToWorker(ms, find, choice, known, threshold, i) ::
              var k := RootKey(ms, find, choice, known, threshold, i);
              k in Merged(b, c, which, |ms|) && i in Merged(b, c, which, |ms|)[k]
  {
    hide GoodBatch, Together, In, Key, Waiters, Partition, Free, Merged, Holder, LeftToWorker, RootKey, Target;
    forall i | 0 <= i < |ms| && Target(ms, i).None? && !LeftToWorker(ms, find, choice, known, threshold, i)
      ensures var k := RootKey(ms, find, choice, known, threshold, i);
              k in Merged(b, c, which, |ms|) && i in Merged(b, c, which, |ms|)[k]
    {
      assert Dealt(ms, f, p, held, i);
      WaiterReplies(ms, f, p, i);
      WhereItIs(ms, b, f, p, held, which, c, Key(ms, p, i), i);
    }
  }

  lemma HandedPart(ms: seq<Message>, b: Buckets, f: Buckets, p: Placed, held: seq<nat>, which: seq<nat>)
    requires GoodBatch(ms) && Queued(ms, f, p) && Routed(ms, f, p, held, |ms|)
    requires (forall k | 0 <= k < |held| :: held[k] < |ms|) && which == InOrder(Handed(ms, f, held), |ms|)
    ensures Ascending(which) && (forall n | 0 <= n < |which| :: which[n] < |ms|) && GoodBatch(Part(ms, which))
    ensures forall i :: i in which <==> i in held || (i in Waiters(f) && DirectTo(ms, held, i))
  {
    hide GoodBatch, Queued, Routed, Waiters, Handed;
    InOrderKeeps(Handed(ms, f, held), |ms|);
    forall n | 0 <= n < |which| ensures which[n] < |ms| { assert which[n] in which; }
    PartIsGood(ms, which);
    forall i ensures i in which <==> i in held || (i in Waiters(f) && DirectTo(ms, held, i)) {
      HandedAre(ms, f, p, held, i);
      HeldAreRoots(ms, f, p, held, i);
    }
  }

  lemma HandedSplit(ms: seq<Message>, b: Buckets, f: Buckets, p: Placed, held: seq<nat>, which: seq<nat>, c: Buckets)
    requires GoodBatch(ms) && Consistent(ms, b, p) && Queued(ms, f, p) && Together(ms, p)
             && Routed(ms, f, p, held, |ms|)
    requires Ascending(which) && (forall n | 0 <= n < |which| :: which[n] < |ms|) && Partition(Part(ms, which), c)
    requires forall i :: i in which <==> i in held || (i in Waiters(f) && DirectTo(ms, held, i))
    ensures Split(ms, b, f, p, held, which, c)
  {
    hide GoodBatch, Consistent, Queued, Together, Routed, Waiters, Free, Target;
    forall i | i in held ensures i in which && i < |ms| && Target(ms, i).None? { HeldAreRoots(ms, f, p, held, i); }
    forall n | 0 <= n < |which| ensures Free(Part(ms, which), n) {
      assert which[n] in which;
      HandedFree(ms, which, held, n);
    }
    forall k | k in c ensures forall j | 0 <= j < |c[k]| :: c[k][j] < |which| {
      forall j | 0 <= j < |c[k]| ensures c[k][j] < |which| { assert c[k][j] in c[k]; }
    }
  }

  lemma MergedKeys(b: Buckets, c: Buckets, which: seq<nat>, n: nat, known: set<string>, find: string -> Option<string>,
      newThreads: map<string, NewThread>)
    requires Within(c, |which|) && GoodKeys(b, known, find, map[]) && GoodKeys(c, known, find, newThreads)
    ensures GoodKeys(Merged(b, c, which, n), known, find, newThreads)
  {
    forall k | k in Merged(b, c, which, n) ensures GoodKey(k, known, find, newThreads) {
      if k in c { assert GoodKey(k, known, find, newThreads); } else { assert GoodKey(k, known, find, map[]); }
    }
  }
}
