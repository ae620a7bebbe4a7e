/** Reply routing (`_Placement`, agents/wa_agent/assign.py). A message is known
    by its position in the batch. */
module Placement {
  import opened Options

  /** `line` is the message as a prompt lists it; `replyTo` is empty when the
      message is no reply. */
  datatype Message = Message(id: string, srcIds: seq<string>, replyTo: string, line: string)

  /** What concatenating a channel's messages leaves: every raw id in one
      place of one message, and a message's own id among its raw ids. */
  ghost predicate GoodBatch(ms: seq<Message>) {
    && (forall i | 0 <= i < |ms| :: ms[i].id in ms[i].srcIds)
    && (forall i, a, j, b | 0 <= i < |ms| && 0 <= a < |ms[i].srcIds| && 0 <= j < |ms| && 0 <= b < |ms[j].srcIds|
          && ms[i].srcIds[a] == ms[j].srcIds[b] :: i == j && a == b)
  }

  /** The message a raw id belongs to. */
  function Holder(ms: seq<Message>, src: string): (h: Option<nat>)
    ensures h.Some? ==> h.value < |ms| && src in ms[h.value].srcIds
  {
    if ms == [] then None
    else if src in ms[|ms| - 1].srcIds then Some(|ms| - 1)
    else Holder(ms[..|ms| - 1], src)
  }

  /** The other message of the batch that `i` replies to. */
  function Target(ms: seq<Message>, i: nat): (j: Option<nat>)
    requires i < |ms|
    ensures j.Some? ==> j.value < |ms| && j.value != i && ms[i].replyTo in ms[j.value].srcIds
  {
    var h := Holder(ms, ms[i].replyTo);
    if ms[i].replyTo != "" && h.Some? && h.value != i then h else None
  }

  lemma {:induction false} HolderIs(ms: seq<Message>, src: string, i: nat)
    requires GoodBatch(ms) && i < |ms| && src in ms[i].srcIds
    ensures Holder(ms, src) == Some(i)
  {
    var n := |ms| - 1;
    if src in ms[n].srcIds {
      var a :| 0 <= a < |ms[i].srcIds| && ms[i].srcIds[a] == src;
      var b :| 0 <= b < |ms[n].srcIds| && ms[n].srcIds[b] == src;
    } else {
      HolderIs(ms[..n], src, i);
    }
  }

  /** `i` replies to a raw id of another message, `j`. */
  predicate RepliesTo(ms: seq<Message>, i: nat, j: nat)
    requires i < |ms| && j < |ms|
  {
    j != i && ms[i].replyTo != "" && ms[i].replyTo in ms[j].srcIds
  }

  /** It replies to nobody in the batch. */
  predicate Root(ms: seq<Message>, i: nat)
    requires i < |ms|
  {
    forall j | 0 <= j < |ms| :: !RepliesTo(ms, i, j)
  }

  /** The target is the one other message that holds the id replied to. */
  lemma TargetMeans(ms: seq<Message>, i: nat)
    requires GoodBatch(ms) && i < |ms|
    ensures forall j | 0 <= j < |ms| :: Target(ms, i) == Some(j) <==> RepliesTo(ms, i, j)
    ensures Target(ms, i).None? <==> Root(ms, i)
  {
    hide GoodBatch, Holder;
    forall j | 0 <= j < |ms| ensures Target(ms, i) == Some(j) <==> RepliesTo(ms, i, j) {
      if RepliesTo(ms, i, j) { HolderIs(ms, ms[i].replyTo, j); }
    }
  }

  // ---------------------------------------------------------------------
  // Reply cycles
  // ---------------------------------------------------------------------

  /** Messages that all reply to one another: following replies from any of
      them never leaves the set. */
  ghost predicate ReplyClosed(ms: seq<Message>, c: set<nat>) {
    forall i | i in c :: i < |ms| && Target(ms, i).Some? && Target(ms, i).value in c
  }

  /** Following replies from `i` leads out of the batch. */
  ghost predicate Free(ms: seq<Message>, i: nat) {
    forall c: set<nat> | ReplyClosed(ms, c) :: i !in c
  }

  lemma FreeRoot(ms: seq<Message>, i: nat)
    requires i < |ms| && Target(ms, i).None?
    ensures Free(ms, i)
  {}

  lemma FreeStep(ms: seq<Message>, i: nat)
    requires i < |ms| && Target(ms, i).Some? && Free(ms, Target(ms, i).value)
    ensures Free(ms, i)
  {
    forall c: set<nat> | ReplyClosed(ms, c) ensures i !in c {}
  }

  /** Where replies only point backwards there are no cycles. */
  lemma {:induction false} BackwardIsFree(ms: seq<Message>, i: nat)
    requires i < |ms| && forall k | 0 <= k < |ms| && Target(ms, k).Some? :: Target(ms, k).value < k
    ensures Free(ms, i)
    decreases i
  {
    if Target(ms, i).Some? {
      BackwardIsFree(ms, Target(ms, i).value);
      FreeStep(ms, i);
    } else {
      FreeRoot(ms, i);
    }
  }

  /** Two messages that reply to each other are a cycle. */
  lemma CycleHappens()
    ensures var ms := [Message("a", ["a"], "b", ""), Message("b", ["b"], "a", "")];
            GoodBatch(ms) && !Free(ms, 0) && !Free(ms, 1)
  {
    var ms := [Message("a", ["a"], "b", ""), Message("b", ["b"], "a", "")];
    assert "a"[0] != "b"[0];
    HolderIs(ms, "a", 0);
    HolderIs(ms, "b", 1);
    assert ReplyClosed(ms, {0, 1});
  }

  // ---------------------------------------------------------------------
  // Lists without repetition
  // ---------------------------------------------------------------------

  predicate NoDup<T(==)>(s: seq<T>) { forall i, j | 0 <= i < j < |s| :: s[i] != s[j] }

  lemma {:induction false} NoDupCard<T>(s: seq<T>)
    requires NoDup(s)
    ensures |set x | x in s| == |s|
  {
    if s != [] {
      var r := s[..|s| - 1];
      NoDupCard(r);
      assert (set x | x in s) == (set x | x in r) + {s[|s| - 1]};
    }
  }

  /** The positions below `n` that are in `b`, ascending: `b` in batch order. */
  function InOrder(b: seq<nat>, n: nat): (r: seq<nat>)
    ensures forall i | i in r :: i in b && i < n
  {
    if n == 0 then [] else InOrder(b, n - 1) + if n - 1 in b then [n - 1] else []
  }

  predicate Ascending(s: seq<nat>) { forall i, j | 0 <= i < j < |s| :: s[i] < s[j] }

  /** Putting a bucket in batch order loses and repeats nothing. */
  lemma {:induction false} InOrderKeeps(b: seq<nat>, n: nat)
    ensures Ascending(InOrder(b, n)) && forall i | i in b && i < n :: i in InOrder(b, n)
  {
    if n > 0 {
      InOrderKeeps(b, n - 1);
      if n - 1 in b {
        AscendingPlus(InOrder(b, n - 1), n - 1);
      } else {
        assert InOrder(b, n - 1) + [] == InOrder(b, n - 1);
      }
    }
  }

  lemma AscendingPlus(r: seq<nat>, x: nat)
    requires Ascending(r) && forall i | i in r :: i < x
    ensures Ascending(r + [x])
  {
    assert forall k | 0 <= k < |r| :: r[k] in r;
  }

  // ---------------------------------------------------------------------
  // The placement
  // ---------------------------------------------------------------------

  function Keyed(srcs: seq<string>, key: string): map<string, string> { map s | s in srcs :: key }

  function Waiters(followers: map<string, seq<nat>>): set<nat> { set t, i | t in followers && i in followers[t] :: i }

  function Added(buckets: map<string, seq<nat>>, key: string, i: nat): map<string, seq<nat>> {
    buckets[key := (if key in buckets then buckets[key] else []) + [i]]
  }

  function Without(followers: map<string, seq<nat>>, srcs: seq<string>): map<string, seq<nat>> {
    map t | t in followers && t !in srcs :: followers[t]
  }

  /** Everyone waiting for one of `srcs`. */
  function WaitingFor(followers: map<string, seq<nat>>, srcs: seq<string>): seq<nat> {
    if srcs == [] then [] else
      var s := srcs[|srcs| - 1];
      WaitingFor(followers, srcs[..|srcs| - 1]) + if s in followers then followers[s] else []
  }

  lemma {:induction false} WaitingForIs(followers: map<string, seq<nat>>, srcs: seq<string>)
    ensures forall i :: i in WaitingFor(followers, srcs)
                        <==> exists t :: t in srcs && t in followers && i in followers[t]
  {
    if srcs != [] {
      var rest := srcs[..|srcs| - 1];
      WaitingForIs(followers, rest);
      assert srcs == rest + [srcs[|srcs| - 1]];
    }
  }

  lemma {:induction false} WaitingForNoDup(ms: seq<Message>, followers: map<string, seq<nat>>, srcs: seq<string>)
    requires NoDup(srcs) && forall t | t in followers :: NoDup(followers[t])
    requires forall t | t in followers :: forall i | i in followers[t] :: i < |ms| && ms[i].replyTo == t
    ensures NoDup(WaitingFor(followers, srcs))
  {
    if srcs != [] {
      var rest, s := srcs[..|srcs| - 1], srcs[|srcs| - 1];
      WaitingForNoDup(ms, followers, rest);
      WaitingForIs(followers, rest);
      var w := WaitingFor(followers, rest);
      assert s !in rest;
      if s in followers {
        forall a, b | 0 <= a < |w| && 0 <= b < |followers[s]| ensures w[a] != followers[s][b] {
          assert w[a] in w && followers[s][b] in followers[s];
          var t :| t in rest && t in followers && w[a] in followers[t];
          assert ms[w[a]].replyTo == t;
        }
      } else {
        assert w + [] == w;
      }
    }
  }

  lemma KeyedStep(was: map<string, string>, xs: seq<string>, s: string, key: string)
    ensures (was + Keyed(xs, key))[s := key] == was + Keyed(xs + [s], key)
  {}

  lemma WithoutStep(before: map<string, seq<nat>>, xs: seq<string>, s: string)
    ensures (map t | t in Without(before, xs) && t != s :: Without(before, xs)[t]) == Without(before, xs + [s])
    ensures s !in Without(before, xs) ==> Without(before, xs + [s]) == Without(before, xs)
  {}

  lemma WaitingStep(before: map<string, seq<nat>>, xs: seq<string>, s: string)
    ensures WaitingFor(before, xs + [s]) == WaitingFor(before, xs) + if s in before then before[s] else []
  {
    assert (xs + [s])[..|xs|] == xs;
  }

  lemma SrcsDistinct(ms: seq<Message>, i: nat)
    requires GoodBatch(ms) && i < |ms|
    ensures NoDup(ms[i].srcIds)
  {}

  lemma PlaceStart(placed: map<string, string>, followers: map<string, seq<nat>>, key: string)
    ensures placed == placed + Keyed([], key) && followers == Without(followers, []) && WaitingFor(followers, []) == []
  {}

  lemma PlaceStep(was: map<string, string>, before: map<string, seq<nat>>, srcs: seq<string>, a: nat, key: string)
    requires NoDup(srcs) && a < |srcs|
    ensures var xs, ys, s := srcs[..a], srcs[..a + 1], srcs[a];
            && (was + Keyed(xs, key))[s := key] == was + Keyed(ys, key)
            && (map t | t in Without(before, xs) && t != s :: Without(before, xs)[t]) == Without(before, ys)
            && (s !in Without(before, xs) ==> Without(before, ys) == Without(before, xs)
                                              && WaitingFor(before, ys) == WaitingFor(before, xs))
            && (s in Without(before, xs) ==> WaitingFor(before, ys) == WaitingFor(before, xs) + Without(before, xs)[s])
  {
    var xs, s := srcs[..a], srcs[a];
    assert srcs[..a + 1] == xs + [s] && s !in xs;
    KeyedStep(was, xs, s, key);
    WithoutStep(before, xs, s);
    WaitingStep(before, xs, s);
  }

  // ---------------------------------------------------------------------
  // What the dictionaries say
  // ---------------------------------------------------------------------

  type Buckets = map<string, seq<nat>>
  type Placed = map<string, string>

  predicate In(ms: seq<Message>, p: Placed, i: nat)
    requires i < |ms|
  {
    ms[i].srcIds != [] && ms[i].srcIds[0] in p
  }

  function Key(ms: seq<Message>, p: Placed, i: nat): string
    requires i < |ms| && In(ms, p, i)
  {
    p[ms[i].srcIds[0]]
  }

  /** A raw id is placed exactly with its message, under the same key, and the
      buckets hold exactly the placed messages, once each. */
  ghost predicate Consistent(ms: seq<Message>, b: Buckets, p: Placed) {
    && (forall i | 0 <= i < |ms| :: forall s | s in ms[i].srcIds ::
          (s in p <==> In(ms, p, i)) && (s in p ==> p[s] == Key(ms, p, i)))
    && (forall s | s in p :: Holder(ms, s).Some?)
    && Bucketed(ms, b, p)
  }

  ghost predicate Bucketed(ms: seq<Message>, b: Buckets, p: Placed) {
    && (forall k | k in b :: NoDup(b[k]) && forall i | i in b[k] :: i < |ms| && In(ms, p, i) && Key(ms, p, i) == k)
    && (forall i | 0 <= i < |ms| && In(ms, p, i) :: Key(ms, p, i) in b && i in b[Key(ms, p, i)])
  }

  /** Followers wait under the id they reply to, until it is placed. */
  ghost predicate Queued(ms: seq<Message>, f: Buckets, p: Placed) {
    forall t | t in f ::
      t !in p && NoDup(f[t])
      && forall i | i in f[t] :: i < |ms| && ms[i].replyTo == t && Target(ms, i).Some? && !In(ms, p, i)
  }

  /** A placed reply is with the message it replies to, and is in no cycle. */
  ghost predicate Together(ms: seq<Message>, p: Placed) {
    forall i | 0 <= i < |ms| && In(ms, p, i) :: Free(ms, i) && WithTarget(ms, p, i, Key(ms, p, i))
  }

  /** Placing `i` under `key` puts it with the message it replies to. */
  predicate WithTarget(ms: seq<Message>, p: Placed, i: nat, key: string)
    requires i < |ms|
  {
    Target(ms, i).Some? ==> In(ms, p, Target(ms, i).value) && Key(ms, p, Target(ms, i).value) == key
  }

  // ---------------------------------------------------------------------
  // One turn of `put`
  // ---------------------------------------------------------------------

  lemma OwnIds(ms: seq<Message>, i: nat)
    requires GoodBatch(ms) && i < |ms|
    ensures ms[i].srcIds != [] && ms[i].srcIds[0] in ms[i].srcIds && NoDup(ms[i].srcIds)
  {
    SrcsDistinct(ms, i);
  }

  lemma OthersIds(ms: seq<Message>, i: nat, j: nat, s: string)
    requires GoodBatch(ms) && i < |ms| && j < |ms| && s in ms[i].srcIds && s in ms[j].srcIds
    ensures i == j
  {
    HolderIs(ms, s, i);
    HolderIs(ms, s, j);
  }

  /** Placing one message places it and no other. */
  lemma TurnPlaces(ms: seq<Message>, p: Placed, cur: nat, key: string, i: nat)
    requires GoodBatch(ms) && cur < |ms| && i < |ms| && !In(ms, p, cur)
    ensures var q := p + Keyed(ms[cur].srcIds, key);
            && (In(ms, q, i) <==> In(ms, p, i) || i == cur)
            && (In(ms, p, i) ==> Key(ms, q, i) == Key(ms, p, i)) && (i == cur ==> Key(ms, q, i) == key)
  {
    OwnIds(ms, i);
    hide GoodBatch;
    if ms[i].srcIds[0] in ms[cur].srcIds { OthersIds(ms, i, cur, ms[i].srcIds[0]); }
  }

  lemma TurnConsistent(ms: seq<Message>, b: Buckets, p: Placed, cur: nat, key: string)
    requires GoodBatch(ms) && Consistent(ms, b, p) && cur < |ms| && !In(ms, p, cur)
    ensures Consistent(ms, Added(b, key, cur), p + Keyed(ms[cur].srcIds, key))
  {
    hide GoodBatch, In, Key, Bucketed, Added;
    var q, c := p + Keyed(ms[cur].srcIds, key), Added(b, key, cur);
    forall i | 0 <= i < |ms| ensures forall s | s in ms[i].srcIds ::
        (s in q <==> In(ms, q, i)) && (s in q ==> q[s] == Key(ms, q, i))
    {
      TurnPlaces(ms, p, cur, key, i);
      forall s | s in ms[i].srcIds
        ensures (s in q <==> In(ms, q, i)) && (s in q ==> q[s] == Key(ms, q, i))
      {
        if s in ms[cur].srcIds { OthersIds(ms, i, cur, s); }
      }
    }
    forall s | s in q ensures Holder(ms, s).Some? {
      if s in ms[cur].srcIds { HolderIs(ms, s, cur); }
    }
    TurnBucketed(ms, b, p, cur, key);
  }

  lemma TurnBucketed(ms: seq<Message>, b: Buckets, p: Placed, cur: nat, key: string)
    requires GoodBatch(ms) && Bucketed(ms, b, p) && cur < |ms| && !In(ms, p, cur)
    ensures Bucketed(ms, Added(b, key, cur), p + Keyed(ms[cur].srcIds, key))
  {
    hide GoodBatch, In, Key, Keyed;
    var q, c := p + Keyed(ms[cur].srcIds, key), Added(b, key, cur);
    TurnPlaces(ms, p, cur, key, cur);
    forall k | k in c
      ensures NoDup(c[k]) && forall i | i in c[k] :: i < |ms| && In(ms, q, i) && Key(ms, q, i) == k
    {
      forall i | i in c[k] ensures i < |ms| && In(ms, q, i) && Key(ms, q, i) == k {
        if k in b && i in b[k] { TurnPlaces(ms, p, cur, key, i); }
      }
      if k == key && k in b { assert cur !in b[k]; }
    }
    forall i | 0 <= i < |ms| && In(ms, q, i) ensures Key(ms, q, i) in c && i in c[Key(ms, q, i)] {
      TurnPlaces(ms, p, cur, key, i);
    }
  }

  lemma TurnQueued(ms: seq<Message>, f: Buckets, p: Placed, cur: nat, key: string)
    requires GoodBatch(ms) && Queued(ms, f, p) && cur < |ms| && !In(ms, p, cur) && cur !in Waiters(f)
    ensures Queued(ms, Without(f, ms[cur].srcIds), p + Keyed(ms[cur].srcIds, key))
  {
    hide GoodBatch, In, Key, Holder, Target;
    var q, g := p + Keyed(ms[cur].srcIds, key), Without(f, ms[cur].srcIds);
    forall t | t in g
      ensures t !in q && NoDup(g[t])
      ensures forall i | i in g[t] :: i < |ms| && ms[i].replyTo == t && Target(ms, i).Some? && !In(ms, q, i)
    {
      forall i | i in g[t] ensures i < |ms| && ms[i].replyTo == t && Target(ms, i).Some? && !In(ms, q, i) {
        assert i in Waiters(f);
        TurnPlaces(ms, p, cur, key, i);
      }
    }
  }

  lemma TurnTogether(ms: seq<Message>, p: Placed, cur: nat, key: string)
    requires GoodBatch(ms) && Together(ms, p) && cur < |ms| && !In(ms, p, cur)
    requires Free(ms, cur) && WithTarget(ms, p, cur, key)
    ensures Together(ms, p + Keyed(ms[cur].srcIds, key))
  {
    hide GoodBatch, In, Key, Free, Target;
    var q := p + Keyed(ms[cur].srcIds, key);
    forall i | 0 <= i < |ms| && In(ms, q, i) ensures Free(ms, i) && WithTarget(ms, q, i, Key(ms, q, i)) {
      TurnPlaces(ms, p, cur, key, i);
      if Target(ms, i).Some? { TurnPlaces(ms, p, cur, key, Target(ms, i).value); }
    }
  }

  /** Whoever waited for a placed message is ready to be placed with it. */
  lemma MovedReady(ms: seq<Message>, f: Buckets, p: Placed, cur: nat, key: string, i: nat)
    requires GoodBatch(ms) && Queued(ms, f, p) && cur < |ms| && !In(ms, p, cur) && Free(ms, cur)
    requires i in WaitingFor(f, ms[cur].srcIds)
    ensures var q := p + Keyed(ms[cur].srcIds, key);
            && i in Waiters(f) && i < |ms| && !In(ms, p, i) && Free(ms, i) && WithTarget(ms, q, i, key)
            && i !in Waiters(Without(f, ms[cur].srcIds))
  {
    hide Free, In, Key;
    WaitingForIs(f, ms[cur].srcIds);
    var t :| t in ms[cur].srcIds && t in f && i in f[t];
    HolderIs(ms, t, cur);
    hide GoodBatch, Holder;
    FreeStep(ms, i);
    TurnPlaces(ms, p, cur, key, cur);
    forall u | u in Without(f, ms[cur].srcIds) ensures i !in f[u] {}
  }

  /** The rest go on waiting. */
  lemma OthersWait(f: Buckets, srcs: seq<string>, i: nat)
    ensures i in Waiters(f) ==> i in WaitingFor(f, srcs) || i in Waiters(Without(f, srcs))
    ensures i in Waiters(Without(f, srcs)) ==> i in Waiters(f)
  {
    WaitingForIs(f, srcs);
    if i in Waiters(f) {
      var t :| t in f && i in f[t];
      if t !in srcs { assert t in Without(f, srcs); }
    }
  }

  /** Message `i` across a `put`: still placed as it was, or placed now under
      `key`, or left as it was. */
  ghost predicate Moved(ms: seq<Message>, f0: Buckets, p0: Placed, f: Buckets, p: Placed, m: nat, key: string, i: nat)
    requires i < |ms|
  {
    && (In(ms, p0, i) ==> In(ms, p, i) && Key(ms, p, i) == Key(ms, p0, i) && i !in Waiters(f))
    && (!In(ms, p0, i) && In(ms, p, i) ==> Key(ms, p, i) == key && i !in Waiters(f))
    && (In(ms, p, i) || i in Waiters(f) <==> In(ms, p0, i) || i == m || i in Waiters(f0))
  }

  /** Half-way: `pending` are out of the queue and not yet placed. */
  ghost predicate PutState(ms: seq<Message>, f0: Buckets, p0: Placed, f: Buckets, p: Placed, m: nat, key: string,
      pending: seq<nat>)
  {
    && NoDup(pending) && Waiters(f) <= Waiters(f0)
    && (forall i | i in pending ::
          i < |ms| && !In(ms, p, i) && i !in Waiters(f) && Free(ms, i) && WithTarget(ms, p, i, key))
    && (forall i | 0 <= i < |ms| ::
          && (In(ms, p0, i) ==> In(ms, p, i) && Key(ms, p, i) == Key(ms, p0, i))
          && (!In(ms, p0, i) && In(ms, p, i) ==> Key(ms, p, i) == key)
          && (In(ms, p, i) || i in pending || i in Waiters(f) <==> In(ms, p0, i) || i == m || i in Waiters(f0)))
  }

  lemma StartPut(ms: seq<Message>, f: Buckets, p: Placed, m: nat, key: string)
    requires m < |ms| && !In(ms, p, m) && m !in Waiters(f) && Free(ms, m) && WithTarget(ms, p, m, key)
    ensures PutState(ms, f, p, f, p, m, key, [m])
  {
    hide Free, In, Key, WithTarget;
  }

  lemma EndPut(ms: seq<Message>, f0: Buckets, p0: Placed, f: Buckets, p: Placed, m: nat, key: string)
    requires PutState(ms, f0, p0, f, p, m, key, []) && Queued(ms, f, p)
    ensures forall i | 0 <= i < |ms| :: Moved(ms, f0, p0, f, p, m, key, i)
    ensures Waiters(f) <= Waiters(f0)
  {
    hide Free, In, Key, WithTarget, Target;
    forall i | 0 <= i < |ms| ensures Moved(ms, f0, p0, f, p, m, key, i) {
      if i in Waiters(f) { assert !In(ms, p, i); }
    }
  }

  /** Taking one message off the stack and placing it keeps everything, and
      brings the end nearer. */
  lemma PutTurn(ms: seq<Message>, f0: Buckets, p0: Placed, f: Buckets, p: Placed, b: Buckets, m: nat, key: string,
      pending: seq<nat>, cur: nat)
    requires GoodBatch(ms) && Consistent(ms, b, p) && Queued(ms, f, p) && Together(ms, p)
    requires PutState(ms, f0, p0, f, p, m, key, pending + [cur])
    ensures cur < |ms|
    ensures var srcs := ms[cur].srcIds; var g, q, c := Without(f, srcs), p + Keyed(srcs, key), Added(b, key, cur);
            && Consistent(ms, c, q) && Queued(ms, g, q) && Together(ms, q) && c.Keys == b.Keys + {key} && key in c
            && PutState(ms, f0, p0, g, q, m, key, pending + WaitingFor(f, srcs))
            && |Waiters(g)| + |pending + WaitingFor(f, srcs)| < |Waiters(f)| + |pending + [cur]|
  {
    hide Consistent, Queued, Together, Free, In, Key, WaitingFor, Without, Keyed, Waiters, WithTarget;
    assert cur in pending + [cur];
    TurnConsistent(ms, b, p, cur, key);
    TurnQueued(ms, f, p, cur, key);
    TurnTogether(ms, p, cur, key);
    OwnIds(ms, cur);
    hide GoodBatch;
    PutTurnState(ms, f0, p0, f, p, m, key, pending, cur);
    MovedLess(ms, f, p, cur);
  }

  lemma MovedLess(ms: seq<Message>, f: Buckets, p: Placed, cur: nat)
    requires Queued(ms, f, p) && cur < |ms| && NoDup(ms[cur].srcIds)
    ensures var srcs := ms[cur].srcIds;
            |Waiters(Without(f, srcs))| + |WaitingFor(f, srcs)| <= |Waiters(f)| && NoDup(WaitingFor(f, srcs))
  {
    var srcs := ms[cur].srcIds;
    var w := WaitingFor(f, srcs);
    WaitingForNoDup(ms, f, srcs);
    NoDupCard(w);
    var ws := set i | i in w;
    hide GoodBatch, WaitingFor;
    forall i | i in ws ensures i in Waiters(f) && i !in Waiters(Without(f, srcs)) {
      WaitingForIs(f, srcs);
      var t :| t in srcs && t in f && i in f[t];
      forall u | u in Without(f, srcs) ensures i !in f[u] {}
    }
    forall i ensures i in Waiters(Without(f, srcs)) ==> i in Waiters(f) { OthersWait(f, srcs, i); }
    var rest := Waiters(Without(f, srcs));
    assert rest !! ws && rest + ws <= Waiters(f);
    SubsetCard(rest + ws, Waiters(f));
    assert |rest + ws| == |rest| + |ws|;
  }

  lemma {:induction false} SubsetCard(a: set<nat>, b: set<nat>)
    requires a <= b
    ensures |a| <= |b|
  {
    assert b == a + (b - a);
  }

  lemma PutTurnState(ms: seq<Message>, f0: Buckets, p0: Placed, f: Buckets, p: Placed, m: nat, key: string,
      pending: seq<nat>, cur: nat)
    requires GoodBatch(ms) && Queued(ms, f, p) && PutState(ms, f0, p0, f, p, m, key, pending + [cur]) && cur < |ms|
    ensures var srcs := ms[cur].srcIds;
            PutState(ms, f0, p0, Without(f, srcs), p + Keyed(srcs, key), m, key, pending + WaitingFor(f, srcs))
  {
    hide GoodBatch, Queued, Free, In, Key, WaitingFor, Without, Keyed, Waiters, Target;
    var srcs := ms[cur].srcIds;
    var g, q, w := Without(f, srcs), p + Keyed(srcs, key), WaitingFor(f, srcs);
    assert cur in pending + [cur];
    PrefixNoDup(pending, cur);
    OwnIds(ms, cur);
    MovedLess(ms, f, p, cur);
    forall i | i in w
      ensures i < |ms| && !In(ms, q, i) && i !in Waiters(g) && Free(ms, i) && WithTarget(ms, q, i, key)
      ensures i in Waiters(f) && i !in pending
    {
      MovedReady(ms, f, p, cur, key, i);
      TurnPlaces(ms, p, cur, key, i);
    }
    forall i | i in pending
      ensures i < |ms| && !In(ms, q, i) && i !in Waiters(g) && Free(ms, i) && WithTarget(ms, q, i, key)
    {
      assert i in pending + [cur];
      TurnPlaces(ms, p, cur, key, i);
      OthersWait(f, srcs, i);
      if Target(ms, i).Some? { TurnPlaces(ms, p, cur, key, Target(ms, i).value); }
    }
    forall i ensures i in Waiters(g) ==> i in Waiters(f) { OthersWait(f, srcs, i); }
    forall i | 0 <= i < |ms|
      ensures In(ms, p0, i) ==> In(ms, q, i) && Key(ms, q, i) == Key(ms, p0, i)
      ensures !In(ms, p0, i) && In(ms, q, i) ==> Key(ms, q, i) == key
      ensures In(ms, q, i) || i in pending + w || i in Waiters(g) <==> In(ms, p0, i) || i == m || i in Waiters(f0)
    {
      TurnPlaces(ms, p, cur, key, i);
      OthersWait(f, srcs, i);
    }
    NoDupJoin(pending, w);
  }

  lemma PrefixNoDup(s: seq<nat>, x: nat)
    requires NoDup(s + [x])
    ensures NoDup(s) && x !in s
  {
    forall i, j | 0 <= i < j < |s| ensures s[i] != s[j] { assert (s + [x])[i] != (s + [x])[j]; }
    forall i | 0 <= i < |s| ensures s[i] != x { assert (s + [x])[i] != (s + [x])[|s|]; }
  }

  lemma NoDupJoin(a: seq<nat>, b: seq<nat>)
    requires NoDup(a) && NoDup(b) && forall i | i in b :: i !in a
    ensures NoDup(a + b)
  {
    forall i, j | 0 <= i < j < |a + b| ensures (a + b)[i] != (a + b)[j] {
      if i < |a| <= j { assert a[i] in a && b[j - |a|] in b; }
    }
  }

  /** Placed, waiting, or to be asked about: exactly one. */
  ghost predicate Dealt(ms: seq<Message>, f: Buckets, p: Placed, toAsk: seq<nat>, i: nat)
    requires i < |ms|
  {
    && (In(ms, p, i) || i in Waiters(f) || i in toAsk)
    && !(In(ms, p, i) && i in Waiters(f)) && !(In(ms, p, i) && i in toAsk) && !(i in Waiters(f) && i in toAsk)
  }

  lemma NothingYet(ms: seq<Message>)
    ensures Routed(ms, map[], map[], [], 0)
  {}

  lemma PlacedHolder(ms: seq<Message>, b: Buckets, p: Placed, s: string)
    requires Consistent(ms, b, p) && s in p
    ensures var h := Holder(ms, s); h.Some? && In(ms, p, h.value) && Key(ms, p, h.value) == p[s]
  {
    hide Bucketed, In, Key, Holder;
  }

  lemma PlacedKey(ms: seq<Message>, b: Buckets, p: Placed, s: string)
    requires Consistent(ms, b, p) && s in p
    ensures p[s] in b
  {
    PlacedHolder(ms, b, p, s);
    hide In, Key, Holder;
  }

  lemma TargetPlaced(ms: seq<Message>, b: Buckets, p: Placed, i: nat)
    requires Consistent(ms, b, p) && Together(ms, p) && i < |ms|
    requires ms[i].replyTo != "" && ms[i].replyTo in p && !In(ms, p, i)
    ensures Free(ms, i) && Target(ms, i).Some? && WithTarget(ms, p, i, p[ms[i].replyTo])
  {
    hide Free, Consistent, Key, In, Holder;
    PlacedHolder(ms, b, p, ms[i].replyTo);
    FreeStep(ms, i);
  }

  lemma RootAlone(ms: seq<Message>, p: Placed, i: nat, key: string)
    requires i < |ms| && Target(ms, i).None?
    ensures WithTarget(ms, p, i, key)
  {}

  /** A reply to a message not yet placed joins the queue behind it. */
  lemma QueueOne(ms: seq<Message>, f: Buckets, p: Placed, i: nat)
    requires Queued(ms, f, p) && i < |ms| && !In(ms, p, i) && i !in Waiters(f)
    requires ms[i].replyTo !in p && Target(ms, i).Some?
    ensures Queued(ms, Added(f, ms[i].replyTo, i), p)
    ensures Waiters(Added(f, ms[i].replyTo, i)) == Waiters(f) + {i}
  {
    hide Target, In;
    var t := ms[i].replyTo;
    var g := Added(f, t, i);
    assert t in g && i in g[t];
    if t in f { assert i !in f[t]; }
    forall j ensures j in Waiters(g) <==> j in Waiters(f) || j == i {
      if j in Waiters(f) {
        var u :| u in f && j in f[u];
        assert u in g && j in g[u];
      }
    }
  }

  lemma RoutedNext(ms: seq<Message>, f: Buckets, p: Placed, toAsk: seq<nat>, d: nat)
    requires d < |ms| && Routed(ms, f, p, toAsk, d)
    ensures !In(ms, p, d) && d !in Waiters(f)
  {}

  lemma SortedBuckets(ms: seq<Message>, b: Buckets, p: Placed, sorted: Buckets)
    requires Bucketed(ms, b, p) && sorted == map k | k in b :: InOrder(b[k], |ms|)
    ensures Bucketed(ms, sorted, p)
    ensures forall k | k in b :: Ascending(sorted[k]) && forall i :: i in sorted[k] <==> i in b[k]
  {
    hide In, Key, InOrder;
    forall k | k in b
      ensures Ascending(sorted[k]) && NoDup(sorted[k]) && forall i :: i in sorted[k] <==> i in b[k]
    {
      InOrderKeeps(b[k], |ms|);
      AscendingNoDup(sorted[k]);
    }
  }

  lemma AscendingNoDup(s: seq<nat>)
    requires Ascending(s)
    ensures NoDup(s)
  {}

  /** The first `d` messages dealt with, the rest untouched. */
  ghost predicate Routed(ms: seq<Message>, f: Buckets, p: Placed, toAsk: seq<nat>, d: nat) {
    && d <= |ms| && NoDup(toAsk)
    && (forall i | 0 <= i < d :: Dealt(ms, f, p, toAsk, i))
    && (forall i | d <= i < |ms| :: !In(ms, p, i) && i !in Waiters(f) && i !in toAsk)
    && (forall i | i in toAsk :: i < |ms| && Target(ms, i).None?)
  }

  lemma RoutedPut(ms: seq<Message>, f0: Buckets, p0: Placed, f: Buckets, p: Placed, toAsk: seq<nat>, d: nat,
      key: string)
    requires d < |ms| && Routed(ms, f0, p0, toAsk, d)
    requires forall i | 0 <= i < |ms| :: Moved(ms, f0, p0, f, p, d, key, i)
    ensures Routed(ms, f, p, toAsk, d + 1)
  {
    hide In, Key, Waiters, Target, NoDup;
    forall i | 0 <= i < |ms|
      ensures i <= d ==> Dealt(ms, f, p, toAsk, i)
      ensures d < i ==> !In(ms, p, i) && i !in Waiters(f)
    {
      assert Moved(ms, f0, p0, f, p, d, key, i);
      if i < d { assert Dealt(ms, f0, p0, toAsk, i); }
    }
  }

  lemma RoutedQueue(ms: seq<Message>, f0: Buckets, p: Placed, f: Buckets, toAsk: seq<nat>, d: nat)
    requires d < |ms| && Routed(ms, f0, p, toAsk, d) && Waiters(f) == Waiters(f0) + {d}
    ensures Routed(ms, f, p, toAsk, d + 1)
  {
    hide In, Key, Waiters, Target, NoDup;
    forall i | 0 <= i <= d ensures Dealt(ms, f, p, toAsk, i) {
      if i < d { assert Dealt(ms, f0, p, toAsk, i); }
    }
  }

  lemma RoutedAsk(ms: seq<Message>, f: Buckets, p: Placed, toAsk: seq<nat>, d: nat)
    requires d < |ms| && Routed(ms, f, p, toAsk, d) && Target(ms, d).None?
    ensures Routed(ms, f, p, toAsk + [d], d + 1)
  {
    hide In, Key, Waiters, Target;
    NoDupJoin(toAsk, [d]);
    hide NoDup;
    forall i | 0 <= i <= d ensures Dealt(ms, f, p, toAsk + [d], i) {
      if i < d { assert Dealt(ms, f, p, toAsk, i); }
    }
  }

  // ---------------------------------------------------------------------
  // Messages that reply to nobody in the batch
  // ---------------------------------------------------------------------

  /** No message of the batch and no stored thread says where it goes. */
  predicate Asked(ms: seq<Message>, find: string -> Option<string>, i: nat)
    requires i < |ms|
  {
    Target(ms, i).None? && (ms[i].replyTo == "" || find(ms[i].replyTo).None?)
  }

  /** Of the messages that reply to nobody in the batch, those placed are with
      the stored thread they reply to, and the others are asked about. */
  ghost predicate RootsRouted(ms: seq<Message>, find: string -> Option<string>, p: Placed, toAsk: seq<nat>) {
    && (forall i | i in toAsk :: i < |ms| && Asked(ms, find, i))
    && (forall i | 0 <= i < |ms| && Target(ms, i).None? && In(ms, p, i) ::
          !Asked(ms, find, i) && Key(ms, p, i) == find(ms[i].replyTo).value)
  }

  lemma RootsPut(ms: seq<Message>, find: string -> Option<string>, f0: Buckets, p0: Placed, f: Buckets, p: Placed,
      toAsk: seq<nat>, d: nat, key: string)
    requires RootsRouted(ms, find, p0, toAsk) && Queued(ms, f0, p0) && d < |ms| && !In(ms, p0, d)
    requires forall i | 0 <= i < |ms| :: Moved(ms, f0, p0, f, p, d, key, i)
    requires Target(ms, d).Some? || (!Asked(ms, find, d) && key == find(ms[d].replyTo).value)
    ensures RootsRouted(ms, find, p, toAsk)
  {
    hide In, Key, Waiters, Target;
    forall i | 0 <= i < |ms| && Target(ms, i).None? && In(ms, p, i)
      ensures !Asked(ms, find, i) && Key(ms, p, i) == find(ms[i].replyTo).value
    {
      assert Moved(ms, f0, p0, f, p, d, key, i);
      WaiterReplies(ms, f0, p0, i);
    }
  }

  lemma WaiterReplies(ms: seq<Message>, f: Buckets, p: Placed, j: nat)
    requires Queued(ms, f, p) && j < |ms|
    ensures j in Waiters(f) ==> Target(ms, j).Some?
  {}

  /** Asking about one more message and placing it. */
  lemma RoutedTake(ms: seq<Message>, f0: Buckets, p0: Placed, f: Buckets, p: Placed, toAsk: seq<nat>, key: string)
    requires toAsk != [] && Routed(ms, f0, p0, toAsk, |ms|)
    requires forall i | 0 <= i < |ms| :: Moved(ms, f0, p0, f, p, toAsk[0], key, i)
    ensures Routed(ms, f, p, toAsk[1..], |ms|)
  {
    hide In, Key, Waiters, Target;
    assert toAsk == [toAsk[0]] + toAsk[1..];
    assert NoDup(toAsk[1..]) && toAsk[0] !in toAsk[1..];
    assert forall i | i in toAsk[1..] :: i in toAsk;
    hide NoDup;
    forall i | 0 <= i < |ms| ensures Dealt(ms, f, p, toAsk[1..], i) {
      assert Moved(ms, f0, p0, f, p, toAsk[0], key, i) && Dealt(ms, f0, p0, toAsk, i);
    }
  }

  lemma AskedReady(ms: seq<Message>, f: Buckets, p: Placed, toAsk: seq<nat>, key: string)
    requires toAsk != [] && Routed(ms, f, p, toAsk, |ms|)
    ensures var i := toAsk[0];
            i < |ms| && !In(ms, p, i) && i !in Waiters(f) && Free(ms, i) && WithTarget(ms, p, i, key)
  {
    hide In, Key, Waiters, NoDup;
    assert toAsk[0] in toAsk && Dealt(ms, f, p, toAsk, toAsk[0]);
    FreeRoot(ms, toAsk[0]);
  }

  /** Once nobody is left to ask about, the messages placed are exactly those
      in no reply cycle. */
  lemma PlacedIffFree(ms: seq<Message>, b: Buckets, f: Buckets, p: Placed, i: nat)
    requires Consistent(ms, b, p) && Queued(ms, f, p) && Together(ms, p) && Routed(ms, f, p, [], |ms|) && i < |ms|
    ensures In(ms, p, i) <==> Free(ms, i)
  {
    hide In, Key, NoDup, Holder, Free, Bucketed;
    if In(ms, p, i) {
      assert Free(ms, i) && WithTarget(ms, p, i, Key(ms, p, i));
    } else {
      assert Dealt(ms, f, p, [], i) && i in Waiters(f);
      forall j | j in Waiters(f) ensures j < |ms| && Target(ms, j).Some? && Target(ms, j).value in Waiters(f) {
        var t :| t in f && j in f[t];
        assert Dealt(ms, f, p, [], Target(ms, j).value);
      }
      ClosedNotFree(ms, Waiters(f), i);
    }
  }

  lemma ClosedNotFree(ms: seq<Message>, c: set<nat>, i: nat)
    requires ReplyClosed(ms, c) && i in c
    ensures !Free(ms, i)
  {}

  class Placement {
    const messages: seq<Message>
    var buckets: map<string, seq<nat>>
    var followers: map<string, seq<nat>>
    var toAsk: seq<nat>
    var already: seq<(nat, string)>
    var placed: map<string, string>

    ghost predicate Valid()
      reads this
    {
      GoodBatch(messages) && Consistent(messages, buckets, placed) && Queued(messages, followers, placed)
      && Together(messages, placed)
    }

    constructor (ms: seq<Message>)
      requires GoodBatch(ms)
      ensures Valid() && messages == ms && buckets == map[] && followers == map[] && toAsk == [] && already == []
      ensures placed == map[]
    {
      messages := ms;
      buckets, followers, toAsk, already, placed := map[], map[], [], [], map[];
    }

    /** One turn of `put`: the message into its bucket, its ids placed, and
        whoever waited for them handed back. */
    method PlaceOne(current: nat, key: string) returns (moved: seq<nat>)
      requires GoodBatch(messages) && current < |messages|
      modifies this
      ensures toAsk == old(toAsk) && already == old(already)
      ensures buckets == Added(old(buckets), key, current)
      ensures placed == old(placed) + Keyed(messages[current].srcIds, key)
      ensures followers == Without(old(followers), messages[current].srcIds)
      ensures moved == WaitingFor(old(followers), messages[current].srcIds)
    {
      hide GoodBatch, Keyed, Without, WaitingFor, Added;
      buckets := Added(buckets, key, current);
      moved := [];
      PlaceStart(placed, followers, key);
      SrcsDistinct(messages, current);
      var srcs := messages[current].srcIds;
      ghost var before, was := followers, placed;
      for a := 0 to |srcs|
        invariant toAsk == old(toAsk) && already == old(already) && buckets == Added(old(buckets), key, current)
        invariant placed == was + Keyed(srcs[..a], key)
        invariant followers == Without(before, srcs[..a]) && moved == WaitingFor(before, srcs[..a])
      {
        var s := srcs[a];
        PlaceStep(was, before, srcs, a, key);
        placed := placed[s := key];
        if s in followers {
          moved := moved + followers[s];
          followers := map t | t in followers && t != s :: followers[t];
        }
      }
      assert srcs[..|srcs|] == srcs;
    }

    /** A message nobody has dealt with, ready to be placed under `key`. */
    ghost predicate Ready(i: nat, key: string)
      reads this
    {
      && i < |messages| && !In(messages, placed, i) && i !in Waiters(followers) && Free(messages, i)
      && WithTarget(messages, placed, i, key)
    }

    /** What one `put` did: `message` and some of the waiting are now placed
        under `key`, together with everything placed before. */
    twostate predicate PutDone(message: nat, key: string)
      requires message < |messages|
      reads this
    {
      && toAsk == old(toAsk) && already == old(already) && buckets.Keys == old(buckets).Keys + {key}
      && Waiters(followers) <= old(Waiters(followers))
      && forall i | 0 <= i < |messages| :: Moved(messages, old(followers), old(placed), followers, placed, message,
          key, i)
    }

    /** `put`: place a message, then whoever replied to it, and so on. */
    method Put(message: nat, key: string)
      requires Valid() && Ready(message, key)
      modifies this
      ensures Valid() && PutDone(message, key)
    {
      hide GoodBatch, Consistent, Queued, Together, Free, WithTarget, In, Key, Waiters, WaitingFor, Without, Added,
           Keyed;
      var pending := [message];
      ghost var f0, p0 := followers, placed;
      StartPut(messages, f0, p0, message, key);
      while pending != []
        invariant Valid() && toAsk == old(toAsk) && already == old(already)
        invariant buckets.Keys + {key} == old(buckets).Keys + {key} && (pending == [] ==> key in buckets)
        invariant PutState(messages, f0, p0, followers, placed, message, key, pending)
        decreases |Waiters(followers)| + |pending|
      {
        var current := pending[|pending| - 1];
        assert pending == pending[..|pending| - 1] + [current];
        pending := pending[..|pending| - 1];
        ghost var f, p, b := followers, placed, buckets;
        PutTurn(messages, f0, p0, f, p, b, message, key, pending, current);
        var moved := PlaceOne(current, key);
        pending := pending + moved;
      }
      EndPut(messages, f0, p0, followers, placed, message, key);
    }

    /** `route_replies`: every message is placed with the thread or message it
        replies to, waits for a message of the batch, or is left to be asked
        about - exactly one of these. */
    method RouteReplies(find: string -> Option<string>)
      requires Valid() && followers == map[] && placed == map[] && toAsk == [] && buckets == map[]
      modifies this
      ensures Valid() && Routed(messages, followers, placed, toAsk, |messages|)
      ensures RootsRouted(messages, find, placed, toAsk)
      ensures forall k | k in buckets :: exists t :: find(t) == Some(k)
    {
      hide GoodBatch, Consistent, Queued, Together, Free, WithTarget, In, Key, Waiters, Holder, Routed, Moved;
      NothingYet(messages);
      for d := 0 to |messages|
        invariant Valid() && Routed(messages, followers, placed, toAsk, d)
        invariant RootsRouted(messages, find, placed, toAsk)
        invariant forall k | k in buckets :: exists t :: find(t) == Some(k)
      {
        RouteOne(d, find);
      }
    }

    method RouteOne(d: nat, find: string -> Option<string>)
      requires Valid() && d < |messages| && Routed(messages, followers, placed, toAsk, d)
      requires RootsRouted(messages, find, placed, toAsk)
      modifies this
      ensures Valid() && Routed(messages, followers, placed, toAsk, d + 1)
      ensures RootsRouted(messages, find, placed, toAsk)
      ensures forall k | k in buckets :: k in old(buckets) || exists t :: find(t) == Some(k)
    {
      hide GoodBatch, Consistent, Queued, Together, Free, WithTarget, In, Key, Waiters, Holder, Routed, Moved;
      RoutedNext(messages, followers, placed, toAsk, d);
      var target := messages[d].replyTo;
      var holder := Holder(messages, target);
      if target != "" && target in placed {
        TargetPlaced(messages, buckets, placed, d);
        PlacedKey(messages, buckets, placed, target);
        PutRouted(d, placed[target], find);
      } else if target != "" && holder.Some? && holder.value != d {
        ghost var f0 := followers;
        QueueOne(messages, followers, placed, d);
        followers := Added(followers, target, d);
        RoutedQueue(messages, f0, placed, followers, toAsk, d);
      } else if target != "" && find(target).Some? {
        FreeRoot(messages, d);
        RootAlone(messages, placed, d, find(target).value);
        PutRouted(d, find(target).value, find);
      } else {
        RoutedAsk(messages, followers, placed, toAsk, d);
        toAsk := toAsk + [d];
      }
    }

    /** A routed message is placed, and listed as already assigned. */
    method PutRouted(d: nat, key: string, ghost find: string -> Option<string>)
      requires Valid() && Ready(d, key) && Routed(messages, followers, placed, toAsk, d)
      requires RootsRouted(messages, find, placed, toAsk)
      requires Target(messages, d).Some? || (!Asked(messages, find, d) && key == find(messages[d].replyTo).value)
      modifies this
      ensures RootsRouted(messages, find, placed, toAsk)
      ensures Valid() && Routed(messages, followers, placed, toAsk, d + 1) && buckets.Keys == old(buckets).Keys + {key}
    {
      hide GoodBatch, Consistent, Queued, Together, Free, WithTarget, In, Key, Waiters, Routed, Moved;
      ghost var f0, p0 := followers, placed;
      Put(d, key);
      already := already + [(d, key)];
      RoutedPut(messages, f0, p0, followers, placed, toAsk, d, key);
      RootsPut(messages, find, f0, p0, followers, placed, toAsk, d, key);
    }

    /** `finish`: batch order again in every bucket. */
    method Finish()
      requires Valid()
      modifies this`buckets
      ensures Valid() && buckets.Keys == old(buckets).Keys
      ensures forall k | k in buckets :: Ascending(buckets[k]) && forall i :: i in buckets[k] <==> i in old(buckets)[k]
    {
      var sorted := map k | k in buckets :: InOrder(buckets[k], |messages|);
      SortedBuckets(messages, buckets, placed, sorted);
      hide Bucketed, Queued, Together, GoodBatch, InOrder;
      buckets := sorted;
    }
  }
}
