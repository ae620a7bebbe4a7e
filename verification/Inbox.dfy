/** The inbox page (shared/inbox/interface.py): posting and acknowledging, and
    what every interleaving of writers and people keeps. */
module Inbox {
  import opened Options
  import opened Parts
  import opened Text
  import opened PageFormat
  import opened Schema
  import opened Neutral
  import opened Fence
  import opened Editor
  import opened Sections
  import opened Tidy
  import opened Items
  import opened ItemText
  import opened ItemEdits
  import opened Upserts
  import opened UpsertTwice
  import opened EditRuns
  import opened ThreadTransfer
  import opened InboxLines

  const DONE_KEPT := 50

  /** `InboxPost`, with the id and time it would get as a new item. */
  datatype Post = Post(kind: string, text: string, trigger: bool, channel: Option<string>, slug: Option<string>,
    link: Option<string>, since: Option<string>, id: string, posted: Option<string>)

  // ---------------------------------------------------------------------
  // The changes
  // ---------------------------------------------------------------------

  predicate SameSubject(a: InboxItem, kind: string, channel: Option<string>, slug: Option<string>) {
    a.kind == kind && a.slug.Some? && a.channel == channel && a.slug == slug
  }

  /** `a or b` on values that may be missing or empty. */
  function Or(a: Option<string>, b: Option<string>): Option<string> {
    if a.Some? && a.value != "" then a else b
  }

  function MergePost(it: InboxItem, p: Post): InboxItem {
    it.(text := p.text, trigger := it.trigger || p.trigger, link := Or(p.link, it.link), since := Or(it.since, p.since))
  }

  function NewItem(p: Post): InboxItem {
    InboxItem(p.id, p.kind, p.text, p.trigger, p.channel, p.slug, p.link, p.since, p.posted)
  }

  /** The first pending item of the post's subject takes it in; else it is
      queued at the end. */
  function PostOne(pending: seq<InboxItem>, p: Post): seq<InboxItem> {
    if pending == [] then [NewItem(p)]
    else if SameSubject(pending[0], p.kind, p.channel, p.slug) then [MergePost(pending[0], p)] + pending[1..]
    else [pending[0]] + PostOne(pending[1..], p)
  }

  function PostAll(pending: seq<InboxItem>, posts: seq<Post>): seq<InboxItem>
    decreases |posts|
  {
    if posts == [] then pending else PostAll(PostOne(pending, posts[0]), posts[1..])
  }

  function Remaining(pending: seq<InboxItem>, ids: set<string>): seq<InboxItem> {
    if pending == [] then []
    else if pending[0].id in ids then Remaining(pending[1..], ids)
    else [pending[0]] + Remaining(pending[1..], ids)
  }

  function Finished(pending: seq<InboxItem>, ids: set<string>): seq<InboxItem> {
    if pending == [] then []
    else if pending[0].id in ids then [pending[0]] + Finished(pending[1..], ids)
    else Finished(pending[1..], ids)
  }

  function DoneLines(items: seq<InboxItem>, now: string): seq<string> {
    if items == [] then [] else [ToLine(items[0], Some(now))] + DoneLines(items[1..], now)
  }

  datatype Op = PostOp(posts: seq<Post>) | AckOp(ids: set<string>, now: string)

  function NewPending(op: Op, pending: seq<InboxItem>): seq<InboxItem> {
    match op
    case PostOp(posts) => PostAll(pending, posts)
    case AckOp(ids, _) => Remaining(pending, ids)
  }

  function NewDone(op: Op, pending: seq<InboxItem>, done: seq<string>): seq<string> {
    match op
    case PostOp(_) => done
    case AckOp(ids, now) => done + DoneLines(Finished(pending, ids), now)
  }

  // ---------------------------------------------------------------------
  // One item per subject
  // ---------------------------------------------------------------------

  predicate Clash(a: InboxItem, b: InboxItem) { SameSubject(a, b.kind, b.channel, b.slug) }

  /** At most one pending item per kind, channel and thread. */
  predicate OneEach(pending: seq<InboxItem>) {
    forall i, j | 0 <= i < j < |pending| :: !Clash(pending[i], pending[j])
  }

  /** An item of another subject clashes with nothing a post adds or merges. */
  lemma {:induction false} PostOneApart(it: InboxItem, pending: seq<InboxItem>, p: Post)
    requires !SameSubject(it, p.kind, p.channel, p.slug) && forall k | 0 <= k < |pending| :: !Clash(it, pending[k])
    ensures forall k | 0 <= k < |PostOne(pending, p)| :: !Clash(it, PostOne(pending, p)[k])
  {
    if pending != [] && !SameSubject(pending[0], p.kind, p.channel, p.slug) { PostOneApart(it, pending[1..], p); }
  }

  lemma {:induction false} PostOneKeepsOneEach(pending: seq<InboxItem>, p: Post)
    requires OneEach(pending)
    ensures OneEach(PostOne(pending, p))
  {
    if pending != [] {
      var r := PostOne(pending, p);
      if SameSubject(pending[0], p.kind, p.channel, p.slug) {
        forall i, j | 0 <= i < j < |r| ensures !Clash(r[i], r[j]) {
          assert !Clash(pending[i], pending[j]);
        }
      } else {
        TailOneEach(pending);
        PostOneKeepsOneEach(pending[1..], p);
        var t := PostOne(pending[1..], p);
        PostOneApart(pending[0], pending[1..], p);
        forall i, j | 0 <= i < j < |r| ensures !Clash(r[i], r[j]) {
          if i > 0 { assert r[i] == t[i - 1]; }
          assert r[j] == t[j - 1];
        }
      }
    }
  }

  lemma TailOneEach(pending: seq<InboxItem>)
    requires pending != [] && OneEach(pending)
    ensures OneEach(pending[1..])
  {
    var t := pending[1..];
    forall i, j | 0 <= i < j < |t| ensures !Clash(t[i], t[j]) { assert !Clash(pending[i + 1], pending[j + 1]); }
  }

  lemma {:induction false} PostAllKeepsOneEach(pending: seq<InboxItem>, posts: seq<Post>)
    requires OneEach(pending)
    ensures OneEach(PostAll(pending, posts))
    decreases |posts|
  {
    hide OneEach, PostOne;
    if posts != [] {
      PostOneKeepsOneEach(pending, posts[0]);
      PostAllKeepsOneEach(PostOne(pending, posts[0]), posts[1..]);
    }
  }

  /** Acknowledging moves items, keeping their order: each is still pending or
      finished, and an item not acknowledged is still pending. */
  lemma {:induction false} AckSplits(pending: seq<InboxItem>, ids: set<string>) returns (at: seq<nat>, done: seq<nat>)
    ensures PartOf(Remaining(pending, ids), pending, at) && PartOf(Finished(pending, ids), pending, done)
    ensures forall i: nat | i < |pending| ::
              (i in done <==> pending[i].id in ids) && (i in at <==> pending[i].id !in ids)
  {
    at, done := [], [];
    if pending != [] {
      hide PartOf;
      var a, d := AckSplits(pending[1..], ids);
      assert pending == [pending[0]] + pending[1..];
      PartOfTail(pending[0], Remaining(pending[1..], ids), pending[1..], a);
      PartOfTail(pending[0], Finished(pending[1..], ids), pending[1..], d);
      at, done := Shifted(a), Shifted(d);
      if pending[0].id in ids { done := [0] + done; } else { at := [0] + at; }
      forall i: nat | i < |pending|
        ensures (i in done <==> pending[i].id in ids) && (i in at <==> pending[i].id !in ids)
      {
        if i > 0 { assert pending[i] == pending[1..][i - 1]; }
      }
    } else {
      NoParts(pending);
    }
  }

  lemma NoParts(pending: seq<InboxItem>)
    ensures PartOf([], pending, [])
  {}

  lemma {:induction false} AckKeepsOneEach(pending: seq<InboxItem>, ids: set<string>)
    requires OneEach(pending)
    ensures OneEach(Remaining(pending, ids))
    ensures forall it | it in Remaining(pending, ids) :: it in pending
  {
    if pending != [] {
      TailOneEach(pending);
      AckKeepsOneEach(pending[1..], ids);
      var t := Remaining(pending[1..], ids);
      if pending[0].id !in ids {
        forall j | 0 <= j < |t| ensures !Clash(pending[0], t[j]) {
          assert t[j] in t && t[j] in pending[1..];
          var k :| 0 <= k < |pending[1..]| && pending[1..][k] == t[j];
          assert !Clash(pending[0], pending[k + 1]);
        }
        var r := [pending[0]] + t;
        forall i, j | 0 <= i < j < |r| ensures !Clash(r[i], r[j]) {
          if i > 0 { assert r[i] == t[i - 1]; }
          assert r[j] == t[j - 1];
        }
      }
    }
  }

  /** Every change keeps one pending item per subject. */
  lemma ChangeKeepsOneEach(op: Op, pending: seq<InboxItem>)
    requires OneEach(pending)
    ensures OneEach(NewPending(op, pending))
  {
    hide OneEach;
    match op
    case PostOp(posts) => PostAllKeepsOneEach(pending, posts);
    case AckOp(ids, _) => AckKeepsOneEach(pending, ids);
  }

  // ---------------------------------------------------------------------
  // What a post does
  // ---------------------------------------------------------------------

  predicate Says(v: Option<string>) { v.Some? && v.value != "" }

  /** The item is of the post's kind, channel and thread, and there is a thread. */
  predicate About(it: InboxItem, p: Post) {
    it.kind == p.kind && it.channel == p.channel && it.slug == p.slug && p.slug.Some?
  }

  /** `now` is `was` with the post's text, triggering if either did, with the
      post's link if it has one and the earliest `since`. */
  predicate TookIn(was: InboxItem, p: Post, now: InboxItem) {
    && now.id == was.id && now.kind == was.kind && now.channel == was.channel && now.slug == was.slug
    && now.posted == was.posted && now.text == p.text
    && (now.trigger <==> was.trigger || p.trigger)
    && now.link == (if Says(p.link) then p.link else was.link)
    && now.since == (if Says(was.since) then was.since else p.since)
  }

  /** An item with everything the post says. */
  predicate QueuedFor(it: InboxItem, p: Post) {
    && it.id == p.id && it.kind == p.kind && it.channel == p.channel && it.slug == p.slug && it.posted == p.posted
    && it.text == p.text && it.trigger == p.trigger && it.link == p.link && it.since == p.since
  }

  /** A post changes one item, the first of its subject, which takes it in; or
      it is queued at the end. */
  lemma {:induction false} PostOneMeans(pending: seq<InboxItem>, p: Post) returns (i: nat)
    ensures i <= |pending| && forall k | 0 <= k < i :: !About(pending[k], p)
    ensures i < |pending| ==> About(pending[i], p)
    ensures var r := PostOne(pending, p);
            && |r| == (if i < |pending| then |pending| else |pending| + 1)
            && (forall k | 0 <= k < |pending| && k != i :: r[k] == pending[k])
            && if i < |pending| then TookIn(pending[i], p, r[i]) else QueuedFor(r[i], p)
  {
    if pending == [] || SameSubject(pending[0], p.kind, p.channel, p.slug) {
      i := 0;
    } else {
      var j := PostOneMeans(pending[1..], p);
      i := j + 1;
      var r := PostOne(pending, p);
      forall k | 0 <= k < |pending| && k != i ensures r[k] == pending[k] {
        if k > 0 { assert pending[k] == pending[1..][k - 1]; }
      }
    }
  }
}
