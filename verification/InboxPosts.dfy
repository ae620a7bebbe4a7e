/** Several posts in one call (shared/inbox/interface.py): which of them are
    queued, and what each item shows afterwards. */
module InboxPosts {
  import opened Options
  import opened InboxLines
  import opened Inbox

  /** The two posts are of one kind, channel and thread. */
  predicate SameMatter(p: Post, q: Post) {
    p.kind == q.kind && p.channel == q.channel && p.slug == q.slug && q.slug.Some?
  }

  /** No item pending and no earlier post is of the post's subject. */
  predicate NewMatter(pending: seq<InboxItem>, posts: seq<Post>, k: nat)
    requires k < |posts|
  {
    && (forall i | 0 <= i < |pending| :: !About(pending[i], posts[k]))
    && (forall m | 0 <= m < k :: !SameMatter(posts[m], posts[k]))
  }

  /** No earlier item is of this one's subject. */
  predicate FirstOfKind(items: seq<InboxItem>, i: nat)
    requires i < |items|
  {
    forall k | 0 <= k < i :: !Clash(items[k], items[i])
  }

  /** The last of the posts about the item. */
  predicate LastAbout(it: InboxItem, posts: seq<Post>, k: nat) {
    k < |posts| && About(it, posts[k]) && forall m | k < m < |posts| :: !About(it, posts[m])
  }

  /** The last of the posts about the item that gives a link. */
  predicate LastLink(it: InboxItem, posts: seq<Post>, k: nat) {
    && k < |posts| && About(it, posts[k]) && Says(posts[k].link)
    && forall m | k < m < |posts| && About(it, posts[m]) :: !Says(posts[m].link)
  }

  /** The first of the posts about the item that gives a `since`. */
  predicate FirstSince(it: InboxItem, posts: seq<Post>, k: nat) {
    && k < |posts| && About(it, posts[k]) && Says(posts[k].since)
    && forall m | 0 <= m < k && About(it, posts[m]) :: !Says(posts[m].since)
  }

  /** The item after all the posts: the last text about it, triggering if it or
      any of them does, the last link given and the first `since`. */
  ghost predicate TookAll(was: InboxItem, posts: seq<Post>, now: InboxItem) {
    && now.id == was.id && now.kind == was.kind && now.channel == was.channel && now.slug == was.slug
    && now.posted == was.posted
    && ((forall k | 0 <= k < |posts| :: !About(was, posts[k])) ==> now == was)
    && (forall k: nat | LastAbout(was, posts, k) :: now.text == posts[k].text)
    && (now.trigger <==> was.trigger || exists k :: 0 <= k < |posts| && About(was, posts[k]) && posts[k].trigger)
    && (forall k: nat | LastLink(was, posts, k) :: now.link == posts[k].link)
    && ((forall k | 0 <= k < |posts| && About(was, posts[k]) :: !Says(posts[k].link)) ==> now.link == was.link)
    && (Says(was.since) ==> now.since == was.since)
    && (!Says(was.since) ==> forall k: nat | FirstSince(was, posts, k) :: now.since == posts[k].since)
    && (!Says(was.since) && (forall k | 0 <= k < |posts| && About(was, posts[k]) :: !Says(posts[k].since))
        ==> !Says(now.since))
  }

  lemma TookNone(it: InboxItem)
    ensures TookAll(it, [], it)
  {}

  lemma TookOther(was: InboxItem, posts: seq<Post>, now: InboxItem, p: Post)
    requires TookAll(was, posts, now) && !About(was, p)
    ensures TookAll(was, posts + [p], now)
  {
    var all := posts + [p];
    assert forall k | 0 <= k < |posts| :: all[k] == posts[k];
    forall k: nat | LastAbout(was, all, k) ensures LastAbout(was, posts, k) {
      assert forall m | k < m < |posts| :: !About(was, all[m]);
    }
    forall k: nat | LastLink(was, all, k) ensures LastLink(was, posts, k) {
      assert forall m | k < m < |posts| && About(was, all[m]) :: !Says(all[m].link);
    }
    forall k: nat | FirstSince(was, all, k) ensures FirstSince(was, posts, k) {
      assert forall m | 0 <= m < k && About(was, all[m]) :: !Says(all[m].since);
    }
    if exists k :: 0 <= k < |posts| && About(was, posts[k]) && posts[k].trigger {
      var k :| 0 <= k < |posts| && About(was, posts[k]) && posts[k].trigger;
      assert About(was, all[k]) && all[k].trigger;
    }
    if forall k | 0 <= k < |all| && About(was, all[k]) :: !Says(all[k].link) {
      forall k | 0 <= k < |posts| && About(was, posts[k]) ensures !Says(posts[k].link) { assert About(was, all[k]); }
    }
    if forall k | 0 <= k < |all| && About(was, all[k]) :: !Says(all[k].since) {
      forall k | 0 <= k < |posts| && About(was, posts[k]) ensures !Says(posts[k].since) { assert About(was, all[k]); }
    }
  }

  lemma TookMore(was: InboxItem, posts: seq<Post>, mid: InboxItem, p: Post, now: InboxItem)
    requires TookAll(was, posts, mid) && About(was, p) && TookIn(mid, p, now)
    ensures TookAll(was, posts + [p], now)
  {
    TookText(was, posts, mid, p, now);
    TookLink(was, posts, mid, p, now);
    TookSince(was, posts, mid, p, now);
    hide LastAbout, LastLink, FirstSince, About;
  }

  lemma TookText(was: InboxItem, posts: seq<Post>, mid: InboxItem, p: Post, now: InboxItem)
    requires TookAll(was, posts, mid) && About(was, p) && TookIn(mid, p, now)
    ensures var all := posts + [p];
            && (exists k :: 0 <= k < |all| && About(was, all[k]))
            && (forall k: nat | LastAbout(was, all, k) :: now.text == all[k].text)
            && (now.trigger <==> was.trigger || exists k :: 0 <= k < |all| && About(was, all[k]) && all[k].trigger)
  {
    hide LastLink, FirstSince;
    var all := posts + [p];
    var n := |posts|;
    assert all[n] == p && forall k | 0 <= k < n :: all[k] == posts[k];
    assert About(was, all[n]);
    forall k: nat | LastAbout(was, all, k) ensures k == n {}
    if exists k :: 0 <= k < n && About(was, posts[k]) && posts[k].trigger {
      var k :| 0 <= k < n && About(was, posts[k]) && posts[k].trigger;
      assert About(was, all[k]) && all[k].trigger;
    }
  }

  lemma TookLink(was: InboxItem, posts: seq<Post>, mid: InboxItem, p: Post, now: InboxItem)
    requires TookAll(was, posts, mid) && About(was, p) && TookIn(mid, p, now)
    ensures var all := posts + [p];
            && (forall k: nat | LastLink(was, all, k) :: now.link == all[k].link)
            && ((forall k | 0 <= k < |all| && About(was, all[k]) :: !Says(all[k].link)) ==> now.link == was.link)
  {
    var all := posts + [p];
    var n := |posts|;
    assert all[n] == p && forall k | 0 <= k < n :: all[k] == posts[k];
    forall k: nat | LastLink(was, all, k) ensures now.link == all[k].link {
      if k < n {
        assert !Says(all[n].link);
        assert forall m | k < m < n && About(was, all[m]) :: !Says(all[m].link);
        assert LastLink(was, posts, k);
      }
    }
    if forall k | 0 <= k < |all| && About(was, all[k]) :: !Says(all[k].link) {
      assert !Says(all[n].link);
      forall k | 0 <= k < n && About(was, posts[k]) ensures !Says(posts[k].link) { assert About(was, all[k]); }
    }
  }

  lemma TookSince(was: InboxItem, posts: seq<Post>, mid: InboxItem, p: Post, now: InboxItem)
    requires TookAll(was, posts, mid) && About(was, p) && TookIn(mid, p, now)
    ensures var all := posts + [p];
            && (Says(was.since) ==> now.since == was.since)
            && (!Says(was.since) ==> forall k: nat | FirstSince(was, all, k) :: now.since == all[k].since)
            && (!Says(was.since) && (forall k | 0 <= k < |all| && About(was, all[k]) :: !Says(all[k].since))
                ==> !Says(now.since))
  {
    var all := posts + [p];
    var n := |posts|;
    assert all[n] == p && forall k | 0 <= k < n :: all[k] == posts[k];
    if !Says(was.since) {
      forall k: nat | FirstSince(was, all, k) ensures now.since == all[k].since {
        if k < n {
          assert forall m | 0 <= m < k && About(was, all[m]) :: !Says(all[m].since);
          assert FirstSince(was, posts, k);
        } else {
          forall m | 0 <= m < n && About(was, posts[m]) ensures !Says(posts[m].since) { assert About(was, all[m]); }
        }
      }
      if forall k | 0 <= k < |all| && About(was, all[k]) :: !Says(all[k].since) {
        assert !Says(all[n].since);
        forall m | 0 <= m < n && About(was, posts[m]) ensures !Says(posts[m].since) { assert About(was, all[m]); }
      }
    }
  }

  lemma {:induction false} PostAllSnoc(pending: seq<InboxItem>, posts: seq<Post>, p: Post)
    ensures PostAll(pending, posts + [p]) == PostOne(PostAll(pending, posts), p)
    decreases |posts|
  {
    hide PostOne;
    if posts == [] {
      assert (posts + [p])[1..] == [];
    } else {
      assert (posts + [p])[1..] == posts[1..] + [p] && (posts + [p])[0] == posts[0];
      PostAllSnoc(PostOne(pending, posts[0]), posts[1..], p);
    }
  }

  /** What the list shows after the posts: `queued` are those given an item of
      their own at its end. */
  ghost predicate Posted(pending: seq<InboxItem>, posts: seq<Post>, queued: seq<nat>, now: seq<InboxItem>) {
    && |now| == |pending| + |queued|
    && (forall n | 0 <= n < |queued| :: queued[n] < |posts|)
    && (forall m, n | 0 <= m < n < |queued| :: queued[m] < queued[n])
    && (forall k: nat | k < |posts| :: k in queued <==> posts[k].slug.None? || NewMatter(pending, posts, k))
    && (forall i: nat | i < |pending| ::
          if FirstOfKind(pending, i) then TookAll(pending[i], posts, now[i]) else now[i] == pending[i])
    && (forall n: nat, it | n < |queued| && QueuedFor(it, posts[queued[n]]) ::
          TookAll(it, posts[queued[n] + 1..], now[|pending| + n]))
  }

  /** Some item, pending or queued, is of the post's subject. */
  lemma Lands(pending: seq<InboxItem>, posts: seq<Post>, k: nat) returns (m: nat)
    requires k < |posts| && posts[k].slug.Some?
    ensures (exists i :: 0 <= i < |pending| && About(pending[i], posts[k]))
            || (m <= k && SameMatter(posts[m], posts[k]) && NewMatter(pending, posts, m))
    decreases k
  {
    m := k;
    if !NewMatter(pending, posts, k) && !exists i :: 0 <= i < |pending| && About(pending[i], posts[k]) {
      var j :| 0 <= j < k && SameMatter(posts[j], posts[k]);
      m := Lands(pending, posts, j);
      assert forall i | 0 <= i < |pending| && About(pending[i], posts[j]) :: About(pending[i], posts[k]);
    }
  }

  lemma NewMatterSnoc(pending: seq<InboxItem>, posts: seq<Post>, p: Post)
    ensures forall k: nat | k < |posts| :: NewMatter(pending, posts + [p], k) == NewMatter(pending, posts, k)
  {
    var all := posts + [p];
    forall k: nat | k < |posts| ensures NewMatter(pending, all, k) == NewMatter(pending, posts, k) {
      assert forall m | 0 <= m <= k :: all[m] == posts[m];
    }
  }

  /** Nothing in the list is of the post's subject: none was before. */
  lemma NoneAbout(pending: seq<InboxItem>, posts: seq<Post>, queued: seq<nat>, now: seq<InboxItem>, p: Post)
    requires Posted(pending, posts, queued, now) && forall i | 0 <= i < |now| :: !About(now[i], p)
    ensures NewMatter(pending, posts + [p], |posts|)
  {
    hide TookAll;
    var all := posts + [p];
    forall i: nat | i < |pending| ensures !About(pending[i], p) {
      SameIdentity(pending[i], posts, now[i]);
    }
    forall m | 0 <= m < |posts| ensures !SameMatter(all[m], p) {
      assert all[m] == posts[m];
      if SameMatter(posts[m], p) {
        var f := Lands(pending, posts, m);
        forall i: nat | i < |pending| ensures !About(pending[i], posts[m]) { NotAbout(pending[i], posts[m], p); }
        assert f in queued;
        var n :| 0 <= n < |queued| && queued[n] == f;
        QueuedShows(pending, posts, queued, now, n);
        assert false;
      }
    }
  }

  lemma NotAbout(it: InboxItem, q: Post, p: Post)
    requires SameMatter(q, p) && !About(it, p)
    ensures !About(it, q)
  {}

  lemma SameIdentity(was: InboxItem, posts: seq<Post>, now: InboxItem)
    requires TookAll(was, posts, now) || now == was
    ensures now.kind == was.kind && now.channel == was.channel && now.slug == was.slug
  {}

  lemma QueuedShows(pending: seq<InboxItem>, posts: seq<Post>, queued: seq<nat>, now: seq<InboxItem>, n: nat)
    requires Posted(pending, posts, queued, now) && n < |queued|
    ensures var p := posts[queued[n]]; var it := now[|pending| + n];
            it.kind == p.kind && it.channel == p.channel && it.slug == p.slug
  {
    hide TookAll;
    assert QueuedFor(NewItem(posts[queued[n]]), posts[queued[n]]);
    SameIdentity(NewItem(posts[queued[n]]), posts[queued[n] + 1..], now[|pending| + n]);
  }

  lemma TailSnoc(posts: seq<Post>, p: Post, f: nat)
    requires f < |posts|
    ensures (posts + [p])[f + 1..] == posts[f + 1..] + [p] && (posts + [p])[f] == posts[f]
  {}

  /** One more post. */
  lemma PostedSnoc(pending: seq<InboxItem>, posts: seq<Post>, queued: seq<nat>, now: seq<InboxItem>, p: Post)
      returns (more: seq<nat>)
    requires Posted(pending, posts, queued, now)
    ensures Posted(pending, posts + [p], more, PostOne(now, p))
  {
    hide TookAll, PostOne, QueuedFor, TookIn, NewMatter, FirstOfKind;
    var i := PostOneMeans(now, p);
    NewMatterSnoc(pending, posts, p);
    var all := posts + [p];
    if i < |now| {
      more := queued;
      Merges(pending, posts, queued, now, p, i);
    } else {
      more := queued + [|posts|];
      Queues(pending, posts, queued, now, p);
    }
  }

  lemma Queues(pending: seq<InboxItem>, posts: seq<Post>, queued: seq<nat>, now: seq<InboxItem>, p: Post)
    requires Posted(pending, posts, queued, now) && forall i | 0 <= i < |now| :: !About(now[i], p)
    requires forall k: nat | k < |posts| :: NewMatter(pending, posts + [p], k) == NewMatter(pending, posts, k)
    requires var r := PostOne(now, p); |r| == |now| + 1 && r[..|now|] == now && QueuedFor(r[|now|], p)
    ensures Posted(pending, posts + [p], queued + [|posts|], PostOne(now, p))
  {
    hide TookAll, PostOne, NewMatter, FirstOfKind;
    var all, r, more := posts + [p], PostOne(now, p), queued + [|posts|];
    NoneAbout(pending, posts, queued, now, p);
    forall i: nat | i < |pending|
      ensures if FirstOfKind(pending, i) then TookAll(pending[i], all, r[i]) else r[i] == pending[i]
    {
      assert r[i] == now[i];
      SameIdentity(pending[i], posts, now[i]);
      if FirstOfKind(pending, i) { TookOther(pending[i], posts, now[i], p); }
    }
    forall n: nat, it | n < |more| && QueuedFor(it, all[more[n]])
      ensures TookAll(it, all[more[n] + 1..], r[|pending| + n])
    {
      if n < |queued| {
        TailSnoc(posts, p, queued[n]);
        QueuedShows(pending, posts, queued, now, n);
        assert r[|pending| + n] == now[|pending| + n];
        TookOther(it, posts[queued[n] + 1..], now[|pending| + n], p);
      } else {
        assert all[more[n] + 1..] == [] && r[|pending| + n] == it;
        TookNone(it);
      }
    }
    forall k: nat | k < |all| ensures k in more <==> all[k].slug.None? || NewMatter(pending, all, k) {
      if k < |posts| { assert all[k] == posts[k] && (k in more <==> k in queued); }
    }
  }

  lemma Merges(pending: seq<InboxItem>, posts: seq<Post>, queued: seq<nat>, now: seq<InboxItem>, p: Post, at: nat)
    requires Posted(pending, posts, queued, now) && at < |now| && About(now[at], p)
    requires forall i | 0 <= i < at :: !About(now[i], p)
    requires forall k: nat | k < |posts| :: NewMatter(pending, posts + [p], k) == NewMatter(pending, posts, k)
    requires var r := PostOne(now, p);
             |r| == |now| && TookIn(now[at], p, r[at]) && forall i | 0 <= i < |now| && i != at :: r[i] == now[i]
    ensures Posted(pending, posts + [p], queued, PostOne(now, p))
  {
    hide TookAll, PostOne, TookIn, NewMatter, FirstOfKind;
    var all, r := posts + [p], PostOne(now, p);
    forall i: nat | i < |pending|
      ensures if FirstOfKind(pending, i) then TookAll(pending[i], all, r[i]) else r[i] == pending[i]
    {
      SameIdentity(pending[i], posts, now[i]);
      if i == at { MergedIsFirst(pending, posts, queued, now, p, at); }
      if FirstOfKind(pending, i) {
        if i == at {
          TookMore(pending[i], posts, now[i], p, r[i]);
        } else {
          if About(pending[i], p) { LaterClashes(pending, posts, queued, now, p, at, i); }
          TookOther(pending[i], posts, now[i], p);
        }
      }
    }
    forall n: nat, it | n < |queued| && QueuedFor(it, all[queued[n]])
      ensures TookAll(it, all[queued[n] + 1..], r[|pending| + n])
    {
      TailSnoc(posts, p, queued[n]);
      QueuedShows(pending, posts, queued, now, n);
      if |pending| + n == at {
        TookMore(it, posts[queued[n] + 1..], now[at], p, r[at]);
      } else {
        if About(it, p) { QueuedOnce(pending, posts, queued, now, p, at, n); }
        TookOther(it, posts[queued[n] + 1..], now[|pending| + n], p);
      }
    }
    forall k: nat | k < |all| ensures k in queued <==> all[k].slug.None? || NewMatter(pending, all, k) {
      if k < |posts| { assert all[k] == posts[k]; } else { NotNew(pending, posts, queued, now, p, at); }
    }
  }

  lemma MergedIsFirst(pending: seq<InboxItem>, posts: seq<Post>, queued: seq<nat>, now: seq<InboxItem>, p: Post,
      at: nat)
    requires Posted(pending, posts, queued, now) && at < |pending| && About(now[at], p)
    requires forall i | 0 <= i < at :: !About(now[i], p)
    ensures FirstOfKind(pending, at)
  {
    hide TookAll, FirstOfKind;
    SameIdentity(pending[at], posts, now[at]);
    FirstUnless(pending, at);
    if !FirstOfKind(pending, at) {
      var k: nat :| k < at && Clash(pending[k], pending[at]);
      SameIdentity(pending[k], posts, now[k]);
      assert false;
    }
  }

  lemma FirstUnless(items: seq<InboxItem>, i: nat)
    requires i < |items|
    ensures FirstOfKind(items, i) || exists k: nat :: k < i && Clash(items[k], items[i])
  {}

  lemma LaterClashes(pending: seq<InboxItem>, posts: seq<Post>, queued: seq<nat>, now: seq<InboxItem>, p: Post,
      at: nat, i: nat)
    requires Posted(pending, posts, queued, now) && at < |now| && About(now[at], p) && i < |pending| && i != at
    requires forall k | 0 <= k < at :: !About(now[k], p)
    requires About(pending[i], p)
    ensures !FirstOfKind(pending, i)
  {
    hide TookAll;
    SameIdentity(pending[i], posts, now[i]);
    assert at < i;
    SameIdentity(pending[at], posts, now[at]);
    assert Clash(pending[at], pending[i]);
  }

  lemma QueuedOnce(pending: seq<InboxItem>, posts: seq<Post>, queued: seq<nat>, now: seq<InboxItem>, p: Post,
      at: nat, n: nat)
    requires Posted(pending, posts, queued, now) && at < |now| && About(now[at], p)
    requires forall k | 0 <= k < at :: !About(now[k], p)
    requires n < |queued| && |pending| + n != at
    ensures !SameMatter(posts[queued[n]], p)
  {
    hide TookAll;
    QueuedShows(pending, posts, queued, now, n);
    var q := posts[queued[n]];
    if SameMatter(q, p) {
      assert queued[n] in queued && NewMatter(pending, posts, queued[n]);
      if at < |pending| {
        SameIdentity(pending[at], posts, now[at]);
        assert false;
      } else {
        var m := at - |pending|;
        QueuedShows(pending, posts, queued, now, m);
        assert false;
      }
    }
  }

  lemma NotNew(pending: seq<InboxItem>, posts: seq<Post>, queued: seq<nat>, now: seq<InboxItem>, p: Post, at: nat)
    requires Posted(pending, posts, queued, now) && at < |now| && About(now[at], p)
    ensures p.slug.Some? && !NewMatter(pending, posts + [p], |posts|) && |posts| !in queued
  {
    hide TookAll;
    var all := posts + [p];
    assert all[|posts|] == p;
    if at < |pending| {
      SameIdentity(pending[at], posts, now[at]);
      assert About(pending[at], p);
    } else {
      var m := at - |pending|;
      QueuedShows(pending, posts, queued, now, m);
      assert all[queued[m]] == posts[queued[m]] && SameMatter(all[queued[m]], p);
    }
  }

  /** Posting, in full. A pending item that is the first of its subject shows
      the last text posted about it; the others stay as they are; and the posts
      queued, in order, are those without a thread and the first of each
      subject nothing pending is about. */
  lemma {:induction false} PostsMean(pending: seq<InboxItem>, posts: seq<Post>) returns (queued: seq<nat>)
    ensures Posted(pending, posts, queued, NewPending(PostOp(posts), pending))
    decreases |posts|
  {
    hide TookAll, PostOne, PostAll, NewMatter, QueuedFor;
    if posts == [] {
      queued := [];
      NothingPosted(pending);
    } else {
      var init, p := posts[..|posts| - 1], posts[|posts| - 1];
      assert posts == init + [p];
      var before := PostsMean(pending, init);
      queued := PostedSnoc(pending, init, before, PostAll(pending, init), p);
      PostAllSnoc(pending, init, p);
    }
  }

  lemma NothingPosted(pending: seq<InboxItem>)
    ensures Posted(pending, [], [], PostAll(pending, []))
  {
    hide TookAll;
    forall i: nat | i < |pending| ensures TookAll(pending[i], [], pending[i]) { TookNone(pending[i]); }
  }

  /** So every post of a thread has an item of its subject, and the last post
      about it gives that item its text. */
  lemma LastPostShows(pending: seq<InboxItem>, posts: seq<Post>, k: nat) returns (j: nat)
    requires k < |posts| && posts[k].slug.Some? && forall m | k < m < |posts| :: !SameMatter(posts[k], posts[m])
    ensures var now := NewPending(PostOp(posts), pending);
            && j < |now| && About(now[j], posts[k]) && now[j].text == posts[k].text
            && forall i | 0 <= i < j :: !About(now[i], posts[k])
  {
    hide TookAll, PostAll, QueuedFor;
    var now := NewPending(PostOp(posts), pending);
    var queued := PostsMean(pending, posts);
    j := FirstAbout(pending, posts, queued, now, k);
    if j < |pending| {
      SameIdentity(pending[j], posts, now[j]);
      MergedIsFirst(pending, posts, queued, now, posts[k], j);
      assert LastAbout(pending[j], posts, k);
      TextTaken(pending[j], posts, now[j], k);
    } else {
      var n := j - |pending|;
      var f := queued[n];
      var it := NewItem(posts[f]);
      assert QueuedFor(it, posts[f]) by { NewIsQueued(posts[f]); }
      QueuedShows(pending, posts, queued, now, n);
      assert f in queued && SameMatter(posts[f], posts[k]);
      NewIsFirst(pending, posts, f, k);
      NoneLater(it, posts, f, k);
      if f == k {
        TookNothing(it, posts[f + 1..], now[j]);
      } else {
        TextTaken(it, posts[f + 1..], now[j], k - f - 1);
      }
    }
  }

  /** The posts after the one the item was queued for. */
  lemma NoneLater(it: InboxItem, posts: seq<Post>, f: nat, k: nat)
    requires f <= k < |posts| && About(it, posts[k]) && forall m | k < m < |posts| :: !SameMatter(posts[k], posts[m])
    ensures var later := posts[f + 1..];
            if f == k then forall m | 0 <= m < |later| :: !About(it, later[m]) else LastAbout(it, later, k - f - 1)
  {
    var later := posts[f + 1..];
    forall m | k - f - 1 < m < |later| ensures !About(it, later[m]) { assert later[m] == posts[f + 1 + m]; }
    if f < k { assert later[k - f - 1] == posts[k]; }
  }

  lemma NewIsQueued(p: Post)
    ensures QueuedFor(NewItem(p), p)
  {}

  lemma NewIsFirst(pending: seq<InboxItem>, posts: seq<Post>, f: nat, k: nat)
    requires f < |posts| && k < |posts| && SameMatter(posts[f], posts[k]) && NewMatter(pending, posts, f)
    ensures f <= k
  {}

  lemma TextTaken(was: InboxItem, posts: seq<Post>, now: InboxItem, k: nat)
    requires TookAll(was, posts, now) && LastAbout(was, posts, k)
    ensures now.text == posts[k].text
  {}

  lemma TookNothing(was: InboxItem, posts: seq<Post>, now: InboxItem)
    requires TookAll(was, posts, now) && forall m | 0 <= m < |posts| :: !About(was, posts[m])
    ensures now == was
  {}

  lemma FirstAbout(pending: seq<InboxItem>, posts: seq<Post>, queued: seq<nat>, now: seq<InboxItem>, k: nat)
      returns (j: nat)
    requires Posted(pending, posts, queued, now) && k < |posts| && posts[k].slug.Some?
    ensures j < |now| && About(now[j], posts[k]) && forall i | 0 <= i < j :: !About(now[i], posts[k])
  {
    hide TookAll;
    var f := Lands(pending, posts, k);
    if i :| 0 <= i < |pending| && About(pending[i], posts[k]) {
      SameIdentity(pending[i], posts, now[i]);
      j := Least(now, posts[k], i);
    } else {
      var n :| 0 <= n < |queued| && queued[n] == f;
      QueuedShows(pending, posts, queued, now, n);
      j := Least(now, posts[k], |pending| + n);
    }
  }

  lemma {:induction false} Least(now: seq<InboxItem>, p: Post, i: nat) returns (j: nat)
    requires i < |now| && About(now[i], p)
    ensures j <= i && About(now[j], p) && forall k | 0 <= k < j :: !About(now[k], p)
  {
    j := i;
    if k :| 0 <= k < i && About(now[k], p) { j := Least(now, p, k); }
  }
}
