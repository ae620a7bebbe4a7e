/** Inbox changes on the page itself, and the page through every interleaving
    (shared/inbox/interface.py). */
module InboxPage {
  import opened Options
  import opened Text
  import opened PageFormat
  import opened Schema
  import opened Neutral
  import opened Fence
  import opened Editor
  import opened Squeezing
  import opened Sections
  import opened Tidy
  import opened Items
  import opened ItemText
  import opened Upserts
  import opened CleanItems
  import opened FieldReads
  import opened UpsertTwice
  import opened EditRuns
  import opened ThreadTransfer
  import opened InboxLines
  import opened Inbox
  import opened Occ

  function FromLines(ls: seq<string>, env: Env): seq<InboxItem> {
    if ls == [] then [] else
      match FromLine(ls[0], env)
      case Some(it) => [it] + FromLines(ls[1..], env)
      case None => FromLines(ls[1..], env)
  }

  function ToLines(items: seq<InboxItem>): (r: seq<string>)
    ensures |r| == |items|
  {
    if items == [] then [] else [ToLine(items[0], None)] + ToLines(items[1..])
  }

  function Spoken(ls: seq<string>): seq<string> {
    if ls == [] then [] else if Trim(ls[0]) == "" then Spoken(ls[1..]) else [ls[0]] + Spoken(ls[1..])
  }

  function PendingOf(p: Page, env: Env): seq<InboxItem> { FromLines(LinesOf(FencedContent(p, "Pending")), env) }

  function DoneOf(p: Page): seq<string> { Spoken(LinesOf(FencedContent(p, "Done"))) }

  function Kept(done: seq<string>): (r: seq<string>)
    ensures |r| <= DONE_KEPT
  {
    if |done| <= DONE_KEPT then done else done[|done| - DONE_KEPT..]
  }

  /** The page with these items pending and these lines done. */
  function Filled(p: Page, pending: seq<InboxItem>, done: seq<string>): Result<Page> {
    match SetFenced(p, "Pending", Join("\n", ToLines(pending)))
    case Err(e) => Err(e)
    case Ok(q) => SetFenced(q, "Done", Join("\n", Kept(done)))
  }

  /** What one attempt of `_write` makes of the page it read; `fresh` is the
      page a missing inbox starts from. */
  function ChangeFor(op: Op, env: Env, loader: Loader, first: Page): Change<string> {
    (x: Option<string>) =>
      match ParsePage(match x case Some(t) => t case None => DumpPage(first), loader)
      case BadPage => None
      case Parsed(p) =>
        var pending, done := if x.None? then [] else PendingOf(p, env), if x.None? then [] else DoneOf(p);
        match Filled(p, NewPending(op, pending), NewDone(op, pending, done))
        case Err(_) => None
        case Ok(q) => Some(DumpPage(q))
  }

  // ---------------------------------------------------------------------
  // Writing items and reading them back
  // ---------------------------------------------------------------------

  /** Writable, and of a channel with a name or none: an empty name is not written. */
  predicate Ready(it: InboxItem, env: Env) { Writable(it, env) && it.channel != Some("") }

  predicate AllWritable(items: seq<InboxItem>, env: Env) { forall i | 0 <= i < |items| :: Ready(items[i], env) }

  function NormalAll(items: seq<InboxItem>): (r: seq<InboxItem>)
    ensures |r| == |items| && forall i | 0 <= i < |r| :: r[i] == Normal(items[i])
  {
    if items == [] then [] else [Normal(items[0])] + NormalAll(items[1..])
  }

  lemma {:induction false} LinesRead(items: seq<InboxItem>, env: Env)
    requires AllWritable(items, env)
    ensures FromLines(NeutraliseLines(ToLines(items)), env) == NormalAll(items)
            && NeutralLines(NeutraliseLines(ToLines(items)))
    ensures forall i | 0 <= i < |items| :: NeutraliseLines(ToLines(items))[i] != "" && NoNewline(ToLines(items)[i])
  {
    hide Writable, ToLine, FromLine, Normal, NeutralLine, NoNewline, NeutraliseLine;
    if items != [] {
      LinesRead(items[1..], env);
      LineRoundTrip(items[0], env);
      assert ToLines(items)[1..] == ToLines(items[1..]);
      assert NeutraliseLines(ToLines(items))[1..] == NeutraliseLines(ToLines(items[1..]));
    }
  }

  lemma {:induction false} JoinEnds(ls: seq<string>)
    requires ls != [] && forall i | 0 <= i < |ls| :: ls[i] != "" && NoNewline(ls[i])
    ensures var s := Join("\n", ls); s != "" && s[0] != NL && s[|s| - 1] != NL
  {
    if |ls| > 1 {
      JoinEnds(ls[1..]);
      var s, t := Join("\n", ls), Join("\n", ls[1..]);
      assert s == ls[0] + "\n" + t;
      assert s[|s| - 1] == t[|t| - 1];
    }
  }

  /** Lines come back neutralised from the fence they are written in, if none of
      them is empty. */
  lemma ListText(ls: seq<string>)
    requires forall i | 0 <= i < |ls| :: NoNewline(ls[i]) && NeutraliseLines(ls)[i] != ""
    ensures LinesOf(StripNL(Neutralise(Join("\n", ls)))) == NeutraliseLines(ls)
  {
    hide NeutralLine, LinesOf, StripNL, SplitNL, Join, NeutralLines, NeutraliseLine, NoNewline;
    if ls == [] {
      BlankIsNeutral();
      SplitLast("");
      NeutraliseKeepsIffNeutral("");
      NothingWrittenText();
    } else {
      SplitJoin(ls);
      NeutraliseLinesNeutral(ls);
      NeutralLinesKept(NeutraliseLines(ls));
      SplitJoin(NeutraliseLines(ls));
      JoinEnds(NeutraliseLines(ls));
      TightText(Join("\n", NeutraliseLines(ls)));
    }
  }

  lemma TightText(s: string)
    requires s != "" && s[0] != NL && s[|s| - 1] != NL
    ensures LinesOf(StripNL(s)) == SplitNL(s)
  {
    StripIs(s, 0, |s|);
    assert s[0..|s|] == s;
    hide LinesOf, StripNL, SplitNL;
    JoinLines(s);
  }

  lemma NothingWrittenText()
    ensures Join("\n", []) == "" && StripNL("") == "" && LinesOf("") == [] && NeutralLines([""])
  {
    BlankIsNeutral();
  }

  // ---------------------------------------------------------------------
  // The page
  // ---------------------------------------------------------------------

  predicate Whole(p: Page, title: string) {
    SectionOf(p, title).Some? && !FenceOf(SectionOf(p, title).value.body).Orphan?
  }

  /** An inbox page as the agents keep it. */
  predicate PageOk(p: Page, env: Env) {
    && p.pageType == "inbox" && TidyPage(p) && Whole(p, "Pending") && Whole(p, "Done") && SectionOf(p, "Notes").Some?
    && AllWritable(PendingOf(p, env), env) && OneEach(PendingOf(p, env))
  }

  lemma InboxTitles()
    ensures Canonical("inbox", "Pending") == "Pending" && OwnerOf("inbox", "Pending") == Some(Managed)
    ensures Canonical("inbox", "Done") == "Done" && OwnerOf("inbox", "Done") == Some(Managed)
    ensures Canonical("inbox", "Notes") == "Notes" && OwnerOf("inbox", "Notes") == Some(Shared)
    ensures "Pending" != "Done" && "Pending" != "Notes" && "Done" != "Notes"
  {
    hide Canonical, OwnerOf;
    OwnTitle("inbox", 0);
    OwnTitle("inbox", 1);
    OwnTitle("inbox", 2);
    assert "Pending"[0] == 'P' && "Done"[0] == 'D' && "Notes"[0] == 'N';
  }

  /** Writing one of the two lists: it reads back, and nothing else changes. */
  lemma ListWritten(p: Page, title: string, text: string, other: string)
    requires p.pageType == "inbox" && TidyPage(p) && Whole(p, title)
    requires (title == "Pending" || title == "Done") && (other == "Pending" || other == "Done" || other == "Notes")
             && other != title
    ensures SetFenced(p, title, text).Ok?
    ensures var q := SetFenced(p, title, text).value;
            && q.pageType == "inbox" && q.raw == p.raw && TidyPage(q) && Whole(q, title)
            && FencedContent(q, title) == StripNL(Neutralise(text))
            && SectionOf(q, other) == SectionOf(p, other)
  {
    hide TidyPage, FenceOf, FencedText, Neutralise, Canonical, OwnerOf, WithSection, SectionOf, PutFenced, StripNL,
         Unfenced;
    InboxTitles();
    WithSectionFinds(p, title, Managed);
    var body := BodyOf(p, title, Managed);
    var b1 := PutFenced(body, "managed", Neutralise(text));
    NeutraliseSafe(text);
    ManagedName();
    PutGet(body, "managed", Neutralise(text));
    PutSectionTidy(p, title, Managed, text);
    RewriteGets(p, title, Managed, b1);
    PresentOthers(p, title, Managed, b1, other);
  }

  lemma ContentOfSection(p: Page, q: Page, title: string)
    requires SectionOf(q, title) == SectionOf(p, title)
    ensures FencedContent(q, title) == FencedContent(p, title) && Whole(q, title) == Whole(p, title)
  {
    hide SectionOf, FencedText, FenceOf;
  }

  /** Filling the page succeeds, shows exactly the items given, and leaves the
      people's notes byte for byte. */
  lemma FilledReads(p: Page, pending: seq<InboxItem>, done: seq<string>, env: Env)
    requires p.pageType == "inbox" && TidyPage(p) && Whole(p, "Pending") && Whole(p, "Done")
             && AllWritable(pending, env)
    ensures Filled(p, pending, done).Ok?
    ensures var q := Filled(p, pending, done).value;
            && q.pageType == "inbox" && q.raw == p.raw && TidyPage(q) && Whole(q, "Pending") && Whole(q, "Done")
            && PendingOf(q, env) == NormalAll(pending) && SectionOf(q, "Notes") == SectionOf(p, "Notes")
  {
    hide TidyPage, Whole, FencedContent, Neutralise, SectionOf, LinesOf, FromLines, NormalAll, Join, StripNL,
         Writable, SetFenced;
    LinesRead(pending, env);
    var text := Join("\n", ToLines(pending));
    ListText(ToLines(pending));
    ListWritten(p, "Pending", text, "Done");
    ListWritten(p, "Pending", text, "Notes");
    var q1 := SetFenced(p, "Pending", text).value;
    ContentOfSection(p, q1, "Done");
    ListWritten(q1, "Done", Join("\n", Kept(done)), "Pending");
    ListWritten(q1, "Done", Join("\n", Kept(done)), "Notes");
    ContentOfSection(q1, Filled(p, pending, done).value, "Pending");
  }

  // ---------------------------------------------------------------------
  // Items stay writable
  // ---------------------------------------------------------------------

  /** Posts of any text, of a channel with a name or none. */
  predicate WritableOp(op: Op, env: Env) {
    op.PostOp? ==> forall p | p in op.posts :: Ready(NewItem(p), env)
  }

  lemma MergeWritable(it: InboxItem, p: Post, env: Env)
    requires Ready(it, env) && Ready(NewItem(p), env)
    ensures Ready(MergePost(it, p), env)
  {
    hide CleanValue, BracketFree, MarkerFree, Plain, IsId, NoNewline;
  }

  lemma {:induction false} PostOneWritable(pending: seq<InboxItem>, p: Post, env: Env)
    requires AllWritable(pending, env) && Ready(NewItem(p), env)
    ensures AllWritable(PostOne(pending, p), env)
  {
    hide Ready, MergePost, NewItem;
    if pending != [] {
      if SameSubject(pending[0], p.kind, p.channel, p.slug) {
        MergeWritable(pending[0], p, env);
      } else {
        PostOneWritable(pending[1..], p, env);
      }
    }
  }

  lemma {:induction false} PostAllWritable(pending: seq<InboxItem>, posts: seq<Post>, env: Env)
    requires AllWritable(pending, env) && forall p | p in posts :: Ready(NewItem(p), env)
    ensures AllWritable(PostAll(pending, posts), env)
    decreases |posts|
  {
    hide Ready, NewItem, AllWritable, PostOne;
    if posts != [] {
      assert posts[0] in posts && forall p | p in posts[1..] :: p in posts;
      PostOneWritable(pending, posts[0], env);
      PostAllWritable(PostOne(pending, posts[0]), posts[1..], env);
    }
  }

  lemma {:induction false} RemainingWritable(pending: seq<InboxItem>, ids: set<string>, env: Env)
    requires AllWritable(pending, env)
    ensures AllWritable(Remaining(pending, ids), env)
  {
    hide Ready;
    if pending != [] { RemainingWritable(pending[1..], ids, env); }
  }

  lemma OpWritable(op: Op, pending: seq<InboxItem>, env: Env)
    requires AllWritable(pending, env) && WritableOp(op, env)
    ensures AllWritable(NewPending(op, pending), env)
  {
    hide Ready, AllWritable;
    match op
    case PostOp(posts) => PostAllWritable(pending, posts, env);
    case AckOp(ids, _) => RemainingWritable(pending, ids, env);
  }

  lemma UnbracketBlanks(s: string)
    requires Squeezed(s)
    ensures Squeezed(Unbracket(s))
  {
    forall i | 0 <= i < |s| ensures IsSpace(Unbracket(s)[i]) == IsSpace(s[i])
        && (IsSpace(s[i]) ==> Unbracket(s)[i] == s[i]) {
      
    }
  }

  /** Text on one line, with single blanks and no brackets, is kept as it is. */
  lemma PlainKept(t: string)
    requires Squeezed(t) && Trimmed(t) && BracketFree(t)
    ensures Plain(t) == t
  {
    SqueezedKept(t);
    assert Unbracket(t) == t;
    TrimTrimmed(t);
  }

  lemma {:induction false} DefangSqueezed(s: string)
    requires Squeezed(s)
    ensures Squeezed(Defang(s))
  {
    hide MarkerFirst;
    if s != "" {
      assert s[1..] == s[1..|s|];
      SqueezedSlice(s, 1, |s|);
      DefangSqueezed(s[1..]);
      var d := Defang(s[1..]);
      if MarkerFirst(s) {
        assert forall i | 0 <= i < 4 :: !IsSpace("&lt;"[i]);
        forall i | 0 <= i < |d| + 4 && IsSpace(("&lt;" + d)[i])
          ensures ("&lt;" + d)[i] == ' ' && (i + 1 < |d| + 4 ==> !IsSpace(("&lt;" + d)[i + 1]))
        {
          assert ("&lt;" + d)[i] == d[i - 4];
        }
      } else {
        if |s| > 1 { DefangEnds(s[1..]); }
        SqueezedCons(s[0], d);
      }
    }
  }

  /** Text the page shows is shown the same again. */
  lemma PlainTwice(text: string)
    ensures Plain(Plain(text)) == Plain(text) && Defang(Plain(Defang(Plain(text)))) == Defang(Plain(text))
  {
    SqueezeSqueezes(text);
    hide Squeeze, Squeezed, IsSpace, Defang, MarkerFree;
    UnbracketBlanks(Squeeze(text));
    var u := Unbracket(Squeeze(text));
    var a := LeadSpace(u, 0);
    SqueezedSlice(u, a, TrailSpace(u, a, |u|));
    PlainIs(text);
    PlainKept(Plain(text));
    DefangOneLine(Plain(text));
    DefangSqueezed(Plain(text));
    PlainKept(Defang(Plain(text)));
    DefangKeepsMarkerFree(Defang(Plain(text)));
  }

  /** An item the page shows is shown the same again, and can be written. */
  lemma NormalReady(it: InboxItem, env: Env)
    requires Ready(it, env)
    ensures Ready(Normal(it), env) && Normal(Normal(it)) == Normal(it)
  {
    hide CleanValue, MarkerFree, Plain, IsId, BracketFree, NoNewline, Defang;
    PlainTwice(it.text);
  }

  lemma NormalApart(a: InboxItem, b: InboxItem)
    requires !Clash(a, b) && a.channel != Some("") && b.channel != Some("")
    ensures !Clash(Normal(a), Normal(b))
  {
    hide Plain, Defang;
  }

  /** With an empty name for a channel, two subjects become one on the page. */
  lemma EmptyChannelClashes()
    ensures var a := InboxItem("a", "k", "", false, Some(""), Some("s"), None, None, None);
            var b := a.(channel := None);
            !Clash(a, b) && Clash(Normal(a), Normal(b))
  {
    hide Plain, Defang;
  }

  lemma NormalWritable(items: seq<InboxItem>, env: Env)
    requires AllWritable(items, env)
    ensures AllWritable(NormalAll(items), env)
    ensures OneEach(items) ==> OneEach(NormalAll(items))
  {
    hide Writable, Normal, Clash;
    forall i | 0 <= i < |items| ensures Ready(NormalAll(items)[i], env) {
      NormalReady(items[i], env);
    }
    if OneEach(items) {
      forall i, j | 0 <= i < j < |items| ensures !Clash(NormalAll(items)[i], NormalAll(items)[j]) {
        assert Ready(items[i], env) && Ready(items[j], env);
        NormalApart(items[i], items[j]);
      }
    }
  }

  // ---------------------------------------------------------------------
  // Every interleaving
  // ---------------------------------------------------------------------

  /** A missing inbox, or content that parses to a page in order. */
  predicate ContentOk(x: Option<string>, env: Env, loader: Loader) {
    x.Some? ==> ParsePage(x.value, loader).Parsed? && PageOk(ParsePage(x.value, loader).page, env)
  }

  function NotesOf(x: Option<string>, loader: Loader): Option<Section> {
    if x.Some? && ParsePage(x.value, loader).Parsed? then SectionOf(ParsePage(x.value, loader).page, "Notes") else None
  }

  /** One committed change: the page stays in order, shows exactly the changed
      list, and keeps the notes byte for byte. */
  lemma CommitKeeps(op: Op, env: Env, loader: Loader, first: Page, x: Option<string>)
    requires ContentOk(x, env, loader) && WritableOp(op, env)
    requires PageOk(first, env) && loader(first.raw) == Some("inbox") && PendingOf(first, env) == []
    ensures var y := ChangeFor(op, env, loader, first)(x);
            && y.Some? && ContentOk(y, env, loader)
            && (var was := if x.None? then [] else PendingOf(ParsePage(x.value, loader).page, env);
                PendingOf(ParsePage(y.value, loader).page, env) == NormalAll(NewPending(op, was)))
            && NotesOf(y, loader) == NotesOf(if x.Some? then x else Some(DumpPage(first)), loader)
  {
    hide TidyPage, Whole, PendingOf, DoneOf, NewPending, NewDone, NormalAll, Filled, AllWritable, OneEach, SectionOf,
         ParsePage, DumpPage, WritableOp, WellFormedRest, GoodRaw;
    TidyWellFormed(first);
    ParseAfterDump(first, loader);
    var t := if x.Some? then x.value else DumpPage(first);
    var p := ParsePage(t, loader).page;
    var pending, done := if x.None? then [] else PendingOf(p, env), if x.None? then [] else DoneOf(p);
    ParsedPageWellFormed(t, loader);
    OpWritable(op, pending, env);
    ChangeKeepsOneEach(op, pending);
    FilledReads(p, NewPending(op, pending), NewDone(op, pending, done), env);
    var q := Filled(p, NewPending(op, pending), NewDone(op, pending, done)).value;
    NormalWritable(NewPending(op, pending), env);
    TidyWellFormed(q);
    ParseAfterDump(q, loader);
  }

  function Changes(ops: seq<Op>, env: Env, loader: Loader, first: Page): (r: seq<Change<string>>)
    ensures |r| == |ops| && forall i | 0 <= i < |r| :: r[i] == ChangeFor(ops[i], env, loader, first)
  {
    seq(|ops|, i requires 0 <= i < |ops| => ChangeFor(ops[i], env, loader, first))
  }

  /** The text people last gave the page: their last edit, or else what it
      started as; for a page that was missing then, what the next commit makes it
      from. */
  function HumanText(log: seq<Event<string>>, start: Option<string>, first: Page): Option<string> {
    if log == [] then start
    else
      match log[|log| - 1]
      case Edited(content) => content
      case Committed(_) =>
        var before := HumanText(log[..|log| - 1], start, first);
        if before.Some? then before else Some(DumpPage(first))
  }

  /** Replaying commits and edits keeps the page in order, and the notes those of
      the text people last gave it. */
  lemma {:induction false} NotesReplayed(ops: seq<Op>, env: Env, loader: Loader, first: Page, start: Option<string>,
      log: seq<Event<string>>)
    requires PageOk(first, env) && loader(first.raw) == Some("inbox") && PendingOf(first, env) == []
    requires (forall op | op in ops :: WritableOp(op, env)) && ContentOk(start, env, loader)
    requires Sound(Changes(ops, env, loader, first), start, log)
    requires forall e | e in log :: e.Edited? ==> ContentOk(e.content, env, loader)
    ensures var now := Replay(Changes(ops, env, loader, first), start, log);
            && ContentOk(now, env, loader) && (now.Some? <==> HumanText(log, start, first).Some?)
            && NotesOf(now, loader) == NotesOf(HumanText(log, start, first), loader)
  {
    hide PageOk, ContentOk, WritableOp, PendingOf, ChangeFor, NewPending, NormalAll, ParsePage, NotesOf, DumpPage;
    if log != [] {
      var e, rest := log[|log| - 1], log[..|log| - 1];
      assert e in log && forall d | d in rest :: d in log;
      NotesReplayed(ops, env, loader, first, start, rest);
      if e.Committed? {
        assert ops[e.writer] in ops;
        CommitKeeps(ops[e.writer], env, loader, first, Replay(Changes(ops, env, loader, first), start, rest));
      }
    }
  }

  /** In any interleaving of posters, acknowledgers and people whose edits leave
      the page in order: the page is always in order, so at most one item is
      pending per kind, channel and thread; and its notes are, byte for byte,
      those of the text people last gave it. */
  lemma InboxStaysInOrder(ops: seq<Op>, env: Env, loader: Loader, first: Page, file: Option<File<string>>,
      steps: seq<Step<string>>)
    requires PageOk(first, env) && loader(first.raw) == Some("inbox") && PendingOf(first, env) == []
    requires forall op | op in ops :: WritableOp(op, env)
    requires ContentOk(Content(file), env, loader)
    requires Possible(Changes(ops, env, loader, first), Start(file, |ops|), steps)
    requires var w := RunSteps(Changes(ops, env, loader, first), Start(file, |ops|), steps);
             forall e | e in w.log :: e.Edited? ==> ContentOk(e.content, env, loader)
    ensures var w := RunSteps(Changes(ops, env, loader, first), Start(file, |ops|), steps);
            && ContentOk(Content(w.file), env, loader)
            && NotesOf(Content(w.file), loader) == NotesOf(HumanText(w.log, Content(file), first), loader)
  {
    hide PageOk, ContentOk, WritableOp, PendingOf, ChangeFor, NotesOf, HumanText;
    EveryRunIsAReplay(Changes(ops, env, loader, first), file, steps);
    var w := RunSteps(Changes(ops, env, loader, first), Start(file, |ops|), steps);
    NotesReplayed(ops, env, loader, first, Content(file), w.log);
  }

  // ---------------------------------------------------------------------
  // The page a missing inbox starts from
  // ---------------------------------------------------------------------

  /** `_new_page`. */
  function NewInbox(agent: string, raw: string): Page {
    Page("inbox", raw, "# Inbox: " + agent + "\n",
      [FreshSection("Pending", Managed), FreshSection("Done", Managed),
          FreshSection("Notes", Shared).(body := SkeletonBody(Shared, "", true))])
  }

  lemma EmptyFence()
    ensures var b := SkeletonBody(Managed, "", false);
            FenceOf(b).Complete? && FencedText(b) == "" && Quiet(b) && Closed(b)
  {
    hide FenceOf;
    ManagedName();
    assert Fits("") && FindOpen("") == 0;
    FreshFence("", "managed", "");
    var m := "" + FenceOpen("managed") + "\n";
    assert SkeletonBody(Managed, "", false) == m + "" + (FENCE_CLOSE + "\n");
    assert (m + "" + (FENCE_CLOSE + "\n"))[|m|..|m|] == "";
    SkeletonTidy(Managed);
  }

  lemma InboxPreamble(agent: string)
    requires NoNewline(agent)
    ensures Quiet("# Inbox: " + agent + "\n") && EndsNL("# Inbox: " + agent + "\n")
  {
    var t := "# Inbox: " + agent + "\n";
    forall i | 0 <= i < |t| ensures !HeaderLike(t, i) {
      if i > 0 { assert t[i - 1] != NL; }
    }
  }

  /** A new inbox is in order and has nothing pending. */
  lemma NewInboxOk(agent: string, raw: string, env: Env)
    requires NoNewline(agent) && GoodRaw(raw)
    ensures PageOk(NewInbox(agent, raw), env) && PendingOf(NewInbox(agent, raw), env) == []
  {
    hide GoodRaw, FenceOf, FencedText, Quiet, Canonical, OwnerOf, SkeletonBody, HeaderLine, HeaderTitle;
    var p := NewInbox(agent, raw);
    InboxTitles();
    EmptyFence();
    InboxPreamble(agent);
    NewSections(p);
    IndexIs("inbox", p.sections, "Pending", 0, 0);
    IndexIs("inbox", p.sections, "Done", 0, 1);
    IndexIs("inbox", p.sections, "Notes", 0, 2);
    assert FencedContent(p, "Pending") == "";
    assert LinesOf("") == [] && FromLines([], env) == [];
  }

  lemma NewSections(p: Page)
    requires p.sections == [FreshSection("Pending", Managed), FreshSection("Done", Managed),
             FreshSection("Notes", Shared).(body := SkeletonBody(Shared, "", true))]
    ensures TidySections(p.sections)
  {
    hide Quiet, TitledSection, SkeletonBody, FreshSection, Canonical, OwnerOf;
    InboxTitles();
    FreshTidy("inbox", "Pending", Managed);
    FreshTidy("inbox", "Done", Managed);
    FreshTidy("inbox", "Notes", Shared);
    EmptyNotes();
    NothingQuiet();
    SameTitled(FreshSection("Notes", Shared), "");
  }

  lemma SameTitled(s: Section, body: string)
    ensures TitledSection(s.(body := body)) == TitledSection(s)
  {}

  lemma EmptyNotes()
    ensures SkeletonBody(Shared, "", true) == ""
  {}

  lemma NothingQuiet()
    ensures Quiet("")
  {}
}
