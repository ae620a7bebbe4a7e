/** What the task section of an initiative page shows through any number of
    inbox items, each a transfer of a whole thread and a rewritten Status
    (agents/project_agent/agent.py). */
module TaskRuns {
  import opened Options
  import opened Text
  import opened PageFormat
  import opened Schema
  import opened Neutral
  import opened Fence
  import opened Editor
  import opened Sections
  import opened Tidy
  import opened Items
  import opened ItemText
  import opened ItemEdits
  import opened Upserts
  import opened UpsertTwice
  import opened CleanItems
  import opened FieldReads
  import opened Transfer
  import opened MergeSettles
  import opened ThreadTransfer
  import EditRuns

  // ---------------------------------------------------------------------
  // Boxes
  // ---------------------------------------------------------------------

  /** Where the first `<` is; the length for none. */
  function FirstLt(s: string): (k: nat)
    ensures k <= |s| && (k < |s| ==> s[k] == '<') && forall i | 0 <= i < k :: s[i] != '<'
  {
    if s == "" || s[0] == '<' then 0 else 1 + FirstLt(s[1..])
  }

  /** Neutralising starts at the first `<`. */
  lemma DefangStart(s: string)
    ensures var k, d := FirstLt(s), Defang(s);
            k <= |d| && d[..k] == s[..k] && (k == |s| ==> d == s)
                && (k < |s| ==> k < |d| && (d[k] == '<' || d[k] == '&'))
  {
    hide MarkerFirst;
    var k := FirstLt(s);
    assert s == s[..k] + s[k..];
    DefangAfter(s[..k], s[k..]);
    if k == |s| { assert Defang("") == "" && s[k..] == ""; }
  }

  /** Neutralising keeps a line's box as it is. */
  lemma NeutralBox(l: string)
    requires ParseItemLine(l).Some?
    ensures var r := ParseItemLine(NeutraliseLine(l));
            r.Some? && r.value.blockId == ParseItemLine(l).value.blockId
                && r.value.checked == ParseItemLine(l).value.checked
  {
    hide ParseItemLine, Defang, FirstLt, IdOf, SpaceRun, CheckboxAt;
    ParsedIff(l);
    ParsedIff(NeutraliseLine(l));
    IdOfNeutral(l);
    BulletIsNoHeading(l);
    var d, k := Defang(l), FirstLt(l);
    DefangAgrees(l);
    SameSpaces(l, d, k);
    BoxIs(l);
    BoxIs(d);
  }

  lemma DefangAgrees(l: string)
    requires l != "" && l[0] == '-'
    ensures var k, d := FirstLt(l), Defang(l);
            && 1 <= k <= |l| && k <= |d| && (forall i | 0 <= i < k :: d[i] == l[i])
            && (k == |l| ==> d == l) && (k < |l| ==> l[k] == '<' && k < |d| && (d[k] == '<' || d[k] == '&'))
  {
    hide Defang;
    DefangStart(l);
    var d, k := Defang(l), FirstLt(l);
    forall i | 0 <= i < k ensures d[i] == l[i] { assert d[..k][i] == l[..k][i]; }
  }

  lemma SameSpaces(l: string, d: string, k: nat)
    requires 1 <= k <= |l| && k <= |d| && forall i | 0 <= i < k :: d[i] == l[i]
    requires (k == |l| ==> d == l) && (k < |l| ==> l[k] == '<' && k < |d| && (d[k] == '<' || d[k] == '&'))
    ensures SpaceRun(d, 1) == SpaceRun(l, 1) && CheckboxAt(d, SpaceRun(l, 1)) == CheckboxAt(l, SpaceRun(l, 1))
    ensures CheckboxAt(l, SpaceRun(l, 1)) ==> d[SpaceRun(l, 1) + 1] == l[SpaceRun(l, 1) + 1]
  {
    var p := SpaceRun(l, 1);
    if k < |l| {
      SpacesBefore(l, 1, k);
      SpaceRunAll(l, 1);
      SpaceRunIs(d, 1, p);
    }
  }

  lemma BoxIs(l: string)
    requires ParseItemLine(l).Some?
    ensures l != ""
    ensures var p := SpaceRun(l, 1);
            ParseItemLine(l).value.checked == if CheckboxAt(l, p) then Some(l[p + 1] != ' ') else None
  {
    hide TextLen, CheckboxAt;
  }

  /** A ticked item is read back ticked, whatever its text and fields. */
  lemma TickReadsBack(it: Item)
    requires IsId(it.blockId) && it.checked.Some?
    ensures ReadBack(it).Some? && ReadBack(it).value.blockId == it.blockId && ReadBack(it).value.checked == it.checked
  {
    hide ParseItemLine, NeutraliseLine, CheckboxAt, FormatItem, FormatFields, IsId;
    var t := it.text + (FormatFields(it.fields) + " ");
    ParseParts(Bullet(it.checked), t, it.blockId, it.checked);
    FormatShape(it);
    ItemHas(SkipSpaces(t), it.blockId, it.checked);
    NeutralBox(FormatItem(it));
  }

  lemma ParsedIff(l: string)
    ensures ParseItemLine(l).Some? <==> IdOf(l).Some?
    ensures ParseItemLine(l).Some? ==> ParseItemLine(l).value.blockId == IdOf(l).value && l != "" && l[0] == '-'
  {}

  // ---------------------------------------------------------------------
  // The line of a task
  // ---------------------------------------------------------------------

  /** The first line that holds the item with this id. */
  function LineOf(ls: seq<string>, id: string): (r: Option<string>)
    ensures r.Some? ==> ParseItemLine(r.value).Some? && ParseItemLine(r.value).value.blockId == id
  {
    if ls == [] then None else if IdOf(ls[0]) == Some(id) then Some(ls[0]) else LineOf(ls[1..], id)
  }

  /** What upserting `tasks` makes of that line. */
  function Rewritten(l: string, tasks: seq<Item>): string {
    match ParseItemLine(l)
    case None => NeutraliseLine(l)
    case Some(was) =>
      match Lookup(tasks, was.blockId)
      case Some(now) => Written(MergeItem(was, now))
      case None => NeutraliseLine(l)
  }

  /** The first item of an id. */
  function FirstOf(items: seq<Item>, id: string): (r: Option<Item>)
    ensures r.Some? ==> r.value in items && r.value.blockId == id
  {
    if items == [] then None else if items[0].blockId == id then Some(items[0]) else FirstOf(items[1..], id)
  }

  /** The line of an id after upserting `tasks`: the one there rewritten, or else
      the first task of that id as it is added. */
  function NextLine(l: Option<string>, tasks: seq<Item>, id: string): Option<string> {
    match l
    case Some(s) => Some(Rewritten(s, tasks))
    case None =>
      match FirstOf(tasks, id)
      case Some(it) => Some(Written(it))
      case None => None
  }

  lemma {:induction false} LineAside(ls: seq<string>, id: string)
    ensures LineOf(NonBlank(ls), id) == LineOf(ls, id)
  {
    hide ParseItemLine, IdOf;
    if ls != [] {
      LineAside(ls[1..], id);
      if ls[0] == "" { BlankHasNoId(); } else { assert NonBlank(ls)[1..] == NonBlank(ls[1..]); }
    }
  }

  lemma BlankHasNoId()
    ensures IdOf("") == None
  {}

  lemma {:induction false} LineConcat(a: seq<string>, b: seq<string>, id: string)
    ensures LineOf(a + b, id) == if LineOf(a, id).Some? then LineOf(a, id) else LineOf(b, id)
  {
    hide ParseItemLine, IdOf;
    if a == [] {
      assert a + b == b;
    } else {
      assert (a + b)[1..] == a[1..] + b;
      LineConcat(a[1..], b, id);
    }
  }

  lemma LineCons(l: string, rest: seq<string>, id: string)
    ensures LineOf([l] + rest, id) == if IdOf(l) == Some(id) then Some(l) else LineOf(rest, id)
  {
    hide ParseItemLine, IdOf;
    assert ([l] + rest)[1..] == rest;
  }

  /** The line after the replacing loop; and whether its id counts as replaced. */
  lemma {:induction false} ReplaceLine(ls: seq<string>, items: seq<Item>, done: set<string>, id: string)
    requires Identified(items)
    ensures LineOf(NeutraliseLines(Replace(ls, items, MergeItem, done)), id)
            == match LineOf(ls, id)
               case None => None
               case Some(l) => Some(if id in done then NeutraliseLine(l) else Rewritten(l, items))
    ensures id in Replaced(ls, items, done) <==> id in done || (LineOf(ls, id).Some? && Lookup(items, id).Some?)
  {
    hide Hit, ParseItemLine, FormatItem, NeutraliseLine, MergeItem, IsId, Lookup, IdOf, Identified;
    if ls != [] {
      var l := ls[0];
      HitIs(l, items, done);
      ParsedIff(l);
      IdOfNeutral(l);
      match Hit(l, items, done) {
        case None =>
          var rest := Replace(ls[1..], items, MergeItem, done);
          ReplaceLine(ls[1..], items, done, id);
          NeutraliseCons(l, rest);
          LineCons(NeutraliseLine(l), NeutraliseLines(rest), id);
        case Some((was, now)) =>
          var rest := Replace(ls[1..], items, MergeItem, done + {was.blockId});
          ReplaceLine(ls[1..], items, done + {was.blockId}, id);
          NeutraliseCons(FormatItem(MergeItem(was, now)), rest);
          MergedLineId(was, now, items);
          LineCons(Written(MergeItem(was, now)), NeutraliseLines(rest), id);
          WrittenAs(MergeItem(was, now));
      }
    }
  }

  lemma MergedLineId(was: Item, now: Item, items: seq<Item>)
    requires Identified(items) && now in items && now.blockId == was.blockId
    ensures IdOf(Written(MergeItem(was, now))) == Some(was.blockId)
  {
    hide IdOf, NeutraliseLine, FormatItem, IsId, KeepField;
    BlockIdRecovered(MergeItem(was, now));
  }

  /** The line after the adding loop. */
  lemma {:induction false} MissingLine(items: seq<Item>, done: set<string>, id: string)
    requires Identified(items)
    ensures LineOf(NeutraliseLines(Missing(items, done)), id)
            == if id in done then None else
               match FirstOf(items, id)
               case Some(it) => Some(Written(it))
               case None => None
  {
    hide ParseItemLine, FormatItem, NeutraliseLine, IsId, IdOf;
    if items != [] {
      assert items[0] in items && forall it | it in items[1..] :: it in items;
      MissingLine(items[1..], done, id);
      if items[0].blockId !in done {
        NeutraliseCons(FormatItem(items[0]), Missing(items[1..], done));
        BlockIdRecovered(items[0]);
        WrittenAs(items[0]);
        LineCons(Written(items[0]), NeutraliseLines(Missing(items[1..], done)), id);
      }
    }
  }

  lemma {:induction false} FirstAndLast(items: seq<Item>, id: string)
    ensures FirstOf(items, id).Some? <==> Lookup(items, id).Some?
  {
    if items != [] { FirstAndLast(items[1..], id); }
  }

  /** The fenced lines after a pass over the fenced lines before. */
  lemma PassLine(inner: string, items: seq<Item>, id: string)
    requires forall it | it in items :: PlainItem(it)
    ensures var once := LinesOf(Inner(Neutralise(Join("\n", OutLines(LinesOf(inner), items, MergeItem)))));
            LineOf(once, id) == NextLine(LineOf(LinesOf(inner), id), items, id)
  {
    hide LinesOf, Join, Inner, Neutralise, MergeItem, NonBlank, Replace, Missing, NeutraliseLine, PlainItem, IsId,
         NoNewline, OneLineItem, ParseItemLine, Rewritten, IdOf, Written, OneLineMerges;
    var ls := LinesOf(inner);
    LinesHaveNoNewline(inner);
    var done := Replaced(ls, items, {});
    var first, more := Replace(ls, items, MergeItem, {}), Missing(items, done);
    var out := OutLines(ls, items, MergeItem);
    forall it | it in items ensures IsId(it.blockId) && OneLineItem(it) { PlainHas(it); }
    PlainMerges(ls, items);
    OutOneLine(inner, items, MergeItem);
    ReplaceLine(ls, items, {}, id);
    MissingLine(items, done, id);
    FirstAndLast(items, id);
    NeutraliseConcat(first, more);
    LineConcat(NeutraliseLines(first), NeutraliseLines(more), id);
    var once := LinesOf(Inner(Neutralise(Join("\n", out))));
    if out == [] { NothingShown(out); } else { WrittenLines(out, once); }
    LineAside(NeutraliseLines(out), id);
    LineAside(once, id);
  }

  lemma PlainHas(it: Item)
    requires PlainItem(it)
    ensures IsId(it.blockId) && OneLineItem(it)
  {
    PlainIsOneLine(it);
  }

  // ---------------------------------------------------------------------
  // The section
  // ---------------------------------------------------------------------

  /** The line readers find the task of an id on. */
  function SeenLine(body: string, id: string): Option<string> { LineOf(LinesOf(FencedText(body)), id) }

  lemma SeenStrip(t: string, id: string)
    ensures LineOf(LinesOf(StripNL(t)), id) == LineOf(LinesOf(t), id)
  {
    hide LinesOf, StripNL, NonBlank;
    ShownStrip(t);
    LineAside(LinesOf(t), id);
    LineAside(LinesOf(StripNL(t)), id);
  }

  /** What readers find after upserting: behind an opening marker nobody closes,
      what they found stays as it is. */
  function NextSeen(body: string, tasks: seq<Item>, id: string): Option<string> {
    if FenceOf(body).Orphan? && SeenLine(body, id).Some? then SeenLine(body, id)
        else NextLine(SeenLine(body, id), tasks, id)
  }

  /** Upserting one-line items, in whatever state the fence is. */
  lemma BodyLine(body: string, items: seq<Item>, id: string)
    requires forall it | it in items :: PlainItem(it)
    ensures SeenLine(UpsertBody(body, items, MergeItem), id) == NextSeen(body, items, id)
  {
    hide LinesOf, Join, Inner, Neutralise, OutLines, PlainItem, StripNL, Unfenced, FenceOf, NextLine, LineOf;
    var (before, inner, after) := SplitFence(body, "managed");
    var text := Join("\n", OutLines(LinesOf(inner), items, MergeItem));
    var b1 := UpsertBody(body, items, MergeItem);
    NeutraliseSafe(text);
    ManagedName();
    PassLine(inner, items, id);
    if FenceOf(body).Orphan? {
      OrphanLine(body, Neutralise(text), items, id);
    } else {
      UnfencedHasNoClose(Neutralise(text));
      InnerFits(Neutralise(text));
      SplitAgain(body, "managed", Inner(Neutralise(text)));
      SplitInnerComplete(body, "managed", Inner(Neutralise(text)));
      SeenStrip(SplitFence(b1, "managed").1, id);
      SeenInside(body, id);
    }
  }

  lemma SeenInside(body: string, id: string)
    requires !FenceOf(body).Orphan?
    ensures SeenLine(body, id) == LineOf(LinesOf(SplitFence(body, "managed").1), id)
  {
    hide LinesOf, StripNL, LineOf;
    SeenStrip(SplitFence(body, "managed").1, id);
    NothingStripped();
  }

  lemma NothingStripped()
    ensures StripNL("") == ""
  {}

  /** Behind an unclosed marker readers see all they saw, then the new marker and
      what was written. */
  lemma OrphanLine(body: string, x: string, items: seq<Item>, id: string)
    requires FenceOf(body).Orphan? && Unfenced(x) && PutFenced(body, "managed", x) == UpsertBody(body, items, MergeItem)
    requires LineOf(LinesOf(Inner(x)), id) == NextLine(LineOf(LinesOf(""), id), items, id)
    ensures SeenLine(UpsertBody(body, items, MergeItem), id) == NextSeen(body, items, id)
  {
    hide LinesOf, Join, Inner, Neutralise, OutLines, StripNL, Unfenced, FenceOpen, LineOf, UpsertBody, FenceOf,
         NextLine;
    ManagedName();
    OrphanFence(body, "managed", x);
    OrphanSeen(body, PutFenced(body, "managed", x), x, id);
    NoLineIn(id);
  }

  lemma NoLineIn(id: string)
    ensures LineOf(LinesOf(""), id) == None
  {}

  lemma OrphanSeen(body: string, t: string, x: string, id: string)
    requires FenceOf(body).Orphan? && OrphanStart(body) <= |BeforeFresh(body)|
    requires var e := OrphanStart(body);
             e + 18 <= |t| && FenceOf(t) == Complete(e, |t| - 18)
             && t[e..|t| - 18] == BeforeFresh(body)[e..] + (FenceOpen("managed") + "\n") + Inner(x)
    ensures SeenLine(t, id) == if SeenLine(body, id).Some? then SeenLine(body, id) else LineOf(LinesOf(Inner(x)), id)
  {
    hide LinesOf, Inner, StripNL, LineOf, FenceOpen, FenceOf, BeforeFresh, Closed, SeenLine;
    OrphanLines(body, id);
    SeenStrip(body[FenceOf(body).from..], id);
    SeenAs(body, body[FenceOf(body).from..], id);
    OpenHasNoLine(id);
    OpenCloses();
    var a := BeforeFresh(body)[OrphanStart(body)..];
    SeenAs(t, a + (FenceOpen("managed") + "\n") + Inner(x), id);
    JoinedSeen(a, FenceOpen("managed") + "\n", Inner(x), id);
  }

  lemma SeenAs(body: string, s: string, id: string)
    requires match FenceOf(body)
             case NoFence => false
             case Orphan(e) => body[e..] == s
             case Complete(e, c) => body[e..c] == s
    ensures SeenLine(body, id) == LineOf(LinesOf(StripNL(s)), id)
  {
    hide LinesOf, StripNL, LineOf, FenceOf;
  }

  lemma OpenCloses()
    ensures Closed(FenceOpen("managed") + "\n")
  {}

  lemma OpenHasNoLine(id: string)
    ensures LineOf(LinesOf(FenceOpen("managed") + "\n"), id) == None
  {
    hide LinesOf;
    var m := FenceOpen("managed");
    assert m == "<!-- watcher:" + "managed" + " -->" && NoNewline(m);
    LinesOfLine(m);
    MarkerIsNoItem(m);
    ParsedIff(m);
    assert [m][1..] == [];
  }

  lemma JoinedSeen(a: string, b: string, c: string, id: string)
    requires Closed(a) && Closed(b) && LineOf(LinesOf(b), id) == None
    ensures LineOf(LinesOf(StripNL(a + b + c)), id)
            == if LineOf(LinesOf(a), id).Some? then LineOf(LinesOf(a), id) else LineOf(LinesOf(c), id)
  {
    hide LinesOf, StripNL, LineOf;
    SeenStrip(a + b + c, id);
    assert a + b + c == a + (b + c);
    LinesConcat(b, c);
    LinesConcat(a, b + c);
    LineConcat(LinesOf(a), LinesOf(b + c), id);
    LineConcat(LinesOf(b), LinesOf(c), id);
  }

  lemma OrphanLines(body: string, id: string)
    requires FenceOf(body).Orphan? && OrphanStart(body) <= |BeforeFresh(body)|
    ensures var a := BeforeFresh(body)[OrphanStart(body)..];
            Closed(a) && LineOf(LinesOf(a), id) == LineOf(LinesOf(body[FenceOf(body).from..]), id)
  {
    hide LinesOf, LineOf, FenceOf;
    var e, o := FenceOf(body).from, OrphanStart(body);
    TailFrom(body, e, o, BeforeFresh(body)[o..]);
    var a, b := BeforeFresh(body)[o..], body[e..];
    if a != b && b != "" { LinesNewline(b); }
  }

  /** The text from an open marker on, closed by a newline if it is not. */
  lemma TailFrom(body: string, e: nat, o: nat, a: string)
    requires e <= |body| && o <= |BeforeFresh(body)| && a == BeforeFresh(body)[o..]
    requires o == if !Closed(body) && e == |body| then e + 1 else e
    ensures Closed(a) && (a == body[e..] || (!EndsNL(body[e..]) && body[e..] != "" && a == body[e..] + "\n"))
  {}

  // ---------------------------------------------------------------------
  // A thread
  // ---------------------------------------------------------------------

  function TaskTitle(pageType: string): string { if pageType == "project" then "Open tasks" else "Logistics" }

  function TaskSection(p: Page): Option<Section> { SectionOf(p, TaskTitle(p.pageType)) }

  /** The line an initiative page shows the task of an id on, and the task. */
  function LineOn(p: Page, id: string): (r: Option<string>)
    ensures r.Some? ==> ParseItemLine(r.value).Some? && ParseItemLine(r.value).value.blockId == id
  {
    match TaskSection(p)
    case Some(s) => SeenLine(s.body, id)
    case None => None
  }

  function TaskOn(p: Page, id: string): Option<Item> {
    match LineOn(p, id)
    case Some(l) => ParseItemLine(l)
    case None => None
  }

  /** The tasks of a thread. */
  function TasksOf(thread: Page): seq<Item> { OfKind(ThreadItems(thread), "task") }

  /** The line of an id once the tasks have been transferred. */
  function AfterTasks(p: Page, tasks: seq<Item>, id: string): Option<string> {
    match TaskSection(p)
    case Some(s) => if tasks == [] then SeenLine(s.body, id) else NextSeen(s.body, tasks, id)
    case None => None
  }

  lemma HandleLine(p: Page, kind: string, items: seq<Item>, id: string)
    requires Initiative(p.pageType) && Handle(p, kind, items).Applied? && (forall it | it in items :: PlainItem(it))
             && items != []
    ensures var q := Handle(p, kind, items).page;
            && q.pageType == p.pageType && (kind != "task" ==> TaskSection(q) == TaskSection(p))
            && LineOn(q, id) == if kind == "task" then AfterTasks(p, items, id) else LineOn(p, id)
  {
    hide SectionOf, OwnerOf, SeenLine, NextSeen, PlainItem, UpsertBody, Rewrite, BodyOf, AppendItems, ParseItemLine;
    var t := TaskTitle(p.pageType);
    if kind == "task" {
      if SectionOf(p, t).Some? {
        var body := SectionOf(p, t).value.body;
        TitlesOf(p.pageType, "task");
        PresentBody(p, t, Managed);
        BodyLine(body, items, id);
        RewriteGets(p, t, Managed, UpsertBody(body, items, MergeItem));
      }
    } else {
      Undisturbed(p, "task", kind, items);
    }
  }

  lemma {:induction false} KindsLine(p: Page, kinds: seq<string>, items: seq<Item>, id: string)
    requires Initiative(p.pageType) && HandleKinds(p, kinds, items).Applied? && DistinctKinds(kinds)
    requires forall k | k in kinds :: OfKind(items, k) != []
    requires forall it | it in items :: PlainItem(it)
    ensures var q := HandleKinds(p, kinds, items).page;
            q.pageType == p.pageType
            && LineOn(q, id) == if "task" in kinds then AfterTasks(p, OfKind(items, "task"), id) else LineOn(p, id)
    decreases |kinds|
  {
    hide Handle, SectionOf, OfKind, PlainItem, NextSeen, SeenLine, Initiative, DistinctKinds, ParseItemLine;
    if kinds != [] {
      var k := kinds[0];
      OfKindPlain(items, k);
      FirstDiffers(kinds);
      HandleLine(p, k, OfKind(items, k), id);
      KindsLine(Handle(p, k, OfKind(items, k)).page, kinds[1..], items, id);
      assert kinds == [k] + kinds[1..];
    }
  }

  lemma {:induction false} KindsAre(items: seq<Item>, seen: seq<string>, k: string)
    ensures k in Kinds(items, seen) <==> k !in seen && OfKind(items, k) != []
  {
    hide KindOf;
    if items != [] {
      var j := KindOf(items[0]);
      if j in seen { KindsAre(items[1..], seen, k); } else { KindsAre(items[1..], seen + [j], k); }
    }
  }

  /** A transfer of any thread, to any initiative page it applies to, leaves each
      task on exactly the line told from the one before and the thread's tasks. */
  lemma ThreadLine(p: Page, thread: Page, id: string)
    requires Initiative(p.pageType) && ApplyThread(p, thread).Applied?
    ensures var q := ApplyThread(p, thread).page;
            q.pageType == p.pageType && LineOn(q, id) == AfterTasks(p, TasksOf(thread), id)
  {
    hide Handle, PlainItem, OfKind, Initiative, HandleKinds, FencedContent, Kinds, SectionOf, SeenLine, NextSeen,
         ParseItemLine, DistinctKinds;
    var items := ThreadItems(thread);
    LinesHaveNoNewline(FencedContent(thread, "Items"));
    ParsedAllPlain(LinesOf(FencedContent(thread, "Items")));
    KindsDistinct(items, []);
    forall k | k in Kinds(items, []) ensures OfKind(items, k) != [] { KindsAre(items, [], k); }
    KindsAre(items, [], "task");
    KindsLine(p, Kinds(items, []), items, id);
  }

  lemma TasksPlain(thread: Page)
    ensures forall it | it in TasksOf(thread) :: PlainItem(it)
  {
    hide PlainItem, FencedContent, OfKind;
    LinesHaveNoNewline(FencedContent(thread, "Items"));
    ParsedAllPlain(LinesOf(FencedContent(thread, "Items")));
    OfKindPlain(ThreadItems(thread), "task");
  }

  // ---------------------------------------------------------------------
  // A run
  // ---------------------------------------------------------------------

  /** The two writes an inbox item leads to; either may fail and write nothing. */
  datatype Change = Transfer(thread: Page) | Status(text: string)

  function Changed(p: Page, c: Change): Page {
    match c
    case Transfer(thread) => (match ApplyThread(p, thread) case Applied(q) => q case Failed => p)
    case Status(text) => (match SetFenced(p, "Status", text) case Ok(q) => q case Err(_) => p)
  }

  function RunChanges(p: Page, cs: seq<Change>): Page
    decreases |cs|
  {
    if cs == [] then p else RunChanges(Changed(p, cs[0]), cs[1..])
  }

  /** Rewriting the Status leaves every task's line. */
  lemma StatusLine(p: Page, text: string, id: string)
    requires Initiative(p.pageType)
    ensures var q := Changed(p, Status(text)); q.pageType == p.pageType && LineOn(q, id) == LineOn(p, id)
  {
    hide OwnerOf, Canonical, SectionOf, PutFenced, FencedText, LineOf, LinesOf, ParseItemLine, CloseLine;
    TitlesOf(p.pageType, "task");
    StatusTitle(p.pageType);
    var body := PutFenced(BodyOf(p, "Status", Managed), "managed", Neutralise(text));
    hide WithSection;
    StatusIsRewrite(p, text);
    RewriteOthers(p, "Status", Managed, body, TaskTitle(p.pageType));
    RewriteGets(p, "Status", Managed, body);
    if TaskSection(p).Some? { EditRuns.FencedTextNewline(TaskSection(p).value.body); }
  }

  lemma StatusTitle(pageType: string)
    requires Initiative(pageType)
    ensures OwnerOf(pageType, "Status") == Some(Managed)
            && Canonical(pageType, "Status") == "Status" != TaskTitle(pageType)
  {
    hide Canonical, OwnerOf;
    OwnTitle(pageType, 1);
    assert "Open tasks"[0] == 'O' && "Logistics"[0] == 'L' && "Status"[0] == 'S';
  }

  lemma StatusIsRewrite(p: Page, text: string)
    requires OwnerOf(p.pageType, "Status") == Some(Managed)
    ensures SetFenced(p, "Status", text)
            == Ok(Rewrite(p, "Status", Managed, PutFenced(BodyOf(p, "Status", Managed), "managed", Neutralise(text))))
  {
    hide OwnerOf, WithSection, PutFenced, Neutralise;
  }

  // ---------------------------------------------------------------------
  // Ticks
  // ---------------------------------------------------------------------

  predicate TickKept(was: Option<Item>, now: Option<Item>) {
    was.Some? ==> now.Some? && (was.value.checked == Some(true) ==> now.value.checked == Some(true))
  }

  /** A rewritten line holds the same id, and a tick if it held one. */
  lemma RewrittenTick(l: string, tasks: seq<Item>)
    requires ParseItemLine(l).Some? && forall it | it in tasks :: IsId(it.blockId)
    ensures TickKept(ParseItemLine(l), ParseItemLine(Rewritten(l, tasks)))
  {
    hide ParseItemLine, NeutraliseLine, FormatItem, IsId, Lookup, KeepField;
    var was := ParseItemLine(l).value;
    NeutralBox(l);
    if Lookup(tasks, was.blockId).Some? {
      var it := MergeItem(was, Lookup(tasks, was.blockId).value);
      BlockIdRecovered(it);
      ReadId(it);
      if was.checked == Some(true) { TickReadsBack(it); }
    }
  }

  lemma ChangedTick(p: Page, c: Change, id: string)
    requires Initiative(p.pageType)
    ensures Changed(p, c).pageType == p.pageType && TickKept(TaskOn(p, id), TaskOn(Changed(p, c), id))
  {
    hide ApplyThread, SetFenced, LineOf, LinesOf, ParseItemLine, Initiative, SectionOf, TasksOf, FencedText, IsId,
         Rewritten;
    match c
    case Status(text) => StatusLine(p, text, id);
    case Transfer(thread) =>
      if ApplyThread(p, thread).Applied? {
        ThreadLine(p, thread, id);
        TasksPlain(thread);
        if LineOn(p, id).Some? { RewrittenTick(LineOn(p, id).value, TasksOf(thread)); }
      }
  }

  /** Through any number of transfers of any threads, and of rewritten Status
      texts, on any initiative page, no task disappears and no ticked task is
      unticked. */
  lemma {:induction false} TicksStick(p: Page, cs: seq<Change>, id: string)
    requires Initiative(p.pageType) && TaskOn(p, id).Some?
    ensures var now := TaskOn(RunChanges(p, cs), id);
            now.Some? && (TaskOn(p, id).value.checked == Some(true) ==> now.value.checked == Some(true))
    decreases |cs|
  {
    hide TaskOn, Changed, Initiative;
    if cs != [] {
      ChangedTick(p, cs[0], id);
      TicksStick(Changed(p, cs[0]), cs[1..], id);
    }
  }

  // ---------------------------------------------------------------------
  // Owners and due dates
  // ---------------------------------------------------------------------

  /** The text does not swallow the field, or spells it itself. */
  predicate KeyKept(it: Item, key: string)
    requires SafeFields(it.fields)
  {
    DefangSafe(it.fields);
    var text, fs := ShownText(it), DefangFields(it.fields);
    Get(fs[Lost(text, fs)..], key).Some? || Get(DictOf([], OwnFields(text, fs)), key) == Get(fs, key)
  }

  /** An owner or due date set on the page is read back after a merge exactly if
      the thread's text does not swallow it, or spells it itself. */
  lemma KeptIff(was: Item, now: Item, key: string)
    requires IsId(now.blockId) && now.blockId == was.blockId && (key == "owner" || key == "due")
             && Get(was.fields, key).Some?
    requires SafeFields(MergeItem(was, now).fields)
    ensures var it := MergeItem(was, now);
            ReadBack(it).Some? && (Get(ReadBack(it).value.fields, key) == Some(Defang(Get(was.fields, key).value))
                <==> KeyKept(it, key))
  {
    hide ParseItemLine, NeutraliseLine, FormatItem, SafeFields, Lost, DictOf, OwnFields, Get, KeepField, IsId,
         DefangFields, ShownText, Defang;
    MergeMeans(was, now);
    WrittenFieldIff(MergeItem(was, now), key);
    DefangGet(MergeItem(was, now).fields, key);
  }

  /** The value of a field of the task, as the page shows it. */
  function ValueOn(p: Page, id: string, key: string): Option<string> {
    match TaskOn(p, id)
    case Some(it) => Get(it.fields, key)
    case None => None
  }

  /** The line is as the editor writes it. */
  predicate NeutralOn(p: Page, id: string) { LineOn(p, id).Some? && NeutralLine(LineOn(p, id).value) }

  /** The merge of the thread's task into the page's, where there is one. */
  function MergeOn(p: Page, c: Change, id: string): Option<Item> {
    match c
    case Status(_) => None
    case Transfer(thread) =>
      if ApplyThread(p, thread).Failed? || TaskOn(p, id).None? || TaskSection(p).None? then None
      else if FenceOf(TaskSection(p).value.body).Orphan? then None
      else match Lookup(TasksOf(thread), id)
           case Some(now) => Some(MergeItem(TaskOn(p, id).value, now))
           case None => None
  }

  /** Values of text and wikilinks, where a task is merged. */
  predicate SafeOn(p: Page, c: Change, id: string) {
    match MergeOn(p, c, id)
    case Some(it) => SafeFields(it.fields)
    case None => true
  }

  /** Where a task is merged, the text leaves the field. */
  predicate KeptOn(p: Page, c: Change, id: string, key: string)
    requires SafeOn(p, c, id)
  {
    match MergeOn(p, c, id)
    case Some(it) => KeyKept(it, key)
    case None => true
  }

  /** After a change the task is read from the merged line, if there is a merge, and
      from the line there was otherwise. */
  lemma ChangedLine(p: Page, c: Change, id: string)
    requires Initiative(p.pageType) && NeutralOn(p, id)
    ensures Changed(p, c).pageType == p.pageType && NeutralOn(Changed(p, c), id)
    ensures LineOn(Changed(p, c), id)
            == match MergeOn(p, c, id)
               case Some(it) => Some(Written(it))
               case None => LineOn(p, id)
  {
    hide ApplyThread, SetFenced, LineOf, LinesOf, ParseItemLine, Initiative, SectionOf, TasksOf, FencedText, IsId,
         FenceOf, NeutralLine, NeutraliseLine, Lookup, FormatItem, MergeItem, Written;
    match c
    case Status(text) => StatusLine(p, text, id);
    case Transfer(thread) =>
      if ApplyThread(p, thread).Applied? {
        ThreadLine(p, thread, id);
        TasksPlain(thread);
        var l := LineOn(p, id).value;
        NeutralLineKept(l);
        NothingLookedUp(id);
        if MergeOn(p, c, id).Some? {
          ParsedOnLine(l);
          MergePlain(ParseItemLine(l).value, Lookup(TasksOf(thread), id).value);
          WrittenIsNeutral(MergeOn(p, c, id).value);
        }
      }
  }

  lemma NothingLookedUp(id: string)
    ensures Lookup([], id) == None
  {}

  lemma ParsedOnLine(l: string)
    requires NeutralLine(l) && ParseItemLine(l).Some?
    ensures PlainItem(ParseItemLine(l).value)
  {
    hide ParseItemLine, PlainItem, MarkerFree, IsHeading;
    ParsedPlain(l);
  }

  lemma WrittenIsNeutral(it: Item)
    requires PlainItem(it)
    ensures NeutralLine(Written(it))
  {
    hide FormatItem, NeutraliseLine, NeutralLine, PlainItem, IsId;
    PlainIsOneLine(it);
    NeutraliseLineIsNeutral(FormatItem(it));
  }

  /** One change leaves an owner or due date exactly if the text does. */
  lemma ChangedValueIff(p: Page, c: Change, id: string, key: string)
    requires Initiative(p.pageType) && NeutralOn(p, id) && SafeOn(p, c, id) && (key == "owner" || key == "due")
    requires ValueOn(p, id, key).Some?
    ensures ValueOn(Changed(p, c), id, key) == ValueOn(p, id, key) <==> KeptOn(p, c, id, key)
  {
    hide Changed, LineOf, LinesOf, ParseItemLine, Initiative, SectionOf, TasksOf, FencedText, IsId, FenceOf,
         NeutraliseLine, Lookup, FormatItem, KeepField, Get, SafeFields, KeyKept, ReadFields, Defang, LineOn,
         ApplyThread;
    ChangedLine(p, c, id);
    if MergeOn(p, c, id).Some? {
      var l := LineOn(p, id).value;
      var was := ParseItemLine(l).value;
      TasksPlain(c.thread);
      var now := Lookup(TasksOf(c.thread), id).value;
      KeptIff(was, now, key);
      LineRead(l);
      GetRead(was.fields, key);
      DefangKeepsMarkerFree(Get(was.fields, key).value);
    }
  }

  /** The value is there before and after every change. */
  predicate Throughout(p: Page, cs: seq<Change>, id: string, key: string, value: string)
    decreases |cs|
  {
    ValueOn(p, id, key) == Some(value) && (cs == [] || Throughout(Changed(p, cs[0]), cs[1..], id, key, value))
  }

  predicate SafeRun(p: Page, cs: seq<Change>, id: string)
    decreases |cs|
  {
    cs == [] || (SafeOn(p, cs[0], id) && SafeRun(Changed(p, cs[0]), cs[1..], id))
  }

  predicate KeptRun(p: Page, cs: seq<Change>, id: string, key: string)
    requires SafeRun(p, cs, id)
    decreases |cs|
  {
    cs == [] || (KeptOn(p, cs[0], id, key) && KeptRun(Changed(p, cs[0]), cs[1..], id, key))
  }

  /** Through any run an owner or due date of the page is there all along exactly if
      at no transfer the thread's text swallows it, or at least spells it itself. */
  lemma {:induction false} FieldsStickIff(p: Page, cs: seq<Change>, id: string, key: string)
    requires Initiative(p.pageType) && NeutralOn(p, id) && SafeRun(p, cs, id) && (key == "owner" || key == "due")
    requires ValueOn(p, id, key).Some?
    ensures Throughout(p, cs, id, key, ValueOn(p, id, key).value) <==> KeptRun(p, cs, id, key)
    decreases |cs|
  {
    hide ValueOn, Changed, Initiative, NeutralOn, SafeOn, KeptOn;
    if cs != [] {
      ChangedValueIff(p, cs[0], id, key);
      ChangedKeepsLine(p, cs[0], id);
      if KeptOn(p, cs[0], id, key) { FieldsStickIff(Changed(p, cs[0]), cs[1..], id, key); }
      ThroughoutHas(Changed(p, cs[0]), cs[1..], id, key, ValueOn(p, id, key).value);
    }
  }

  lemma ThroughoutHas(p: Page, cs: seq<Change>, id: string, key: string, value: string)
    ensures Throughout(p, cs, id, key, value) ==> ValueOn(p, id, key) == Some(value)
  {}

  lemma ChangedKeepsLine(p: Page, c: Change, id: string)
    requires Initiative(p.pageType) && NeutralOn(p, id)
    ensures Changed(p, c).pageType == p.pageType && NeutralOn(Changed(p, c), id)
  {
    ChangedLine(p, c, id);
  }

  /** The tasks of this id, in each thread of the run, are clean. */
  predicate CleanRun(cs: seq<Change>, id: string) {
    forall c | c in cs && c.Transfer? :: forall it | it in TasksOf(c.thread) && it.blockId == id :: Clean(it)
  }

  lemma ChangedSticks(p: Page, c: Change, id: string)
    requires Initiative(p.pageType) && NeutralOn(p, id) && CleanHeld(TaskOn(p, id).value)
    requires c.Transfer? ==> forall it | it in TasksOf(c.thread) && it.blockId == id :: Clean(it)
    ensures TaskOn(Changed(p, c), id).Some? && CleanHeld(TaskOn(Changed(p, c), id).value)
    ensures Sticky(TaskOn(p, id).value, TaskOn(Changed(p, c), id).value)
  {
    hide Changed, LineOf, LinesOf, ParseItemLine, Initiative, TasksOf, FenceOf, NeutraliseLine, Lookup, FormatItem,
         KeepField, Get, LineOn, ApplyThread, Clean, CleanHeld, TaskSection, NeutralLine;
    ChangedLine(p, c, id);
    var was := TaskOn(p, id).value;
    if MergeOn(p, c, id).Some? {
      var now := Lookup(TasksOf(c.thread), id).value;
      MergeClean(was, now);
      CleanReads(MergeItem(was, now));
      CleanHolds(MergeItem(was, now));
      MergeMeans(was, now);
    }
  }

  lemma TaskThere(p: Page, id: string)
    requires NeutralOn(p, id)
    ensures TaskOn(p, id).Some?
  {
    hide LineOf, NeutralLine, ParseItemLine, LinesOf;
  }

  /** Clean tasks lose neither tick nor owner nor due date over any run. */
  lemma {:induction false} CleanSticks(p: Page, cs: seq<Change>, id: string)
    requires Initiative(p.pageType) && NeutralOn(p, id) && CleanHeld(TaskOn(p, id).value) && CleanRun(cs, id)
    ensures var now := TaskOn(RunChanges(p, cs), id); now.Some? && Sticky(TaskOn(p, id).value, now.value)
    decreases |cs|
  {
    hide TaskOn, Changed, Initiative, NeutralOn, CleanHeld, TasksOf, Clean, Get;
    TaskThere(p, id);
    if cs != [] {
      assert cs[0] in cs && forall c | c in cs[1..] :: c in cs;
      ChangedSticks(p, cs[0], id);
      ChangedKeepsLine(p, cs[0], id);
      CleanSticks(Changed(p, cs[0]), cs[1..], id);
    }
  }

  // ---------------------------------------------------------------------
  // Through the page's text
  // ---------------------------------------------------------------------

  /** A handler is an edit, so the page stays one that reads back. */
  lemma HandleTidy(p: Page, kind: string, items: seq<Item>, loader: Loader)
    requires Handle(p, kind, items).Applied? && TidyPage(p) && loader(p.raw) == Some(p.pageType)
    ensures var q := Handle(p, kind, items).page; TidyPage(q) && q.raw == p.raw && q.pageType == p.pageType
  {
    hide TidyPage, SectionOf, UpsertItems, AppendItems, OwnerOf, Rewrite;
    if TitleFor(p.pageType, kind).Some? {
      var t := TitleFor(p.pageType, kind).value;
      var e := if kind == "task" then EditRuns.UpsertEdit(t, items, MergeItem)
          else EditRuns.AppendEdit(t, MapAll(kind, items));
      EditRuns.ApplyTidy(p, e, loader);
      var changed, o, body := HandleRewrites(p, kind, items);
      if changed { RewriteGets(p, t, o, body); }
    }
  }

  lemma {:induction false} KindsTidy(p: Page, kinds: seq<string>, items: seq<Item>, loader: Loader)
    requires HandleKinds(p, kinds, items).Applied? && TidyPage(p) && loader(p.raw) == Some(p.pageType)
    ensures var q := HandleKinds(p, kinds, items).page; TidyPage(q) && q.raw == p.raw && q.pageType == p.pageType
    decreases |kinds|
  {
    hide TidyPage, Handle, OfKind;
    if kinds != [] {
      HandleTidy(p, kinds[0], OfKind(items, kinds[0]), loader);
      KindsTidy(Handle(p, kinds[0], OfKind(items, kinds[0])).page, kinds[1..], items, loader);
    }
  }

  /** Parsed, changed and dumped; None where it raises. */
  function ApplyText(t: string, thread: Page, loader: Loader): Option<string> {
    match ParsePage(t, loader)
    case Parsed(p) =>
      (match ApplyThread(p, thread)
       case Applied(q) => Some(DumpPage(q))
       case Failed => None)
    case _ => None
  }

  /** Applying the same thread to the text that was written changes no byte, exactly
      if each kind of the thread's items is repeatable. */
  lemma ApplyTextTwiceIff(t: string, thread: Page, loader: Loader)
    requires ParsePage(t, loader).Parsed? && TailOk(ParsePage(t, loader).page)
    requires var p := ParsePage(t, loader).page; Initiative(p.pageType) && ApplyThread(p, thread).Applied?
    ensures ApplyText(t, thread, loader).Some?
    ensures ApplyText(ApplyText(t, thread, loader).value, thread, loader) == ApplyText(t, thread, loader)
            <==> ThreadRepeatable(ParsePage(t, loader).page, thread)
  {
    hide TidyPage, WellFormedRest, GoodRaw, ParsePage, DumpPage, TailOk, HandleKinds, ThreadRepeatable, Initiative,
         FencedContent;
    var p := ParsePage(t, loader).page;
    ParsedPageWellFormed(t, loader);
    TidyIffTailOk(p);
    ThreadTidy(p, thread, loader);
    var q := ApplyThread(p, thread).page;
    ApplyThreadTwiceIff(p, thread);
    ReadsBack(q, loader);
    if ApplyThread(q, thread).Applied? {
      ThreadTidy(q, thread, loader);
      ReadsBack(ApplyThread(q, thread).page, loader);
    }
  }

  lemma ReadsBack(p: Page, loader: Loader)
    requires TidyPage(p) && loader(p.raw) == Some(p.pageType)
    ensures ParsePage(DumpPage(p), loader) == Parsed(p)
  {
    hide TidyPage, WellFormedRest, GoodRaw, ParsePage, DumpPage;
    TidyWellFormed(p);
    ParseAfterDump(p, loader);
  }

  lemma ThreadTidy(p: Page, thread: Page, loader: Loader)
    requires ApplyThread(p, thread).Applied? && TidyPage(p) && loader(p.raw) == Some(p.pageType)
    ensures var q := ApplyThread(p, thread).page; TidyPage(q) && q.raw == p.raw && q.pageType == p.pageType
  {
    hide TidyPage, HandleKinds, FencedContent, Kinds;
    KindsTidy(p, Kinds(ThreadItems(thread), []), ThreadItems(thread), loader);
  }

  lemma ChangedTidy(p: Page, c: Change, loader: Loader)
    requires TidyPage(p) && loader(p.raw) == Some(p.pageType)
    ensures var q := Changed(p, c); TidyPage(q) && q.raw == p.raw && q.pageType == p.pageType
  {
    hide TidyPage, ApplyThread, OwnerOf, WithSection;
    match c
    case Transfer(thread) => if ApplyThread(p, thread).Applied? { ThreadTidy(p, thread, loader); }
    case Status(text) =>
      EditRuns.ApplyTidy(p, EditRuns.FencedEdit("Status", text), loader);
      if SetFenced(p, "Status", text).Ok? {
        var o := OwnerOf(p.pageType, "Status").value;
        RewriteGets(p, "Status", o, PutFenced(BodyOf(p, "Status", o), OwnerText(o), Neutralise(text)));
      }
  }

  /** After any number of changes the page's text parses to the page. */
  lemma {:induction false} RunReadsBack(p: Page, cs: seq<Change>, loader: Loader)
    requires TidyPage(p) && loader(p.raw) == Some(p.pageType)
    ensures var q := RunChanges(p, cs); TidyPage(q) && ParsePage(DumpPage(q), loader) == Parsed(q)
    decreases |cs|
  {
    hide TidyPage, Changed, ParsePage, DumpPage;
    if cs == [] {
      ReadsBack(p, loader);
    } else {
      ChangedTidy(p, cs[0], loader);
      RunReadsBack(Changed(p, cs[0]), cs[1..], loader);
    }
  }
}
