/** Any sequence of edits, with arbitrary text: what stays true of the page. */
module EditRuns {
  import opened Options
  import opened Text
  import opened PageFormat
  import opened Schema
  import opened Neutral
  import opened Fence
  import opened Editor
  import opened Tidy
  import opened Frontmatter
  import opened Items
  import opened ItemText
  import opened Sections
  import opened SharedText
  import opened ItemEdits
  import opened Upserts
  import opened UpsertTwice

  datatype Edit =
    | FencedEdit(title: string, text: string)
    | LinesEdit(title: string, lines: seq<string>, allowHuman: bool)
    | AppendEdit(title: string, items: seq<Item>)
    | UpsertEdit(title: string, items: seq<Item>, merge: Merge)
    | TitleEdit(name: string, readsBack: bool)

  function Attempt(p: Page, e: Edit, loader: Loader): Result<Page> {
    match e
    case FencedEdit(t, text) => SetFenced(p, t, text)
    case LinesEdit(t, lines, allowHuman) => AppendLines(p, t, lines, allowHuman)
    case AppendEdit(t, items) => AppendItems(p, t, items)
    case UpsertEdit(t, items, merge) => UpsertItems(p, t, items, merge)
    case TitleEdit(name, readsBack) => SetTitle(p, name, YamlText(OneLine(name), readsBack), loader)
  }

  /** A refused edit leaves the page as it was. */
  function Apply(p: Page, e: Edit, loader: Loader): Page {
    match Attempt(p, e, loader)
    case Ok(q) => q
    case Err(_) => p
  }

  function Run(p: Page, es: seq<Edit>, loader: Loader): Page
    decreases |es|
  {
    if es == [] then p else Run(Apply(p, es[0], loader), es[1..], loader)
  }

  // ---------------------------------------------------------------------
  // Every section edit rewrites one section's body
  // ---------------------------------------------------------------------

  /** What an edit may make of the body of a section of owner `o`. */
  ghost predicate Allowed(e: Edit, o: Owner, was: string, now: string) {
    match o
    case Human => e.LinesEdit? && e.allowHuman && Above(was, now)
    case Shared => e.LinesEdit? && Above(was, now)
    case Append =>
      exists addition :: Quiet(addition) && Unfenced(addition) && now == GrowFenced(was, "append", addition)
    case _ => true
  }

  /** An edit of a section changes nothing, or rewrites that section's body. */
  lemma EditRewrites(p: Page, e: Edit, loader: Loader) returns (changed: bool, o: Owner, body: string)
    requires !e.TitleEdit?
    ensures !changed ==> Apply(p, e, loader) == p
    ensures changed ==> OwnerOf(p.pageType, e.title) == Some(o) && Apply(p, e, loader) == Rewrite(p, e.title, o, body)
    ensures changed ==> Allowed(e, o, BodyOf(p, e.title, o), body)
    ensures changed && TidyPage(p) ==> TidyPage(Apply(p, e, loader))
  {
    hide TidyPage, OwnerOf, WithSection, GrowFenced, PutFenced, Neutralise, Quiet, Unfenced, Join, StripLines,
         OutLines, FormatAll, LinesOf, Fresh, SharedBody, Inner, SplitFence, Rewrite, BodyOf, Above;
    changed, o, body := false, Human, "";
    match e {
      case FencedEdit(t, text) =>
        if Require(p, t, {Managed, Derived}).Ok? {
          changed, o := true, OwnerOf(p.pageType, t).value;
          body := PutRewrites(p, t, o, text);
        }
      case LinesEdit(t, lines, allowHuman) =>
        changed, o, body := LinesRewrite(p, t, lines, allowHuman);
      case AppendEdit(t, items) =>
        if Require(p, t, {Append}).Ok? && Fresh(p, t, items) != [] {
          changed, o, body := LinesRewrite(p, t, FormatAll(Fresh(p, t, items)), false);
        }
      case UpsertEdit(t, items, merge) =>
        if Require(p, t, {Managed}).Ok? {
          changed, o := true, Managed;
          body := UpsertBody(BodyOf(p, t, Managed), items, merge);
          UpsertIsPut(p, t, items, merge);
          PutSectionTidyIf(p, t, Managed, UpsertText(p, t, items, merge));
        }
    }
  }

  lemma PutSectionTidyIf(p: Page, title: string, o: Owner, text: string)
    requires OwnerOf(p.pageType, title) == Some(o)
    ensures TidyPage(p) ==> TidyPage(PutSection(p, title, o, text))
  {
    hide TidyPage, OwnerOf, PutSection;
    if TidyPage(p) { PutSectionTidy(p, title, o, text); }
  }

  lemma PutRewrites(p: Page, title: string, o: Owner, text: string) returns (body: string)
    requires OwnerOf(p.pageType, title) == Some(o)
    ensures PutSection(p, title, o, text) == Rewrite(p, title, o, body)
    ensures TidyPage(p) ==> TidyPage(PutSection(p, title, o, text))
  {
    hide TidyPage, OwnerOf, WithSection, PutFenced, Neutralise;
    body := PutFenced(BodyOf(p, title, o), OwnerText(o), Neutralise(text));
    PutSectionTidyIf(p, title, o, text);
  }

  function UpsertText(p: Page, title: string, items: seq<Item>, merge: Merge): string {
    Join("\n", OutLines(FencedLines(p, title), items, merge))
  }

  lemma UpsertIsPut(p: Page, title: string, items: seq<Item>, merge: Merge)
    ensures Rewrite(p, title, Managed, UpsertBody(BodyOf(p, title, Managed), items, merge))
            == PutSection(p, title, Managed, UpsertText(p, title, items, merge))
  {
    hide OwnerOf, WithSection, Neutralise, Join, OutLines, LinesOf, Inner, SplitFence;
  }

  lemma LinesRewrite(p: Page, title: string, lines: seq<string>, allowHuman: bool)
      returns (changed: bool, o: Owner, body: string)
    ensures var r := AppendLines(p, title, lines, allowHuman); var q := if r.Ok? then r.value else p;
            && (!changed ==> q == p)
            && (changed ==> OwnerOf(p.pageType, title) == Some(o) && q == Rewrite(p, title, o, body))
            && (changed ==> Allowed(LinesEdit(title, lines, allowHuman), o, BodyOf(p, title, o), body))
            && (changed ==> o != Human ==> o == Append || o == Shared)
            && (changed && TidyPage(p) ==> TidyPage(q))
  {
    hide TidyPage, OwnerOf, WithSection, GrowFenced, Neutralise, Quiet, Unfenced, Join, StripLines, SharedBody, Above;
    changed, o, body := false, Human, "";
    if AppendLines(p, title, lines, allowHuman).Ok? && lines != [] {
      changed, o := true, OwnerOf(p.pageType, title).value;
      var text := Join("\n", StripLines(lines));
      var addition := Neutralise(text);
      NeutraliseSafe(text);
      var (q, i) := WithSection(p, title, o);
      body := if o == Append then GrowFenced(q.sections[i].body, "append", addition)
              else SharedBody(q.sections[i].body, addition, i == |q.sections| - 1);
      AboveGrown(q.sections[i].body, lines, i == |q.sections| - 1);
      if TidyPage(p) { GrowSectionTidy(p, title, o, addition); }
    }
  }

  // ---------------------------------------------------------------------
  // The page stays one that reads back
  // ---------------------------------------------------------------------

  lemma ApplyTidy(p: Page, e: Edit, loader: Loader)
    requires TidyPage(p) && loader(p.raw).Some?
    ensures var q := Apply(p, e, loader); TidyPage(q) && loader(q.raw).Some? && q.pageType == p.pageType
  {
    hide TidyPage, SetTitle, YamlText, OneLine, Allowed, Rewrite, OwnerOf;
    match e {
      case TitleEdit(name, readsBack) =>
        YamlTextNoNewline(OneLine(name), readsBack);
        SetTitleTidy(p, name, YamlText(OneLine(name), readsBack), loader);
      case _ =>
        var changed, o, body := EditRewrites(p, e, loader);
        if changed { RewriteGets(p, e.title, o, body); }
    }
  }

  lemma {:induction false} RunTidy(p: Page, es: seq<Edit>, loader: Loader)
    requires TidyPage(p) && loader(p.raw).Some?
    ensures var q := Run(p, es, loader); TidyPage(q) && loader(q.raw).Some? && q.pageType == p.pageType
    decreases |es|
  {
    hide TidyPage, Apply;
    if es != [] {
      ApplyTidy(p, es[0], loader);
      RunTidy(Apply(p, es[0], loader), es[1..], loader);
    }
  }

  /** Whatever edits are made with whatever text, parsing the dump gives back
      exactly the edited page's frontmatter block, preamble and sections. */
  lemma RunReadsBack(p: Page, es: seq<Edit>, loader: Loader)
    requires TidyPage(p) && loader(p.raw).Some?
    ensures var q := Run(p, es, loader);
            loader(q.raw).Some? && ParsePage(DumpPage(q), loader) == Parsed(q.(pageType := loader(q.raw).value))
  {
    hide TidyPage, Run, WellFormedRest, GoodRaw, ParsePage, DumpPage;
    RunTidy(p, es, loader);
    var q := Run(p, es, loader);
    TidyWellFormed(q);
    TypeAside(q, loader(q.raw).value);
    ParseAfterDump(q.(pageType := loader(q.raw).value), loader);
  }

  /** So for every text that parses, unless its last line is an unterminated
      header: after any edits, dumping and parsing give back the edited page. */
  lemma TextReadsBack(t: string, es: seq<Edit>, loader: Loader)
    requires ParsePage(t, loader).Parsed? && TailOk(ParsePage(t, loader).page)
    ensures var q := Run(ParsePage(t, loader).page, es, loader);
            loader(q.raw).Some? && ParsePage(DumpPage(q), loader) == Parsed(q.(pageType := loader(q.raw).value))
  {
    hide TidyPage, Run, WellFormedRest, GoodRaw, ParsePage, DumpPage, TailOk;
    ParsedPageWellFormed(t, loader);
    TidyIffTailOk(ParsePage(t, loader).page);
    RunReadsBack(ParsePage(t, loader).page, es, loader);
  }

  /** On a page that ends in such a line, the first section an edit adds turns the
      line into a section header: the page no longer reads back. */
  lemma HeaderTailBreaks(p: Page, title: string, text: string)
    requires p.sections == [] && HeaderFree(p.preamble) && HeaderTail(p.preamble)
    requires Require(p, title, {Managed, Derived}).Ok?
    ensures var q := SetFenced(p, title, text).value;
            !WellFormedRest(q) && ParseRest(DumpRest(q)) != (q.preamble, q.sections)
  {
    hide Canonical, OwnerOf, HeaderFree, ParseRest, PutFenced, FreshSection, Rank, Neutralise, WellFormedSections;
    assert SectionIndex(p.pageType, [], Canonical(p.pageType, title), 0) == 0;
    assert LaterIndex(p.pageType, [], Rank(p.pageType, title), 0) == 0;
    TailIsOpen(p.preamble);
    TerminatingTail(p.preamble);
    var q := SetFenced(p, title, text).value;
    assert q.preamble == p.preamble + "\n";
    RoundTripIffWellFormed(q);
  }

  lemma TailIsOpen(t: string)
    requires HeaderTail(t)
    ensures !Closed(t)
  {
    var i :| 0 <= i < |t| && HeaderLike(t, i) && LineEnd(t, i) == |t|;
    LineEndClear(t, i);
  }

  lemma TypeAside(p: Page, pageType: string)
    ensures DumpPage(p.(pageType := pageType)) == DumpPage(p)
    ensures WellFormedRest(p.(pageType := pageType)) == WellFormedRest(p)
  {}

  // ---------------------------------------------------------------------
  // No edit opens a section by its content
  // ---------------------------------------------------------------------

  predicate SchemaSection(pageType: string, s: Section) {
    Known(pageType, s) && s.title == Canonical(pageType, s.title) && s.header == "## " + s.title + "\n"
  }

  predicate SameHead(s: Section, t: Section) { s.title == t.title && s.header == t.header }

  /** `ts` is `ss` with sections of the schema added. */
  predicate Extends(pageType: string, ss: seq<Section>, ts: seq<Section>) {
    if ts == [] then ss == []
    else (ss != [] && SameHead(ss[0], ts[0]) && Extends(pageType, ss[1..], ts[1..]))
         || (SchemaSection(pageType, ts[0]) && Extends(pageType, ss, ts[1..]))
  }

  lemma {:induction false} ExtendsSame(pageType: string, ss: seq<Section>, ts: seq<Section>)
    requires |ss| == |ts| && forall i | 0 <= i < |ss| :: SameHead(ss[i], ts[i])
    ensures Extends(pageType, ss, ts)
  {
    hide SchemaSection;
    if ss != [] { ExtendsSame(pageType, ss[1..], ts[1..]); }
  }

  lemma {:induction false} ExtendsTrans(pageType: string, a: seq<Section>, b: seq<Section>, c: seq<Section>)
    requires Extends(pageType, a, b) && Extends(pageType, b, c)
    ensures Extends(pageType, a, c)
    decreases |c|
  {
    hide SchemaSection;
    if c != [] {
      if b != [] && SameHead(b[0], c[0]) && Extends(pageType, b[1..], c[1..]) {
        SchemaHead(pageType, b[0], c[0]);
        if a != [] && SameHead(a[0], b[0]) && Extends(pageType, a[1..], b[1..]) {
          ExtendsTrans(pageType, a[1..], b[1..], c[1..]);
        } else {
          ExtendsTrans(pageType, a, b[1..], c[1..]);
        }
      } else {
        ExtendsTrans(pageType, a, b, c[1..]);
      }
    }
  }

  lemma SchemaHead(pageType: string, s: Section, t: Section)
    requires SameHead(s, t)
    ensures SchemaSection(pageType, s) == SchemaSection(pageType, t)
  {}

  lemma {:induction false} ExtendsInsert(pageType: string, ss: seq<Section>, at: nat, s: Section, ts: seq<Section>)
    requires SchemaSection(pageType, s) && at <= |ss| && |ts| == |ss| + 1 && ts[at] == s
    requires forall k | 0 <= k < at :: SameHead(ss[k], ts[k])
    requires forall k | at < k < |ts| :: SameHead(ss[k - 1], ts[k])
    ensures Extends(pageType, ss, ts)
    decreases at
  {
    hide SchemaSection;
    if at == 0 {
      ExtendsSame(pageType, ss, ts[1..]);
    } else {
      assert SameHead(ss[0], ts[0]);
      ExtendsInsert(pageType, ss[1..], at - 1, s, ts[1..]);
    }
  }

  lemma RewriteExtends(p: Page, title: string, o: Owner, body: string)
    requires OwnerOf(p.pageType, title) == Some(o)
    ensures Extends(p.pageType, p.sections, Rewrite(p, title, o, body).sections)
  {
    hide Canonical, SectionIndex, LaterIndex, InsertSection, SkeletonBody, Extends, SectionOwners;
    var c := Canonical(p.pageType, title);
    var q := Rewrite(p, title, o, body);
    CanonicalIdempotent(p.pageType, title);
    var (w, i) := WithSection(p, title, o);
    if SectionIndex(p.pageType, p.sections, c, 0) == |p.sections| {
      var s := FreshSection(c, o);
      assert SchemaSection(p.pageType, s);
      InsertedAt(p, i, s, i);
      forall k | 0 <= k < i ensures SameHead(p.sections[k], w.sections[k]) { InsertedAt(p, i, s, k); }
      forall k | i < k < |w.sections| ensures SameHead(p.sections[k - 1], w.sections[k]) { InsertedAt(p, i, s, k); }
      ExtendsInsert(p.pageType, p.sections, i, q.sections[i], q.sections);
    } else {
      ExtendsSame(p.pageType, p.sections, q.sections);
    }
  }

  /** The section list after any edits is the old one with schema sections put
      in, in schema order if it was in schema order. */
  lemma {:induction false} RunSections(p: Page, es: seq<Edit>, loader: Loader)
    ensures var q := Run(p, es, loader);
            && q.pageType == p.pageType && Extends(p.pageType, p.sections, q.sections)
            && (SchemaOrdered(p.pageType, p.sections) ==> SchemaOrdered(p.pageType, q.sections))
    decreases |es|
  {
    hide Extends, SchemaOrdered, Apply;
    if es == [] {
      ExtendsSame(p.pageType, p.sections, p.sections);
    } else {
      var q := Apply(p, es[0], loader);
      ApplySections(p, es[0], loader);
      RunSections(q, es[1..], loader);
      ExtendsTrans(p.pageType, p.sections, q.sections, Run(p, es, loader).sections);
    }
  }

  lemma ApplySections(p: Page, e: Edit, loader: Loader)
    ensures var q := Apply(p, e, loader);
            && q.pageType == p.pageType && Extends(p.pageType, p.sections, q.sections)
            && (SchemaOrdered(p.pageType, p.sections) ==> SchemaOrdered(p.pageType, q.sections))
  {
    hide Extends, SchemaOrdered, SetTitle, Rewrite, OwnerOf, Allowed;
    match e {
      case TitleEdit(name, readsBack) =>
        TitleKeepsSections(p, name, YamlText(OneLine(name), readsBack), loader);
        ExtendsSame(p.pageType, p.sections, p.sections);
      case _ =>
        var changed, o, body := EditRewrites(p, e, loader);
        if changed {
          RewriteGets(p, e.title, o, body);
          RewriteExtends(p, e.title, o, body);
          if SchemaOrdered(p.pageType, p.sections) { RewriteOrdered(p, e.title, o, body); }
        } else {
          ExtendsSame(p.pageType, p.sections, p.sections);
        }
    }
  }

  lemma TitleKeepsSections(p: Page, name: string, value: string, loader: Loader)
    ensures match SetTitle(p, name, value, loader)
            case Ok(q) => q.sections == p.sections && q.pageType == p.pageType
            case Err(_) => true
  {
    hide PatchRaw, PatchH1, ParsePage, DumpPage;
  }

  // ---------------------------------------------------------------------
  // Sections nobody may change
  // ---------------------------------------------------------------------

  /** The edit is aimed at the section `title` names. */
  predicate Aims(p: Page, e: Edit, title: string) {
    !e.TitleEdit? && Canonical(p.pageType, e.title) == Canonical(p.pageType, title)
  }

  lemma SameRefl(s: Option<Section>)
    ensures SameSection(s, s)
  {}

  lemma SameTrans(r: Option<Section>, s: Option<Section>, t: Option<Section>)
    requires SameSection(r, s) && SameSection(s, t)
    ensures SameSection(r, t)
  {}

  lemma ApplyOthers(p: Page, e: Edit, loader: Loader, title: string)
    requires Aims(p, e, title) ==> OwnerOf(p.pageType, title) == Some(Human) && !(e.LinesEdit? && e.allowHuman)
    ensures SameSection(SectionOf(p, title), SectionOf(Apply(p, e, loader), title))
    ensures Apply(p, e, loader).pageType == p.pageType
  {
    hide SetTitle, Rewrite, SectionIndex, SameSection;
    match e {
      case TitleEdit(name, readsBack) =>
        TitleKeepsSections(p, name, YamlText(OneLine(name), readsBack), loader);
        SameRefl(SectionOf(p, title));
      case _ =>
        var changed, o, body := EditRewrites(p, e, loader);
        hide Canonical, SectionOwners;
        if changed {
          RewriteGets(p, e.title, o, body);
          RewriteOthers(p, e.title, o, body, title);
        } else {
          SameRefl(SectionOf(p, title));
        }
    }
  }

  /** A `human` section keeps its text through any edits that are not confirmed
      proposals, but for a final newline when a section is inserted after it. */
  lemma {:induction false} HumanKept(p: Page, es: seq<Edit>, loader: Loader, title: string)
    requires OwnerOf(p.pageType, title) == Some(Human)
    requires forall e | e in es :: !(e.LinesEdit? && e.allowHuman)
    ensures SameSection(SectionOf(p, title), SectionOf(Run(p, es, loader), title))
    decreases |es|
  {
    hide SectionOf, OwnerOf, Apply, SameSection, Canonical;
    if es == [] {
      SameRefl(SectionOf(p, title));
    } else {
      var q := Apply(p, es[0], loader);
      assert es[0] in es;
      assert forall e | e in es[1..] :: e in es;
      ApplyOthers(p, es[0], loader, title);
      HumanKept(q, es[1..], loader, title);
      SameTrans(SectionOf(p, title), SectionOf(q, title), SectionOf(Run(p, es, loader), title));
    }
  }

  // ---------------------------------------------------------------------
  // Append-only
  // ---------------------------------------------------------------------

  lemma {:induction false} FindCloseExtend(x: string, y: string)
    requires FindClose(x) < |x|
    ensures FindClose(x + y) == FindClose(x)
  {
    hide AtClose;
    FindCloseHit(x);
    if AtClose(x) {
      CloseExtends(x, y);
    } else {
      assert (x + y)[1..] == x[1..] + y;
      FindCloseExtend(x[1..], y);
      if AtClose(x + y) { CloseInside(x, y, FindClose(x)); }
    }
  }

  lemma CloseExtends(x: string, y: string)
    requires AtClose(x)
    ensures AtClose(x + y)
  {}

  lemma CloseInside(x: string, y: string, k: nat)
    requires 0 < k < |x| && AtClose(x[k..]) && AtClose(x + y)
    ensures AtClose(x)
  {}

  /** The marker's length does not see what follows a longer text. */
  lemma OpenLenShared(body: string, t: string, o: nat)
    requires body <= t && o <= |body| && CoreLen(body[o..]) == CoreLen(t[o..]) > 0 && o + OpenLen(body[o..]) < |body|
    ensures OpenLen(t[o..]) == OpenLen(body[o..])
  {
    hide CoreLen;
    var n := CoreLen(body[o..]);
    OpenLenIs(body[o..], n);
    OpenLenIs(t[o..], n);
    assert body[o..][n] == body[o + n] == t[o + n] == t[o..][n];
  }

  lemma NewlineSlices(body: string, k: nat, e: nat)
    requires k <= |body| && e <= |body|
    ensures (body + "\n")[..k] == body[..k] && (body + "\n")[e..] == body[e..] + "\n"
  {}

  /** A final newline changes nothing inside a complete fence. */
  lemma CompleteNewline(body: string)
    requires FenceOf(body).Complete?
    ensures FenceOf(body + "\n") == FenceOf(body)
  {
    var Complete(e, c) := FenceOf(body);
    var t := body + "\n";
    FenceParts(body);
    FindOpenHit(body);
    hide FenceOf, FindOpen, FindClose, CoreLen, OpenLen;
    var o := FindOpen(body);
    var n := CoreLen(body[o..]);
    NewlineSlices(body, o + n, e);
    FindOpenShared(body, t);
    OpenLenShared(body, t, o);
    FindCloseExtend(body[e..], "\n");
    FenceOfIs(t, e, c);
  }

  lemma OrphanNewline(body: string)
    requires FenceOf(body).Orphan? && !Closed(body)
    ensures FencedText(body + "\n") == FencedText(body)
  {
    hide FindOpen, FindClose, CoreLen, OpenLen, StripNL, OrphanStart;
    var e := FenceOf(body).from;
    var t := body + "\n";
    assert t[..|body|] == body;
    OrphanReopens(body, t);
    var s := OrphanStart(body);
    OrphanRest(body);
    assert FindClose(t[s..]) == |t[s..]|;
    OrphanIs(t, s);
    if e == |body| {
      assert t[s..] == "" && body[e..] == "";
    } else {
      assert t[s..] == body[e..] + "\n";
      StripNLAppend(body[e..]);
    }
  }

  lemma OrphanRest(body: string)
    requires FenceOf(body).Orphan? && !Closed(body)
    ensures var s := OrphanStart(body);
            s <= |body + "\n"| && s == (if FenceOf(body).from == |body| then |body| + 1 else FenceOf(body).from)
    ensures FindClose((body + "\n")[OrphanStart(body)..]) == |(body + "\n")[OrphanStart(body)..]|
  {
    hide FindOpen, FindClose, CoreLen, OpenLen;
    var e := FenceOf(body).from;
    if e < |body| {
      assert (body + "\n")[e..] == body[e..] + "\n";
      NoCloseNewline(body[e..]);
    } else {
      assert (body + "\n")[e + 1..] == "" && FindClose("") == 0;
    }
  }

  lemma OrphanIs(t: string, e: nat)
    requires FindOpen(t) < |t| && e == FindOpen(t) + OpenLen(t[FindOpen(t)..]) && e <= |t|
    requires FindClose(t[e..]) == |t[e..]|
    ensures FenceOf(t) == Orphan(e)
  {
    hide FindOpen, FindClose, OpenLen;
  }

  lemma FencedTextNewline(body: string)
    ensures FencedText(CloseLine(body)) == FencedText(body)
  {
    hide FindOpen, FindClose, CoreLen, OpenLen, StripNL;
    if !EndsNL(body) {
      match FenceOf(body)
      case NoFence => NoFenceNewline(body);
      case Orphan(_) => UnclosedNewline(body);
      case Complete(e, c) =>
        CompleteNewline(body);
        assert (body + "\n")[e..c] == body[e..c];
    }
  }

  lemma UnclosedNewline(body: string)
    requires FenceOf(body).Orphan? && !EndsNL(body)
    ensures FencedText(body + "\n") == FencedText(body)
  {
    hide FenceOf, FencedText;
    EmptyNoFence();
    OrphanNewline(body);
  }

  lemma EmptyNoFence()
    ensures FenceOf("") == NoFence
  {}

  lemma NoFenceNewline(body: string)
    requires FenceOf(body).NoFence?
    ensures FenceOf(body + "\n").NoFence?
  {
    FindOpenNewline(body);
  }

  /** The fenced text of an append section: what readers are shown. */
  lemma ApplyAppends(p: Page, e: Edit, loader: Loader, title: string)
    requires OwnerOf(p.pageType, title) == Some(Append)
    ensures FencedContent(p, title) <= FencedContent(Apply(p, e, loader), title)
  {
    hide SetTitle, SectionOf, FencedText, SameSection, OwnerOf, Canonical;
    if Aims(p, e, title) {
      AppendGrows(p, e, loader, title);
    } else {
      ApplyOthers(p, e, loader, title);
      SameShows(SectionOf(p, title), SectionOf(Apply(p, e, loader), title));
    }
  }

  lemma SameShows(s: Option<Section>, t: Option<Section>)
    requires SameSection(s, t)
    ensures s.None? == t.None?
    ensures s.Some? ==> FencedText(t.value.body) == FencedText(s.value.body)
  {
    hide FencedText, CloseLine;
    if s.Some? { FencedTextNewline(s.value.body); }
  }

  lemma AppendGrows(p: Page, e: Edit, loader: Loader, title: string)
    requires OwnerOf(p.pageType, title) == Some(Append) && Aims(p, e, title)
    ensures FencedContent(p, title) <= FencedContent(Apply(p, e, loader), title)
  {
    hide FencedText, Rewrite, BodyOf, GrowFenced, SectionIndex;
    var changed, o, body := EditRewrites(p, e, loader);
    if changed {
      RewriteGets(p, e.title, o, body);
      BodyWas(p, e.title);
      hide Canonical, SectionOwners;
      var was := BodyOf(p, e.title, o);
      var addition :| Quiet(addition) && Unfenced(addition) && body == GrowFenced(was, "append", addition);
      AppendName();
      GrowKeepsPrefix(was, "append", addition);
    }
  }

  lemma AppendName()
    ensures OwnerName("append")
  {}

  lemma BodyWas(p: Page, title: string)
    requires OwnerOf(p.pageType, title) == Some(Append)
    ensures FencedContent(p, title) == FencedText(BodyOf(p, title, Append))
  {
    hide FencedText, WithSection, SectionOf, OwnerOf, SkeletonBody;
    WithSectionFinds(p, title, Append);
    SkeletonShowsNothing();
  }

  lemma SkeletonShowsNothing()
    ensures FencedText(SkeletonBody(Append, "", false)) == ""
  {
    hide FenceOf;
    AppendName();
    assert Fits("") && FindOpen("") == 0;
    FreshFence("", "append", "");
    var b := "" + FenceOpen("append") + "\n";
    assert SkeletonBody(Append, "", false) == b + "" + (FENCE_CLOSE + "\n");
    assert (b + "" + (FENCE_CLOSE + "\n"))[|b|..|b|] == "";
  }

  /** Over any edits the fenced text an `append` section showed before is a
      prefix of what it shows after. */
  lemma {:induction false} RunAppends(p: Page, es: seq<Edit>, loader: Loader, title: string)
    requires OwnerOf(p.pageType, title) == Some(Append)
    ensures FencedContent(p, title) <= FencedContent(Run(p, es, loader), title)
    decreases |es|
  {
    hide OwnerOf, Apply, FencedContent, Extends, SchemaOrdered;
    if es != [] {
      ApplyAppends(p, es[0], loader, title);
      ApplySections(p, es[0], loader);
      RunAppends(Apply(p, es[0], loader), es[1..], loader, title);
    }
  }

  // ---------------------------------------------------------------------
  // Shared sections and confirmed proposals
  // ---------------------------------------------------------------------

  /** A section that is there stays, its lines before the lines added. */
  ghost predicate StaysAbove(s: Option<Section>, t: Option<Section>) {
    s.Some? ==> t.Some? && Above(s.value.body, t.value.body)
  }

  lemma ApplyAbove(p: Page, e: Edit, loader: Loader, title: string)
    requires OwnerOf(p.pageType, title) in {Some(Shared), Some(Human)}
    ensures StaysAbove(SectionOf(p, title), SectionOf(Apply(p, e, loader), title))
    ensures Apply(p, e, loader).pageType == p.pageType
  {
    hide SetTitle, SectionOf, SameSection, OwnerOf, Canonical, Above, BodyOf, Apply, Rewrite;
    if Aims(p, e, title) {
      AimedAbove(p, e, loader, title);
    } else {
      ApplyOthers(p, e, loader, title);
      SameAbove(SectionOf(p, title), SectionOf(Apply(p, e, loader), title));
    }
  }

  lemma SameAbove(s: Option<Section>, t: Option<Section>)
    requires SameSection(s, t)
    ensures StaysAbove(s, t)
  {
    hide Above, CloseLine;
    if s.Some? { AboveClosed(s.value.body); }
  }

  lemma AimedAbove(p: Page, e: Edit, loader: Loader, title: string)
    requires OwnerOf(p.pageType, title) in {Some(Shared), Some(Human)} && Aims(p, e, title)
    ensures StaysAbove(SectionOf(p, title), SectionOf(Apply(p, e, loader), title))
    ensures Apply(p, e, loader).pageType == p.pageType
  {
    hide Above, Rewrite, BodyOf, SectionIndex, WithSection, SkeletonBody, Apply;
    var changed, o, body := EditRewrites(p, e, loader);
    if changed {
      RewriteGets(p, e.title, o, body);
      WithSectionFinds(p, e.title, o);
      BodyThere(p, e.title, o);
    } else {
      SameRefl(SectionOf(p, title));
      SameAbove(SectionOf(p, title), SectionOf(p, title));
    }
  }

  lemma BodyThere(p: Page, title: string, o: Owner)
    requires OwnerOf(p.pageType, title) == Some(o)
    ensures SectionOf(p, title).Some? ==> BodyOf(p, title, o) == SectionOf(p, title).value.body
  {
    hide OwnerOf, WithSection, SectionOf, SkeletonBody;
    WithSectionFinds(p, title, o);
  }

  /** Over any edits, confirmed proposals among them, what a `shared` or `human`
      section says up to its final newlines stays first in it, in whole lines. */
  lemma {:induction false} RunShared(p: Page, es: seq<Edit>, loader: Loader, title: string, kept: string)
    requires OwnerOf(p.pageType, title) in {Some(Shared), Some(Human)}
    requires SectionOf(p, title).Some? && Kept(kept, SectionOf(p, title).value.body)
    ensures SectionOf(Run(p, es, loader), title).Some?
    ensures var now := SectionOf(Run(p, es, loader), title).value.body;
            kept == "" || Kept(kept, now) || kept + "\n" <= now
  {
    hide OwnerOf, Run, SectionOf, Kept;
    RunAbove(p, es, loader, title);
  }

  lemma {:induction false} RunAbove(p: Page, es: seq<Edit>, loader: Loader, title: string)
    requires OwnerOf(p.pageType, title) in {Some(Shared), Some(Human)}
    ensures StaysAbove(SectionOf(p, title), SectionOf(Run(p, es, loader), title))
    decreases |es|
  {
    hide OwnerOf, Apply, SectionOf, Above;
    if es == [] {
      if SectionOf(p, title).Some? { AboveClosed(SectionOf(p, title).value.body); }
    } else {
      var q := Apply(p, es[0], loader);
      ApplyAbove(p, es[0], loader, title);
      RunAbove(q, es[1..], loader, title);
      if SectionOf(p, title).Some? {
        AboveTrans(SectionOf(p, title).value.body, SectionOf(q, title).value.body,
          SectionOf(Run(p, es, loader), title).value.body);
      }
    }
  }

  // ---------------------------------------------------------------------
  // `set_fenced` as a lens on the page
  // ---------------------------------------------------------------------

  /** When the section's first opening marker is closed or there is none,
      reading gives the neutralised text without its edge newlines, a second
      write replaces the first, and no other section changes. */
  lemma SetFencedLens(p: Page, title: string, x: string, y: string, other: string)
    requires Require(p, title, {Managed, Derived}).Ok?
    requires !FenceOf(BodyOf(p, title, OwnerOf(p.pageType, title).value)).Orphan?
    ensures SetFenced(p, title, x).Ok?
    ensures var q := SetFenced(p, title, x).value;
            && FencedContent(q, title) == StripNL(Neutralise(x))
            && SetFenced(q, title, y) == SetFenced(p, title, y)
            && SetFenced(q, title, FencedContent(q, title)) == Ok(q)
            && (Canonical(p.pageType, other) != Canonical(p.pageType, title)
                ==> SameSection(SectionOf(p, other), SectionOf(q, other)))
  {
    hide FencedText, PutFenced, FenceOf, Neutralise, StripNL, SameSection, OwnerOf, SectionOf, WithSection, Unfenced,
         Canonical;
    var o := OwnerOf(p.pageType, title).value;
    var body := BodyOf(p, title, o);
    NeutraliseSafe(x);
    OwnerNames(o);
    var b1 := PutFenced(body, OwnerText(o), Neutralise(x));
    PutGet(body, OwnerText(o), Neutralise(x));
    RewriteGets(p, title, o, b1);
    LensAgain(p, title, o, body, x, y);
    LensAgain(p, title, o, body, x, StripNL(Neutralise(x)));
    PutTheSame(body, OwnerText(o), Neutralise(x));
    StrippedNeutral(x);
    RewriteTwice(p, title, o, b1, b1);
    if Canonical(p.pageType, other) != Canonical(p.pageType, title) { RewriteOthers(p, title, o, b1, other); }
  }

  lemma LensAgain(p: Page, title: string, o: Owner, body: string, x: string, y: string)
    requires OwnerOf(p.pageType, title) == Some(o) && body == BodyOf(p, title, o) && !FenceOf(body).Orphan?
    ensures PutSection(PutSection(p, title, o, x), title, o, y) == PutSection(p, title, o, y)
    ensures PutSection(PutSection(p, title, o, x), title, o, y)
            == Rewrite(p, title, o, PutFenced(PutFenced(body, OwnerText(o), Neutralise(x)), OwnerText(o),
                Neutralise(y)))
  {
    hide PutFenced, FenceOf, Neutralise, OwnerOf, WithSection, Unfenced;
    NeutraliseSafe(x);
    OwnerNames(o);
    var b1 := PutFenced(body, OwnerText(o), Neutralise(x));
    var b2 := PutFenced(b1, OwnerText(o), Neutralise(y));
    PutPut(body, OwnerText(o), Neutralise(x), Neutralise(y));
    RewriteTwice(p, title, o, b1, b2);
  }

  /** Neutral text stripped of edge newlines is neutral still. */
  lemma StrippedNeutral(x: string)
    ensures Neutralise(StripNL(Neutralise(x))) == StripNL(Neutralise(x))
  {
    hide NeutralLines, SplitNL, Neutralise;
    NeutraliseSplit(x);
    var t := Neutralise(x);
    StripParts(t);
    var a := LeadNL(t, 0);
    var b := TrailNL(t, a, |t|);
    NeutralDropFront(t, a);
    assert t[a..][..b - a] == t[a..b];
    forall k | b - a <= k < |t[a..]| ensures t[a..][k] == NL { assert t[a..][k] == t[a + k]; }
    NeutralDropBack(t[a..], b - a);
    NeutraliseKeepsIffNeutral(t[a..b]);
  }

  lemma {:induction false} NeutralDropFront(t: string, a: nat)
    requires a <= |t| && NeutralLines(SplitNL(t)) && forall k | 0 <= k < a :: t[k] == NL
    ensures NeutralLines(SplitNL(t[a..]))
    decreases a
  {
    hide NeutralLine;
    if a > 0 {
      assert t[0] == NL && LineEnd(t, 0) == 0;
      NeutralDropFront(t[1..], a - 1);
      assert t[1..][a - 1..] == t[a..];
    } else {
      assert t[0..] == t;
    }
  }

  lemma {:induction false} NeutralDropBack(t: string, b: nat)
    requires b <= |t| && NeutralLines(SplitNL(t)) && forall k | b <= k < |t| :: t[k] == NL
    ensures NeutralLines(SplitNL(t[..b]))
    decreases |t|
  {
    hide NeutralLine, SplitNL, NeutralLines;
    if b == |t| {
      assert t[..b] == t;
    } else {
      var u := t[..|t| - 1];
      assert t == u + "\n";
      SplitNewline(u);
      NeutralInit(SplitNL(u), "");
      NeutralDropBack(u, b);
      assert u[..b] == t[..b];
    }
  }

  lemma {:induction false} SplitNewline(u: string)
    ensures SplitNL(u + "\n") == SplitNL(u) + [""]
    decreases |u|
  {
    var e := LineEnd(u, 0);
    LineEndClear(u, 0);
    LineEndIs(u + "\n", 0, e);
    assert (u + "\n")[..e] == u[..e];
    if e == |u| {
      assert (u + "\n")[e + 1..] == "" && u[..e] == u;
      SplitLast("");
    } else {
      SplitNewline(u[e + 1..]);
      assert (u + "\n")[e + 1..] == u[e + 1..] + "\n";
    }
  }

  lemma {:induction false} NeutralInit(ls: seq<string>, l: string)
    requires NeutralLines(ls + [l])
    ensures NeutralLines(ls)
  {
    hide NeutralLine;
    if ls != [] {
      assert (ls + [l])[1..] == ls[1..] + [l];
      NeutralInit(ls[1..], l);
    }
  }
}
