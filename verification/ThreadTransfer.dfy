/** Applying a whole thread to an initiative page
    (agents/project_agent/agent.py): one handler per kind of item. */
module ThreadTransfer {
  import opened Options
  import opened Text
  import opened PageFormat
  import opened Schema
  import opened Neutral
  import opened Fence
  import opened Editor
  import opened Items
  import opened ItemText
  import opened Sections
  import opened ItemEdits
  import opened Upserts
  import opened UpsertTwice
  import opened CleanItems
  import opened Transfer

  // ---------------------------------------------------------------------
  // `src_ids`
  // ---------------------------------------------------------------------

  /** Position of the first comma; the length for none. */
  function Comma(s: string): (i: nat)
    ensures i <= |s|
  {
    if s == "" || s[0] == ',' then 0 else 1 + Comma(s[1..])
  }

  /** The stripped, non-empty parts between commas. */
  function SrcParts(raw: string): seq<string>
    decreases |raw|
  {
    var i := Comma(raw);
    var part := Trim(raw[..i]);
    (if part == "" then [] else [part]) + (if i == |raw| then [] else SrcParts(raw[i + 1..]))
  }

  function SrcIds(it: Item): seq<string> {
    SrcParts(match Get(it.fields, "src") case Some(raw) => raw case None => "")
  }

  function SrcField(it: Item): Field { Field("src", Join(", ", SrcIds(it))) }

  // ---------------------------------------------------------------------
  // The handlers
  // ---------------------------------------------------------------------

  datatype Outcome = Applied(page: Page) | Failed

  function KindOf(it: Item): string {
    match Get(it.fields, "kind") case Some(k) => k case None => "task"
  }

  /** The section a kind of item goes to, if the page type has one. */
  function TitleFor(pageType: string, kind: string): Option<string> {
    if kind == "task" then
      (if pageType == "project" then Some("Open tasks") else if pageType == "event" then Some("Logistics") else None)
    else if kind == "decision" then Some("Decisions")
    else if kind == "resource" then Some("Resources")
    else if kind == "question" then Some("Log")
    else None
  }

  /** The item a handler writes for one of the thread's. */
  function Mapped(kind: string, it: Item): Item {
    if kind == "decision" then Item(it.text, it.blockId, None, [Field("by", "system"), SrcField(it)])
    else if kind == "resource" then Item(it.text, it.blockId, None, [SrcField(it)])
    else if kind == "question" then Item("Open question: " + it.text, it.blockId, None, [SrcField(it)])
    else it
  }

  function MapAll(kind: string, items: seq<Item>): (r: seq<Item>)
    ensures |r| == |items|
  {
    if items == [] then [] else [Mapped(kind, items[0])] + MapAll(kind, items[1..])
  }

  /** One handler. A kind nobody handles, and tasks without their section, are
      skipped; counting what an append added needs the section to have been
      there, so without it the whole transfer fails. */
  function Handle(p: Page, kind: string, items: seq<Item>): Outcome {
    match TitleFor(p.pageType, kind)
    case None => Applied(p)
    case Some(t) =>
      if kind == "task" then
        if SectionOf(p, t).None? then Applied(p) else
          match UpsertItems(p, t, items, MergeItem) case Ok(q) => Applied(q) case Err(_) => Failed
      else
        match AppendItems(p, t, MapAll(kind, items))
        case Err(_) => Failed
        case Ok(q) => if SectionOf(q, t).None? || SectionOf(p, t).None? then Failed else Applied(q)
  }

  function OfKind(items: seq<Item>, kind: string): seq<Item> {
    if items == [] then []
    else if KindOf(items[0]) == kind then [items[0]] + OfKind(items[1..], kind)
    else OfKind(items[1..], kind)
  }

  /** The kinds in order of first appearance, after those seen already. */
  function Kinds(items: seq<Item>, seen: seq<string>): seq<string> {
    if items == [] then []
    else if KindOf(items[0]) in seen then Kinds(items[1..], seen)
    else [KindOf(items[0])] + Kinds(items[1..], seen + [KindOf(items[0])])
  }

  function HandleKinds(p: Page, kinds: seq<string>, items: seq<Item>): Outcome
    decreases |kinds|
  {
    if kinds == [] then Applied(p) else
      match Handle(p, kinds[0], OfKind(items, kinds[0]))
      case Failed => Failed
      case Applied(q) => HandleKinds(q, kinds[1..], items)
  }

  /** The page part of `apply_thread_items_to_initiative`. */
  function ApplyThread(p: Page, thread: Page): Outcome {
    var items := ParseItems(FencedContent(thread, "Items"));
    HandleKinds(p, Kinds(items, []), items)
  }

  lemma KindStep(items: seq<Item>, i: nat, seen: seq<string>)
    requires i < |items|
    ensures var k, rest := KindOf(items[i]), items[i + 1..];
            Kinds(items[i..], seen) == if k in seen then Kinds(rest, seen) else [k] + Kinds(rest, seen + [k])
  {
    hide KindOf;
    assert items[i..][1..] == items[i + 1..];
  }

  lemma {:induction false} OfKindStep(items: seq<Item>, i: nat, k: string)
    requires i < |items|
    ensures OfKind(items[..i + 1], k) == OfKind(items[..i], k) + if KindOf(items[i]) == k then [items[i]] else []
    decreases i
  {
    hide KindOf;
    if i == 0 {
      assert items[..1][1..] == [] && items[..0] == [];
    } else {
      assert items[..i + 1][1..] == items[1..][..i] && items[..i][1..] == items[1..][..i - 1];
      OfKindStep(items[1..], i - 1, k);
    }
  }

  /** The map holds, for each kind, its items among the first `i`. */
  predicate Grouped(items: seq<Item>, i: nat, kinds: seq<string>, byKind: map<string, seq<Item>>)
    requires i <= |items|
  {
    && (forall k | k in byKind :: k in kinds)
    && (forall k | k in kinds :: k in byKind && byKind[k] == OfKind(items[..i], k))
    && (forall j | 0 <= j < i :: KindOf(items[j]) in kinds)
  }

  lemma {:induction false} NoneOfKind(items: seq<Item>, k: string)
    requires forall j | 0 <= j < |items| :: KindOf(items[j]) != k
    ensures OfKind(items, k) == []
  {
    hide KindOf;
    if items != [] { NoneOfKind(items[1..], k); }
  }

  lemma GroupStep(items: seq<Item>, i: nat, kinds: seq<string>, byKind: map<string, seq<Item>>)
    requires i < |items| && Grouped(items, i, kinds, byKind)
    ensures var k := KindOf(items[i]);
            Grouped(items, i + 1, if k in byKind then kinds else kinds + [k],
              byKind[k := (if k in byKind then byKind[k] else []) + [items[i]]])
  {
    hide KindOf, OfKind;
    var k := KindOf(items[i]);
    if k !in byKind { NoneOfKind(items[..i], k); }
    forall j ensures OfKind(items[..i + 1], j) == OfKind(items[..i], j) + if k == j then [items[i]] else [] {
      OfKindStep(items, i, j);
    }
  }

  /** Grouping the items by kind, in order of first appearance. */
  method GroupByKind(items: seq<Item>) returns (kinds: seq<string>, byKind: map<string, seq<Item>>)
    ensures kinds == Kinds(items, [])
    ensures forall k | k in kinds :: k in byKind && byKind[k] == OfKind(items, k)
  {
    hide KindOf, Kinds, OfKind;
    kinds, byKind := [], map[];
    assert items[0..] == items;
    for i := 0 to |items|
      invariant kinds + Kinds(items[i..], kinds) == Kinds(items, []) && Grouped(items, i, kinds, byKind)
    {
      var kind := KindOf(items[i]);
      KindStep(items, i, kinds);
      GroupStep(items, i, kinds, byKind);
      if kind !in byKind {
        kinds := kinds + [kind];
        byKind := byKind[kind := []];
      }
      byKind := byKind[kind := byKind[kind] + [items[i]]];
    }
    assert items[..|items|] == items;
    NoKinds(items, kinds);
  }

  lemma NoKinds(items: seq<Item>, seen: seq<string>)
    ensures Kinds(items[|items|..], seen) == [] && seen + [] == seen
  {}

  /** The two loops of `apply_thread_items_to_initiative`. */
  method ApplyThreadItems(p: Page, thread: Page) returns (r: Outcome)
    ensures r == ApplyThread(p, thread)
  {
    hide Handle, KindOf, ParseItems, FencedContent, Kinds, OfKind;
    var items := ParseItems(FencedContent(thread, "Items"));
    var kinds, byKind := GroupByKind(items);
    var page := p;
    assert kinds[0..] == kinds;
    for i := 0 to |kinds|
      invariant HandleKinds(page, kinds[i..], items) == HandleKinds(p, kinds, items)
    {
      assert kinds[i..][1..] == kinds[i + 1..] && kinds[i] in kinds;
      match Handle(page, kinds[i], byKind[kinds[i]]) {
        case Failed => return Failed;
        case Applied(q) => page := q;
      }
    }
    r := Applied(page);
  }

  // ---------------------------------------------------------------------
  // Items read from a page take one line
  // ---------------------------------------------------------------------

  predicate PlainFields(fs: seq<Field>) { forall i | 0 <= i < |fs| :: NoNewline(fs[i].key) && NoNewline(fs[i].value) }

  predicate PlainItem(it: Item) { IsId(it.blockId) && NoNewline(it.text) && PlainFields(it.fields) }

  lemma {:induction false} ScanPlain(s: string)
    requires NoNewline(s)
    ensures PlainFields(ScanFields(s))
    decreases |s|
  {
    hide FieldFirst;
    if s != "" {
      match FieldFirst(s)
      case None => ScanPlain(s[1..]);
      case Some((f, n)) =>
        FirstPlain(s);
        ScanPlain(s[n..]);
    }
  }

  lemma FirstPlain(s: string)
    requires NoNewline(s) && FieldFirst(s).Some?
    ensures NoNewline(FieldFirst(s).value.0.key) && NoNewline(FieldFirst(s).value.0.value)
  {
    hide ValueLen, IsSpace;
    var r := WordRun(s, 1);
    var w := SpaceRun(s, r + 2);
    TrimPlain(s[w..w + ValueLen(s[w..]).value]);
  }

  lemma TrimPlain(s: string)
    requires NoNewline(s)
    ensures NoNewline(Trim(s))
  {}

  lemma {:induction false} PutPlain(d: seq<Field>, f: Field)
    requires PlainFields(d) && NoNewline(f.key) && NoNewline(f.value)
    ensures PlainFields(DictPut(d, f))
  {
    if d != [] && d[0].key != f.key {
      PutPlain(d[1..], f);
      var r := DictPut(d[1..], f);
      forall i | 0 <= i < |r| + 1 ensures NoNewline(([d[0]] + r)[i].key) && NoNewline(([d[0]] + r)[i].value) {
        if i > 0 { assert ([d[0]] + r)[i] == r[i - 1]; }
      }
    }
  }

  lemma {:induction false} DictPlain(d: seq<Field>, fs: seq<Field>)
    requires PlainFields(d) && PlainFields(fs)
    ensures PlainFields(DictOf(d, fs))
    decreases |fs|
  {
    hide NoNewline;
    if fs != [] {
      PutPlain(d, fs[0]);
      DictPlain(DictPut(d, fs[0]), fs[1..]);
    }
  }

  lemma ParsedPlain(l: string)
    requires NoNewline(l) && ParseItemLine(l).Some?
    ensures PlainItem(ParseItemLine(l).value)
  {
    hide ItemOf, CheckboxAt;
    var c := LastCaret(l);
    IdRunAll(l, c + 1);
    SpacesBefore(l, 1, c);
    var p := SpaceRun(l, 1);
    var id := IdOf(l).value;
    if CheckboxAt(l, p) {
      SpacesBeforeBox(l, p, c);
      ItemOfPlain(l[SpaceRun(l, p + 3)..c], id, Some(l[p + 1] != ' '));
    } else {
      ItemOfPlain(l[p..c], id, None);
    }
  }

  lemma SpacesBeforeBox(l: string, p: nat, c: nat)
    requires CheckboxAt(l, p) && p <= c < |l| && l[c] == '^'
    ensures p + 3 <= c && SpaceRun(l, p + 3) <= c
  {
    SpacesBefore(l, p + 3, c);
  }

  lemma ItemOfPlain(t: string, id: string, checked: Option<bool>)
    requires NoNewline(t) && IsId(id)
    ensures PlainItem(ItemOf(t, id, checked))
  {
    hide ScanFields, TextLen, DictOf, IsId;
    ScanPlain(SkipSpaces(t[TextLen(t)..]));
    DictPlain([], ScanFields(SkipSpaces(t[TextLen(t)..])));
  }

  lemma {:induction false} ParsedAllPlain(ls: seq<string>)
    requires forall l | l in ls :: NoNewline(l)
    ensures forall it | it in ParseLines(ls) :: PlainItem(it)
  {
    hide ParseItemLine, PlainItem, NoNewline;
    if ls != [] {
      assert ls[0] in ls && forall l | l in ls[1..] :: l in ls;
      ParsedAllPlain(ls[1..]);
      if ParseItemLine(ls[0]).Some? { ParsedPlain(ls[0]); }
    }
  }

  lemma {:induction false} FieldsLine(fs: seq<Field>)
    requires PlainFields(fs)
    ensures NoNewline(FormatFields(fs))
  {
    if fs != [] { FieldsLine(fs[1..]); }
  }

  lemma PlainIsOneLine(it: Item)
    requires PlainItem(it)
    ensures OneLineItem(it)
  {
    FieldsLine(it.fields);
    hide FormatFields, PlainFields;
    PlainId(it.blockId);
  }

  lemma {:induction false} SrcPlain(raw: string)
    requires NoNewline(raw)
    ensures forall i | 0 <= i < |SrcParts(raw)| :: NoNewline(SrcParts(raw)[i])
    decreases |raw|
  {
    hide Trim, Trimmed;
    var i := Comma(raw);
    TrimPlain(raw[..i]);
    if i < |raw| { SrcPlain(raw[i + 1..]); }
  }

  lemma {:induction false} JoinPlain(parts: seq<string>)
    requires forall i | 0 <= i < |parts| :: NoNewline(parts[i])
    ensures NoNewline(Join(", ", parts))
  {
    if |parts| > 1 { JoinPlain(parts[1..]); }
  }

  lemma {:induction false} GetPlain(fs: seq<Field>, key: string)
    requires PlainFields(fs)
    ensures Get(fs, key).Some? ==> NoNewline(Get(fs, key).value)
  {
    if fs != [] { GetPlain(fs[1..], key); }
  }

  lemma MappedPlain(kind: string, it: Item)
    requires PlainItem(it)
    ensures OneLineItem(Mapped(kind, it))
  {
    hide OneLineItem, IsId, SrcParts;
    GetPlain(it.fields, "src");
    SrcPlain(match Get(it.fields, "src") case Some(raw) => raw case None => "");
    JoinPlain(SrcIds(it));
    PlainIsOneLine(Mapped(kind, it));
  }

  lemma {:induction false} MapAllPlain(kind: string, items: seq<Item>)
    requires forall it | it in items :: PlainItem(it)
    ensures OneLineItems(MapAll(kind, items))
  {
    hide PlainItem, OneLineItem, Mapped;
    if items != [] {
      assert items[0] in items && forall it | it in items[1..] :: it in items;
      MappedPlain(kind, items[0]);
      MapAllPlain(kind, items[1..]);
    }
  }

  // ---------------------------------------------------------------------
  // Applying a thread twice
  // ---------------------------------------------------------------------

  predicate Initiative(pageType: string) { pageType == "project" || pageType == "event" }

  lemma OwnTitle(pageType: string, k: nat)
    requires k < |SectionOwners(pageType)|
    ensures Canonical(pageType, SectionOwners(pageType)[k].title) == SectionOwners(pageType)[k].title
    ensures OwnerOf(pageType, SectionOwners(pageType)[k].title) == Some(SectionOwners(pageType)[k].owner)
  {
    hide SectionOwners, FindTitle, IndexOf, AliasTarget, Lower;
    OwnPlace(pageType, k);
  }

  /** On an initiative each handled kind has its section, and no two share one. */
  lemma TitlesOf(pageType: string, kind: string)
    requires Initiative(pageType) && TitleFor(pageType, kind).Some?
    ensures var t := TitleFor(pageType, kind).value;
            Canonical(pageType, t) == t && OwnerOf(pageType, t) == Some(if kind == "task" then Managed else Append)
  {
    hide Canonical, OwnerOf;
    OwnTitle(pageType, 2);
    OwnTitle(pageType, 3);
    OwnTitle(pageType, 4);
    OwnTitle(pageType, 5);
  }

  lemma TitlesDiffer(pageType: string, j: string, k: string)
    requires Initiative(pageType) && TitleFor(pageType, j).Some? && TitleFor(pageType, k).Some? && j != k
    ensures Canonical(pageType, TitleFor(pageType, j).value) != Canonical(pageType, TitleFor(pageType, k).value)
  {
    hide Canonical, OwnerOf;
    TitlesOf(pageType, j);
    TitlesOf(pageType, k);
    assert "Decisions"[0] == 'D' && "Resources"[0] == 'R' && "Log"[0] == 'L';
    assert |"Logistics"| != |"Log"| && "Open tasks"[0] == 'O';
  }

  /** When the same items of a kind change nothing the second time: each id or
      text to append is one the grown section shows; each line of tasks settles,
      in a fence that is no open one. */
  predicate Repeatable(p: Page, kind: string, items: seq<Item>) {
    match TitleFor(p.pageType, kind)
    case None => true
    case Some(t) =>
      if kind == "task" then SectionOf(p, t).Some? ==> RepeatableTasks(p, t, items)
      else RepeatableAppend(p, t, MapAll(kind, items))
  }

  predicate RepeatableTasks(p: Page, title: string, items: seq<Item>) {
    !FenceOf(BodyOf(p, title, Managed)).Orphan? && AllSettle(FencedLines(p, title), items, MergeItem)
  }

  predicate RepeatableAppend(p: Page, title: string, items: seq<Item>) {
    var added := Fresh(p, title, items);
    added == [] ||
    var shown := ItemsGrown(AppendBody(p, title), Addition(added));
    Covered(items, IdSet(shown), TextSet(shown))
  }

  /** A handler's second call with the same items changes nothing exactly if they
      are repeatable. */
  lemma HandleTwiceIff(p: Page, kind: string, items: seq<Item>)
    requires Handle(p, kind, items).Applied? && forall it | it in items :: PlainItem(it)
    ensures var q := Handle(p, kind, items).page;
            q.pageType == p.pageType && (Handle(q, kind, items) == Applied(q) <==> Repeatable(p, kind, items))
  {
    hide SectionOf, OwnerOf, MapAll, BodyOf, RepeatableTasks, RepeatableAppend, AppendItems, PlainItem, Rewrite,
         UpsertBody;
    if TitleFor(p.pageType, kind).Some? {
      var t := TitleFor(p.pageType, kind).value;
      if kind == "task" {
        if SectionOf(p, t).Some? { TasksTwiceIff(p, t, items); }
      } else {
        AppendTwiceIff(p, t, MapAll(kind, items));
        AppendKeepsType(p, t, MapAll(kind, items));
      }
    }
  }

  lemma AppendTwiceIff(p: Page, title: string, items: seq<Item>)
    requires AppendItems(p, title, items).Ok?
    ensures var q := AppendItems(p, title, items).value;
            AppendItems(q, title, items) == Ok(q) <==> RepeatableAppend(p, title, items)
  {
    hide OwnerOf, SectionOf, FormatAll, Norm, Addition, ItemsGrown, AppendBody, IdSet, TextSet, Covered, AppendLines,
         Present;
    var q := AppendItems(p, title, items).value;
    if Fresh(p, title, items) != [] {
      AppendItemsTwiceIff(p, title, items);
      AppendKeepsType(p, title, items);
      if Fresh(q, title, items) != [] {
        AppendIsRewrite(q, title, Fresh(q, title, items));
        AppendChanges(q, title, items);
      }
    }
  }

  /** An append that adds something grows the fenced text. */
  lemma AppendChanges(p: Page, title: string, items: seq<Item>)
    requires AppendItems(p, title, items).Ok? && Fresh(p, title, items) != []
    ensures AppendItems(p, title, items) != Ok(p)
  {
    hide OwnerOf, SectionOf, FormatAll, Norm, WithSection, GrowFenced, Addition, Present, NewItems;
    var added := Fresh(p, title, items);
    var body := AppendBody(p, title);
    var grown := GrowFenced(body, "append", Addition(added));
    AppendIsRewrite(p, title, added);
    RewriteTwice(p, title, Append, grown, grown);
    AdditionShows(added);
    GrowthDiffers(body, Addition(added));
  }

  lemma GrowthDiffers(body: string, add: string)
    requires StripNL(add) != ""
    ensures GrowFenced(body, "append", add) != body
  {
    hide FenceOf, StripNL, Inner, Shown, FenceOpen, Closed;
    var (before, inner, after) := SplitFence(body, "append");
    var x := Inner(inner + "\n" + add);
    if FenceOf(body).Complete? {
      CutAtTwo(body, |before|, |before| + |inner|);
      SameMiddle(before, x, inner, after);
      ShownInner(inner + "\n" + add);
      ShownGrow(inner, add);
      SomethingOf(add);
    } else {
      assert |before| > |body|;
    }
  }

  lemma SomethingOf(t: string)
    requires StripNL(t) != ""
    ensures Shown(t) != []
  {
    hide StripNL;
    ShownStrip(t);
    StripEdges(t);
    var s := StripNL(t);
    assert LineEnd(s, 0) == LineEnd(s, 1) >= 1;
  }

  lemma TasksTwiceIff(p: Page, title: string, items: seq<Item>)
    requires Require(p, title, {Managed}).Ok? && forall it | it in items :: PlainItem(it)
    ensures UpsertItems(p, title, items, MergeItem).Ok?
    ensures var q := UpsertItems(p, title, items, MergeItem).value;
            && (UpsertItems(q, title, items, MergeItem) == Ok(q) <==> RepeatableTasks(p, title, items))
            && q.pageType == p.pageType && SectionOf(q, title).Some?
  {
    hide OwnerOf, SectionOf, BodyOf, MergeItem, Rewrite, AllSettle, FenceOf, PlainItem, OneLineItem, LinesOf,
         SplitFence, UpsertBody;
    forall it | it in items ensures OneLineItem(it) { PlainIsOneLine(it); }
    MergeKeepsIds();
    LinesHaveNoNewline(SplitFence(BodyOf(p, title, Managed), "managed").1);
    PlainMerges(FencedLines(p, title), items);
    UpsertTwiceIff(p, title, items, MergeItem);
    RewriteGets(p, title, Managed, UpsertBody(BodyOf(p, title, Managed), items, MergeItem));
  }

  lemma MergeKeepsIds()
    ensures KeepsIds(MergeItem)
  {
    hide KeepField;
  }

  /** Merging items of one line gives items of one line. */
  lemma PlainMerges(ls: seq<string>, items: seq<Item>)
    requires (forall l | l in ls :: NoNewline(l)) && forall it | it in items :: PlainItem(it)
    ensures OneLineMerges(ls, items, MergeItem)
  {
    hide PlainItem, OneLineItem, MergeItem, ParseItemLine, Lookup, NoNewline;
    forall l | l in ls ensures OneLineMerge(l, items, MergeItem) {
      if ParseItemLine(l).Some? && Lookup(items, ParseItemLine(l).value.blockId).Some? {
        var was := ParseItemLine(l).value;
        var now := Lookup(items, was.blockId).value;
        ParsedPlain(l);
        MergePlain(was, now);
        PlainIsOneLine(MergeItem(was, now));
      }
    }
  }

  lemma MergePlain(was: Item, now: Item)
    requires PlainItem(was) && PlainItem(now)
    ensures PlainItem(MergeItem(was, now))
  {
    hide IsId;
    GetPlain(was.fields, "due");
    GetPlain(was.fields, "owner");
    KeepPlain(now.fields, "due", was.fields);
    KeepPlain(KeepField(now.fields, "due", was.fields), "owner", was.fields);
  }

  lemma KeepPlain(d: seq<Field>, key: string, was: seq<Field>)
    requires PlainFields(d) && (Get(was, key).Some? ==> NoNewline(Get(was, key).value)) && NoNewline(key)
    ensures PlainFields(KeepField(d, key, was))
  {
    if Get(was, key).Some? { PutPlain(d, Field(key, Get(was, key).value)); }
  }

  lemma AppendKeepsType(p: Page, title: string, items: seq<Item>)
    ensures AppendItems(p, title, items).Ok? ==> AppendItems(p, title, items).value.pageType == p.pageType
  {
    hide OwnerOf, Fresh, Rewrite, BodyOf, FormatAll, Addition;
    if AppendItems(p, title, items).Ok? && Fresh(p, title, items) != [] {
      AppendIsRewrite(p, title, Fresh(p, title, items));
      RewriteGets(p, title, Append, GrowFenced(AppendBody(p, title), "append", Addition(Fresh(p, title, items))));
    }
  }

  /** A handler that succeeds leaves the page, or replaces the body of its
      section, which was there already. */
  lemma HandleRewrites(p: Page, kind: string, items: seq<Item>) returns (changed: bool, o: Owner, body: string)
    requires Handle(p, kind, items).Applied?
    ensures !changed ==> Handle(p, kind, items).page == p
    ensures changed ==> TitleFor(p.pageType, kind).Some? && SectionOf(p, TitleFor(p.pageType, kind).value).Some?
    ensures changed ==> OwnerOf(p.pageType, TitleFor(p.pageType, kind).value) == Some(o)
    ensures changed ==> Handle(p, kind, items).page == Rewrite(p, TitleFor(p.pageType, kind).value, o, body)
  {
    hide OwnerOf, Fresh, Rewrite, BodyOf, FormatAll, Addition, SectionOf, UpsertBody;
    changed, o, body := false, Human, "";
    if TitleFor(p.pageType, kind).Some? {
      var t := TitleFor(p.pageType, kind).value;
      if kind == "task" && SectionOf(p, t).Some? {
        changed, o := true, Managed;
        body := UpsertBody(BodyOf(p, t, Managed), items, MergeItem);
      } else if kind != "task" && Fresh(p, t, MapAll(kind, items)) != [] {
        var added := Fresh(p, t, MapAll(kind, items));
        changed, o := true, Append;
        body := GrowFenced(AppendBody(p, t), "append", Addition(added));
        AppendIsRewrite(p, t, added);
      }
    }
  }

  /** Rewriting a section that is there leaves every other exactly as it was. */
  lemma PresentOthers(p: Page, title: string, o: Owner, body: string, other: string)
    requires SectionOf(p, title).Some? && Canonical(p.pageType, other) != Canonical(p.pageType, title)
    ensures var q := Rewrite(p, title, o, body); SectionOf(q, other) == SectionOf(p, other) && q.pageType == p.pageType
  {
    hide Canonical, SectionIndex;
    var i := SectionIndex(p.pageType, p.sections, Canonical(p.pageType, title), 0);
    WithSectionPresent(p, title, o, i);
    hide WithSection;
    SetBodyIndex(p, i, body, Canonical(p.pageType, other));
  }

  /** Another kind's handler does not see the change. */
  lemma Undisturbed(p: Page, j: string, k: string, items: seq<Item>)
    requires Initiative(p.pageType) && j != k && Handle(p, k, items).Applied?
    ensures var q := Handle(p, k, items).page;
            q.pageType == p.pageType
            && (TitleFor(p.pageType, j).Some? ==>
                SectionOf(q, TitleFor(p.pageType, j).value) == SectionOf(p, TitleFor(p.pageType, j).value))
  {
    hide OwnerOf, Rewrite, SectionOf, Canonical, TitleFor, Handle, Initiative;
    var changed, o, body := HandleRewrites(p, k, items);
    if changed {
      RewriteGets(p, TitleFor(p.pageType, k).value, o, body);
      if TitleFor(p.pageType, j).Some? {
        TitlesDiffer(p.pageType, j, k);
        PresentOthers(p, TitleFor(p.pageType, k).value, o, body, TitleFor(p.pageType, j).value);
      }
    }
  }

  /** Nothing left for this kind's handler to do. */
  predicate Settled(p: Page, kind: string, items: seq<Item>) { Handle(p, kind, items) == Applied(p) }

  /** A handler looks at its own section only. */
  lemma SectionDecides(p: Page, q: Page, kind: string, items: seq<Item>)
    requires q.pageType == p.pageType && Initiative(p.pageType)
    requires TitleFor(p.pageType, kind).Some? ==>
               SectionOf(q, TitleFor(p.pageType, kind).value) == SectionOf(p, TitleFor(p.pageType, kind).value)
    ensures Settled(p, kind, items) == Settled(q, kind, items)
    ensures Repeatable(p, kind, items) == Repeatable(q, kind, items)
  {
    hide OwnerOf, SectionOf, MapAll, FormatAll, Canonical, UpsertBody, GrowFenced, RepeatableTasks, TitleFor,
         AppendItems, UpsertItems, RepeatableAppend;
    if TitleFor(p.pageType, kind).Some? {
      var t := TitleFor(p.pageType, kind).value;
      TitlesOf(p.pageType, kind);
      if kind == "task" {
        SameBody(p, q, t, Managed);
        if SectionOf(p, t).Some? { SettledTasks(p, q, t, items); }
      } else {
        SameBody(p, q, t, Append);
        SettledAppend(p, q, t, MapAll(kind, items));
      }
    }
  }

  lemma SameBody(p: Page, q: Page, title: string, o: Owner)
    requires q.pageType == p.pageType && SectionOf(q, title) == SectionOf(p, title)
             && OwnerOf(p.pageType, title) == Some(o)
    ensures BodyOf(q, title, o) == BodyOf(p, title, o)
  {
    hide SectionOf, OwnerOf, WithSection;
    WithSectionFinds(p, title, o);
    WithSectionFinds(q, title, o);
  }

  /** A section rewritten to the same body is the same page. */
  lemma RewriteSame(p: Page, title: string, o: Owner, body: string)
    requires SectionOf(p, title).Some?
    ensures Rewrite(p, title, o, body) == p <==> BodyOf(p, title, o) == body
  {
    hide Canonical, SectionIndex;
    var i := SectionIndex(p.pageType, p.sections, Canonical(p.pageType, title), 0);
    WithSectionPresent(p, title, o, i);
    hide WithSection;
    if p.sections[i].body == body {
      assert p.sections[i := p.sections[i].(body := body)] == p.sections;
    } else {
      assert SetBody(p, i, body).sections[i].body == body;
    }
  }

  lemma SettledTasks(p: Page, q: Page, title: string, items: seq<Item>)
    requires q.pageType == p.pageType && SectionOf(q, title) == SectionOf(p, title) && SectionOf(p, title).Some?
    requires BodyOf(q, title, Managed) == BodyOf(p, title, Managed) && OwnerOf(p.pageType, title) == Some(Managed)
    ensures UpsertItems(p, title, items, MergeItem) == Ok(p) <==> UpsertItems(q, title, items, MergeItem) == Ok(q)
    ensures RepeatableTasks(p, title, items) == RepeatableTasks(q, title, items)
  {
    hide OwnerOf, SectionOf, BodyOf, UpsertBody, Rewrite, MergeItem, FenceOf, AllSettle;
    RewriteSame(p, title, Managed, UpsertBody(BodyOf(p, title, Managed), items, MergeItem));
    RewriteSame(q, title, Managed, UpsertBody(BodyOf(q, title, Managed), items, MergeItem));
  }

  /** Where the section is, an append goes through, and changes nothing exactly if
      it adds nothing. */
  lemma SettledAppend(p: Page, q: Page, title: string, items: seq<Item>)
    requires q.pageType == p.pageType && SectionOf(q, title) == SectionOf(p, title)
             && OwnerOf(p.pageType, title) == Some(Append)
    requires BodyOf(q, title, Append) == BodyOf(p, title, Append)
    ensures Fresh(p, title, items) == Fresh(q, title, items)
    ensures RepeatableAppend(p, title, items) == RepeatableAppend(q, title, items)
    ensures AppendItems(p, title, items) == Ok(p) <==> Fresh(p, title, items) == []
    ensures AppendItems(q, title, items) == Ok(q) <==> Fresh(q, title, items) == []
  {
    hide OwnerOf, SectionOf, BodyOf, Rewrite, FormatAll, Addition, NewItems, AppendLines, GrowFenced, Norm,
         ParseItems, ItemsGrown;
    var added := Fresh(p, title, items);
    if added != [] {
      AppendIsRewrite(p, title, added);
      AppendIsRewrite(q, title, added);
      AppendChanges(p, title, items);
      AppendChanges(q, title, items);
    }
  }

  predicate AllRepeatable(p: Page, kinds: seq<string>, items: seq<Item>) {
    forall k | k in kinds :: Repeatable(p, k, OfKind(items, k))
  }

  predicate AllSettled(p: Page, kinds: seq<string>, items: seq<Item>) {
    forall k | k in kinds :: Settled(p, k, OfKind(items, k))
  }

  lemma {:induction false} OfKindPlain(items: seq<Item>, kind: string)
    requires forall it | it in items :: PlainItem(it)
    ensures forall it | it in OfKind(items, kind) :: PlainItem(it)
  {
    hide PlainItem, KindOf;
    if items != [] {
      assert items[0] in items && forall it | it in items[1..] :: it in items;
      OfKindPlain(items[1..], kind);
    }
  }

  /** The handlers of some kinds do not see another's section. */
  lemma {:induction false} KindsUndisturbed(p: Page, kinds: seq<string>, items: seq<Item>, j: string)
    requires Initiative(p.pageType) && HandleKinds(p, kinds, items).Applied? && j !in kinds
    ensures var q := HandleKinds(p, kinds, items).page;
            q.pageType == p.pageType
            && (TitleFor(p.pageType, j).Some? ==>
                SectionOf(q, TitleFor(p.pageType, j).value) == SectionOf(p, TitleFor(p.pageType, j).value))
    decreases |kinds|
  {
    hide Handle, OfKind, Initiative, SectionOf, TitleFor;
    if kinds != [] {
      assert kinds[0] in kinds && forall k | k in kinds[1..] :: k in kinds;
      Undisturbed(p, j, kinds[0], OfKind(items, kinds[0]));
      KindsUndisturbed(Handle(p, kinds[0], OfKind(items, kinds[0])).page, kinds[1..], items, j);
    }
  }

  predicate DistinctKinds(kinds: seq<string>) { forall i, j | 0 <= i < j < |kinds| :: kinds[i] != kinds[j] }

  lemma FirstDiffers(kinds: seq<string>)
    requires kinds != [] && DistinctKinds(kinds)
    ensures kinds[0] !in kinds[1..] && DistinctKinds(kinds[1..]) && forall k | k in kinds[1..] :: k in kinds
  {
    var rest := kinds[1..];
    forall i, j | 0 <= i < j < |rest| ensures rest[i] != rest[j] { assert kinds[i + 1] != kinds[j + 1]; }
    forall i | 0 <= i < |rest| ensures rest[i] != kinds[0] { assert kinds[0] != kinds[i + 1]; }
  }

  /** After the handlers of all kinds, one is settled exactly if its items were
      repeatable. */
  lemma {:induction false} HandledSettle(p: Page, kinds: seq<string>, items: seq<Item>, j: string)
    requires Initiative(p.pageType) && (forall it | it in items :: PlainItem(it))
    requires DistinctKinds(kinds) && HandleKinds(p, kinds, items).Applied? && j in kinds
    ensures Settled(HandleKinds(p, kinds, items).page, j, OfKind(items, j)) == Repeatable(p, j, OfKind(items, j))
    decreases |kinds|
  {
    hide Handle, Repeatable, Settled, PlainItem, OfKind, Initiative, SectionOf, TitleFor, DistinctKinds;
    var k := kinds[0];
    FirstDiffers(kinds);
    OfKindPlain(items, k);
    HandleTwiceIff(p, k, OfKind(items, k));
    var q := Handle(p, k, OfKind(items, k)).page;
    if j == k {
      SettledIs(q, k, OfKind(items, k));
      KindsUndisturbed(q, kinds[1..], items, k);
      SectionDecides(q, HandleKinds(q, kinds[1..], items).page, k, OfKind(items, k));
    } else {
      assert kinds == [k] + kinds[1..];
      HandledSettle(q, kinds[1..], items, j);
      Undisturbed(p, j, k, OfKind(items, k));
      SectionDecides(p, q, j, OfKind(items, j));
    }
  }

  lemma SettledIs(p: Page, kind: string, items: seq<Item>)
    ensures Settled(p, kind, items) <==> Handle(p, kind, items) == Applied(p)
  {}

  /** If all the handlers together leave the page, each one does. */
  lemma {:induction false} LeftByEach(p: Page, kinds: seq<string>, items: seq<Item>)
    requires Initiative(p.pageType) && DistinctKinds(kinds) && HandleKinds(p, kinds, items) == Applied(p)
    ensures AllSettled(p, kinds, items)
    decreases |kinds|
  {
    hide Handle, OfKind, Initiative, SectionOf, TitleFor, Rewrite, BodyOf, OwnerOf, DistinctKinds;
    if kinds != [] {
      var k := kinds[0];
      FirstDiffers(kinds);
      var q := Handle(p, k, OfKind(items, k)).page;
      var changed, o, body := HandleRewrites(p, k, OfKind(items, k));
      Undisturbed(p, k + "'", k, OfKind(items, k)) by { assert |k + "'"| != |k|; }
      KindsUndisturbed(q, kinds[1..], items, k);
      if changed {
        var t := TitleFor(p.pageType, k).value;
        RewriteGets(p, t, o, body);
        PresentBody(p, t, o);
        RewriteSame(p, t, o, body);
      }
      LeftByEach(p, kinds[1..], items);
      assert kinds == [k] + kinds[1..];
    }
  }

  lemma PresentBody(p: Page, title: string, o: Owner)
    requires SectionOf(p, title).Some? && OwnerOf(p.pageType, title) == Some(o)
    ensures BodyOf(p, title, o) == SectionOf(p, title).value.body
  {
    hide SectionOf, OwnerOf, WithSection;
    WithSectionFinds(p, title, o);
  }

  lemma {:induction false} NothingToDo(p: Page, kinds: seq<string>, items: seq<Item>)
    requires AllSettled(p, kinds, items)
    ensures HandleKinds(p, kinds, items) == Applied(p)
    decreases |kinds|
  {
    hide Handle, OfKind;
    if kinds != [] {
      assert kinds[0] in kinds && forall k | k in kinds[1..] :: k in kinds;
      assert Settled(p, kinds[0], OfKind(items, kinds[0]));
      NothingToDo(p, kinds[1..], items);
    }
  }

  lemma {:induction false} KindsDistinct(items: seq<Item>, seen: seq<string>)
    ensures forall k | k in Kinds(items, seen) :: k !in seen
    ensures DistinctKinds(Kinds(items, seen))
  {
    hide KindOf;
    if items != [] {
      var k := KindOf(items[0]);
      if k in seen {
        KindsDistinct(items[1..], seen);
      } else {
        KindsDistinct(items[1..], seen + [k]);
        var rest := Kinds(items[1..], seen + [k]);
        assert forall i | 0 <= i < |rest| :: rest[i] in rest;
      }
    }
  }

  /** The items of a thread. */
  function ThreadItems(thread: Page): seq<Item> { ParseItems(FencedContent(thread, "Items")) }

  /** Each kind of the thread's items repeats on the page. */
  predicate ThreadRepeatable(p: Page, thread: Page) {
    AllRepeatable(p, Kinds(ThreadItems(thread), []), ThreadItems(thread))
  }

  /** Applying any thread again leaves the initiative page unchanged exactly if
      each kind of its items is repeatable. */
  lemma ApplyThreadTwiceIff(p: Page, thread: Page)
    requires Initiative(p.pageType) && ApplyThread(p, thread).Applied?
    ensures var q := ApplyThread(p, thread).page; ApplyThread(q, thread) == Applied(q) <==> ThreadRepeatable(p, thread)
  {
    hide Handle, PlainItem, OfKind, Initiative, HandleKinds, FencedContent, Kinds, Settled, Repeatable, DistinctKinds;
    var items := ThreadItems(thread);
    LinesHaveNoNewline(FencedContent(thread, "Items"));
    ParsedAllPlain(LinesOf(FencedContent(thread, "Items")));
    KindsDistinct(items, []);
    var kinds := Kinds(items, []);
    var q := HandleKinds(p, kinds, items).page;
    forall k | k in kinds
      ensures Settled(q, k, OfKind(items, k)) == Repeatable(p, k, OfKind(items, k))
    {
      HandledSettle(p, kinds, items, k);
    }
    if AllSettled(q, kinds, items) { NothingToDo(q, kinds, items); }
    if HandleKinds(q, kinds, items) == Applied(q) {
      KindsType(p, kinds, items);
      LeftByEach(q, kinds, items);
    }
  }

  lemma {:induction false} KindsType(p: Page, kinds: seq<string>, items: seq<Item>)
    requires HandleKinds(p, kinds, items).Applied?
    ensures HandleKinds(p, kinds, items).page.pageType == p.pageType
    decreases |kinds|
  {
    hide Handle, OfKind;
    if kinds != [] {
      HandleType(p, kinds[0], OfKind(items, kinds[0]));
      KindsType(Handle(p, kinds[0], OfKind(items, kinds[0])).page, kinds[1..], items);
    }
  }

  lemma HandleType(p: Page, kind: string, items: seq<Item>)
    requires Handle(p, kind, items).Applied?
    ensures Handle(p, kind, items).page.pageType == p.pageType
  {
    hide Handle, TitleFor, SectionOf, Rewrite, OwnerOf;
    var changed, o, body := HandleRewrites(p, kind, items);
    if changed { RewriteGets(p, TitleFor(p.pageType, kind).value, o, body); }
  }

  /** Clean tasks of different ids, on lines with clean owners and dates, and
      decisions, resources and questions whose texts agree, are repeatable. */
  lemma CleanIsRepeatable(p: Page, kind: string, items: seq<Item>)
    requires Initiative(p.pageType) && (forall it | it in items :: PlainItem(it))
    requires TitleFor(p.pageType, kind).Some?
    requires var t := TitleFor(p.pageType, kind).value;
             if kind == "task" then
               && !FenceOf(BodyOf(p, t, Managed)).Orphan? && HeldClean(FencedLines(p, t))
               && DistinctIds(items) && forall it | it in items :: Clean(it)
             else OwnLines(AppendBody(p, t)) && TextsAgree(MapAll(kind, items))
    ensures Repeatable(p, kind, items)
  {
    hide OwnerOf, SectionOf, BodyOf, FenceOf, Clean, HeldClean, PlainItem, OwnLines, TextsAgree, MapAll, AllSettle,
         AppendItems, RepeatableAppend, Initiative, TitleFor, OneLineItem;
    var t := TitleFor(p.pageType, kind).value;
    TitlesOf(p.pageType, kind);
    if kind == "task" {
      TasksSettle(FencedLines(p, t), items);
    } else {
      MapAllPlain(kind, items);
      AppendItemsTwice(p, t, MapAll(kind, items));
      AppendTwiceIff(p, t, MapAll(kind, items));
    }
  }
}
