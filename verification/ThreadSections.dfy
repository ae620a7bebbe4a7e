/** Where a thread's items show on the initiative page they are applied to
    (agents/project_agent/agent.py), section by section. */
module ThreadSections {
  import opened Options
  import opened Parts
  import opened Text
  import opened PageFormat
  import opened Schema
  import opened Neutral
  import opened Fence
  import opened Editor
  import opened Sections
  import opened SharedText
  import opened Items
  import opened ItemText
  import opened ItemEdits
  import opened Upserts
  import opened UpsertTwice
  import opened CleanItems
  import opened Transfer
  import opened ThreadTransfer
  import opened TaskRuns

  // ---------------------------------------------------------------------
  // What each section is to show
  // ---------------------------------------------------------------------

  /** `src_ids`, joined again. */
  function Sources(it: Item): string { Join(", ", SrcIds(it)) }

  function DecisionLine(it: Item): string {
    "- " + it.text + " [by:: system] [src:: " + Sources(it) + "] ^" + it.blockId
  }

  function ResourceLine(it: Item): string { "- " + it.text + " [src:: " + Sources(it) + "] ^" + it.blockId }

  function QuestionLine(it: Item): string {
    "- " + "Open question: " + it.text + " [src:: " + Sources(it) + "] ^" + it.blockId
  }

  /** The item is of the kind, and its id and its text, after `lead`, are not
      those of an item present or of one picked before. */
  ghost predicate PickedAt(items: seq<Item>, present: seq<Item>, kind: string, lead: string, at: seq<nat>, i: nat)
    requires i < |items| && forall n | 0 <= n < |at| :: at[n] < |items|
  {
    && Get(items[i].fields, "kind") == Some(kind)
    && (forall x | x in present :: x.blockId != items[i].blockId && Norm(x.text) != Norm(lead + items[i].text))
    && (forall j | j in at && j < i ::
          items[j].blockId != items[i].blockId && Norm(lead + items[j].text) != Norm(lead + items[i].text))
  }

  /** The places of the items picked, in order. */
  ghost predicate Picked(items: seq<Item>, present: seq<Item>, kind: string, lead: string, at: seq<nat>) {
    && (forall n | 0 <= n < |at| :: at[n] < |items|)
    && (forall m, n | 0 <= m < n < |at| :: at[m] < at[n])
    && (forall i: nat | i < |items| :: i in at <==> PickedAt(items, present, kind, lead, at, i))
  }

  /** The text between the markers of a fence, if there is one. */
  function Held(body: string): string {
    match FenceOf(body)
    case Complete(e, c) => body[e..c]
    case _ => ""
  }

  /** The section says what it said and, at the end of its fence, these lines. */
  ghost predicate Landed(was: string, now: string, lines: seq<string>) {
    && (lines == [] ==> now == was)
    && (!FenceOf(was).Orphan? && lines != [] ==>
          FencedText(now) == StripNL(Held(was) + "\n" + Join("\n", NeutraliseLines(lines))))
    && (OwnLines(was) ==> exists head, tail ::
          ParseItems(was) == head + tail && ParseItems(now) == head + ParseLines(NeutraliseLines(lines)) + tail)
  }

  // ---------------------------------------------------------------------
  // What the handlers pick
  // ---------------------------------------------------------------------

  lemma {:induction false} OfKindAt(items: seq<Item>, kind: string) returns (at: seq<nat>)
    ensures PartOf(OfKind(items, kind), items, at)
    ensures forall i: nat | i < |items| :: i in at <==> KindOf(items[i]) == kind
  {
    hide KindOf, PartOf, Shifted;
    at := [];
    if items == [] {
      NoPart(items);
    } else {
      var a := OfKindAt(items[1..], kind);
      PartOfTail(items[0], OfKind(items[1..], kind), items[1..], a);
      assert items == [items[0]] + items[1..];
      at := if KindOf(items[0]) == kind then [0] + Shifted(a) else Shifted(a);
      forall i: nat | i < |items| ensures i in at <==> KindOf(items[i]) == kind {
        if i > 0 { assert items[i] == items[1..][i - 1]; }
      }
    }
  }

  lemma NoPart<T>(whole: seq<T>)
    ensures PartOf([], whole, [])
  {}

  /** An item `append_items` takes: of no id or text known or taken before. */
  ghost predicate Taken(items: seq<Item>, ids: set<string>, texts: set<string>, at: seq<nat>, i: nat)
    requires i < |items| && forall n | 0 <= n < |at| :: at[n] < |items|
  {
    && items[i].blockId !in ids && Norm(items[i].text) !in texts
    && forall j | j in at && j < i :: items[j].blockId != items[i].blockId && Norm(items[j].text) != Norm(items[i].text)
  }

  lemma {:induction false} NewItemsAt(items: seq<Item>, ids: set<string>, texts: set<string>) returns (at: seq<nat>)
    ensures PartOf(NewItems(items, ids, texts), items, at)
    ensures (forall n | 0 <= n < |at| :: at[n] < |items|)
            && forall i: nat | i < |items| :: i in at <==> Taken(items, ids, texts, at, i)
  {
    hide Norm, PartOf, Shifted, Taken;
    at := [];
    if items == [] {
      NoPart(items);
    } else {
      var it, rest := items[0], items[1..];
      assert items == [it] + rest;
      var known := it.blockId in ids || Norm(it.text) in texts;
      var ids', texts' := if known then ids else ids + {it.blockId}, if known then texts else texts + {Norm(it.text)};
      var a := NewItemsAt(rest, ids', texts');
      PartOfTail(it, NewItems(rest, ids', texts'), rest, a);
      at := if known then Shifted(a) else [0] + Shifted(a);
      PlacesFit(NewItems(items, ids, texts), items, at);
      forall i: nat | i < |items| ensures i in at <==> Taken(items, ids, texts, at, i) {
        if i > 0 {
          var j: nat := i - 1;
          TakenTail(items, ids, texts, a, i);
          assert i in at <==> j in a;
        } else {
          TakenFirst(items, ids, texts, at);
        }
      }
    }
  }

  lemma TakenFirst(items: seq<Item>, ids: set<string>, texts: set<string>, at: seq<nat>)
    requires items != [] && forall n | 0 <= n < |at| :: at[n] < |items|
    ensures Taken(items, ids, texts, at, 0) <==> items[0].blockId !in ids && Norm(items[0].text) !in texts
  {
    hide Norm;
  }

  lemma TakenTail(items: seq<Item>, ids: set<string>, texts: set<string>, a: seq<nat>, i: nat)
    requires 0 < i < |items| && forall n | 0 <= n < |a| :: a[n] < |items| - 1
    requires forall j: nat :: (j in Shifted(a) <==> j > 0 && j - 1 in a)
                              && (j in [0] + Shifted(a) <==> j == 0 || j - 1 in a)
    ensures var it := items[0]; var known := it.blockId in ids || Norm(it.text) in texts;
            Taken(items, ids, texts, if known then Shifted(a) else [0] + Shifted(a), i)
            == Taken(items[1..], if known then ids else ids + {it.blockId},
                 if known then texts else texts + {Norm(it.text)}, a, i - 1)
  {
    hide Norm, Shifted;
    var it, rest := items[0], items[1..];
    var known := it.blockId in ids || Norm(it.text) in texts;
    var ids', texts' := if known then ids else ids + {it.blockId}, if known then texts else texts + {Norm(it.text)};
    var at := if known then Shifted(a) else [0] + Shifted(a);
    forall n | 0 <= n < |at| ensures at[n] < |items| {
      assert at[n] in at;
      if at[n] > 0 { assert at[n] - 1 in a; }
    }
    assert rest[i - 1] == items[i];
    if Taken(items, ids, texts, at, i) {
      forall j | j in a && j < i - 1
        ensures rest[j].blockId != items[i].blockId && Norm(rest[j].text) != Norm(items[i].text)
      {
        assert j + 1 in at && items[j + 1] == rest[j];
      }
      if !known { assert 0 in at; }
    }
    if Taken(rest, ids', texts', a, i - 1) {
      forall j | j in at && j < i
        ensures items[j].blockId != items[i].blockId && Norm(items[j].text) != Norm(items[i].text)
      {
        if j > 0 { assert j - 1 in a && items[j] == rest[j - 1]; }
      }
    }
  }

  /** What a handler of appended items writes, and which of the thread's items. */
  lemma HandlerPicks(items: seq<Item>, present: seq<Item>, kind: string, lead: string)
      returns (at: seq<nat>, added: seq<Item>)
    requires kind == "decision" || kind == "resource" || kind == "question"
    requires lead == if kind == "question" then "Open question: " else ""
    ensures added == NewItems(MapAll(kind, OfKind(items, kind)), IdSet(present), TextSet(present))
    ensures Picked(items, present, kind, lead, at) && |at| == |added|
    ensures forall n | 0 <= n < |at| :: added[n] == Mapped(kind, items[at[n]])
  {
    hide Norm, Mapped, KindOf, PartOf;
    var mapped := MapAll(kind, OfKind(items, kind));
    var outer := OfKindAt(items, kind);
    var inner := NewItemsAt(mapped, IdSet(present), TextSet(present));
    added := NewItems(mapped, IdSet(present), TextSet(present));
    assert PartOf(added, mapped, inner);
    MapAllAt(kind, OfKind(items, kind));
    PlacesFit(added, mapped, inner);
    PlacesFit(OfKind(items, kind), items, outer);
    at := Through(outer, inner);
    PicksCompose(items, kind, outer, inner, at);
    forall i: nat | i < |items|
      ensures i in at <==> PickedAt(items, present, kind, lead, at, i)
    {
      PickedIff(items, present, kind, lead, outer, inner, at, i);
    }
  }

  lemma PlacesFit<T>(part: seq<T>, whole: seq<T>, at: seq<nat>)
    requires PartOf(part, whole, at)
    ensures |at| == |part|
    ensures forall n | 0 <= n < |at| :: at[n] < |whole| && part[n] == whole[at[n]]
    ensures forall m, n | 0 <= m < n < |at| :: at[m] < at[n]
  {}

  lemma {:induction false} MapAllAt(kind: string, items: seq<Item>)
    ensures forall n | 0 <= n < |items| :: MapAll(kind, items)[n] == Mapped(kind, items[n])
  {
    hide Mapped;
    if items != [] { MapAllAt(kind, items[1..]); }
  }

  lemma PicksCompose(items: seq<Item>, kind: string, outer: seq<nat>, inner: seq<nat>, at: seq<nat>)
    requires (forall n | 0 <= n < |outer| :: outer[n] < |items|)
             && forall m, n | 0 <= m < n < |outer| :: outer[m] < outer[n]
    requires (forall n | 0 <= n < |inner| :: inner[n] < |outer|)
             && forall m, n | 0 <= m < n < |inner| :: inner[m] < inner[n]
    requires at == Through(outer, inner)
    ensures |at| == |inner| && (forall n | 0 <= n < |at| :: at[n] == outer[inner[n]] < |items|)
    ensures forall m, n | 0 <= m < n < |at| :: at[m] < at[n]
    ensures forall m | 0 <= m < |outer| :: outer[m] in at <==> m in inner
  {
    forall m | 0 <= m < |outer| ensures outer[m] in at <==> m in inner {
      if m in inner {
        var n :| 0 <= n < |inner| && inner[n] == m;
        assert at[n] == outer[m];
      }
      if outer[m] in at {
        var n :| 0 <= n < |inner| && outer[inner[n]] == outer[m];
        assert inner[n] == m;
      }
    }
  }

  lemma MappedIs(kind: string, lead: string, it: Item)
    requires kind == "decision" || kind == "resource" || kind == "question"
    requires lead == if kind == "question" then "Open question: " else ""
    ensures Mapped(kind, it).blockId == it.blockId && Mapped(kind, it).text == lead + it.text
  {
    assert "" + it.text == it.text;
  }

  lemma KindIs(kind: string, it: Item)
    requires kind != "task"
    ensures KindOf(it) == kind <==> Get(it.fields, "kind") == Some(kind)
  {}

  lemma PickedIff(items: seq<Item>, present: seq<Item>, kind: string, lead: string, outer: seq<nat>, inner: seq<nat>,
      at: seq<nat>, i: nat)
    requires kind == "decision" || kind == "resource" || kind == "question"
    requires lead == if kind == "question" then "Open question: " else ""
    requires i < |items| && (forall n | 0 <= n < |outer| :: outer[n] < |items|)
             && forall m, n | 0 <= m < n < |outer| :: outer[m] < outer[n]
    requires forall j: nat | j < |items| :: j in outer <==> KindOf(items[j]) == kind
    requires var mapped := MapAll(kind, OfKind(items, kind));
             && |mapped| == |outer| && (forall n | 0 <= n < |outer| :: mapped[n] == Mapped(kind, items[outer[n]]))
             && (forall n | 0 <= n < |inner| :: inner[n] < |mapped|)
             && forall m: nat | m < |mapped| :: m in inner
                 <==> Taken(mapped, IdSet(present), TextSet(present), inner, m)
    requires (forall n | 0 <= n < |at| :: at[n] < |items|) && (forall j | j in at :: j in outer)
             && forall m | 0 <= m < |outer| :: outer[m] in at <==> m in inner
    ensures i in at <==> PickedAt(items, present, kind, lead, at, i)
  {
    hide Norm, Mapped, KindOf, OfKind, MapAll, Get, IdSet, TextSet;
    KindIs(kind, items[i]);
    if i in outer {
      var m :| 0 <= m < |outer| && outer[m] == i;
      TakenIsPicked(items, present, kind, lead, outer, inner, at, m);
    }
  }

  lemma Known(present: seq<Item>, id: string, text: string)
    ensures id !in IdSet(present) && Norm(text) !in TextSet(present)
            <==> forall x | x in present :: x.blockId != id && Norm(x.text) != Norm(text)
  {
    hide Norm;
  }

  lemma TakenIsPicked(items: seq<Item>, present: seq<Item>, kind: string, lead: string, outer: seq<nat>,
      inner: seq<nat>, at: seq<nat>, m: nat)
    requires kind == "decision" || kind == "resource" || kind == "question"
    requires lead == if kind == "question" then "Open question: " else ""
    requires m < |outer| && (forall n | 0 <= n < |outer| :: outer[n] < |items|)
             && forall m, n | 0 <= m < n < |outer| :: outer[m] < outer[n]
    requires Get(items[outer[m]].fields, "kind") == Some(kind)
    requires var mapped := MapAll(kind, OfKind(items, kind));
             && |mapped| == |outer| && (forall n | 0 <= n < |outer| :: mapped[n] == Mapped(kind, items[outer[n]]))
             && forall n | 0 <= n < |inner| :: inner[n] < |mapped|
    requires (forall n | 0 <= n < |at| :: at[n] < |items|) && (forall j | j in at :: j in outer)
             && forall m | 0 <= m < |outer| :: outer[m] in at <==> m in inner
    ensures Taken(MapAll(kind, OfKind(items, kind)), IdSet(present), TextSet(present), inner, m)
            <==> PickedAt(items, present, kind, lead, at, outer[m])
  {
    hide Norm, Mapped, KindOf, OfKind, MapAll, Get, IdSet, TextSet;
    var mapped := MapAll(kind, OfKind(items, kind));
    var i := outer[m];
    forall n | 0 <= n < |outer|
      ensures mapped[n].blockId == items[outer[n]].blockId && mapped[n].text == lead + items[outer[n]].text
    {
      MappedIs(kind, lead, items[outer[n]]);
    }
    Known(present, items[i].blockId, lead + items[i].text);
    if Taken(mapped, IdSet(present), TextSet(present), inner, m) {
      forall j | j in at && j < i
        ensures items[j].blockId != items[i].blockId && Norm(lead + items[j].text) != Norm(lead + items[i].text)
      {
        var n :| 0 <= n < |outer| && outer[n] == j;
        assert n < m && n in inner;
      }
    }
    if PickedAt(items, present, kind, lead, at, i) {
      forall n | n in inner && n < m
        ensures mapped[n].blockId != mapped[m].blockId && Norm(mapped[n].text) != Norm(mapped[m].text)
      {
        assert outer[n] in at && outer[n] < i;
      }
    }
  }

  // ---------------------------------------------------------------------
  // The sections after the handlers
  // ---------------------------------------------------------------------

  /** One handler of appended items. */
  lemma HandleAppends(p: Page, kind: string, items: seq<Item>)
    requires Initiative(p.pageType) && TitleFor(p.pageType, kind).Some? && kind != "task"
    requires Handle(p, kind, items).Applied?
    ensures var t, q := TitleFor(p.pageType, kind).value, Handle(p, kind, items).page;
            var added := Fresh(p, t, MapAll(kind, items));
            && SectionOf(p, t).Some? && SectionOf(q, t).Some?
            && SectionOf(q, t).value.body
               == if added == [] then SectionOf(p, t).value.body
                  else GrowFenced(SectionOf(p, t).value.body, "append", Addition(added))
  {
    hide SectionOf, OwnerOf, Fresh, MapAll, GrowFenced, Addition, Rewrite, FormatAll, BodyOf, TitleFor;
    var t := TitleFor(p.pageType, kind).value;
    var added := Fresh(p, t, MapAll(kind, items));
    TitlesOf(p.pageType, kind);
    if added != [] {
      AppendIsRewrite(p, t, added);
      PresentBody(p, t, Append);
      RewriteGets(p, t, Append, GrowFenced(AppendBody(p, t), "append", Addition(added)));
    }
  }

  /** After all the handlers, a section of appended items shows what its own made. */
  lemma {:induction false} KindsAppend(p: Page, kinds: seq<string>, items: seq<Item>, kind: string)
    requires Initiative(p.pageType) && TitleFor(p.pageType, kind).Some? && kind != "task"
    requires HandleKinds(p, kinds, items).Applied? && DistinctKinds(kinds)
    requires SectionOf(p, TitleFor(p.pageType, kind).value).Some?
    ensures var t, q := TitleFor(p.pageType, kind).value, HandleKinds(p, kinds, items).page;
            var added := Fresh(p, t, MapAll(kind, OfKind(items, kind)));
            && SectionOf(q, t).Some?
            && SectionOf(q, t).value.body
               == if kind !in kinds || added == [] then SectionOf(p, t).value.body
                  else GrowFenced(SectionOf(p, t).value.body, "append", Addition(added))
    decreases |kinds|
  {
    hide SectionOf, OwnerOf, Handle, MapAll, OfKind, GrowFenced, Addition, TitleFor, Initiative, DistinctKinds,
         NewItems, ParseItems;
    if kinds != [] {
      var k := kinds[0];
      FirstDiffers(kinds);
      var q := Handle(p, k, OfKind(items, k)).page;
      assert kinds == [k] + kinds[1..];
      if k == kind {
        HandleAppends(p, k, OfKind(items, k));
        HandleType(p, k, OfKind(items, k));
        KindsUndisturbed(q, kinds[1..], items, k);
      } else {
        Undisturbed(p, kind, k, OfKind(items, k));
        KindsAppend(q, kinds[1..], items, kind);
      }
    }
  }

  /** The lines the handlers of appended items write. */
  predicate LinesFor(kind: string, items: seq<Item>, at: seq<nat>, lines: seq<string>) {
    && |lines| == |at|
    && forall n | 0 <= n < |at| ::
         at[n] < |items| && lines[n] == if kind == "decision" then DecisionLine(items[at[n]])
                                       else if kind == "resource" then ResourceLine(items[at[n]])
                                       else QuestionLine(items[at[n]])
  }

  /** How a line of one field, and one of two, is put together. */
  lemma OneFieldLine(text: string, id: string, f: Field, open: string)
    requires open == " [" + f.key + ":: "
    ensures FormatItem(Item(text, id, None, [f])) == "- " + text + open + f.value + "] ^" + id
  {
    OneField(f);
    hide FormatFields;
    Regroup("- " + text, open, f.value, "]", " ^", id, "] ^");
  }

  lemma OneField(f: Field)
    ensures FormatFields([f]) == " [" + f.key + ":: " + f.value + "]"
  {
    assert [f][1..] == [] && FormatFields([]) == "";
    var t := " [" + f.key + ":: " + f.value + "]";
    assert t + "" == t;
  }

  lemma Regroup(front: string, open: string, value: string, close: string, caret: string, id: string, both: string)
    requires both == close + caret
    ensures front + (open + value + close) + caret + id == front + open + value + both + id
  {}

  lemma TwoFieldLine(text: string, id: string, f: Field, g: Field, between: string)
    requires between == " [" + f.key + ":: " + f.value + "] [" + g.key + ":: "
    ensures FormatItem(Item(text, id, None, [f, g])) == "- " + text + between + g.value + "] ^" + id
  {
    assert [f, g][1..] == [g];
    OneField(g);
    hide FormatFields;
    var first := " [" + f.key + ":: " + f.value + "]";
    var second := " [" + g.key + ":: ";
    assert "] [" == "]" + " [";
    assert between == first + second;
    Rejoin(first, second, g.value, "]");
    Regroup("- " + text, between, g.value, "]", " ^", id, "] ^");
  }

  lemma Rejoin(first: string, second: string, value: string, close: string)
    ensures first + (second + value + close) == first + second + value + close
  {}

  lemma MappedLine(kind: string, it: Item)
    requires kind == "decision" || kind == "resource" || kind == "question"
    ensures FormatItem(Mapped(kind, it))
            == if kind == "decision" then DecisionLine(it) else if kind == "resource" then ResourceLine(it)
               else QuestionLine(it)
  {
    hide SrcIds, Join, FormatItem;
    var f := SrcField(it);
    assert " [src:: " == " [" + "src" + ":: ";
    if kind == "decision" {
      assert " [by:: system] [src:: " == " [" + "by" + ":: " + "system" + "] [" + "src" + ":: ";
      TwoFieldLine(it.text, it.blockId, Field("by", "system"), f, " [by:: system] [src:: ");
    } else if kind == "resource" {
      OneFieldLine(it.text, it.blockId, f, " [src:: ");
    } else {
      OneFieldLine("Open question: " + it.text, it.blockId, f, " [src:: ");
      Led("- ", "Open question: ", it.text);
    }
  }

  lemma Led(bullet: string, lead: string, text: string)
    ensures bullet + (lead + text) == bullet + lead + text
  {}

  /** A body grown by added items shows their lines. */
  lemma GrownLands(was: string, added: seq<Item>)
    requires OneLineItems(added) && added != []
    ensures Landed(was, GrowFenced(was, "append", Addition(added)), FormatAll(added))
  {
    hide FenceOf, FencedText, OwnLines, ParseItems, StripNL, Join, NeutraliseLines, FormatItem, OneLineItem, GrowFenced,
         Neutralise, FormatAll, Unfenced, ParseLines;
    var lines := FormatAll(added);
    var now := GrowFenced(was, "append", Addition(added));
    if OwnLines(was) {
      var head, tail := GrownOwnLines(was, added);
      assert ParseItems(was) == head + tail && ParseItems(now) == head + ParseLines(NeutraliseLines(lines)) + tail;
    }
    if !FenceOf(was).Orphan? {
      AdditionIs(added);
      NeutraliseSafe(Join("\n", lines));
      GrownHolds(was, Addition(added));
    }
  }

  lemma AdditionIs(added: seq<Item>)
    requires OneLineItems(added) && added != []
    ensures Addition(added) == Neutralise(Join("\n", FormatAll(added)))
            == Join("\n", NeutraliseLines(FormatAll(added)))
  {
    hide FormatItem, SplitNL;
    FormatAllLines(added);
    SplitJoin(FormatAll(added));
  }

  lemma LandedNone(body: string)
    ensures Landed(body, body, [])
  {
    hide ParseItems, OwnLines;
    var items := ParseItems(body);
    assert ParseLines(NeutraliseLines([])) == [];
    assert items == items + [] && items == items + [] + [];
  }

  /** What a thread's items of one kind leave in their section. */
  lemma KindLands(p: Page, thread: Page, kind: string, lead: string, title: string)
      returns (at: seq<nat>, lines: seq<string>)
    requires kind == "decision" || kind == "resource" || kind == "question"
    requires lead == if kind == "question" then "Open question: " else ""
    requires Initiative(p.pageType) && TitleFor(p.pageType, kind) == Some(title)
    requires ApplyThread(p, thread).Applied? && SectionOf(p, title).Some?
    ensures var q := ApplyThread(p, thread).page; var items := ThreadItems(thread);
            && SectionOf(q, title).Some?
            && Picked(items, ParseItems(SectionOf(p, title).value.body), kind, lead, at)
            && LinesFor(kind, items, at, lines)
            && (forall n | 0 <= n < |at| :: Reads(lines[n], Mapped(kind, items[at[n]])))
            && Landed(SectionOf(p, title).value.body, SectionOf(q, title).value.body, lines)
  {
    hide TitleFor, SectionOf, Mapped, KindOf, ParseItems, FencedContent, GrowFenced, Addition, Norm, FormatItem,
         Picked, Landed, OneLineItem, DecisionLine, ResourceLine, QuestionLine, PlainItem, DistinctKinds, HandleKinds,
         Kinds, OfKind, NewItems, Initiative, Reads;
    var items := ThreadItems(thread);
    var q := ApplyThread(p, thread).page;
    var present := ParseItems(SectionOf(p, title).value.body);
    var added;
    at, added := HandlerPicks(items, present, kind, lead);
    lines := FormatAll(added);
    FormatAllAt(added);
    KindsDistinct(items, []);
    KindsAre(items, [], kind);
    NothingMapped(kind, present);
    KindsAppend(p, Kinds(items, []), items, kind);
    PickedFits(items, present, kind, lead, at);
    AddedPlain(thread, kind, present);
    forall n | 0 <= n < |at|
      ensures lines[n] == FormatItem(Mapped(kind, items[at[n]])) && OneLineItem(Mapped(kind, items[at[n]]))
    {
      MappedLine(kind, items[at[n]]);
      assert added[n] in added;
    }
    forall n | 0 <= n < |at| ensures Reads(lines[n], Mapped(kind, items[at[n]])) {
      LineReads(Mapped(kind, items[at[n]]));
    }
    MappedLines(kind, items, at, lines);
    if added == [] { LandedNone(SectionOf(p, title).value.body); } else {
      GrownLands(SectionOf(p, title).value.body, added);
    }
  }

  lemma MappedLines(kind: string, items: seq<Item>, at: seq<nat>, lines: seq<string>)
    requires kind == "decision" || kind == "resource" || kind == "question"
    requires |lines| == |at|
             && forall n | 0 <= n < |at| :: at[n] < |items| && lines[n] == FormatItem(Mapped(kind, items[at[n]]))
    ensures LinesFor(kind, items, at, lines)
  {
    hide Mapped, FormatItem, DecisionLine, ResourceLine, QuestionLine;
    forall n | 0 <= n < |at|
      ensures lines[n] == if kind == "decision" then DecisionLine(items[at[n]])
                          else if kind == "resource" then ResourceLine(items[at[n]])
                          else QuestionLine(items[at[n]])
    {
      MappedLine(kind, items[at[n]]);
    }
  }

  lemma PickedFits(items: seq<Item>, present: seq<Item>, kind: string, lead: string, at: seq<nat>)
    requires Picked(items, present, kind, lead, at)
    ensures forall n | 0 <= n < |at| :: at[n] < |items|
  {}

  lemma NothingMapped(kind: string, present: seq<Item>)
    ensures NewItems(MapAll(kind, []), IdSet(present), TextSet(present)) == []
  {}

  lemma AddedPlain(thread: Page, kind: string, present: seq<Item>)
    ensures OneLineItems(NewItems(MapAll(kind, OfKind(ThreadItems(thread), kind)), IdSet(present), TextSet(present)))
  {
    hide PlainItem, FencedContent, OfKind, OneLineItem, MapAll, NewItems;
    LinesHaveNoNewline(FencedContent(thread, "Items"));
    ParsedAllPlain(LinesOf(FencedContent(thread, "Items")));
    OfKindPlain(ThreadItems(thread), kind);
    MapAllPlain(kind, OfKind(ThreadItems(thread), kind));
    NewItemsAreItems(MapAll(kind, OfKind(ThreadItems(thread), kind)), IdSet(present), TextSet(present));
  }

  /** The line is read as an item of the id of `it`, and as `it` itself if that
      is clean. */
  predicate Reads(line: string, it: Item) {
    var r := ParseItemLine(NeutraliseLine(line));
    r.Some? && r.value.blockId == it.blockId && (Clean(it) ==> r.value == it)
  }

  lemma LineReads(it: Item)
    requires OneLineItem(it)
    ensures Reads(FormatItem(it), it)
  {
    hide FormatItem, NeutraliseLine, IsId, IdOf, Clean, ParseItemLine;
    BlockIdRecovered(it);
    ParsedIff(NeutraliseLine(FormatItem(it)));
    if Clean(it) { CleanReads(it); }
  }

  // ---------------------------------------------------------------------
  // Decisions, resources and questions
  // ---------------------------------------------------------------------

  /** A thread's decisions of a new id and text are at the end of the Decisions,
      by the system, with their sources; they and no others. */
  lemma DecisionsLand(p: Page, thread: Page) returns (at: seq<nat>, lines: seq<string>)
    requires Initiative(p.pageType) && ApplyThread(p, thread).Applied? && SectionOf(p, "Decisions").Some?
    ensures var q := ApplyThread(p, thread).page; var items := ThreadItems(thread);
            && SectionOf(q, "Decisions").Some?
            && Picked(items, ParseItems(SectionOf(p, "Decisions").value.body), "decision", "", at)
            && |lines| == |at| && (forall n | 0 <= n < |at| :: var it := items[at[n]];
                 && lines[n] == DecisionLine(it)
                 && Reads(lines[n], Item(it.text, it.blockId, None,
                     [Field("by", "system"), Field("src", Sources(it))])))
            && Landed(SectionOf(p, "Decisions").value.body, SectionOf(q, "Decisions").value.body, lines)
  {
    hide SectionOf, ApplyThread, ThreadItems, ParseItems, Picked, Landed, DecisionLine, Reads;
    at, lines := KindLands(p, thread, "decision", "", "Decisions");
    PickedFits(ThreadItems(thread), ParseItems(SectionOf(p, "Decisions").value.body), "decision", "", at);
  }

  /** The same of its resources. */
  lemma ResourcesLand(p: Page, thread: Page) returns (at: seq<nat>, lines: seq<string>)
    requires Initiative(p.pageType) && ApplyThread(p, thread).Applied? && SectionOf(p, "Resources").Some?
    ensures var q := ApplyThread(p, thread).page; var items := ThreadItems(thread);
            && SectionOf(q, "Resources").Some?
            && Picked(items, ParseItems(SectionOf(p, "Resources").value.body), "resource", "", at)
            && |lines| == |at| && (forall n | 0 <= n < |at| :: var it := items[at[n]];
                 && lines[n] == ResourceLine(it)
                 && Reads(lines[n], Item(it.text, it.blockId, None, [Field("src", Sources(it))])))
            && Landed(SectionOf(p, "Resources").value.body, SectionOf(q, "Resources").value.body, lines)
  {
    hide SectionOf, ApplyThread, ThreadItems, ParseItems, Picked, Landed, ResourceLine, Reads;
    at, lines := KindLands(p, thread, "resource", "", "Resources");
    PickedFits(ThreadItems(thread), ParseItems(SectionOf(p, "Resources").value.body), "resource", "", at);
  }

  /** Its questions are in the Log, as open questions. */
  lemma QuestionsLand(p: Page, thread: Page) returns (at: seq<nat>, lines: seq<string>)
    requires Initiative(p.pageType) && ApplyThread(p, thread).Applied? && SectionOf(p, "Log").Some?
    ensures var q := ApplyThread(p, thread).page; var items := ThreadItems(thread);
            && SectionOf(q, "Log").Some?
            && Picked(items, ParseItems(SectionOf(p, "Log").value.body), "question", "Open question: ", at)
            && |lines| == |at| && (forall n | 0 <= n < |at| :: var it := items[at[n]];
                 && lines[n] == QuestionLine(it)
                 && Reads(lines[n], Item("Open question: " + it.text, it.blockId, None, [Field("src", Sources(it))])))
            && Landed(SectionOf(p, "Log").value.body, SectionOf(q, "Log").value.body, lines)
  {
    hide SectionOf, ApplyThread, ThreadItems, ParseItems, Picked, Landed, QuestionLine, Reads;
    at, lines := KindLands(p, thread, "question", "Open question: ", "Log");
    PickedFits(ThreadItems(thread), ParseItems(SectionOf(p, "Log").value.body), "question", "Open question: ", at);
  }

  // ---------------------------------------------------------------------
  // Tasks
  // ---------------------------------------------------------------------

  /** A task says so, or says no kind. */
  predicate IsTask(it: Item) { Get(it.fields, "kind") in {None, Some("task")} }

  predicate TaskAt(items: seq<Item>, id: string, k: nat) { k < |items| && IsTask(items[k]) && items[k].blockId == id }

  predicate FirstTask(items: seq<Item>, id: string, k: nat) {
    TaskAt(items, id, k) && forall j: nat | j < k :: !TaskAt(items, id, j)
  }

  predicate LastTask(items: seq<Item>, id: string, k: nat) {
    TaskAt(items, id, k) && forall j: nat | k < j < |items| :: !TaskAt(items, id, j)
  }

  /** `it` is the thread's task with what sticks of the page's: the tick, the
      owner and the due date. */
  ghost predicate Merges(was: Item, now: Item, it: Item) {
    && it.text == now.text && it.blockId == now.blockId
    && it.checked == (if was.checked == Some(true) then Some(true) else now.checked)
    && Get(it.fields, "owner") == Get(if Get(was.fields, "owner").Some? then was.fields else now.fields, "owner")
    && Get(it.fields, "due") == Get(if Get(was.fields, "due").Some? then was.fields else now.fields, "due")
    && forall key | key != "owner" && key != "due" :: Get(it.fields, key) == Get(now.fields, key)
  }

  lemma {:induction false} FirstTaskIs(items: seq<Item>, id: string, k: nat)
    requires FirstTask(items, id, k)
    ensures FirstOf(OfKind(items, "task"), id) == Some(items[k])
  {
    if k > 0 {
      var rest := items[1..];
      assert !TaskAt(items, id, 0);
      forall j: nat | j < k - 1 ensures !TaskAt(rest, id, j) { assert !TaskAt(items, id, j + 1); }
      FirstTaskIs(rest, id, k - 1);
      assert OfKind(items, "task")
             == (if KindOf(items[0]) == "task" then [items[0]] else []) + OfKind(rest, "task");
      assert ([items[0]] + OfKind(rest, "task"))[1..] == OfKind(rest, "task");
    }
  }

  lemma {:induction false} NoTask(items: seq<Item>, id: string)
    requires forall j: nat | j < |items| :: !TaskAt(items, id, j)
    ensures FirstOf(OfKind(items, "task"), id) == None && Lookup(OfKind(items, "task"), id) == None
  {
    if items != [] {
      var rest := items[1..];
      assert !TaskAt(items, id, 0);
      forall j: nat | j < |rest| ensures !TaskAt(rest, id, j) { assert !TaskAt(items, id, j + 1); }
      NoTask(rest, id);
      assert ([items[0]] + OfKind(rest, "task"))[1..] == OfKind(rest, "task");
    }
  }

  lemma {:induction false} LastTaskIs(items: seq<Item>, id: string, k: nat)
    requires LastTask(items, id, k)
    ensures Lookup(OfKind(items, "task"), id) == Some(items[k])
  {
    var rest := items[1..];
    assert ([items[0]] + OfKind(rest, "task"))[1..] == OfKind(rest, "task");
    if k > 0 {
      forall j: nat | k - 1 < j < |rest| ensures !TaskAt(rest, id, j) { assert !TaskAt(items, id, j + 1); }
      LastTaskIs(rest, id, k - 1);
    } else {
      forall j: nat | j < |rest| ensures !TaskAt(rest, id, j) { assert !TaskAt(items, id, j + 1); }
      NoTask(rest, id);
    }
  }

  /** The task section, by the page's type, shows each task of the thread: on a
      line of its own if the page had none of its id, and merged into the
      page's otherwise. A task the thread does not have stays as it is. */
  lemma TasksLand(p: Page, thread: Page, id: string, title: string)
    requires Initiative(p.pageType) && title == (if p.pageType == "project" then "Open tasks" else "Logistics")
    requires ApplyThread(p, thread).Applied? && SectionOf(p, title).Some?
    ensures SectionOf(ApplyThread(p, thread).page, title).Some?
    ensures var was, now := SectionOf(p, title).value.body, SectionOf(ApplyThread(p, thread).page, title).value.body;
            var before, after := LineOf(LinesOf(FencedText(was)), id), LineOf(LinesOf(FencedText(now)), id);
            var items := ThreadItems(thread);
            && (forall k: nat | FirstTask(items, id, k) && before.None? ::
                 after == Some(NeutraliseLine(FormatItem(items[k]))))
            && (forall k: nat | LastTask(items, id, k) && before.Some? && !FenceOf(was).Orphan? ::
                 exists it :: after == Some(NeutraliseLine(FormatItem(it)))
                              && Merges(ParseItemLine(before.value).value, items[k], it))
            && ((forall k: nat | k < |items| :: !TaskAt(items, id, k)) ==>
                 after == before || (before.Some? && after == Some(NeutraliseLine(before.value))))
  {
    hide OfKind, SectionOf, ApplyThread, ThreadItems, LineOf, LinesOf, FencedText, ParseItemLine, NeutraliseLine,
         FormatItem, FirstTask, LastTask, TaskAt, MergeItem, Initiative, Merges, FenceOf, Lookup, FirstOf;
    var q := ApplyThread(p, thread).page;
    ThreadLine(p, thread, id);
    TaskSectionStays(p, thread, title);
    var items := ThreadItems(thread);
    var tasks := OfKind(items, "task");
    var was := SectionOf(p, title).value.body;
    var before, after := SeenLine(was, id), LineOn(q, id);
    NothingFound(id);
    TaskFits(items, id);
    forall k: nat | FirstTask(items, id, k) && before.None?
      ensures after == Some(NeutraliseLine(FormatItem(items[k])))
    {
      FirstTaskIs(items, id, k);
    }
    forall k: nat | LastTask(items, id, k) && before.Some? && !FenceOf(was).Orphan?
      ensures exists it :: after == Some(NeutraliseLine(FormatItem(it)))
                           && Merges(ParseItemLine(before.value).value, items[k], it)
    {
      LastTaskIs(items, id, k);
      var m := ParseItemLine(before.value).value;
      MergedIs(m, items[k]);
      assert after == Some(NeutraliseLine(FormatItem(MergeItem(m, items[k]))));
    }
    if forall k: nat | k < |items| :: !TaskAt(items, id, k) { NoTask(items, id); }
  }

  lemma TaskFits(items: seq<Item>, id: string)
    ensures forall k: nat | FirstTask(items, id, k) || LastTask(items, id, k) :: k < |items| && items[k].blockId == id
  {}

  lemma NothingFound(id: string)
    ensures FirstOf([], id) == None && Lookup([], id) == None
  {}

  lemma MergedIs(was: Item, now: Item)
    requires was.blockId == now.blockId
    ensures Merges(was, now, MergeItem(was, now))
  {
    hide MergeItem, Get;
    MergeMeans(was, now);
  }

  lemma TaskSectionStays(p: Page, thread: Page, title: string)
    requires Initiative(p.pageType) && title == TaskTitle(p.pageType)
    requires ApplyThread(p, thread).Applied? && SectionOf(p, title).Some?
    ensures SectionOf(ApplyThread(p, thread).page, title).Some? && ApplyThread(p, thread).page.pageType == p.pageType
  {
    hide SectionOf, Handle, HandleKinds, Kinds, ParseItems, FencedContent;
    var items := ThreadItems(thread);
    KindsStay(p, Kinds(items, []), items, title);
  }

  lemma {:induction false} KindsStay(p: Page, kinds: seq<string>, items: seq<Item>, title: string)
    requires HandleKinds(p, kinds, items).Applied?
    ensures SectionOf(p, title).Some? ==> SectionOf(HandleKinds(p, kinds, items).page, title).Some?
    ensures HandleKinds(p, kinds, items).page.pageType == p.pageType
    decreases |kinds|
  {
    hide Handle, OfKind, SectionOf;
    if kinds != [] {
      HandleStays(p, kinds[0], OfKind(items, kinds[0]), title);
      KindsStay(Handle(p, kinds[0], OfKind(items, kinds[0])).page, kinds[1..], items, title);
    }
  }

  lemma HandleStays(p: Page, kind: string, items: seq<Item>, title: string)
    requires Handle(p, kind, items).Applied?
    ensures var q := Handle(p, kind, items).page;
            q.pageType == p.pageType && (SectionOf(p, title).Some? ==> SectionOf(q, title).Some?)
  {
    hide Handle, SectionOf, OwnerOf, Canonical, Rewrite;
    var changed, o, body := HandleRewrites(p, kind, items);
    if changed {
      var t := TitleFor(p.pageType, kind).value;
      RewriteGets(p, t, o, body);
      if Canonical(p.pageType, title) == Canonical(p.pageType, t) {
        SameTitle(Rewrite(p, t, o, body), title, t);
      } else {
        PresentOthers(p, t, o, body, title);
      }
    }
  }

  lemma SameTitle(p: Page, s: string, t: string)
    requires Canonical(p.pageType, s) == Canonical(p.pageType, t)
    ensures SectionOf(p, s) == SectionOf(p, t)
  {}

  // ---------------------------------------------------------------------
  // What a thread leaves, and when it fails
  // ---------------------------------------------------------------------

  /** A section none of the thread's items are for stays byte for byte. */
  lemma OthersUntouched(p: Page, thread: Page, other: string)
    requires Initiative(p.pageType) && ApplyThread(p, thread).Applied?
    requires forall it | it in ThreadItems(thread) ::
               var c, kind := Canonical(p.pageType, other), Get(it.fields, "kind");
               && (kind == Some("decision") ==> c != "Decisions") && (kind == Some("resource") ==> c != "Resources")
               && (kind == Some("question") ==> c != "Log")
               && (IsTask(it) ==> c != if p.pageType == "project" then "Open tasks" else "Logistics")
    ensures SectionOf(ApplyThread(p, thread).page, other) == SectionOf(p, other)
  {
    hide SectionOf, HandleKinds, Kinds, ParseItems, FencedContent, Canonical, OfKind, Initiative, Get;
    var items := ThreadItems(thread);
    forall k | k in Kinds(items, []) && TitleFor(p.pageType, k).Some?
      ensures Canonical(p.pageType, TitleFor(p.pageType, k).value) != Canonical(p.pageType, other)
    {
      KindsAre(items, [], k);
      var it := OneOfKind(items, k);
      KindMeans(it);
      hide OwnerOf;
      TitlesOf(p.pageType, k);
    }
    KindsLeave(p, Kinds(items, []), items, other);
  }

  lemma KindMeans(it: Item)
    ensures KindOf(it) == "task" <==> IsTask(it)
    ensures KindOf(it) != "task" ==> Get(it.fields, "kind") == Some(KindOf(it))
  {}

  lemma {:induction false} OneOfKind(items: seq<Item>, kind: string) returns (it: Item)
    requires OfKind(items, kind) != []
    ensures it in items && KindOf(it) == kind
  {
    hide KindOf;
    if KindOf(items[0]) == kind { it := items[0]; } else { it := OneOfKind(items[1..], kind); }
  }

  lemma {:induction false} KindsLeave(p: Page, kinds: seq<string>, items: seq<Item>, other: string)
    requires HandleKinds(p, kinds, items).Applied?
    requires forall k | k in kinds && TitleFor(p.pageType, k).Some? ::
               Canonical(p.pageType, TitleFor(p.pageType, k).value) != Canonical(p.pageType, other)
    ensures SectionOf(HandleKinds(p, kinds, items).page, other) == SectionOf(p, other)
    decreases |kinds|
  {
    hide Handle, OfKind, SectionOf, TitleFor, Canonical, OwnerOf, Rewrite;
    if kinds != [] {
      var k := kinds[0];
      assert k in kinds && forall j | j in kinds[1..] :: j in kinds;
      var q := Handle(p, k, OfKind(items, k)).page;
      var changed, o, body := HandleRewrites(p, k, OfKind(items, k));
      if changed {
        RewriteGets(p, TitleFor(p.pageType, k).value, o, body);
        PresentOthers(p, TitleFor(p.pageType, k).value, o, body, other);
      }
      KindsLeave(q, kinds[1..], items, other);
    }
  }

  /** A thread cannot be applied exactly if it has a decision, resource or question
      and the page no section for it. */
  lemma FailsIff(p: Page, thread: Page)
    requires Initiative(p.pageType)
    ensures ApplyThread(p, thread).Failed?
            <==> exists it :: it in ThreadItems(thread) && Lacks(p, Get(it.fields, "kind"))
  {
    hide SectionOf, HandleKinds, Kinds, ParseItems, FencedContent, OfKind, Initiative, Get, DistinctKinds;
    var items := ThreadItems(thread);
    var kinds := Kinds(items, []);
    KindsDistinct(items, []);
    KindsFailIff(p, kinds, items);
    if ApplyThread(p, thread).Failed? {
      var k :| k in kinds && Lacks(p, Some(k));
      KindsAre(items, [], k);
      var it := OneOfKind(items, k);
      KindMeans(it);
    }
    if it :| it in items && Lacks(p, Get(it.fields, "kind")) {
      KindsAre(items, [], KindOf(it));
      KindMeans(it);
      OfOwnKind(items, it);
    }
  }

  /** The page has no section for appended items of the kind. */
  predicate Lacks(p: Page, kind: Option<string>) {
    || (kind == Some("decision") && SectionOf(p, "Decisions").None?)
    || (kind == Some("resource") && SectionOf(p, "Resources").None?)
    || (kind == Some("question") && SectionOf(p, "Log").None?)
  }

  lemma {:induction false} OfOwnKind(items: seq<Item>, it: Item)
    requires it in items
    ensures OfKind(items, KindOf(it)) != []
  {
    hide KindOf;
    if KindOf(items[0]) != KindOf(it) {
      assert items == [items[0]] + items[1..];
      OfOwnKind(items[1..], it);
    }
  }

  lemma HandleFailsIff(p: Page, kind: string, items: seq<Item>)
    requires Initiative(p.pageType)
    ensures Handle(p, kind, items).Failed? <==> Lacks(p, Some(kind))
  {
    hide SectionOf, OwnerOf, Fresh, MapAll, FormatAll, Rewrite, BodyOf, Addition, GrowFenced, Canonical;
    if TitleFor(p.pageType, kind).Some? {
      var t := TitleFor(p.pageType, kind).value;
      TitlesOf(p.pageType, kind);
      if kind != "task" && Fresh(p, t, MapAll(kind, items)) != [] {
        var added := Fresh(p, t, MapAll(kind, items));
        AppendIsRewrite(p, t, added);
        RewriteGets(p, t, Append, GrowFenced(AppendBody(p, t), "append", Addition(added)));
      }
    }
  }

  lemma {:induction false} KindsFailIff(p: Page, kinds: seq<string>, items: seq<Item>)
    requires Initiative(p.pageType) && DistinctKinds(kinds)
    ensures HandleKinds(p, kinds, items).Failed? <==> exists k :: k in kinds && Lacks(p, Some(k))
    decreases |kinds|
  {
    hide SectionOf, Handle, OfKind, Initiative, DistinctKinds, TitleFor, Lacks;
    if kinds != [] {
      var k := kinds[0];
      FirstDiffers(kinds);
      assert kinds == [k] + kinds[1..];
      HandleFailsIff(p, k, OfKind(items, k));
      if Handle(p, k, OfKind(items, k)).Applied? {
        var q := Handle(p, k, OfKind(items, k)).page;
        HandleType(p, k, OfKind(items, k));
        forall j | j in kinds[1..] ensures Lacks(q, Some(j)) == Lacks(p, Some(j)) {
          Undisturbed(p, j, k, OfKind(items, k));
          LacksSame(p, q, j);
        }
        KindsFailIff(q, kinds[1..], items);
      }
    }
  }

  lemma LacksSame(p: Page, q: Page, kind: string)
    requires q.pageType == p.pageType && Initiative(p.pageType)
    requires TitleFor(p.pageType, kind).Some? ==>
               SectionOf(q, TitleFor(p.pageType, kind).value) == SectionOf(p, TitleFor(p.pageType, kind).value)
    ensures Lacks(q, Some(kind)) == Lacks(p, Some(kind))
  {
    hide SectionOf;
  }

  // ---------------------------------------------------------------------
  // Sources
  // ---------------------------------------------------------------------

  /** The pieces that are not blank, trimmed. */
  function Filled(pieces: seq<string>): seq<string> {
    if pieces == [] then []
    else (if Trim(pieces[0]) == "" then [] else [Trim(pieces[0])]) + Filled(pieces[1..])
  }

  /** The sources of an item are what stands between the commas of its `src`. */
  lemma SourcesAre(it: Item) returns (pieces: seq<string>)
    ensures (match Get(it.fields, "src") case Some(raw) => raw case None => "") == Join(",", pieces)
    ensures forall i | 0 <= i < |pieces| :: ',' !in pieces[i]
    ensures SrcIds(it) == Filled(pieces)
  {
    pieces := PiecesAre(match Get(it.fields, "src") case Some(raw) => raw case None => "");
  }

  lemma {:induction false} PiecesAre(raw: string) returns (pieces: seq<string>)
    ensures raw == Join(",", pieces) && pieces != [] && forall i | 0 <= i < |pieces| :: ',' !in pieces[i]
    ensures SrcParts(raw) == Filled(pieces)
    decreases |raw|
  {
    hide Trim;
    var i := Comma(raw);
    CommaFirst(raw);
    if i == |raw| {
      pieces := [raw];
      assert raw[..i] == raw && pieces[1..] == [];
    } else {
      var rest := PiecesAre(raw[i + 1..]);
      pieces := [raw[..i]] + rest;
      assert pieces[1..] == rest;
      assert raw == raw[..i] + "," + raw[i + 1..];
    }
  }

  lemma {:induction false} CommaFirst(s: string)
    ensures ',' !in s[..Comma(s)] && (Comma(s) < |s| ==> s[Comma(s)] == ',')
  {
    if s != "" && s[0] != ',' {
      CommaFirst(s[1..]);
      assert s[..Comma(s)] == [s[0]] + s[1..][..Comma(s[1..])];
    }
  }
}
