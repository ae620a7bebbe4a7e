/** `append_items` and `upsert_items` (shared/wiki/editor.py): writing items by
    block id, so that applying the same items again changes nothing. */
module ItemEdits {
  import opened Options
  import opened Text
  import opened PageFormat
  import opened Schema
  import opened Neutral
  import opened Fence
  import opened Editor
  import opened Tidy
  import opened Items
  import opened ItemText
  import opened Sections

  /** `_norm`. */
  function Norm(text: string): string { Lower(OneLine(text)) }

  function FormatAll(items: seq<Item>): (ls: seq<string>)
    ensures |ls| == |items|
  {
    if items == [] then [] else [FormatItem(items[0])] + FormatAll(items[1..])
  }

  function IdSet(items: seq<Item>): set<string> { set it | it in items :: it.blockId }

  function TextSet(items: seq<Item>): set<string> { set it | it in items :: Norm(it.text) }

  // ---------------------------------------------------------------------
  // append_items
  // ---------------------------------------------------------------------

  /** The items whose id and text are new, in order. */
  function NewItems(items: seq<Item>, ids: set<string>, texts: set<string>): seq<Item> {
    if items == [] then []
    else if items[0].blockId in ids || Norm(items[0].text) in texts then NewItems(items[1..], ids, texts)
    else [items[0]] + NewItems(items[1..], ids + {items[0].blockId}, texts + {Norm(items[0].text)})
  }

  /** The items a section already shows, inside its fence or outside. */
  function Present(p: Page, title: string): seq<Item> {
    match SectionOf(p, title)
    case Some(s) => ParseItems(s.body)
    case None => []
  }

  function Fresh(p: Page, title: string, items: seq<Item>): seq<Item> {
    NewItems(items, IdSet(Present(p, title)), TextSet(Present(p, title)))
  }

  function AppendItems(p: Page, title: string, items: seq<Item>): Result<Page> {
    match Require(p, title, {Append})
    case Err(e) => Err(e)
    case Ok(_) =>
      if Fresh(p, title, items) == [] then Ok(p)
      else AppendLines(p, title, FormatAll(Fresh(p, title, items)), false)
  }

  /** The loop of `append_items` that picks the new lines. */
  method PickNewLines(items: seq<Item>, present: seq<Item>) returns (lines: seq<string>)
    ensures lines == FormatAll(NewItems(items, IdSet(present), TextSet(present)))
  {
    hide Norm, FormatItem;
    var ids, texts := IdSet(present), TextSet(present);
    lines := [];
    ghost var all := NewItems(items, ids, texts);
    assert items[0..] == items;
    for i := 0 to |items|
      invariant lines + FormatAll(NewItems(items[i..], ids, texts)) == FormatAll(all)
    {
      var item := items[i];
      assert items[i..][1..] == items[i + 1..];
      if !(item.blockId in ids || Norm(item.text) in texts) {
        ids := ids + {item.blockId};
        texts := texts + {Norm(item.text)};
        lines := lines + [FormatItem(item)];
        FormatCons(item, NewItems(items[i + 1..], ids, texts));
      }
    }
    assert items[|items|..] == [];
  }

  lemma FormatCons(it: Item, rest: seq<Item>)
    ensures FormatAll([it] + rest) == [FormatItem(it)] + FormatAll(rest)
  {
    assert ([it] + rest)[1..] == rest;
  }

  lemma {:induction false} FormatAllAt(items: seq<Item>)
    ensures forall n | 0 <= n < |items| :: FormatAll(items)[n] == FormatItem(items[n])
  {
    hide FormatItem;
    if items != [] { FormatAllAt(items[1..]); }
  }

  /** An item that takes one line. */
  predicate OneLineItem(it: Item) { IsId(it.blockId) && NoNewline(FormatItem(it)) }

  predicate OneLineItems(items: seq<Item>) { forall it | it in items :: OneLineItem(it) }

  /** What the written line of an item parses back to. */
  function ReadBack(it: Item): Option<Item> { ParseItemLine(NeutraliseLine(FormatItem(it))) }

  /** The items a batch's written lines parse back to. */
  function ReadAll(items: seq<Item>): seq<Item> { ParseLines(NeutraliseLines(FormatAll(items))) }

  lemma {:induction false} ReadAllItems(items: seq<Item>)
    requires OneLineItems(items)
    ensures |ReadAll(items)| == |items|
    ensures forall i | 0 <= i < |items| ::
              ReadAll(items)[i].blockId == items[i].blockId && ReadBack(items[i]) == Some(ReadAll(items)[i])
  {
    hide FormatItem, NeutraliseLine, ParseItemLine, IsId;
    if items != [] {
      assert OneLineItem(items[0]);
      BlockIdRecovered(items[0]);
      ReadAllItems(items[1..]);
      ReadCons(items);
    }
  }

  lemma ReadCons(items: seq<Item>)
    requires items != [] && ReadBack(items[0]).Some?
    ensures ReadAll(items) == [ReadBack(items[0]).value] + ReadAll(items[1..])
  {
    hide FormatItem, NeutraliseLine, ParseItemLine;
    var ls := FormatAll(items);
    assert NeutraliseLines(ls)[1..] == NeutraliseLines(ls[1..]);
  }

  lemma {:induction false} FormatAllLines(items: seq<Item>)
    requires OneLineItems(items)
    ensures forall i | 0 <= i < |items| :: NoNewline(FormatAll(items)[i]) && FormatAll(items)[i] == FormatItem(items[i])
    ensures StripLines(FormatAll(items)) == FormatAll(items)
  {
    hide FormatItem;
    if items != [] {
      FormatAllLines(items[1..]);
      assert items[0] in items;
      StripNothing(FormatItem(items[0]));
    }
  }

  lemma StripNothing(l: string)
    requires NoNewline(l)
    ensures StripRightNL(l) == l
  {}

  /** The section body `append_items` starts from. */
  function AppendBody(p: Page, title: string): string { BodyOf(p, title, Append) }

  /** The text `append_lines` writes for them. */
  function Addition(items: seq<Item>): string { Neutralise(Join("\n", StripLines(FormatAll(items)))) }

  /** The items a body shows once `add` is appended. The first line of `add` joins
      the opening marker's, if that marker does not end its line and the fence
      shows nothing. */
  function ItemsGrown(body: string, add: string): seq<Item> {
    var (before, inner, after) := SplitFence(body, "append");
    if Closed(before) || StripNL(inner) != ""
    then ParseItems(before + StripNL(inner)) + ParseItems(add) + ParseItems(after)
    else ParseItems(before + StripNL(add)) + ParseItems(after)
  }

  lemma GrownItems(body: string, add: string)
    requires StripNL(add) != ""
    ensures ParseItems(GrowFenced(body, "append", add)) == ItemsGrown(body, add)
  {
    hide SplitFence, ParseLines, LinesOf, StripNL;
    var (before, inner, after) := SplitFence(body, "append");
    var x := StripNL(inner + "\n" + add);
    StripKeepsText(inner, add);
    assert before + (x + "\n") + after == (before + x) + "\n" + after;
    ItemsGrow(before + x, after);
    if StripNL(inner) != "" {
      GrownLines(before, inner, add);
      SameItems(before + x, before + StripNL(inner) + "\n" + add);
      ItemsGrow(before + StripNL(inner), add);
    } else {
      StripBlank(inner, add);
      if Closed(before) {
        ClosedItems(before, add);
        assert before + "" == before;
      }
    }
  }

  lemma ClosedItems(before: string, add: string)
    requires Closed(before)
    ensures ParseItems(before + StripNL(add)) == ParseItems(before) + ParseItems(add)
  {
    hide LinesOf, ParseLines, StripNL;
    LinesConcat(before, StripNL(add));
    ParseConcat(LinesOf(before), LinesOf(StripNL(add)));
    ShownStrip(add);
    SameItems(StripNL(add), add);
  }

  lemma SameItems(a: string, b: string)
    requires Shown(a) == Shown(b)
    ensures ParseItems(a) == ParseItems(b)
  {
    ParseShown(LinesOf(a));
    ParseShown(LinesOf(b));
  }

  lemma StripKeepsText(a: string, b: string)
    requires StripNL(b) != ""
    ensures StripNL(a + "\n" + b) != ""
  {
    var t := a + "\n" + b;
    StripParts(b);
    var i := LeadNL(b, 0);
    assert t[|a| + 1 + i] == b[i];
    StripKeeps(t, |a| + 1 + i, |a| + 2 + i);
  }

  lemma StripBlank(a: string, b: string)
    requires StripNL(a) == "" && StripNL(b) != ""
    ensures StripNL(a + "\n" + b) == StripNL(b)
  {
    var t := a + "\n" + b;
    StripParts(a);
    StripParts(b);
    var i, j := LeadNL(b, 0), TrailNL(b, LeadNL(b, 0), |b|);
    assert forall k | 0 <= k < |a| :: a[k] == NL;
    StripIs(t, |a| + 1 + i, |a| + 1 + j);
    assert t[|a| + 1 + i..|a| + 1 + j] == b[i..j];
  }

  /** Newlines stripped from the end show nothing. */
  lemma ShownCut(before: string, t: string, a: nat, b: nat)
    requires a <= b <= |t| && forall k | b <= k < |t| :: t[k] == NL
    ensures Shown(before + t[a..b]) == Shown(before + t[a..])
  {
    hide Shown;
    var whole, n := before + t[a..], |before| + b - a;
    forall k | n <= k < |whole| ensures whole[k] == NL { assert whole[k] == t[a + k - |before|]; }
    ShownTrail(whole, n);
    assert whole[..n] == before + t[a..b];
  }

  lemma LeadKept(a: string, b: string)
    requires StripNL(a) != ""
    ensures LeadNL(a + "\n" + b, 0) == LeadNL(a, 0) <= |a|
  {
    StripParts(a);
    var t := a + "\n" + b;
    assert forall k | 0 <= k < |a| :: t[k] == a[k];
    LeadIs(t, 0, LeadNL(a, 0));
  }

  /** Behind a fence that shows something, what is appended is on its own lines. */
  lemma GrownLines(before: string, inner: string, add: string)
    requires StripNL(inner) != ""
    ensures Shown(before + StripNL(inner + "\n" + add)) == Shown(before + StripNL(inner) + "\n" + add)
  {
    var t := inner + "\n" + add;
    StripParts(inner);
    StripParts(t);
    LeadKept(inner, add);
    hide Shown, LeadNL, TrailNL, StripNL;
    var a := LeadNL(inner, 0);
    var b, d := TrailNL(inner, a, |inner|), TrailNL(t, a, |t|);
    ShownCut(before, t, a, d);
    ShownCut(before, inner, a, b);
    assert before + t[a..] == (before + inner[a..]) + "\n" + add;
    ShownGrow(before + inner[a..], add);
    ShownGrow(before + inner[a..b], add);
  }

  /** Appending to a fence whose markers stand on lines of their own adds exactly
      the new items, and keeps every item there was. */
  lemma GrownOwnLines(body: string, added: seq<Item>) returns (head: seq<Item>, tail: seq<Item>)
    requires OwnLines(body) && OneLineItems(added) && added != []
    ensures ParseItems(body) == head + tail
    ensures ParseItems(GrowFenced(body, "append", Addition(added))) == head + ReadAll(added) + tail
  {
    hide SplitFence, OwnLines, Inner, LinesOf, ParseLines, FormatItem, NeutraliseLine, ParseItemLine;
    assert OwnerName("append") by { OwnerNames(Append); }
    var (before, inner, after) := SplitFence(body, "append");
    FormatAllLines(added);
    var add := Addition(added);
    ShownNeutral(FormatAll(added));
    ItemsOfPut(body, "append", inner + "\n" + add);
    ItemsBySplit(body, "append");
    ItemsGrow(inner, add);
    ItemsShown(add, NeutraliseLines(FormatAll(added)));
    head, tail := ParseItems(before) + ParseItems(inner), ParseItems(after);
    Assoc(ParseItems(before), ParseItems(inner), ReadAll(added));
  }

  lemma ItemsGrow(a: string, b: string)
    ensures ParseItems(a + "\n" + b) == ParseItems(a) + ParseItems(b)
  {
    hide LinesOf, ParseLines, NonBlank;
    ShownGrow(a, b);
    ParseShown(LinesOf(a + "\n" + b));
    ParseShown(LinesOf(a));
    ParseShown(LinesOf(b));
    ParseConcat(Shown(a), Shown(b));
  }

  lemma ItemsShown(t: string, ls: seq<string>)
    requires Shown(t) == NonBlank(ls)
    ensures ParseItems(t) == ParseLines(ls)
  {
    hide LinesOf, ParseLines, NonBlank;
    ParseShown(LinesOf(t));
    ParseShown(ls);
  }

  /** What is skipped against larger sets: everything, exactly when each item's
      id or text is in them. */
  lemma {:induction false} NothingNew(items: seq<Item>, ids: set<string>, texts: set<string>)
    ensures NewItems(items, ids, texts) == []
            <==> forall it | it in items :: it.blockId in ids || Norm(it.text) in texts
  {
    hide Norm;
    if items != [] {
      NothingNew(items[1..], ids, texts);
      assert items == [items[0]] + items[1..];
    }
  }

  lemma {:induction false} NewItemsAreItems(items: seq<Item>, ids: set<string>, texts: set<string>)
    ensures forall it | it in NewItems(items, ids, texts) :: it in items
  {
    hide Norm;
    if items != [] {
      if items[0].blockId in ids || Norm(items[0].text) in texts {
        NewItemsAreItems(items[1..], ids, texts);
      } else {
        NewItemsAreItems(items[1..], ids + {items[0].blockId}, texts + {Norm(items[0].text)});
      }
    }
  }

  lemma SetsGrow(was: seq<Item>, now: seq<Item>, added: seq<Item>, head: seq<Item>, tail: seq<Item>)
    requires was == head + tail && now == head + added + tail
    ensures IdSet(now) == IdSet(was) + IdSet(added) && TextSet(now) == TextSet(was) + TextSet(added)
  {
    hide Norm;
    assert forall it :: it in now <==> it in was || it in added;
  }

  predicate Covered(items: seq<Item>, ids: set<string>, texts: set<string>) {
    forall it | it in items :: it.blockId in ids || Norm(it.text) in texts
  }

  /** Applying the same items again adds nothing, exactly when each item's id or
      text is among those the grown body shows; whatever the items' text, and
      wherever the markers stand. */
  lemma AppendItemsTwiceIff(p: Page, title: string, items: seq<Item>)
    requires Require(p, title, {Append}).Ok? && Fresh(p, title, items) != []
    ensures var shown := ItemsGrown(AppendBody(p, title), Addition(Fresh(p, title, items)));
            AppendItems(p, title, items).Ok? &&
            (Fresh(AppendItems(p, title, items).value, title, items) == []
             <==> Covered(items, IdSet(shown), TextSet(shown)))
  {
    hide Norm, Canonical, SectionOf, FormatAll, ParseItems, GrowFenced, StripNL, ItemsGrown, Addition, WithSection;
    var added, body := Fresh(p, title, items), AppendBody(p, title);
    AdditionShows(added);
    GrownItems(body, Addition(added));
    var grown := GrowFenced(body, "append", Addition(added));
    RewriteGets(p, title, Append, grown);
    AppendIsRewrite(p, title, added);
    var q := AppendItems(p, title, items).value;
    NothingNew(items, IdSet(Present(q, title)), TextSet(Present(q, title)));
  }

  /** Items are written as text that is not blank. */
  lemma AdditionShows(added: seq<Item>)
    requires added != []
    ensures StripNL(Addition(added)) != ""
  {
    hide FormatItem, Neutralise, StripNL, StripRightNL;
    var l := FormatItem(added[0]);
    FormatParts(added[0]);
    StripBullet(l);
    var text := Join("\n", StripLines(FormatAll(added)));
    assert StripLines(FormatAll(added))[0] == StripRightNL(l);
    assert text[0] == '-';
    NeutralBullet(text);
    StripKeeps(Neutralise(text), 0, 1);
  }

  lemma StripBullet(l: string)
    requires l != "" && l[0] == '-'
    ensures StripRightNL(l) != "" && StripRightNL(l)[0] == '-'
  {
    TrailAll(l, 0, |l|);
  }

  lemma NeutralBullet(t: string)
    requires t != "" && t[0] == '-'
    ensures Neutralise(t) != "" && Neutralise(t)[0] == '-'
  {
    hide EscapeHeading, MarkerFirst;
    var l := SplitNL(t)[0];
    assert LineEnd(t, 0) == LineEnd(t, 1) >= 1;
    assert l != "" && l[0] == '-';
    BulletIsNoHeading(l);
    NotMarker(l);
    assert NeutraliseLine(l)[0] == '-';
    assert NeutraliseLines(SplitNL(t))[0] == NeutraliseLine(l);
  }

  /** With one-line items, and markers on lines of their own, that is: every
      item's id was or is now there, or its text is one a line reads back. */
  lemma AppendItemsTwiceOwnLines(p: Page, title: string, items: seq<Item>)
    requires Require(p, title, {Append}).Ok? && OwnLines(AppendBody(p, title)) && OneLineItems(items)
    ensures var present, added := Present(p, title), Fresh(p, title, items);
            var q := AppendItems(p, title, items).value;
            AppendItems(p, title, items).Ok? &&
            (Fresh(q, title, items) == []
             <==> Covered(items, IdSet(present) + IdSet(added), TextSet(present) + TextSet(ReadAll(added))))
  {
    hide OwnLines, Norm, OneLineItem, Canonical, Rewrite, SectionOf, FormatAll, ReadAll, ParseItems;
    var present, added := Present(p, title), Fresh(p, title, items);
    NewItemsAreItems(items, IdSet(present), TextSet(present));
    if added == [] {
      NothingNew(items, IdSet(present), TextSet(present));
      ReadNone();
    } else {
      AppendedItems(p, title, added);
      var q := AppendItems(p, title, items).value;
      ReadIds(added);
      NothingNew(items, IdSet(Present(q, title)), TextSet(Present(q, title)));
    }
  }

  lemma ReadNone()
    ensures ReadAll([]) == []
  {}

  lemma NoItemsInSkeleton()
    ensures ParseItems(SkeletonBody(Append, "", false)) == []
  {
    hide ParseItemLine;
    OwnerNames(Append);
    FreshItems("", "append");
    var m := FenceOpen("append") + "\n";
    assert BeforeFresh("") + FenceOpen("append") + "\n" == m;
    assert SkeletonBody(Append, "", false) == m + (FENCE_CLOSE + "\n");
    LinesConcat(m, FENCE_CLOSE + "\n");
    ParseConcat(LinesOf(m), LinesOf(FENCE_CLOSE + "\n"));
  }

  lemma PresentIs(p: Page, title: string)
    requires OwnerOf(p.pageType, title) == Some(Append)
    ensures Present(p, title) == ParseItems(AppendBody(p, title))
  {
    hide Canonical, OwnerOf, WithSection, SkeletonBody, ParseItems, SectionOf;
    WithSectionFinds(p, title, Append);
    NoItemsInSkeleton();
  }

  /** The edited page shows the items it had and the ones appended. */
  lemma AppendedItems(p: Page, title: string, added: seq<Item>)
    requires OwnerOf(p.pageType, title) == Some(Append)
    requires OwnLines(AppendBody(p, title)) && OneLineItems(added) && added != []
    ensures var r := AppendLines(p, title, FormatAll(added), false);
            && r.Ok? && OwnerOf(r.value.pageType, title) == Some(Append)
            && IdSet(Present(r.value, title)) == IdSet(Present(p, title)) + IdSet(ReadAll(added))
            && TextSet(Present(r.value, title)) == TextSet(Present(p, title)) + TextSet(ReadAll(added))
  {
    hide OwnLines, Canonical, OwnerOf, WithSection, SectionOf, ParseItems, FormatAll, ReadAll, OneLineItems,
         GrowFenced, StripLines, Join, Neutralise, IdSet, TextSet;
    var body := AppendBody(p, title);
    var head, tail := GrownOwnLines(body, added);
    PresentIs(p, title);
    var grown := GrowFenced(body, "append", Addition(added));
    RewriteGets(p, title, Append, grown);
    AppendIsRewrite(p, title, added);
    SetsGrow(Present(p, title), ParseItems(grown), ReadAll(added), head, tail);
  }

  lemma AppendIsRewrite(p: Page, title: string, added: seq<Item>)
    requires OwnerOf(p.pageType, title) == Some(Append) && added != []
    ensures AppendLines(p, title, FormatAll(added), false)
            == Ok(Rewrite(p, title, Append, GrowFenced(AppendBody(p, title), "append", Addition(added))))
  {
    hide OwnerOf, WithSection, GrowFenced, StripLines, Join, Neutralise, FormatItem;
  }

  lemma ReadIds(items: seq<Item>)
    requires OneLineItems(items)
    ensures IdSet(ReadAll(items)) == IdSet(items)
  {
    hide FormatAll, ReadAll, ReadBack, OneLineItem;
    ReadAllItems(items);
    forall it | it in items ensures it.blockId in IdSet(ReadAll(items)) {
      var i :| 0 <= i < |items| && items[i] == it;
      assert ReadAll(items)[i] in ReadAll(items);
    }
    forall it | it in ReadAll(items) ensures it.blockId in IdSet(items) {
      var i :| 0 <= i < |items| && ReadAll(items)[i] == it;
      assert items[i] in items;
    }
  }

  /** Two items of one text are one item, or the first one's text reads back. */
  predicate TextsAgree(items: seq<Item>) {
    forall i, j | 0 <= i < j < |items| && Norm(items[i].text) == Norm(items[j].text) ::
      items[i].blockId == items[j].blockId || TextReads(items[i])
  }

  predicate TextReads(it: Item) { ReadBack(it).Some? && Norm(ReadBack(it).value.text) == Norm(it.text) }

  lemma {:induction false} BatchCovered(items: seq<Item>, ids: set<string>, texts: set<string>,
      allIds: set<string>, allTexts: set<string>)
    requires TextsAgree(items)
    requires forall it | it in items && (it.blockId in ids || Norm(it.text) in texts) ::
               it.blockId in allIds || Norm(it.text) in allTexts
    requires forall it | it in NewItems(items, ids, texts) ::
               it.blockId in allIds && (TextReads(it) ==> Norm(it.text) in allTexts)
    ensures Covered(items, allIds, allTexts)
  {
    hide Norm, TextReads;
    if items != [] {
      var rest := items[1..];
      assert TextsAgree(rest) by {
        forall i, j | 0 <= i < j < |rest| && Norm(rest[i].text) == Norm(rest[j].text)
          ensures rest[i].blockId == rest[j].blockId || TextReads(rest[i])
        {
          assert rest[i] == items[i + 1] && rest[j] == items[j + 1];
        }
      }
      if items[0].blockId in ids || Norm(items[0].text) in texts {
        assert items[0] in items;
        BatchCovered(rest, ids, texts, allIds, allTexts);
      } else {
        var news := NewItems(rest, ids + {items[0].blockId}, texts + {Norm(items[0].text)});
        assert items[0] in [items[0]] + news;
        forall it | it in rest && (it.blockId == items[0].blockId || Norm(it.text) == Norm(items[0].text))
          ensures it.blockId in allIds || Norm(it.text) in allTexts
        {
          var j :| 0 <= j < |rest| && rest[j] == it;
          assert items[j + 1] == it;
        }
        BatchCovered(rest, ids + {items[0].blockId}, texts + {Norm(items[0].text)}, allIds, allTexts);
      }
      assert items == [items[0]] + rest;
    }
  }

  /** Appending the same items a second time leaves the page unchanged. */
  lemma AppendItemsTwice(p: Page, title: string, items: seq<Item>)
    requires Require(p, title, {Append}).Ok? && OwnLines(AppendBody(p, title)) && OneLineItems(items)
    requires TextsAgree(items)
    ensures AppendItems(p, title, items).Ok?
    ensures var q := AppendItems(p, title, items).value; AppendItems(q, title, items) == Ok(q)
  {
    hide OwnLines, Norm, OneLineItem, OwnerOf, Rewrite, SectionOf, FormatAll, ReadAll, ParseItems, TextsAgree,
         TextReads, AppendLines, NewItems, BodyOf;
    var present, added := Present(p, title), Fresh(p, title, items);
    AppendItemsTwiceOwnLines(p, title, items);
    NewItemsAreItems(items, IdSet(present), TextSet(present));
    forall it | it in added
      ensures it.blockId in IdSet(added) && (TextReads(it) ==> Norm(it.text) in TextSet(ReadAll(added)))
    {
      ReadsIn(added, it);
    }
    BatchCovered(items, IdSet(present), TextSet(present), IdSet(present) + IdSet(added),
      TextSet(present) + TextSet(ReadAll(added)));
    if added != [] { AppendedItems(p, title, added); }
  }

  lemma ReadsIn(items: seq<Item>, it: Item)
    requires OneLineItems(items) && it in items
    ensures TextReads(it) ==> Norm(it.text) in TextSet(ReadAll(items))
  {
    hide FormatAll, ReadAll, ReadBack, OneLineItem, Norm;
    ReadAllItems(items);
    var i :| 0 <= i < |items| && items[i] == it;
    assert ReadAll(items)[i] in ReadAll(items);
  }

  /** Items written as they are and read back whole. */
  predicate Readable(it: Item) { SafeItem(it) && NeutralLine(FormatItem(it)) }

  lemma ReadableReads(it: Item)
    requires Readable(it)
    ensures NeutraliseLine(FormatItem(it)) == FormatItem(it) && ReadBack(it) == Some(it)
    ensures OneLineItem(it) && TextReads(it)
  {
    hide ParseItemLine, SafeFields, NoOpener, CheckboxAt, FormatItem, NeutraliseLine, Norm;
    NeutralLineKept(FormatItem(it));
    ItemRoundTrip(it);
  }

  /** Text that ends in fields is written as the item with those fields, so
      its text does not read back. */
  lemma FieldsSwallowed(it: Item)
    requires Readable(it) && it.fields != []
    ensures var raw := Item(it.text + FormatFields(it.fields), it.blockId, it.checked, []);
            ReadBack(raw) == Some(it) && |raw.text| > |it.text|
  {
    var raw := Item(it.text + FormatFields(it.fields), it.blockId, it.checked, []);
    assert FormatFields([]) == "";
    assert FormatItem(raw) == FormatItem(it) by {
      var b, f, id := Bullet(it.checked), FormatFields(it.fields), " ^" + it.blockId;
      assert b + (it.text + f) + "" + " ^" + it.blockId == b + it.text + f + " ^" + it.blockId;
    }
    ReadableReads(it);
  }

  /** A fence whose two markers stand on one line. */
  lemma GluedFence(open: string)
    requires open == FenceOpen("append")
    ensures FenceOf(open + FENCE_CLOSE) == Complete(|open|, |open|)
    ensures SplitFence(open + FENCE_CLOSE, "append") == (open, "", FENCE_CLOSE)
  {
    OwnerNames(Append);
    var body := open + FENCE_CLOSE;
    CoreOf("append", FENCE_CLOSE);
    assert body[|open|] == FENCE_CLOSE[0] == '<' && body[0..] == body && body[|open|..] == FENCE_CLOSE;
    assert AtClose(FENCE_CLOSE) && FindClose(FENCE_CLOSE) == 0;
    hide FenceOpen, CoreLen, AtClose;
    FenceOfIs(body, |open|, |open|);
    assert body[..|open|] == open && body[|open|..|open|] == "";
  }

  lemma OneAddition(it: Item)
    requires OneLineItem(it)
    ensures Addition([it]) == NeutraliseLine(FormatItem(it)) && NoNewline(NeutraliseLine(FormatItem(it)))
  {
    hide FormatItem, NeutraliseLine, IsId;
    var l := FormatItem(it);
    assert [it][1..] == [] && FormatAll([it]) == [l];
    FormatAllLines([it]);
    SplitLast(l);
    assert NeutraliseLines([l]) == [NeutraliseLine(l)] by { NeutraliseConcatOne(l); }
    NeutraliseLineIsNeutral(l);
  }

  lemma NeutraliseConcatOne(l: string)
    ensures NeutraliseLines([l]) == [NeutraliseLine(l)]
  {
    hide NeutraliseLine;
    assert [l][1..] == [];
  }

  /** Without its own line the opening marker takes in the first item written
      after it, which is then not found again. */
  lemma GluedItemIsLost(it: Item)
    requires OneLineItem(it)
    ensures var body := FenceOpen("append") + FENCE_CLOSE;
            ParseItems(body) == [] && ParseItems(GrowFenced(body, "append", Addition([it]))) == []
  {
    hide ParseItemLine, FormatItem, IsId, FenceOf, NeutraliseLine, LinesOf, FenceOpen, SplitFence, Addition, StripNL;
    OwnerNames(Append);
    var open, line := FenceOpen("append"), NeutraliseLine(FormatItem(it));
    OpenLine("append");
    GluedFence(open);
    OneAddition(it);
    MarkerText(open + FENCE_CLOSE);
    StripBefore(line);
    var x := StripNL("" + "\n" + line);
    if x == "" {
      assert open + "" + FENCE_CLOSE == open + FENCE_CLOSE;
    } else {
      LinesConcat(open + x + "\n", FENCE_CLOSE);
      LinesOfLine(open + x);
      LinesOfLine(FENCE_CLOSE);
      MarkerIsNoItem(open + x);
      MarkerIsNoItem(FENCE_CLOSE);
      assert open + (x + "\n") + FENCE_CLOSE == (open + x + "\n") + FENCE_CLOSE;
      NoneOfTwo(open + x, FENCE_CLOSE);
    }
  }

  lemma StripBefore(line: string)
    requires NoNewline(line)
    ensures NoNewline(StripNL("" + "\n" + line))
  {
    StripParts("" + "\n" + line);
    var t := "" + "\n" + line;
    var a := LeadNL(t, 0);
    assert a > 0 && forall i | 0 < i < |t| :: t[i] == line[i - 1];
  }

  lemma MarkerText(l: string)
    requires l != "" && l[0] == '<' && NoNewline(l)
    ensures ParseItems(l) == []
  {
    hide ParseItemLine;
    LinesOfLine(l);
    MarkerIsNoItem(l);
    ParseOne(l);
  }

  lemma NoneOfTwo(a: string, b: string)
    requires ParseItemLine(a) == None && ParseItemLine(b) == None
    ensures ParseLines([a] + [b]) == []
  {
    ParseOne(a);
    ParseOne(b);
    ParseConcat([a], [b]);
  }
}
