/** What `upsert_items` (shared/wiki/editor.py) writes, line by line. */
module UpsertMeans {
  import opened Options
  import opened Parts
  import opened Text
  import opened PageFormat
  import opened Schema
  import opened Neutral
  import opened Fence
  import opened Editor
  import opened Sections
  import opened Tidy
  import opened Items
  import opened ItemText
  import opened ItemEdits
  import opened Upserts

  /** The item a line holds, trailing blanks aside. */
  function HeldOn(l: string): Option<Item> { ParseItemLine(TrimRight(l)) }

  predicate Holds(l: string, id: string) { HeldOn(l).Some? && HeldOn(l).value.blockId == id }

  predicate LastOf(items: seq<Item>, id: string, m: nat) {
    m < |items| && items[m].blockId == id && forall j | m < j < |items| :: items[j].blockId != id
  }

  /** The first line that holds an item of an incoming id becomes the merge of the
      two, the last incoming one of that id counting; other lines stay. */
  ghost predicate LinesUpserted(ls: seq<string>, items: seq<Item>, merge: Merge, out: seq<string>) {
    && |out| == |ls|
    && forall k: nat | k < |ls| ::
         match HeldOn(ls[k])
         case None => out[k] == ls[k]
         case Some(was) =>
           if exists j :: 0 <= j < k && Holds(ls[j], was.blockId) then out[k] == ls[k]
           else if forall it | it in items :: it.blockId != was.blockId then out[k] == ls[k]
           else exists m: nat :: LastOf(items, was.blockId, m) && out[k] == FormatItem(merge(was, items[m]))
  }

  /** The items no line holds, each on a line, in their order. */
  ghost predicate LinesAdded(ls: seq<string>, items: seq<Item>, at: seq<nat>, more: seq<string>) {
    && |more| == |at| && (forall m, n | 0 <= m < n < |at| :: at[m] < at[n])
    && (forall n | 0 <= n < |at| :: at[n] < |items| && more[n] == FormatItem(items[at[n]]))
    && forall i: nat | i < |items| :: i in at <==> forall k | 0 <= k < |ls| :: !Holds(ls[k], items[i].blockId)
  }

  lemma {:induction false} LookupLast(items: seq<Item>, id: string) returns (m: nat)
    ensures Lookup(items, id).None? <==> forall it | it in items :: it.blockId != id
    ensures Lookup(items, id).Some? ==> LastOf(items, id, m) && Lookup(items, id).value == items[m]
  {
    m := 0;
    if items != [] {
      var n := LookupLast(items[1..], id);
      assert items == [items[0]] + items[1..];
      if Lookup(items[1..], id).Some? {
        m := n + 1;
        forall j | m < j < |items| ensures items[j].blockId != id { assert items[j] == items[1..][j - 1]; }
      } else {
        forall j | 0 < j < |items| ensures items[j].blockId != id { assert items[j] == items[1..][j - 1]; }
      }
    }
  }

  /** One line, after those ids were replaced. */
  lemma {:induction false} ReplacedLine(ls: seq<string>, items: seq<Item>, merge: Merge, done: set<string>, k: nat)
    requires k < |ls|
    ensures Replace(ls, items, merge, done)[k]
            == match HeldOn(ls[k])
               case None => ls[k]
               case Some(was) =>
                 if was.blockId in done || exists j :: 0 <= j < k && Holds(ls[j], was.blockId) then ls[k]
                 else match Lookup(items, was.blockId) case None => ls[k] case Some(now) => FormatItem(merge(was, now))
  {
    hide ParseItemLine, FormatItem, TrimRight, Lookup;
    if k > 0 {
      var done' := match Hit(ls[0], items, done) case Some((was, _)) => done + {was.blockId} case None => done;
      ReplacedLine(ls[1..], items, merge, done', k - 1);
      if HeldOn(ls[k]).Some? {
        HeldLater(ls, HeldOn(ls[k]).value.blockId, k);
      }
    }
  }

  lemma HeldLater(ls: seq<string>, id: string, k: nat)
    requires 0 < k < |ls|
    ensures (exists j :: 0 <= j < k && Holds(ls[j], id))
            <==> Holds(ls[0], id) || exists j :: 0 <= j < k - 1 && Holds(ls[1..][j], id)
  {
    hide Holds;
    if j :| 0 <= j < k && Holds(ls[j], id) {
      if j > 0 { assert Holds(ls[1..][j - 1], id); }
    }
    if j :| 0 <= j < k - 1 && Holds(ls[1..][j], id) { assert Holds(ls[j + 1], id); }
  }

  /** The ids replaced: those of incoming items that a line holds. */
  lemma {:induction false} ReplacedIds(ls: seq<string>, items: seq<Item>, done: set<string>, id: string)
    requires exists it :: it in items && it.blockId == id
    ensures id in Replaced(ls, items, done) <==> id in done || exists k :: 0 <= k < |ls| && Holds(ls[k], id)
  {
    hide ParseItemLine, TrimRight, Lookup;
    if ls != [] {
      var done' := match Hit(ls[0], items, done) case Some((was, _)) => done + {was.blockId} case None => done;
      ReplacedIds(ls[1..], items, done', id);
      var m := LookupLast(items, id);
      if k :| 0 <= k < |ls| && Holds(ls[k], id) {
        if k > 0 { assert Holds(ls[1..][k - 1], id); }
      }
      if k :| 0 <= k < |ls[1..]| && Holds(ls[1..][k], id) { assert Holds(ls[k + 1], id); }
    }
  }

  /** The items whose id was not replaced. */
  function Left(items: seq<Item>, done: set<string>): seq<Item> {
    if items == [] then []
    else if items[0].blockId in done then Left(items[1..], done)
    else [items[0]] + Left(items[1..], done)
  }

  lemma {:induction false} MissingFormat(items: seq<Item>, done: set<string>)
    ensures Missing(items, done) == FormatAll(Left(items, done))
  {
    hide FormatItem;
    if items != [] {
      MissingFormat(items[1..], done);
      FormatCons(items[0], Left(items[1..], done));
    }
  }

  lemma {:induction false} LeftAt(items: seq<Item>, done: set<string>) returns (at: seq<nat>)
    ensures PartOf(Left(items, done), items, at)
    ensures forall i: nat | i < |items| :: i in at <==> items[i].blockId !in done
  {
    hide PartOf, Shifted;
    at := [];
    if items == [] {
      NothingLeft();
    } else {
      var a := LeftAt(items[1..], done);
      PartOfTail(items[0], Left(items[1..], done), items[1..], a);
      assert items == [items[0]] + items[1..];
      at := if items[0].blockId in done then Shifted(a) else [0] + Shifted(a);
      forall i: nat | i < |items| ensures i in at <==> items[i].blockId !in done {
        if i > 0 { assert items[i] == items[1..][i - 1]; }
      }
    }
  }

  lemma NothingLeft()
    ensures PartOf<Item>([], [], [])
  {}

  lemma MissingAt(items: seq<Item>, done: set<string>) returns (at: seq<nat>)
    ensures |Missing(items, done)| == |at| && (forall m, n | 0 <= m < n < |at| :: at[m] < at[n])
    ensures forall n | 0 <= n < |at| :: at[n] < |items| && Missing(items, done)[n] == FormatItem(items[at[n]])
    ensures forall i: nat | i < |items| :: i in at <==> items[i].blockId !in done
  {
    hide FormatItem;
    at := LeftAt(items, done);
    MissingFormat(items, done);
    FormatAllAt(Left(items, done));
  }

  /** The lines written: those there, with the merges in their places, and then the
      items that were on none. */
  lemma OutLinesAre(ls: seq<string>, items: seq<Item>, merge: Merge)
      returns (kept: seq<string>, more: seq<string>, at: seq<nat>)
    ensures OutLines(ls, items, merge) == kept + more
    ensures LinesUpserted(ls, items, merge, kept) && LinesAdded(ls, items, at, more)
  {
    hide ParseItemLine, FormatItem, TrimRight, Lookup, Replace, Replaced, Missing;
    kept, more := Replace(ls, items, merge, {}), Missing(items, Replaced(ls, items, {}));
    at := MissingAt(items, Replaced(ls, items, {}));
    forall i: nat | i < |items|
      ensures i in at <==> forall k | 0 <= k < |ls| :: !Holds(ls[k], items[i].blockId)
    {
      assert items[i] in items;
      ReplacedIds(ls, items, {}, items[i].blockId);
    }
    forall k: nat | k < |ls|
      ensures match HeldOn(ls[k])
              case None => kept[k] == ls[k]
              case Some(was) =>
                if exists j :: 0 <= j < k && Holds(ls[j], was.blockId) then kept[k] == ls[k]
                else if forall it | it in items :: it.blockId != was.blockId then kept[k] == ls[k]
                else exists m: nat :: LastOf(items, was.blockId, m) && kept[k] == FormatItem(merge(was, items[m]))
    {
      ReplacedLine(ls, items, merge, {}, k);
      if HeldOn(ls[k]).Some? { var m := LookupLast(items, HeldOn(ls[k]).value.blockId); }
    }
  }

  /** `upsert_items` on a section whose first opening marker is closed or that has
      none: its fence shows those lines, neutralised. */
  lemma UpsertShows(p: Page, title: string, items: seq<Item>, merge: Merge)
      returns (kept: seq<string>, more: seq<string>, at: seq<nat>)
    requires OwnerOf(p.pageType, title) == Some(Managed) && !FenceOf(BodyOf(p, title, Managed)).Orphan?
    ensures var r, was := UpsertItems(p, title, items, merge), BodyOf(p, title, Managed);
            var ls := LinesOf(if FenceOf(was).Complete? then was[FenceOf(was).from..FenceOf(was).to] else "");
            && r.Ok? && FencedContent(r.value, title) == StripNL(Neutralise(Join("\n", kept + more)))
            && LinesUpserted(ls, items, merge, kept) && LinesAdded(ls, items, at, more)
  {
    hide OwnerOf, WithSection, FenceOf, Neutralise, Join, StripNL, OutLines, LinesOf, Inner, Unfenced, FencedText,
         LinesUpserted, LinesAdded, Canonical, SectionIndex, Rewrite, BodyOf;
    var was := BodyOf(p, title, Managed);
    var ls := LinesOf(SplitFence(was, "managed").1);
    kept, more, at := OutLinesAre(ls, items, merge);
    var text := Join("\n", kept + more);
    var now := UpsertBody(was, items, merge);
    RewriteGets(p, title, Managed, now);
    NeutraliseSafe(text);
    OwnerNames(Managed);
    assert now == PutFenced(was, "managed", Neutralise(text));
    PutGet(was, "managed", Neutralise(text));
  }
}
