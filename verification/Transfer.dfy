/** The project agent's transfer of a thread's items onto an initiative page
    (agents/project_agent/agent.py). */
module Transfer {
  import opened Options
  import opened Text
  import opened PageFormat
  import opened Schema
  import opened Neutral
  import opened Fence
  import opened Editor
  import opened Items
  import opened ItemText
  import opened Sections
  import opened ItemEdits
  import opened Upserts
  import opened UpsertTwice
  import opened CleanItems

  /** A ticked box, and an owner or due date, on the page outlive the thread's. */
  function MergeItem(was: Item, now: Item): Item {
    Item(now.text, now.blockId, if was.checked == Some(true) then was.checked else now.checked,
         KeepField(KeepField(now.fields, "due", was.fields), "owner", was.fields))
  }

  function KeepField(d: seq<Field>, key: string, was: seq<Field>): seq<Field> {
    match Get(was, key)
    case Some(v) => DictPut(d, Field(key, v))
    case None => d
  }

  // ---------------------------------------------------------------------
  // Merging
  // ---------------------------------------------------------------------

  lemma {:induction false} PutSame(d: seq<Field>, f: Field)
    requires Get(d, f.key) == Some(f.value)
    ensures DictPut(d, f) == d
  {
    if d[0].key != f.key { PutSame(d[1..], f); }
  }

  lemma KeepGets(d: seq<Field>, key: string, was: seq<Field>, k: string)
    ensures Get(KeepField(d, key, was), k)
            == if k == key && Get(was, key).Some? then Get(was, key) else Get(d, k)
  {
    if Get(was, key).Some? { GetPut(d, Field(key, Get(was, key).value), k); }
  }

  /** What survives of the line that was there. */
  predicate Sticky(was: Item, now: Item) {
    && now.blockId == was.blockId
    && (was.checked == Some(true) ==> now.checked == Some(true))
    && (Get(was.fields, "due").Some? ==> Get(now.fields, "due") == Get(was.fields, "due"))
    && (Get(was.fields, "owner").Some? ==> Get(now.fields, "owner") == Get(was.fields, "owner"))
  }

  /** Merging keeps the tick, the owner and the due date, and takes the text
      and every other field from the thread. */
  lemma MergeMeans(was: Item, now: Item)
    requires was.blockId == now.blockId
    ensures var it := MergeItem(was, now);
            && Sticky(was, it) && it.text == now.text && (was.checked != Some(true) ==> it.checked == now.checked)
            && forall k | k != "due" && k != "owner" :: Get(it.fields, k) == Get(now.fields, k)
    ensures var it := MergeItem(was, now);
            && (Get(was.fields, "due").None? ==> Get(it.fields, "due") == Get(now.fields, "due"))
            && (Get(was.fields, "owner").None? ==> Get(it.fields, "owner") == Get(now.fields, "owner"))
  {
    hide KeepField, Get;
    var d := KeepField(now.fields, "due", was.fields);
    assert "due" != "owner";
    KeepGets(now.fields, "due", was.fields, "due");
    KeepGets(now.fields, "due", was.fields, "owner");
    KeepGets(d, "owner", was.fields, "due");
    KeepGets(d, "owner", was.fields, "owner");
    forall k | k != "due" && k != "owner"
      ensures Get(MergeItem(was, now).fields, k) == Get(now.fields, k)
    {
      KeepGets(now.fields, "due", was.fields, k);
      KeepGets(d, "owner", was.fields, k);
    }
  }

  lemma KeepAgain(d: seq<Field>, key: string, was: seq<Field>, merged: seq<Field>)
    requires Get(merged, key) == if Get(was, key).Some? then Get(was, key) else Get(d, key)
    ensures KeepField(d, key, merged) == KeepField(d, key, was)
  {
    if Get(was, key).None? && Get(d, key).Some? { PutSame(d, Field(key, Get(d, key).value)); }
  }

  /** Merging the same item again changes nothing. */
  lemma MergeAgain(was: Item, now: Item)
    requires was.blockId == now.blockId
    ensures MergeItem(MergeItem(was, now), now) == MergeItem(was, now)
  {
    hide KeepField, Get;
    MergeMeans(was, now);
    var it := MergeItem(was, now);
    KeepAgain(now.fields, "due", was.fields, it.fields);
    KeepGets(now.fields, "due", was.fields, "owner");
    assert "due" != "owner";
    KeepAgain(KeepField(now.fields, "due", was.fields), "owner", was.fields, it.fields);
  }

  lemma {:induction false} MergeSelfField(d: seq<Field>, key: string)
    ensures KeepField(d, key, d) == d
  {
    if Get(d, key).Some? { PutSame(d, Field(key, Get(d, key).value)); }
  }

  lemma MergeSelf(now: Item)
    ensures MergeItem(now, now) == now
  {
    MergeSelfField(now.fields, "due");
    MergeSelfField(now.fields, "owner");
  }

  // ---------------------------------------------------------------------
  // Clean tasks
  // ---------------------------------------------------------------------

  predicate CleanKept(key: string, was: seq<Field>) {
    Get(was, key).Some? ==> CleanField(Field(key, Get(was, key).value))
  }

  /** An owner and due date of plain text and wikilinks. */
  predicate CleanHeld(it: Item) { CleanKept("due", it.fields) && CleanKept("owner", it.fields) }

  lemma {:induction false} PutClean(d: seq<Field>, f: Field)
    requires CleanFields(d) && CleanField(f)
    ensures CleanFields(DictPut(d, f))
  {
    hide CleanField;
    if d != [] {
      if d[0].key != f.key {
        PutClean(d[1..], f);
        GetPut(d[1..], f, d[0].key);
        assert DictPut(d, f)[1..] == DictPut(d[1..], f);
      } else {
        assert DictPut(d, f)[1..] == d[1..];
      }
    }
  }

  lemma {:induction false} GetClean(d: seq<Field>, key: string)
    requires CleanFields(d) && Get(d, key).Some?
    ensures CleanField(Field(key, Get(d, key).value))
  {
    hide CleanField;
    if d[0].key != key { GetClean(d[1..], key); }
  }

  lemma CleanHolds(it: Item)
    requires Clean(it)
    ensures CleanHeld(it)
  {
    hide CleanField, CleanFields, MarkerFree, NoOpener;
    if Get(it.fields, "due").Some? { GetClean(it.fields, "due"); }
    if Get(it.fields, "owner").Some? { GetClean(it.fields, "owner"); }
  }

  lemma MergeClean(was: Item, now: Item)
    requires Clean(now) && CleanHeld(was)
    ensures Clean(MergeItem(was, now))
  {
    hide CleanField, MarkerFree, NoOpener, CheckboxAt, IsId;
    if Get(was.fields, "due").Some? { PutClean(now.fields, Field("due", Get(was.fields, "due").value)); }
    var d := KeepField(now.fields, "due", was.fields);
    if Get(was.fields, "owner").Some? { PutClean(d, Field("owner", Get(was.fields, "owner").value)); }
  }

  predicate DistinctIds(items: seq<Item>) {
    forall i, j | 0 <= i < j < |items| :: items[i].blockId != items[j].blockId
  }

  lemma {:induction false} LookupOwn(items: seq<Item>, it: Item)
    requires DistinctIds(items) && it in items
    ensures Lookup(items, it.blockId) == Some(it)
  {
    if items[0] != it {
      assert it in items[1..];
      LookupOwn(items[1..], it);
    }
  }

  /** A clean task settles in a line with a clean owner and date, and as it is
      added. */
  lemma CleanSettles(was: Item, now: Item)
    requires Clean(now) && CleanHeld(was) && was.blockId == now.blockId
    ensures Settles(MergeItem, MergeItem(was, now), now) && Settles(MergeItem, now, now)
  {
    hide Clean, CleanHeld, ParseItemLine, FormatItem, NeutraliseLine, MergeItem, ReadBack;
    MergeClean(was, now);
    CleanReads(MergeItem(was, now));
    MergeAgain(was, now);
    CleanReads(now);
    MergeSelf(now);
  }

  predicate HeldClean(ls: seq<string>) {
    forall l | l in ls && ParseItemLine(l).Some? :: CleanHeld(ParseItemLine(l).value)
  }

  lemma {:induction false} HitsClean(ls: seq<string>, items: seq<Item>, done: set<string>)
    requires HeldClean(ls) && forall it | it in items :: Clean(it)
    ensures HitsSettle(ls, items, MergeItem, done)
  {
    hide Clean, CleanHeld, ParseItemLine, MergeItem, Settles, Hit, Lookup;
    if ls != [] {
      assert ls[0] in ls && forall l | l in ls[1..] :: l in ls;
      HitIs(ls[0], items, done);
      match Hit(ls[0], items, done)
      case None => HitsClean(ls[1..], items, done);
      case Some((was, now)) =>
        CleanSettles(was, now);
        HitsClean(ls[1..], items, done + {was.blockId});
    }
  }

  lemma {:induction false} NewsClean(rest: seq<Item>, items: seq<Item>, done: set<string>)
    requires DistinctIds(items) && forall it | it in rest :: it in items && Clean(it)
    ensures NewsSettle(rest, items, MergeItem, done)
  {
    hide Clean, MergeItem, Settles, Lookup;
    if rest != [] {
      var it := rest[0];
      assert it in rest && forall x | x in rest[1..] :: x in rest;
      LookupOwn(items, it);
      CleanHolds(it);
      CleanSettles(it, it);
      NewsClean(rest[1..], items, done);
      NewsClean(rest[1..], items, done + {it.blockId});
    }
  }

  /** Clean tasks of different ids, on lines with clean owners and dates, all
      settle. */
  lemma TasksSettle(ls: seq<string>, items: seq<Item>)
    requires DistinctIds(items) && HeldClean(ls) && forall it | it in items :: Clean(it)
    ensures AllSettle(ls, items, MergeItem)
  {
    HitsClean(ls, items, {});
    NewsClean(items, items, Replaced(ls, items, {}));
  }
}
