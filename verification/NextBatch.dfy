/** The items of one batch named again in the next (agents/wa_agent/assign.py,
    agents/wa_agent/revise.py): rendered, linked, written into the fence, read
    back, and rendered against what was read. */
module NextBatch {
  import opened Options
  import opened Text
  import opened Neutral
  import opened Fence
  import opened Editor
  import opened Squeezing
  import opened Items
  import opened ItemText
  import opened ItemEdits
  import opened Upserts
  import opened UpsertTwice
  import opened CleanItems
  import opened FieldReads
  import opened ThreadTransfer
  import opened Rendering
  import Names
  import NamesTwice

  /** The items a section shows once `text` is written to its fence. */
  function Stored(text: string): seq<Item> { ParseItems(StripNL(Inner(Neutralise(text)))) }

  function TextOf(rows: seq<Item>): string { Join("\n", FormatAll(rows)) }

  function Key(it: ItemOut): string { Lower(CleanText(it.text)) }

  /** The items that are rendered. */
  function Rendered(items: seq<ItemOut>, valid: set<string>): seq<ItemOut> {
    if items == [] then []
    else (if Grounded(items[0], valid) then [items[0]] else []) + Rendered(items[1..], valid)
  }

  /** Named again without its id, an item gets the id `id`: the page's last item of
      its text has that id, or no such item is left and the id is minted again. */
  predicate GetsId(it: ItemOut, id: string, second: seq<Item>, taken: set<string>, digest: Digest) {
    var was := ByText(second, Key(it));
    || was == id
    || ((was == "" || was in taken) && Mint(DigestOf(digest, it.kind, CleanText(it.text)), taken + IdSet(second)) == id)
  }

  /** Every rendered item gets the id of its row. */
  predicate AllGet(its: seq<ItemOut>, ids: seq<string>, second: seq<Item>, taken: set<string>, digest: Digest)
    requires |its| == |ids|
    decreases |its|
  {
    its == [] || (GetsId(its[0], ids[0], second, taken, digest)
                  && AllGet(its[1..], ids[1..], second, taken + {ids[0]}, digest))
  }

  lemma IdsCount(its: seq<ItemOut>, existing: seq<Item>, valid: set<string>, allowed: set<string>, digest: Digest,
      taken: set<string>)
    requires forall it | it in its :: Grounded(it, valid)
    ensures |Rows(its, existing, valid, allowed, digest, taken)| == |its|
    ensures forall i | 0 <= i < |its| ::
              Rows(its, existing, valid, allowed, digest, taken)[i].text == CleanText(its[i].text)
  {
    hide Grounded, IdFor, CleanText;
    if its != [] {
      assert its[0] in its && forall it | it in its[1..] :: it in its;
      IdsCount(its[1..], existing, valid, allowed, digest, taken + {IdFor(its[0], existing, taken, digest)});
    }
  }

  lemma {:induction false} RenderedAre(items: seq<ItemOut>, valid: set<string>)
    ensures forall it | it in Rendered(items, valid) :: it in items && Grounded(it, valid)
  {
    hide Grounded;
    if items != [] { RenderedAre(items[1..], valid); }
  }

  lemma {:induction false} RowsOfRendered(items: seq<ItemOut>, existing: seq<Item>, valid: set<string>,
      allowed: set<string>,
                                          digest: Digest, taken: set<string>)
    ensures Rows(Rendered(items, valid), existing, valid, allowed, digest, taken)
            == Rows(items, existing, valid, allowed, digest, taken)
  {
    hide Grounded, IdFor, RowOf;
    if items != [] {
      if Grounded(items[0], valid) {
        RowsOfRendered(items[1..], existing, valid, allowed, digest,
            taken + {IdFor(items[0], existing, taken, digest)});
        assert Rendered(items, valid)[1..] == Rendered(items[1..], valid);
      } else {
        RowsOfRendered(items[1..], existing, valid, allowed, digest, taken);
        assert Rendered(items, valid) == Rendered(items[1..], valid);
      }
    }
  }

  lemma NothingEchoed(it: ItemOut, second: seq<Item>)
    requires it.blockId == "" && forall e | e in second :: e.blockId != ""
    ensures Recalled(it, second) == ByText(second, Key(it))
  {
    hide CleanText;
    assert Trim("") == "";
    assert "" !in IdSet(second);
  }

  lemma GetsIff(it: ItemOut, id: string, second: seq<Item>, taken: set<string>, digest: Digest)
    requires it.blockId == "" && (forall e | e in second :: e.blockId != "") && id != "" && id !in taken
    ensures IdFor(it, second, taken, digest) == id <==> GetsId(it, id, second, taken, digest)
  {
    hide CleanText, Mint, ByText;
    NothingEchoed(it, second);
  }

  lemma {:induction false} AllGetIff(its: seq<ItemOut>, ids: seq<string>, second: seq<Item>, valid: set<string>,
      allowed: set<string>,
                                     digest: Digest, taken: set<string>)
    requires |its| == |ids| && forall it | it in its :: Grounded(it, valid) && it.blockId == ""
    requires forall e | e in second :: e.blockId != ""
    requires Distinct(ids) && Avoids(ids, taken) && forall i | 0 <= i < |ids| :: ids[i] != ""
    ensures Ids(Rows(its, second, valid, allowed, digest, taken)) == ids <==> AllGet(its, ids, second, taken, digest)
    decreases |its|
  {
    hide Grounded, IdFor, RowOf, GetsId;
    if its != [] {
      var it, id := its[0], ids[0];
      assert it in its && forall x | x in its[1..] :: x in its;
      var got := IdFor(it, second, taken, digest);
      GetsIff(it, id, second, taken, digest);
      assert ids == [id] + ids[1..];
      DistinctCons(id, ids[1..], taken);
      IdsCons(RowOf(it, got, valid, allowed), Rows(its[1..], second, valid, allowed, digest, taken + {got}));
      RowHas(it, got, valid, allowed);
      AllGetIff(its[1..], ids[1..], second, valid, allowed, digest, taken + {id});
      var now := Ids(Rows(its, second, valid, allowed, digest, taken));
      assert now[0] == got && now[1..] == Ids(Rows(its[1..], second, valid, allowed, digest, taken + {got}));
      assert now == ids <==> got == id && now[1..] == ids[1..];
    }
  }

  lemma RowHas(it: ItemOut, id: string, valid: set<string>, allowed: set<string>)
    ensures RowOf(it, id, valid, allowed).blockId == id
  {}

  /** Items named again without their ids: after linking, the fence and reading the
      page, all keep their ids exactly if for each the last item the page shows of
      its text is its own row; or none is left and the same id is minted again. */
  lemma SameNextBatchIff(items: seq<ItemOut>, existing: seq<Item>, forms: seq<Names.Form>, valid: set<string>,
                         allowed: set<string>, digest: Digest)
    requires Usual(existing, valid, allowed, digest) && NeverExhausted(items, existing, valid, digest, {})
    requires forall it | it in items :: it.blockId == ""
    requires Names.Applied(forms, TextOf(Rows(items, existing, valid, allowed, digest, {}))).Some?
    ensures var rows := Rows(items, existing, valid, allowed, digest, {});
            var second := Stored(Names.Applied(forms, TextOf(rows)).value);
            && |Rendered(items, valid)| == |rows|
            && (Ids(Rows(items, second, valid, allowed, digest, {})) == Ids(rows)
                <==> AllGet(Rendered(items, valid), Ids(rows), second, {}, digest))
  {
    hide Usual, PlainItem, Grounded, NeverExhausted, TextOf;
    var rows := Rows(items, existing, valid, allowed, digest, {});
    var its := Rendered(items, valid);
    var second := Stored(Names.Applied(forms, TextOf(rows)).value);
    RowsFacts(items, existing, valid, allowed, digest);
    RenderedAre(items, valid);
    RowsOfRendered(items, second, valid, allowed, digest, {});
    StoredIds(Names.Applied(forms, TextOf(rows)).value);
    AllGetIff(its, Ids(rows), second, valid, allowed, digest, {});
  }

  lemma RowsFacts(items: seq<ItemOut>, existing: seq<Item>, valid: set<string>, allowed: set<string>, digest: Digest)
    requires Usual(existing, valid, allowed, digest) && NeverExhausted(items, existing, valid, digest, {})
    ensures var rows := Rows(items, existing, valid, allowed, digest, {}); var its := Rendered(items, valid);
            && |its| == |rows| && Distinct(Ids(rows)) && OneLineItems(rows)
            && (forall i | 0 <= i < |rows| :: rows[i].blockId != "" && rows[i].text == CleanText(its[i].text))
  {
    hide Usual, PlainItem, Grounded, NeverExhausted, OneLineItem, CleanText;
    var rows := Rows(items, existing, valid, allowed, digest, {});
    RenderedIdsDistinct(items, existing, valid, allowed, digest);
    RowsArePlain(items, existing, valid, allowed, digest, {});
    RenderedAre(items, valid);
    RowsOfRendered(items, existing, valid, allowed, digest, {});
    IdsCount(Rendered(items, valid), existing, valid, allowed, digest, {});
    forall row | row in rows ensures OneLineItem(row) && row.blockId != "" {
      PlainIsOneLine(row);
      PlainHasId(row);
    }
  }

  lemma PlainHasId(it: Item)
    requires PlainItem(it)
    ensures it.blockId != ""
  {}

  /** Items that were read have ids. */
  lemma StoredIds(text: string)
    ensures forall e | e in Stored(text) :: e.blockId != ""
  {
    hide StripNL, Inner, Neutralise, PlainItem, LinesOf, ParseLines;
    var t := StripNL(Inner(Neutralise(text)));
    LinesHaveNoNewline(t);
    ParsedAllPlain(LinesOf(t));
    forall e | e in Stored(text) ensures e.blockId != "" { PlainHasId(e); }
  }

  // ---------------------------------------------------------------------
  // Text that linking leaves alone
  // ---------------------------------------------------------------------

  lemma StoredRows(rows: seq<Item>)
    requires OneLineItems(rows)
    ensures Stored(TextOf(rows)) == ReadAll(rows)
  {
    hide StripNL, Inner, Neutralise, FormatAll, Shown, Join, OneLineItem, NeutraliseLine, ParseLines;
    var x := Neutralise(TextOf(rows));
    ShownInner(x);
    ShownStrip(Inner(x));
    SameItems(StripNL(Inner(x)), x);
    if rows == [] {
      NoRows();
      ReadNone();
    } else {
      FormatAllLines(rows);
      ShownNeutral(FormatAll(rows));
      ItemsShown(x, NeutraliseLines(FormatAll(rows)));
    }
  }

  lemma NoRows()
    ensures ParseItems(Neutralise(TextOf([]))) == []
  {
    BlankIsNeutral();
    SplitLast("");
    NeutraliseKeepsIffNeutral("");
    assert TextOf([]) == "" && LinesOf("") == [];
  }

  /** The text a row reads back as. */
  function ReadText(row: Item): string { if ReadBack(row).Some? then Norm(ReadBack(row).value.text) else "" }

  /** The id was the last resort, and the shorter ones are on the page. */
  predicate LastResort(it: ItemOut, id: string, ids: set<string>, digest: Digest) {
    var d := DigestOf(digest, it.kind, CleanText(it.text));
    id == Candidate(d, 12) && Candidate(d, 4) in ids && Candidate(d, 6) in ids && Candidate(d, 8) in ids
  }

  /** No later row reads back with this row's text, and this one does. */
  predicate ReadsLast(its: seq<ItemOut>, rows: seq<Item>, i: nat, digest: Digest)
    requires |its| == |rows| && i < |rows|
  {
    && (forall j | i < j < |rows| :: ReadText(rows[j]) != Norm(rows[i].text))
    && (TextReads(rows[i]) || LastResort(its[i], rows[i].blockId, IdSet(rows), digest))
  }

  /** Where linking leaves the rendered text alone: all items keep their ids exactly
      if each row's text is read back, and by no later row. */
  lemma PlainNextBatchIff(items: seq<ItemOut>, existing: seq<Item>, valid: set<string>, allowed: set<string>,
      digest: Digest)
    requires Usual(existing, valid, allowed, digest) && NeverExhausted(items, existing, valid, digest, {})
    requires forall it | it in items :: it.blockId == ""
    ensures var rows := Rows(items, existing, valid, allowed, digest, {}); var its := Rendered(items, valid);
            && |its| == |rows|
            && (Ids(Rows(items, Stored(TextOf(rows)), valid, allowed, digest, {})) == Ids(rows)
                <==> forall i | 0 <= i < |rows| :: ReadsLast(its, rows, i, digest))
  {
    hide Usual, Grounded, NeverExhausted, TextOf, Stored, ReadAll, ReadsLast, AllGet, ReadBack, OneLineItem, CleanText;
    var rows, its := Rows(items, existing, valid, allowed, digest, {}), Rendered(items, valid);
    var second := Stored(TextOf(rows));
    SameNextBatchIff(items, existing, [], valid, allowed, digest);
    RowsFacts(items, existing, valid, allowed, digest);
    StoredRows(rows);
    SecondIs(rows, second);
    assert rows[..0] == [] && IdSet([]) == {} && its[0..] == its && Ids(rows)[0..] == Ids(rows);
    AllGetLast(its, rows, second, digest, 0);
  }

  /** What is read has the rows' ids, and the texts they read as. */
  lemma SecondIs(rows: seq<Item>, second: seq<Item>)
    requires OneLineItems(rows) && second == ReadAll(rows)
    ensures |second| == |rows| && IdSet(second) == IdSet(rows)
    ensures forall i | 0 <= i < |rows| ::
              second[i].blockId == rows[i].blockId && ReadBack(rows[i]).Some?
                  && Norm(second[i].text) == ReadText(rows[i])
  {
    hide FormatAll, ReadAll, ReadBack, OneLineItem, Norm;
    ReadAllItems(rows);
    ReadIds(rows);
  }

  /** The last item of that text. */
  lemma {:induction false} LastOf(existing: seq<Item>, key: string) returns (m: int)
    ensures -1 <= m < |existing| && forall j | m < j < |existing| :: Norm(existing[j].text) != key
    ensures ByText(existing, key) == if m == -1 then "" else existing[m].blockId
    ensures m >= 0 ==> Norm(existing[m].text) == key
  {
    hide Norm;
    m := |existing| - 1;
    if existing != [] && Norm(existing[m].text) != key {
      var n := m;
      m := LastOf(existing[..n], key);
      assert forall i | 0 <= i < n :: existing[..n][i] == existing[i];
    }
  }

  /** The page read back, row for row. */
  predicate Matching(its: seq<ItemOut>, rows: seq<Item>, second: seq<Item>) {
    && |its| == |rows| == |second| && Distinct(Ids(rows)) && IdSet(second) == IdSet(rows)
    && forall i | 0 <= i < |rows| ::
         rows[i].blockId != "" && rows[i].text == CleanText(its[i].text) && ReadBack(rows[i]).Some?
         && second[i].blockId == rows[i].blockId && Norm(second[i].text) == ReadText(rows[i])
  }

  lemma GetsLast(its: seq<ItemOut>, rows: seq<Item>, second: seq<Item>, digest: Digest, k: nat)
    requires Matching(its, rows, second) && k < |rows|
    ensures GetsId(its[k], rows[k].blockId, second, IdSet(rows[..k]), digest) <==> ReadsLast(its, rows, k, digest)
  {
    hide CleanText, ReadText, Norm, Lower, Mint, ByText, TextReads, ReadBack, LastResort, DigestOf;
    var it, row := its[k], rows[k];
    var key := Norm(row.text);
    CleanTextNorm(it.text);
    KeyIs(it);
    var m := LastOf(second, key);
    Again(it, row.blockId, rows, second, k, digest);
    TextReadsIs(row);
    if m >= 0 { IdsBefore(rows, m, k); }
    IdsBefore(rows, k, k);
  }

  lemma KeyIs(it: ItemOut)
    ensures Key(it) == Lower(CleanText(it.text))
  {}

  lemma Again(it: ItemOut, id: string, rows: seq<Item>, second: seq<Item>, k: nat, digest: Digest)
    requires k < |rows| && id == rows[k].blockId && IdSet(second) == IdSet(rows)
    ensures Mint(DigestOf(digest, it.kind, CleanText(it.text)), IdSet(rows[..k]) + IdSet(second)) == id
            <==> LastResort(it, id, IdSet(rows), digest)
  {
    hide CleanText, Mint, DigestOf;
    forall e | e in rows[..k] ensures e.blockId in IdSet(rows) { assert e in rows; }
    assert IdSet(rows[..k]) + IdSet(second) == IdSet(rows);
    assert rows[k] in rows;
    MintAgain(DigestOf(digest, it.kind, CleanText(it.text)), id, IdSet(rows));
  }

  lemma TextReadsIs(row: Item)
    requires ReadBack(row).Some?
    ensures TextReads(row) <==> ReadText(row) == Norm(row.text)
  {}

  lemma MintAgain(d: string, id: string, all: set<string>)
    requires id in all
    ensures Mint(d, all) == id
            <==> id == Candidate(d, 12) && Candidate(d, 4) in all && Candidate(d, 6) in all && Candidate(d, 8) in all
  {}

  /** An id is among the first `k` exactly if its row is. */
  lemma IdsBefore(rows: seq<Item>, i: nat, k: nat)
    requires i < |rows| && k <= |rows| && Distinct(Ids(rows))
    ensures rows[i].blockId in IdSet(rows[..k]) <==> i < k
    ensures forall j | 0 <= j < |rows| && rows[j].blockId == rows[i].blockId :: j == i
  {
    forall j | 0 <= j < |rows| && j != i ensures rows[j].blockId != rows[i].blockId {
      assert Ids(rows)[j] != Ids(rows)[i];
    }
    if i < k { assert rows[i] == rows[..k][i] && rows[i] in rows[..k]; }
  }

  lemma {:induction false} AllGetLast(its: seq<ItemOut>, rows: seq<Item>, second: seq<Item>, digest: Digest, k: nat)
    requires |its| == |rows| && k <= |rows| && Matching(its, rows, second)
    ensures AllGet(its[k..], Ids(rows)[k..], second, IdSet(rows[..k]), digest)
            <==> forall i | k <= i < |rows| :: ReadsLast(its, rows, i, digest)
    decreases |rows| - k
  {
    hide ReadsLast, GetsId, AllGet, Matching, IdSet;
    if k == |rows| {
      NoneLeft(its[k..], Ids(rows)[k..], second, IdSet(rows[..k]), digest);
    } else {
      GetsLast(its, rows, second, digest, k);
      AllGetLast(its, rows, second, digest, k + 1);
      AllGetStep(its, rows, second, digest, k);
    }
  }

  lemma NoneLeft(its: seq<ItemOut>, ids: seq<string>, second: seq<Item>, taken: set<string>, digest: Digest)
    requires its == [] && ids == []
    ensures AllGet(its, ids, second, taken, digest)
  {}

  lemma AllGetStep(its: seq<ItemOut>, rows: seq<Item>, second: seq<Item>, digest: Digest, k: nat)
    requires |its| == |rows| && k < |rows|
    ensures AllGet(its[k..], Ids(rows)[k..], second, IdSet(rows[..k]), digest)
            <==> GetsId(its[k], rows[k].blockId, second, IdSet(rows[..k]), digest)
                 && AllGet(its[k + 1..], Ids(rows)[k + 1..], second, IdSet(rows[..k + 1]), digest)
  {
    hide GetsId;
    assert its[k..][1..] == its[k + 1..] && Ids(rows)[k..][1..] == Ids(rows)[k + 1..];
    assert rows[..k + 1] == rows[..k] + [rows[k]];
    assert IdSet(rows[..k + 1]) == IdSet(rows[..k]) + {rows[k].blockId};
  }

  // ---------------------------------------------------------------------
  // Two items that get new ids
  // ---------------------------------------------------------------------

  /** A task of that text from message `m`. */
  function TaskOut(text: string): ItemOut { ItemOut(Task, text, ["m"], "", "", false, "") }

  function TaskFields(): seq<Field> { [Field("kind", "task"), Field("src", "m")] }

  /** Text that cleaning leaves alone. */
  predicate Settled(text: string) {
    Squeezed(text) && Trimmed(text) && text != "" && !IsDash(text[0]) && !IsDash(text[|text| - 1])
  }

  lemma CleanedIs(text: string)
    requires Settled(text)
    ensures CleanText(text) == text
  {
    OneLineKept(text);
    TrimTrimmed(text);
  }

  /** The row of such a task, on a page without items. */
  lemma TaskRow(text: string, digest: Digest)
    requires Settled(text) && Hex(digest)
    ensures var id := Candidate(DigestOf(digest, Task, text), 4);
            && Rendered([TaskOut(text)], {"m"}) == [TaskOut(text)] && Grounded(TaskOut(text), {"m"})
            && Rows([TaskOut(text)], [], {"m"}, {}, digest, {}) == [Item(text, id, Some(false), TaskFields())]
            && IsId(id) && |id| == 6
  {
    hide CleanText, DigestOf;
    var it, d := TaskOut(text), DigestOf(digest, Task, text);
    CleanedIs(text);
    assert Trim("m") == "m" by { TrimTrimmed("m"); }
    assert it.srcIds[1..] == [] && Known(it.srcIds, {"m"}) == ["m"];
    OneUnique("m");
    assert [it][1..] == [] && Join(", ", ["m"]) == "m";
    assert Owner(it) == "" && Trim("") == "";
    NothingEchoed(it, []);
    assert IdFor(it, [], {}, digest) == Candidate(d, 4) by {
      assert IdSet([]) == {} && |digest(KindName(Task) + "|" + Lower(Trim(text)))| == 40;
    }
    DigestIs(text, digest);
    assert FieldsOf(it, {"m"}, {}) == TaskFields();
  }

  lemma OneUnique(s: string)
    ensures Unique([s]) == [s]
  {
    assert [s][..0] == [];
  }

  lemma DigestIs(text: string, digest: Digest)
    requires Hex(digest)
    ensures var d := DigestOf(digest, Task, text); |d| == 40 && IsId(Candidate(d, 4)) && |Candidate(d, 4)| == 6
  {}

  lemma PlainField(f: Field)
    requires OwnerName(f.key) && Trimmed(f.value) && BracketFree(f.value) && NoNewline(f.value) && NoLt(f.value)
    ensures CleanField(f)
  {
    PlainWiki(f.value);
    PlainLt(f.value);
  }

  lemma TaskFieldsClean()
    ensures CleanFields(TaskFields()) && Get(TaskFields(), "a") == None
  {
    hide CleanField;
    PlainField(Field("kind", "task"));
    PlainField(Field("src", "m"));
    var fs := TaskFields();
    assert fs[1..] == [Field("src", "m")] && fs[1..][1..] == [];
    assert "kind"[0] == 'k' && "src"[0] == 's' && "a"[0] == 'a';
    assert CleanFields(fs[1..]);
  }

  lemma SpelledClean(id: string)
    requires IsId(id)
    ensures Clean(Item("x", id, Some(false), [Field("a", "b")] + TaskFields()))
  {
    hide CleanField, IsId;
    TaskFieldsClean();
    PlainField(Field("a", "b"));
    var fs := [Field("a", "b")] + TaskFields();
    assert fs[1..] == TaskFields();
    PlainLt("x");
    NoOpeners("x");
  }

  lemma {:induction false} NoOpeners(s: string)
    requires BracketFree(s)
    ensures NoOpener(s)
  {
    if s != "" { NoOpeners(s[1..]); }
  }

  /** The row whose text spells a field is written as the row with that field. */
  lemma SpelledRow(id: string)
    ensures FormatItem(Item("x [a:: b]", id, Some(false), TaskFields()))
            == FormatItem(Item("x", id, Some(false), [Field("a", "b")] + TaskFields()))
  {
    hide FormatFields;
    var f, rest := Field("a", "b"), TaskFields();
    FieldsCons(f, rest);
    var b, s, e := Bullet(Some(false)), FormatFields(rest), " ^" + id;
    assert "x" + (" " + FieldText(f)) == "x [a:: b]";
    assert b + "x" + (" " + FieldText(f) + s) + e == b + ("x" + (" " + FieldText(f))) + s + e;
  }

  lemma FirstRender(text: string, digest: Digest)
    requires Settled(text) && Hex(digest)
    ensures Usual([], {"m"}, {}, digest) && NeverExhausted([TaskOut(text)], [], {"m"}, digest, {})
    ensures TaskOut(text).blockId == ""
  {
    TaskRow(text, digest);
    assert [TaskOut(text)][1..] == [];
  }

  /** A text that spells a field is read back without it, so that its item is not
      known again: it is a new item in the next batch. */
  lemma SpelledTextIsNew(digest: Digest)
    requires Hex(digest)
    ensures var items := [TaskOut("x [a:: b]")];
            var rows := Rows(items, [], {"m"}, {}, digest, {});
            Ids(Rows(items, Stored(TextOf(rows)), {"m"}, {}, digest, {})) != Ids(rows)
  {
    hide TextOf, Stored, Usual, NeverExhausted, Rendered, Rows, IsId, Ids, ReadsLast, TaskOut, TaskFields;
    var text := "x [a:: b]";
    var id := Candidate(DigestOf(digest, Task, text), 4);
    var items, rows := [TaskOut(text)], [Item(text, id, Some(false), TaskFields())];
    SettledText();
    TaskRow(text, digest);
    FirstRender(text, digest);
    PlainNextBatchIff(items, [], {"m"}, {}, digest);
    SpelledNotRead(id);
    ShortIsNoResort(TaskOut(text), rows[0], digest);
    assert !ReadsLast(items, rows, 0, digest);
  }

  lemma SettledText()
    ensures Settled("x [a:: b]") && Settled("y")
  {}

  lemma SpelledNotRead(id: string)
    requires IsId(id)
    ensures !TextReads(Item("x [a:: b]", id, Some(false), TaskFields()))
  {
    hide FormatItem, IsId, Clean, Norm, ParseItemLine, NeutraliseLine;
    var row, it := Item("x [a:: b]", id, Some(false), TaskFields()),
        Item("x", id, Some(false), [Field("a", "b")] + TaskFields());
    SpelledClean(id);
    CleanReads(it);
    SpelledRow(id);
    SameWritten(row, it);
    LongerNorm();
  }

  lemma ShortIsNoResort(it: ItemOut, row: Item, digest: Digest)
    requires Hex(digest) && |row.blockId| == 6 && !TextReads(row)
    ensures !ReadsLast([it], [row], 0, digest)
  {
    hide TextReads, CleanText, ReadText;
    var d := DigestOf(digest, it.kind, CleanText(it.text));
    assert |d| == 40 && |Candidate(d, 12)| == 14;
  }

  lemma SameWritten(row: Item, it: Item)
    requires FormatItem(row) == FormatItem(it)
    ensures ReadBack(row) == ReadBack(it)
  {}

  lemma LongerNorm()
    ensures Norm("x") != Norm("x [a:: b]")
  {
    hide OneLine;
    OneLineKept("x");
    OneLineKept("x [a:: b]");
    assert |Norm("x")| == 1;
  }

  // ---------------------------------------------------------------------
  // A text that names a member
  // ---------------------------------------------------------------------

  const NAME := Names.Form("y", "Y")

  /** Text without that name, and without a link. */
  predicate Unnamed(s: string) { forall i | 0 <= i < |s| :: s[i] != 'y' && s[i] != 'Y' }

  predicate NoLinks(s: string) { forall i | 0 <= i < |s| - 1 :: s[i] != '[' || s[i + 1] != '[' }

  lemma NoLinkAt(s: string)
    requires NoLinks(s)
    ensures !Names.LinkAt(s) && Names.Gap(s) == |s| && Names.Held(s) == []
    decreases |s|
  {
    if s != "" { NoLinkAt(s[1..]); }
  }

  lemma CopiesOne(s: string, word: bool)
    requires s != "" && NoLinks(s) && s[0] != 'y' && s[0] != 'Y'
    ensures Names.Linked([NAME], s, word) == [s[0]] + Names.Linked([NAME], s[1..], IsWord(s[0]))
  {
    hide Names.Linked;
    NoLinkAt(s);
    assert s[..Names.Gap(s)] == s;
    assert !Names.AliasAt(NAME.alias, s, word);
    Names.FirstNone([NAME], s, word);
    NamesTwice.WalkCopy([NAME], s, word);
    var r := Names.Linked([NAME], s, word);
    assert r == [r[0]] + r[1..];
  }

  lemma {:induction false} CopiesUnnamed(a: string, rest: string, word: bool)
    requires Unnamed(a) && NoLinks(a + rest)
    ensures Names.Linked([NAME], a + rest, word)
            == a + Names.Linked([NAME], rest, if a == "" then word else IsWord(a[|a| - 1]))
    decreases |a|
  {
    hide Names.Linked;
    if a == "" {
      assert a + rest == rest;
    } else {
      assert (a + rest)[1..] == a[1..] + rest && (a + rest)[0] == a[0];
      forall i | 0 <= i < |a[1..] + rest| - 1 ensures (a[1..] + rest)[i] != '[' || (a[1..] + rest)[i + 1] != '[' {
        assert (a + rest)[i + 1] != '[' || (a + rest)[i + 2] != '[';
      }
      CopiesUnnamed(a[1..], rest, IsWord(a[0]));
      CopiesOne(a + rest, word);
      Names.Cons(a, Names.Linked([NAME], rest, IsWord(a[|a| - 1])));
    }
  }

  lemma LinksName(b: string)
    requires Unnamed(b) && NoLinks("y" + b) && b != "" && !IsWord(b[0])
    ensures Names.Linked([NAME], "y" + b, false) == "[[Y]]" + b
  {
    hide Names.Linked;
    var s := "y" + b;
    NoLinkAt(s);
    assert s[..Names.Gap(s)] == s && s[..1] == "y" && s[1..] == b;
    assert Names.AliasAt("y", s, false);
    assert Names.First([NAME], s, false) == 0;
    NamesTwice.WalkMatch([NAME], s, false);
    forall i | 0 <= i < |b| - 1 ensures b[i] != '[' || b[i + 1] != '[' { assert s[i + 1] != '[' || s[i + 2] != '['; }
    CopiesUnnamed(b, "", true);
    assert b + "" == b && Names.Linked([NAME], "", IsWord(b[|b| - 1])) == "" by { NothingLinked(); }
    assert Names.Link("Y") == "[[Y]]";
  }

  lemma NothingLinked()
    ensures forall word :: Names.Linked([NAME], "", word) == ""
  {}

  const ZEROS: string := seq(40, _ => '0')

  /** A digest, for the example. */
  const Zero: Digest := _ => ZEROS

  lemma ZeroIsHex()
    ensures Hex(Zero) && |ZEROS| == 40 && Candidate(ZEROS, 4) == "i-0000"
  {
    assert ZEROS[..4] == "0000";
    assert forall i | 0 <= i < 40 :: IsIdChar(ZEROS[i]);
  }

  /** The rendered line, linked. */
  lemma NamedLine()
    ensures var row := Item("y", "i-0000", Some(false), TaskFields());
            Names.Applied([NAME], FormatItem(row)) == Some(FormatItem(row.(text := "[[Y]]")))
  {
    hide Names.Linked, Names.Applied;
    var a, b := "- [ ] ", " [kind:: task] [src:: m] ^i-0000";
    var row := Item("y", "i-0000", Some(false), TaskFields());
    NamedText("y");
    NamedText("[[Y]]");
    var s := a + ("y" + b);
    assert NoLinks(s) && NoLinks("y" + b) && Unnamed(a) && Unnamed(b);
    CopiesUnnamed(a, "y" + b, false);
    LinksName(b);
    NoLinkAt(s);
    NamedClean(s);
    Names.AppliedIffNotNumbered([NAME], s);
    assert a + ("[[Y]]" + b) == FormatItem(row.(text := "[[Y]]"));
  }

  lemma NamedClean(s: string)
    requires s == "- [ ] " + ("y" + " [kind:: task] [src:: m] ^i-0000")
    ensures Names.CleanForms([NAME]) && Names.NoMarks(s)
  {}

  lemma NamedText(text: string)
    ensures FormatItem(Item(text, "i-0000", Some(false), TaskFields()))
            == "- [ ] " + (text + " [kind:: task] [src:: m] ^i-0000")
  {
    hide FormatFields;
    TaskText();
    var b, f, e := "- [ ] ", " [kind:: task] [src:: m]", " ^i-0000";
    assert b + text + f + e == b + (text + (f + e));
    assert f + e == " [kind:: task] [src:: m] ^i-0000";
  }

  lemma TaskText()
    ensures FormatFields(TaskFields()) == " [kind:: task] [src:: m]"
  {
    var f, g := Field("kind", "task"), Field("src", "m");
    FieldsCons(f, [g]);
    OneField(g);
    hide FormatFields;
    assert [f] + [g] == TaskFields();
    assert " " + FieldText(f) == " [kind:: task]" && " " + FieldText(g) == " [src:: m]";
  }

  /** A text that names a member is stored as the link, so that its item is not
      known again either. */
  lemma NamedTextIsNew()
    ensures var items := [TaskOut("y")];
            var rows := Rows(items, [], {"m"}, {}, Zero, {});
            var linked := Names.Applied([NAME], TextOf(rows));
            linked.Some? && Ids(Rows(items, Stored(linked.value), {"m"}, {}, Zero, {})) != Ids(rows)
  {
    hide Stored, Usual, NeverExhausted, Rendered, Rows, Names.Applied, AllGet, TextOf, Grounded, FormatItem;
    var row := Item("y", "i-0000", Some(false), TaskFields());
    FirstOfNamed(row);
    NamedLine();
    OneLineText(row);
    var linkedRow := row.(text := "[[Y]]");
    LinkedClean();
    StoredOne(linkedRow);
    SameNextBatchIff([TaskOut("y")], [], [NAME], {"m"}, {}, Zero);
    OneId(row);
    NotGot(linkedRow);
  }

  lemma OneId(row: Item)
    ensures Ids([row]) == [row.blockId]
  {}

  lemma FirstOfNamed(row: Item)
    requires row == Item("y", "i-0000", Some(false), TaskFields())
    ensures Rows([TaskOut("y")], [], {"m"}, {}, Zero, {}) == [row] && Rendered([TaskOut("y")], {"m"}) == [TaskOut("y")]
    ensures Usual([], {"m"}, {}, Zero) && NeverExhausted([TaskOut("y")], [], {"m"}, Zero, {})
  {
    hide Usual, NeverExhausted, Rendered, Rows, TaskOut, TaskFields;
    ZeroIsHex();
    SettledText();
    TaskRow("y", Zero);
    FirstRender("y", Zero);
    assert DigestOf(Zero, Task, "y") == ZEROS;
  }

  lemma OneLineText(row: Item)
    ensures TextOf([row]) == FormatItem(row)
  {
    assert [row][1..] == [] && FormatAll([]) == [];
  }

  lemma LinkedClean()
    ensures Clean(Item("[[Y]]", "i-0000", Some(false), TaskFields()))
  {
    hide CleanFields, NoOpener, MarkerFree;
    TaskFieldsClean();
    PlainLt("[[Y]]");
    LinkOpensNothing();
  }

  lemma LinkOpensNothing()
    ensures NoOpener("[[Y]]")
  {
    hide OpenerFirst;
    var s := "[[Y]]";
    assert s[1..] == "[Y]]" && s[1..][1..] == "Y]]";
    LinkIsNoOpener();
    NoneOpens("Y]]");
  }

  lemma LinkIsNoOpener()
    ensures !OpenerFirst("[[Y]]") && !OpenerFirst("[Y]]")
  {
    WordRunIs("[[Y]]", 1, 1);
    WordRunIs("[Y]]", 1, 2);
    assert "[Y]]"[2..] == "]]";
  }

  lemma {:induction false} NoneOpens(s: string)
    requires forall i | 0 <= i < |s| :: s[i] != '['
    ensures NoOpener(s)
  {
    if s != "" { NoneOpens(s[1..]); }
  }

  lemma StoredOne(row: Item)
    requires Clean(row)
    ensures Stored(FormatItem(row)) == [row]
  {
    hide Stored, Clean, FormatItem, ParseItemLine, NeutraliseLine;
    CleanReads(row);
    StoredRows([row]);
    OneLineText(row);
    ReadCons([row]);
    ReadNone();
    assert [row][1..] == [];
  }

  lemma NotGot(row: Item)
    requires row == Item("[[Y]]", "i-0000", Some(false), TaskFields())
    ensures !AllGet([TaskOut("y")], ["i-0000"], [row], {}, Zero)
  {
    hide CleanText;
    CleanedIs("y");
    ZeroIsHex();
    NamedNorm();
    assert [row][..0] == [];
    assert ByText([row], Key(TaskOut("y"))) == "";
    assert "i-0000" in IdSet([row]);
    assert IdSet([row]) == {"i-0000"} && {} + IdSet([row]) == {"i-0000"};
    assert |Candidate(ZEROS, 6)| == 8 && |"i-0000"| == 6;
  }

  lemma NamedNorm()
    ensures Norm("[[Y]]") != Lower("y")
  {
    hide OneLine;
    OneLineKept("[[Y]]");
    assert |Norm("[[Y]]")| == 5 && |Lower("y")| == 1;
  }
}
