/** A model's typed items become item lines (`render_items` and
    `_mint_block_id`, agents/wa_agent/assign.py): cleaned, grounded in messages,
    and given block ids. */
module Rendering {
  import opened Options
  import opened Parts
  import opened Text
  import opened Editor
  import opened Squeezing
  import opened Frontmatter
  import opened Items
  import opened ItemText
  import opened ItemEdits
  import opened CleanItems
  import opened ThreadTransfer
  import Neutral

  datatype Kind = Task | Decision | Resource | Question

  datatype ItemOut = ItemOut(kind: Kind, text: string, srcIds: seq<string>, owner: string, due: string,
                             done: bool, blockId: string)

  function KindName(k: Kind): string {
    match k case Task => "task" case Decision => "decision" case Resource => "resource" case Question => "question"
  }

  // ---------------------------------------------------------------------
  // Cleaning
  // ---------------------------------------------------------------------

  predicate IsDash(c: char) { c == '-' || c == '\U{2022}' || c == ' ' }

  function StripFrom(s: string, drop: char -> bool): string {
    if s == "" || !drop(s[0]) then s else StripFrom(s[1..], drop)
  }

  function StripTo(s: string, drop: char -> bool): string {
    if s == "" || !drop(s[|s| - 1]) then s else StripTo(s[..|s| - 1], drop)
  }

  /** `s.strip(chars)`. */
  function Strip(s: string, drop: char -> bool): string { StripTo(StripFrom(s, drop), drop) }

  function CleanText(s: string): string { Trim(Strip(OneLine(s), IsDash)) }

  function Known(srcIds: seq<string>, valid: set<string>): (r: seq<string>)
    ensures forall s | s in r :: s in valid
  {
    if srcIds == [] then []
    else (if Trim(srcIds[0]) in valid then [Trim(srcIds[0])] else []) + Known(srcIds[1..], valid)
  }

  /** `dict.fromkeys`. */
  function Unique(ss: seq<string>): (r: seq<string>)
    ensures forall s :: s in r <==> s in ss
    ensures forall i, j | 0 <= i < j < |r| :: r[i] != r[j]
  {
    if ss == [] then []
    else
      var before := Unique(ss[..|ss| - 1]);
      assert ss == ss[..|ss| - 1] + [ss[|ss| - 1]];
      if ss[|ss| - 1] in before then before else before + [ss[|ss| - 1]]
  }

  predicate IsDate(s: string) {
    && |s| == 10 && s[4] == '-' && s[7] == '-'
    && forall i | 0 <= i < 10 && i != 4 && i != 7 :: '0' <= s[i] <= '9'
  }

  /** What an item is let in with: its text and its messages. */
  predicate Grounded(it: ItemOut, valid: set<string>) { CleanText(it.text) != "" && Known(it.srcIds, valid) != [] }

  function Owner(it: ItemOut): string { Strip(Trim(it.owner), IsBracket) }

  function FieldsOf(it: ItemOut, valid: set<string>, allowed: set<string>): seq<Field> {
    [Field("kind", KindName(it.kind))]
    + (if Owner(it) != "" && Owner(it) in allowed
       then [Field(if it.kind == Question then "by" else "owner", "[[" + Owner(it) + "]]")] else [])
    + (if IsDate(Trim(it.due)) then [Field("due", Trim(it.due))] else [])
    + [Field("src", Join(", ", Unique(Known(it.srcIds, valid))))]
  }

  function Checked(it: ItemOut): Option<bool> {
    match it.kind case Decision => Some(true) case Task => Some(it.done) case _ => None
  }

  // ---------------------------------------------------------------------
  // Block ids
  // ---------------------------------------------------------------------

  type Digest = string -> string

  /** Forty hexadecimal digits, as SHA-1 has. */
  ghost predicate Hex(digest: Digest) {
    forall s: string :: |digest(s)| == 40 && forall i | 0 <= i < 40 :: IsIdChar(digest(s)[i])
  }

  function DigestOf(digest: Digest, kind: Kind, text: string): string {
    digest(KindName(kind) + "|" + Lower(Trim(text)))
  }

  function Candidate(d: string, width: nat): string { if width <= |d| then "i-" + d[..width] else "i-" + d }

  function Mint(d: string, taken: set<string>): string {
    if Candidate(d, 4) !in taken then Candidate(d, 4)
    else if Candidate(d, 6) !in taken then Candidate(d, 6)
    else if Candidate(d, 8) !in taken then Candidate(d, 8)
    else Candidate(d, 12)
  }

  /** The id of the last existing item of that text, or nothing. */
  function ByText(existing: seq<Item>, key: string): (id: string)
    ensures id == "" || id in IdSet(existing)
  {
    if existing == [] then ""
    else
      var n := |existing| - 1;
      assert forall it | it in existing[..n] :: it in existing;
      if Norm(existing[n].text) == key then existing[n].blockId else ByText(existing[..n], key)
  }

  /** The id of an existing item: the one echoed, or else the one of the same text. */
  function Recalled(it: ItemOut, existing: seq<Item>): (id: string)
    ensures id == "" || id in IdSet(existing)
  {
    var echoed := StripFrom(Trim(it.blockId), c => c == '^');
    if echoed in IdSet(existing) then echoed else ByText(existing, Lower(CleanText(it.text)))
  }

  predicate Mints(it: ItemOut, existing: seq<Item>, taken: set<string>) {
    Recalled(it, existing) == "" || Recalled(it, existing) in taken
  }

  function IdFor(it: ItemOut, existing: seq<Item>, taken: set<string>, digest: Digest): string {
    if Mints(it, existing, taken)
    then Mint(DigestOf(digest, it.kind, CleanText(it.text)), taken + IdSet(existing))
    else Recalled(it, existing)
  }

  // ---------------------------------------------------------------------
  // The items written
  // ---------------------------------------------------------------------

  function RowOf(it: ItemOut, id: string, valid: set<string>, allowed: set<string>): Item {
    Item(CleanText(it.text), id, Checked(it), FieldsOf(it, valid, allowed))
  }

  /** `taken` are the ids given so far. */
  function Rows(items: seq<ItemOut>, existing: seq<Item>, valid: set<string>, allowed: set<string>,
                digest: Digest, taken: set<string>): seq<Item>
  {
    if items == [] then []
    else if !Grounded(items[0], valid) then Rows(items[1..], existing, valid, allowed, digest, taken)
    else
      var id := IdFor(items[0], existing, taken, digest);
      [RowOf(items[0], id, valid, allowed)] + Rows(items[1..], existing, valid, allowed, digest, taken + {id})
  }

  lemma {:induction false} FormatSnoc(rows: seq<Item>, row: Item)
    ensures FormatAll(rows + [row]) == FormatAll(rows) + [FormatItem(row)]
  {
    if rows != [] {
      assert (rows + [row])[1..] == rows[1..] + [row];
      FormatSnoc(rows[1..], row);
    }
  }

  method RenderItems(items: seq<ItemOut>, existing: seq<Item>, valid: set<string>, allowed: set<string>, digest: Digest)
      returns (rendered: string)
    ensures rendered == Join("\n", FormatAll(Rows(items, existing, valid, allowed, digest, {})))
  {
    hide FormatItem, IdFor, RowOf, Grounded, Join;
    assert [] + Rows(items, existing, valid, allowed, digest, {}) == Rows(items, existing, valid, allowed, digest, {});
    var taken: set<string> := {};
    var lines: seq<string> := [];
    ghost var rows: seq<Item> := [];
    for n := 0 to |items|
      invariant lines == FormatAll(rows)
      invariant Rows(items, existing, valid, allowed, digest, {})
                == rows + Rows(items[n..], existing, valid, allowed, digest, taken)
    {
      var it := items[n];
      assert items[n..][1..] == items[n + 1..];
      if Grounded(it, valid) {
        var id := IdFor(it, existing, taken, digest);
        var row := RowOf(it, id, valid, allowed);
        Assoc(rows, [row], Rows(items[n + 1..], existing, valid, allowed, digest, taken + {id}));
        FormatSnoc(rows, row);
        taken := taken + {id};
        lines := lines + [FormatItem(row)];
        rows := rows + [row];
      }
    }
    assert items[|items|..] == [] && rows + [] == rows;
    rendered := Join("\n", lines);
  }

  // ---------------------------------------------------------------------
  // Ids are distinct, or a fallback was taken
  // ---------------------------------------------------------------------

  function Ids(rows: seq<Item>): seq<string> { seq(|rows|, i requires 0 <= i < |rows| => rows[i].blockId) }

  predicate Distinct(ids: seq<string>) { forall i, j | 0 <= i < j < |ids| :: ids[i] != ids[j] }

  predicate Avoids(ids: seq<string>, taken: set<string>) { forall i | 0 <= i < |ids| :: ids[i] !in taken }

  /** The last resort, which the source does not check, has been given out. */
  predicate Exhausted(it: ItemOut, existing: seq<Item>, taken: set<string>, digest: Digest) {
    var d := DigestOf(digest, it.kind, CleanText(it.text));
    var all := taken + IdSet(existing);
    && Mints(it, existing, taken)
    && Candidate(d, 4) in all && Candidate(d, 6) in all && Candidate(d, 8) in all && Candidate(d, 12) in taken
  }

  predicate NeverExhausted(items: seq<ItemOut>, existing: seq<Item>, valid: set<string>, digest: Digest,
      taken: set<string>)
  {
    items == []
    || (if !Grounded(items[0], valid) then NeverExhausted(items[1..], existing, valid, digest, taken)
        else !Exhausted(items[0], existing, taken, digest)
             && NeverExhausted(items[1..], existing, valid, digest, taken + {IdFor(items[0], existing, taken, digest)}))
  }

  lemma TakenIffExhausted(it: ItemOut, existing: seq<Item>, taken: set<string>, digest: Digest)
    ensures IdFor(it, existing, taken, digest) in taken <==> Exhausted(it, existing, taken, digest)
  {}

  lemma DistinctCons(id: string, ids: seq<string>, taken: set<string>)
    ensures Distinct([id] + ids) && Avoids([id] + ids, taken)
            <==> id !in taken && Distinct(ids) && Avoids(ids, taken + {id})
  {
    var all := [id] + ids;
    assert forall i | 0 <= i < |ids| :: all[i + 1] == ids[i];
    assert all[0] == id;
    if Distinct(all) && Avoids(all, taken) {
      forall i, j | 0 <= i < j < |ids| ensures ids[i] != ids[j] { assert all[i + 1] != all[j + 1]; }
    }
  }

  lemma IdsCons(row: Item, rows: seq<Item>)
    ensures Ids([row] + rows) == [row.blockId] + Ids(rows)
  {}

  /** The ids written are distinct, and new, exactly when no item comes to a last
      resort that has already been given out. */
  lemma {:induction false} DistinctIff(items: seq<ItemOut>, existing: seq<Item>, valid: set<string>,
      allowed: set<string>,
                                       digest: Digest, taken: set<string>)
    ensures var ids := Ids(Rows(items, existing, valid, allowed, digest, taken));
            Distinct(ids) && Avoids(ids, taken) <==> NeverExhausted(items, existing, valid, digest, taken)
  {
    if items != [] {
      if !Grounded(items[0], valid) {
        DistinctIff(items[1..], existing, valid, allowed, digest, taken);
      } else {
        var id := IdFor(items[0], existing, taken, digest);
        var rest := Rows(items[1..], existing, valid, allowed, digest, taken + {id});
        DistinctIff(items[1..], existing, valid, allowed, digest, taken + {id});
        TakenIffExhausted(items[0], existing, taken, digest);
        IdsCons(RowOf(items[0], id, valid, allowed), rest);
        DistinctCons(id, Ids(rest), taken);
      }
    }
  }

  /** No two rows share an id exactly when no last resort is given out twice. */
  lemma RenderedIdsDistinct(items: seq<ItemOut>, existing: seq<Item>, valid: set<string>, allowed: set<string>,
      digest: Digest)
    ensures Distinct(Ids(Rows(items, existing, valid, allowed, digest, {})))
            <==> NeverExhausted(items, existing, valid, digest, {})
  {
    DistinctIff(items, existing, valid, allowed, digest, {});
  }

  // ---------------------------------------------------------------------
  // Which id an item gets
  // ---------------------------------------------------------------------

  /** The last existing item of this text, but for case and blanks. */
  predicate LastOfText(existing: seq<Item>, text: string, k: nat) {
    && k < |existing| && Norm(existing[k].text) == Lower(text)
    && forall j | k < j < |existing| :: Norm(existing[j].text) != Lower(text)
  }

  lemma {:induction false} ByTextIs(existing: seq<Item>, text: string)
    ensures forall k: nat | LastOfText(existing, text, k) :: ByText(existing, Lower(text)) == existing[k].blockId
    ensures (forall k: nat :: !LastOfText(existing, text, k)) ==> ByText(existing, Lower(text)) == ""
    decreases |existing|
  {
    hide Norm, Lower;
    if existing != [] {
      var n := |existing| - 1;
      ByTextIs(existing[..n], text);
      if Norm(existing[n].text) == Lower(text) {
        assert LastOfText(existing, text, n);
      } else {
        forall k: nat ensures LastOfText(existing, text, k) <==> LastOfText(existing[..n], text, k) {}
      }
    }
  }

  /** The id an item would keep: the one echoed, if an existing item has it, or else
      that of the last existing item of its text. */
  ghost predicate Keeps(it: ItemOut, existing: seq<Item>, id: string) {
    var echoed := StripFrom(Trim(it.blockId), c => c == '^');
    if exists e :: e in existing && e.blockId == echoed then id == echoed
    else exists k: nat :: LastOfText(existing, CleanText(it.text), k) && id == existing[k].blockId
  }

  /** An item keeps its id unless that has been given out; and otherwise gets the
      first four, six or eight digits of its digest that are free, or twelve. */
  lemma IdMeans(it: ItemOut, existing: seq<Item>, taken: set<string>, digest: Digest)
    ensures forall id | Keeps(it, existing, id) && id != "" && id !in taken :: IdFor(it, existing, taken, digest) == id
    ensures (forall id | Keeps(it, existing, id) :: id == "" || id in taken) ==>
              var d := digest((if it.kind == Task then "task" else if it.kind == Decision then "decision"
                               else if it.kind == Resource then "resource" else "question")
                              + "|" + Lower(Trim(CleanText(it.text))));
              var all := taken + IdSet(existing);
              |d| == 40 ==>
                IdFor(it, existing, taken, digest)
                == "i-" + d[..if "i-" + d[..4] !in all then 4 else if "i-" + d[..6] !in all then 6
                              else if "i-" + d[..8] !in all then 8 else 12]
  {
    hide Norm, Lower, CleanText, Trim, LastOfText;
    ByTextIs(existing, CleanText(it.text));
    var r := Recalled(it, existing);
    forall id | Keeps(it, existing, id) ensures id == r {}
    if r != "" { assert Keeps(it, existing, r); }
  }

  /** The ids of the first rows. */
  function GivenBefore(rows: seq<Item>, n: nat): set<string>
    requires n <= |rows|
  {
    set j | 0 <= j < n :: rows[j].blockId
  }

  /** The row at `n` is that of the item at `i`, with the id told from those given
      before. */
  predicate RowAt(items: seq<ItemOut>, existing: seq<Item>, valid: set<string>, allowed: set<string>, digest: Digest,
      taken: set<string>, rows: seq<Item>, n: nat, i: nat)
    requires n < |rows|
  {
    i < |items|
    && rows[n] == RowOf(items[i], IdFor(items[i], existing, taken + GivenBefore(rows, n), digest), valid, allowed)
  }

  /** The items let in are written, in order: those with text and a message that
      is known. */
  lemma {:induction false} RowsAre(items: seq<ItemOut>, existing: seq<Item>, valid: set<string>, allowed: set<string>,
      digest: Digest, taken: set<string>) returns (at: seq<nat>)
    ensures var rows := Rows(items, existing, valid, allowed, digest, taken);
            && |at| == |rows| && (forall m, n | 0 <= m < n < |at| :: at[m] < at[n])
            && (forall n: nat | n < |at| :: RowAt(items, existing, valid, allowed, digest, taken, rows, n, at[n]))
            && forall i: nat | i < |items| ::
                 i in at <==> CleanText(items[i].text) != "" && exists s :: s in items[i].srcIds && Trim(s) in valid
  {
    hide RowOf, IdFor, Trim, CleanText, Grounded, Places, RowAt;
    var rows := Rows(items, existing, valid, allowed, digest, taken);
    at := [];
    if items != [] {
      var it := items[0];
      var b := Grounded(it, valid);
      var id := IdFor(it, existing, taken, digest);
      var taken' := if b then taken + {id} else taken;
      var rest := Rows(items[1..], existing, valid, allowed, digest, taken');
      var a := RowsAre(items[1..], existing, valid, allowed, digest, taken');
      at := Places(b, a);
      PlacesAre(b, a);
      GroundedMeans(it, valid);
      forall n: nat | n < |at| ensures RowAt(items, existing, valid, allowed, digest, taken, rows, n, at[n]) {
        if !b {
          assert at[n + 0] == a[n] + 1;
          RowSame(items, existing, valid, allowed, digest, taken, rest, n, a[n]);
        } else if n == 0 {
          RowFirst(items, existing, valid, allowed, digest, taken, rest);
        } else {
          assert at[n - 1 + 1] == a[n - 1] + 1;
          RowHasId(it, id, valid, allowed);
          RowLater(items, existing, valid, allowed, digest, taken, RowOf(it, id, valid, allowed), rest, n - 1,
              a[n - 1]);
        }
      }
      forall m, n | 0 <= m < n < |at| ensures at[m] < at[n] { PlacesGrow(b, a, m, n); }
      forall i: nat | i < |items|
        ensures i in at
                <==> CleanText(items[i].text) != "" && exists s :: s in items[i].srcIds && Trim(s) in valid
      {
        if i > 0 {
          var j: nat := i - 1;
          assert items[i] == items[1..][j];
        }
      }
    }
  }

  lemma GroundedMeans(it: ItemOut, valid: set<string>)
    ensures Grounded(it, valid) <==> CleanText(it.text) != "" && exists s :: s in it.srcIds && Trim(s) in valid
  {
    hide CleanText, Trim;
    KnownMeans(it.srcIds, valid);
  }

  lemma {:induction false} KnownMeans(srcIds: seq<string>, valid: set<string>)
    ensures Known(srcIds, valid) != [] <==> exists s :: s in srcIds && Trim(s) in valid
  {
    hide Trim;
    if srcIds != [] {
      KnownMeans(srcIds[1..], valid);
      assert srcIds == [srcIds[0]] + srcIds[1..];
      if Trim(srcIds[0]) in valid { assert srcIds[0] in srcIds; }
    }
  }

  lemma RowSame(items: seq<ItemOut>, existing: seq<Item>, valid: set<string>, allowed: set<string>, digest: Digest,
      taken: set<string>, rest: seq<Item>, n: nat, i: nat)
    requires items != [] && n < |rest| && RowAt(items[1..], existing, valid, allowed, digest, taken, rest, n, i)
    ensures RowAt(items, existing, valid, allowed, digest, taken, rest, n, i + 1)
  {
    hide RowOf, IdFor;
    assert items[i + 1] == items[1..][i];
  }

  lemma RowFirst(items: seq<ItemOut>, existing: seq<Item>, valid: set<string>, allowed: set<string>, digest: Digest,
      taken: set<string>, rest: seq<Item>)
    requires items != []
    ensures var row := RowOf(items[0], IdFor(items[0], existing, taken, digest), valid, allowed);
            RowAt(items, existing, valid, allowed, digest, taken, [row] + rest, 0, 0)
  {
    hide RowOf, IdFor;
    var row := RowOf(items[0], IdFor(items[0], existing, taken, digest), valid, allowed);
    assert GivenBefore([row] + rest, 0) == {};
    assert taken + GivenBefore([row] + rest, 0) == taken;
  }

  lemma RowLater(items: seq<ItemOut>, existing: seq<Item>, valid: set<string>, allowed: set<string>, digest: Digest,
      taken: set<string>, row: Item, rest: seq<Item>, n: nat, i: nat)
    requires items != [] && n < |rest|
    requires RowAt(items[1..], existing, valid, allowed, digest, taken + {row.blockId}, rest, n, i)
    ensures RowAt(items, existing, valid, allowed, digest, taken, [row] + rest, n + 1, i + 1)
  {
    hide RowOf, IdFor;
    assert items[i + 1] == items[1..][i] && ([row] + rest)[n + 1] == rest[n];
    BeforeCons(row, rest, n);
    assert taken + {row.blockId} + GivenBefore(rest, n) == taken + GivenBefore([row] + rest, n + 1);
  }

  lemma RowHasId(it: ItemOut, id: string, valid: set<string>, allowed: set<string>)
    ensures RowOf(it, id, valid, allowed).blockId == id
  {}

  lemma BeforeHas(rows: seq<Item>, n: nat, id: string)
    requires n <= |rows|
    ensures id in GivenBefore(rows, n) <==> exists j :: 0 <= j < n && rows[j].blockId == id
  {}

  lemma BeforeCons(row: Item, rest: seq<Item>, n: nat)
    requires n <= |rest|
    ensures GivenBefore([row] + rest, n + 1) == {row.blockId} + GivenBefore(rest, n)
  {
    hide GivenBefore;
    var all := [row] + rest;
    forall id ensures id in GivenBefore(all, n + 1) <==> id in {row.blockId} + GivenBefore(rest, n) {
      BeforeHas(all, n + 1, id);
      BeforeHas(rest, n, id);
      assert all[0] == row;
      if j :| 0 <= j < n && rest[j].blockId == id { assert all[j + 1] == rest[j]; }
      if j :| 0 < j < n + 1 && all[j].blockId == id { assert rest[j - 1] == all[j]; }
    }
    assert GivenBefore(all, n + 1) == {row.blockId} + GivenBefore(rest, n);
  }

  // ---------------------------------------------------------------------
  // The same item, over and over
  // ---------------------------------------------------------------------

  function Copies(it: ItemOut, n: nat): seq<ItemOut> { if n == 0 then [] else [it] + Copies(it, n - 1) }

  /** The first `n` ids an item of digest `d` is given with no page to recall one from. */
  function Given(d: string, n: nat): set<string> {
    (if n >= 1 then {Candidate(d, 4)} else {}) + (if n >= 2 then {Candidate(d, 6)} else {})
    + (if n >= 3 then {Candidate(d, 8)} else {}) + (if n >= 4 then {Candidate(d, 12)} else {})
  }

  lemma CopyStep(it: ItemOut, k: nat, digest: Digest)
    requires Hex(digest)
    ensures var given := Given(DigestOf(digest, it.kind, CleanText(it.text)), k);
            && (Exhausted(it, [], given, digest) <==> k >= 4)
            && given + {IdFor(it, [], given, digest)} == Given(DigestOf(digest, it.kind, CleanText(it.text)), k + 1)
  {
    hide CleanText;
    var d := DigestOf(digest, it.kind, CleanText(it.text));
    var given := Given(d, k);
    assert |d| == 40;
    assert |Candidate(d, 4)| == 6 && |Candidate(d, 6)| == 8 && |Candidate(d, 8)| == 10 && |Candidate(d, 12)| == 14;
    assert given + IdSet([]) == given;
    assert Recalled(it, []) == "";
  }

  lemma {:induction false} CopiesRun(it: ItemOut, n: nat, k: nat, valid: set<string>, digest: Digest)
    requires Grounded(it, valid) && Hex(digest)
    ensures var d := DigestOf(digest, it.kind, CleanText(it.text));
            NeverExhausted(Copies(it, n), [], valid, digest, Given(d, k)) <==> n == 0 || k + n <= 4
  {
    hide DigestOf, CleanText, Exhausted, IdFor, Given, Grounded;
    var d := DigestOf(digest, it.kind, CleanText(it.text));
    if n > 0 {
      CopyStep(it, k, digest);
      CopiesRun(it, n - 1, k + 1, valid, digest);
      assert Copies(it, n)[1..] == Copies(it, n - 1);
    }
  }

  /** The same new item named several times keeps its copies apart up to the
      fourth; the fifth has the fourth's id. */
  lemma SameItemUpToFour(it: ItemOut, n: nat, valid: set<string>, allowed: set<string>, digest: Digest)
    requires Grounded(it, valid) && Hex(digest)
    ensures Distinct(Ids(Rows(Copies(it, n), [], valid, allowed, digest, {}))) <==> n <= 4
  {
    var d := DigestOf(digest, it.kind, CleanText(it.text));
    RenderedIdsDistinct(Copies(it, n), [], valid, allowed, digest);
    assert Given(d, 0) == {};
    CopiesRun(it, n, 0, valid, digest);
  }

  // ---------------------------------------------------------------------
  // What every row is, and that it reads back
  // ---------------------------------------------------------------------

  predicate NoNewlines(ss: set<string>) { forall s | s in ss :: NoNewline(s) }

  /** What the callers hand in: pages read back and names of one line, and message
      ids without commas. */
  ghost predicate Usual(existing: seq<Item>, valid: set<string>, allowed: set<string>, digest: Digest) {
    && Hex(digest) && (forall it | it in existing :: IsId(it.blockId))
    && NoNewlines(valid) && NoNewlines(allowed) && (forall s | s in valid :: SourceId(s))
  }

  predicate SourceId(s: string) { s != "" && Trimmed(s) && ',' !in s }

  lemma {:induction false} StripNoNewline(s: string, drop: char -> bool)
    requires NoNewline(s)
    ensures NoNewline(StripFrom(s, drop)) && NoNewline(StripTo(s, drop))
    decreases |s|
  {
    if s != "" {
      StripNoNewline(s[1..], drop);
      StripNoNewline(s[..|s| - 1], drop);
    }
  }

  lemma CleanTextPlain(s: string)
    ensures NoNewline(CleanText(s)) && Trimmed(CleanText(s))
  {
    hide Trim, OneLine;
    OneLineNoNewline(s);
    StripNoNewline(OneLine(s), IsDash);
    StripNoNewline(StripFrom(OneLine(s), IsDash), IsDash);
    TrimPlain(Strip(OneLine(s), IsDash));
  }

  lemma MintIsId(d: string, taken: set<string>)
    requires |d| == 40 && forall i | 0 <= i < 40 :: IsIdChar(d[i])
    ensures IsId(Mint(d, taken))
  {}

  lemma IdForIsId(it: ItemOut, existing: seq<Item>, taken: set<string>, digest: Digest)
    requires Hex(digest) && forall e | e in existing :: IsId(e.blockId)
    ensures IsId(IdFor(it, existing, taken, digest))
  {
    MintIsId(DigestOf(digest, it.kind, CleanText(it.text)), taken + IdSet(existing));
  }

  /** A row is one line, with a legal id and clean text. */
  lemma RowIsPlain(it: ItemOut, id: string, valid: set<string>, allowed: set<string>)
    requires IsId(id) && NoNewlines(valid) && NoNewlines(allowed)
    ensures PlainItem(RowOf(it, id, valid, allowed))
  {
    hide CleanText, Trim, IsId, Known, Unique, IsDate, Owner, Join, Trimmed;
    CleanTextPlain(it.text);
    FieldsArePlain(it, valid, allowed);
  }

  lemma FieldsArePlain(it: ItemOut, valid: set<string>, allowed: set<string>)
    requires NoNewlines(valid) && NoNewlines(allowed)
    ensures PlainFields(FieldsOf(it, valid, allowed))
  {
    hide Trim, Strip, Join, Known, Unique;
    assert IsDate(Trim(it.due)) ==> NoNewline(Trim(it.due));
    var srcs := Unique(Known(it.srcIds, valid));
    assert forall i | 0 <= i < |srcs| :: srcs[i] in srcs;
    JoinPlain(srcs);
  }

  // ---------------------------------------------------------------------
  // Its messages
  // ---------------------------------------------------------------------

  lemma {:induction false} CommaIs(s: string, i: nat)
    requires i <= |s| && ',' !in s[..i] && (i < |s| ==> s[i] == ',')
    ensures Comma(s) == i
  {
    if i > 0 {
      assert s[0] == s[..i][0];
      assert s[1..][..i - 1] == s[..i][1..];
      CommaIs(s[1..], i - 1);
    }
  }

  lemma TrimSpace(s: string)
    requires Trimmed(s) && s != ""
    ensures Trim(" " + s) == s && Trim(s) == s
  {
    TrimTrimmed(s);
    var t := " " + s;
    assert t[1..] == s && LeadSpace(t, 1) == 1;
  }

  /** Splitting a joined list at its commas gives the list. */
  lemma {:induction false} PartsOfJoin(ss: seq<string>, lead: string)
    requires forall s | s in ss :: SourceId(s)
    requires ss != [] && lead in {"", " "}
    ensures SrcParts(lead + Join(", ", ss)) == ss
    decreases |ss|
  {
    hide Trim, Trimmed, SrcParts;
    var s := ss[0];
    assert s in ss && SourceId(s);
    TrimSpace(s);
    assert "" + s == s;
    if |ss| > 1 {
      var more := " " + Join(", ", ss[1..]);
      assert lead + Join(", ", ss) == (lead + s) + "," + more;
      PartsStep(lead + s, more);
      assert forall r | r in ss[1..] :: r in ss;
      PartsOfJoin(ss[1..], " ");
      assert [s] + ss[1..] == ss;
    } else {
      PartsLast(lead + s);
      assert ss == [s];
    }
  }

  lemma PartsLast(part: string)
    requires ',' !in part && Trim(part) != ""
    ensures SrcParts(part) == [Trim(part)]
  {
    hide Trim;
    CommaIs(part, |part|);
    assert part[..|part|] == part;
  }

  lemma PartsStep(part: string, more: string)
    requires ',' !in part
    ensures SrcParts(part + "," + more) == (if Trim(part) == "" then [] else [Trim(part)]) + SrcParts(more)
  {
    hide Trim;
    var raw := part + "," + more;
    assert raw[..|part|] == part && raw[|part| + 1..] == more;
    CommaIs(raw, |part|);
  }

  predicate Names(srcIds: seq<string>, s: string) { exists i | 0 <= i < |srcIds| :: Trim(srcIds[i]) == s }

  /** The sources read back from a row are the item's own known messages, once
      each; there is at least one. */
  lemma SourcesReadBack(it: ItemOut, id: string, valid: set<string>, allowed: set<string>)
    requires Grounded(it, valid) && forall s | s in valid :: SourceId(s)
    ensures var srcs := SrcIds(RowOf(it, id, valid, allowed));
            && srcs != [] && (forall i, j | 0 <= i < j < |srcs| :: srcs[i] != srcs[j])
            && forall s :: s in srcs <==> s in valid && Names(it.srcIds, s)
  {
    var known := Known(it.srcIds, valid);
    KnownIs(it.srcIds, valid);
    assert known[0] in Unique(known);
    PartsOfJoin(Unique(known), "");
    assert "" + Join(", ", Unique(known)) == Join(", ", Unique(known));
    SrcOfRow(it, id, valid, allowed);
  }

  lemma {:induction false} KnownIs(srcIds: seq<string>, valid: set<string>)
    ensures forall s :: s in Known(srcIds, valid) <==> s in valid && Names(srcIds, s)
  {
    if srcIds != [] {
      KnownIs(srcIds[1..], valid);
      assert srcIds == [srcIds[0]] + srcIds[1..];
    }
  }

  lemma SrcOfRow(it: ItemOut, id: string, valid: set<string>, allowed: set<string>)
    ensures Get(RowOf(it, id, valid, allowed).fields, "src") == Some(Join(", ", Unique(Known(it.srcIds, valid))))
  {
    hide Join, Unique, Known, Trim, Owner, IsDate, CleanText;
    var fields := FieldsOf(it, valid, allowed);
    var last := Field("src", Join(", ", Unique(Known(it.srcIds, valid))));
    assert fields == fields[..|fields| - 1] + [last];
    GetLast(fields[..|fields| - 1], last);
  }

  lemma {:induction false} GetLast(before: seq<Field>, last: Field)
    requires forall i | 0 <= i < |before| :: before[i].key != last.key
    ensures Get(before + [last], last.key) == Some(last.value)
  {
    if before != [] {
      assert (before + [last])[1..] == before[1..] + [last];
      GetLast(before[1..], last);
    }
  }

  // ---------------------------------------------------------------------
  // Its text, box and fields
  // ---------------------------------------------------------------------

  /** Stripping takes off the characters to drop before and after, no others. */
  lemma StripMeans(s: string, drop: char -> bool) returns (a: nat, b: nat)
    ensures a <= b <= |s| && Strip(s, drop) == s[a..b]
    ensures (forall k | 0 <= k < a :: drop(s[k])) && forall k | b <= k < |s| :: drop(s[k])
    ensures a < b ==> !drop(s[a]) && !drop(s[b - 1])
  {
    a := FromMeans(s, drop);
    b := ToMeans(s[a..], drop);
    forall k | a + b <= k < |s| ensures drop(s[k]) { assert s[a..][k - a] == s[k]; }
    assert b > 0 ==> s[a..][b - 1] == s[a + b - 1];
    assert s[a..][..b] == s[a..a + b];
    b := a + b;
  }

  lemma {:induction false} FromMeans(s: string, drop: char -> bool) returns (a: nat)
    ensures a <= |s| && StripFrom(s, drop) == s[a..] && (a < |s| ==> !drop(s[a])) && forall k | 0 <= k < a :: drop(s[k])
  {
    a := 0;
    if s != "" && drop(s[0]) {
      var r := FromMeans(s[1..], drop);
      a := r + 1;
      forall k | 0 <= k < a ensures drop(s[k]) { if k > 0 { assert s[1..][k - 1] == s[k]; } }
    }
  }

  lemma {:induction false} ToMeans(s: string, drop: char -> bool) returns (b: nat)
    ensures b <= |s| && StripTo(s, drop) == s[..b] && (b > 0 ==> !drop(s[b - 1]))
            && forall k | b <= k < |s| :: drop(s[k])
    decreases |s|
  {
    b := |s|;
    assert s[..|s|] == s;
    if s != "" && drop(s[|s| - 1]) {
      b := ToMeans(s[..|s| - 1], drop);
      forall k | b <= k < |s| ensures drop(s[k]) { if k < |s| - 1 { assert s[..|s| - 1][k] == s[k]; } }
    }
  }

  /** The text is the words given, with single spaces, but for the dashes, bullets
      and spaces at its edges. */
  lemma CleanTextMeans(t: string) returns (a: nat, b: nat)
    ensures var s := Join(" ", Words(t));
            && a <= b <= |s| && CleanText(t) == s[a..b]
            && (forall k | 0 <= k < a :: s[k] in "-\U{2022} ") && (forall k | b <= k < |s| :: s[k] in "-\U{2022} ")
            && (a < b ==> s[a] !in "-\U{2022} " && s[b - 1] !in "-\U{2022} ")
  {
    hide Words, Join, OneLine, Strip, Trim, Squeezed, IsSpace;
    OneLineIs(t);
    var s := OneLine(t);
    a, b := StripMeans(s, IsDash);
    OneLineSqueezed(t);
    var d := Strip(s, IsDash);
    if a < b {
      BlankIsDash(s, a);
      BlankIsDash(s, b - 1);
      TrimIs(d, 0, |d|);
    } else {
      TrimIs(d, 0, 0);
    }
    assert d[0..|d|] == d;
  }

  lemma OneLineSqueezed(t: string)
    ensures Squeezed(OneLine(t))
  {
    SqueezeSqueezes(t);
    hide Squeeze, Squeezed;
    var q := Squeeze(t);
    SqueezedSlice(q, LeadSpace(q, 0), TrailSpace(q, LeadSpace(q, 0), |q|));
  }

  lemma BlankIsDash(s: string, k: nat)
    requires Squeezed(s) && k < |s| && !IsDash(s[k])
    ensures !IsSpace(s[k])
  {}

  lemma GetFront(f: Field, rest: seq<Field>, key: string)
    ensures Get([f] + rest, key) == if f.key == key then Some(f.value) else Get(rest, key)
  {
    assert ([f] + rest)[1..] == rest;
  }

  lemma GetOptional(b: bool, f: Field, rest: seq<Field>, key: string)
    ensures Get((if b then [f] else []) + rest, key) == if b && f.key == key then Some(f.value) else Get(rest, key)
  {
    GetFront(f, rest, key);
    assert [] + rest == rest;
  }

  /** What a row says of its item: the kind, a box for a task or decision, ticked
      for a decision or a task done; a person the page may name, as the owner
      or, of a question, the asker; and a date. */
  lemma RowMeans(it: ItemOut, id: string, valid: set<string>, allowed: set<string>)
    ensures var row := RowOf(it, id, valid, allowed); var name := Strip(Trim(it.owner), IsBracket);
            var due := Trim(it.due);
            var dated := |due| == 10 && due[4] == due[7] == '-'
                         && forall i | 0 <= i < 10 && i != 4 && i != 7 :: IsDigit(due[i]);
            var named := if name != "" && name in allowed then Some("[[" + name + "]]") else None;
            && row.blockId == id
            && row.checked == (if it.kind == Decision then Some(true) else if it.kind == Task then Some(it.done)
                else None)
            && Get(row.fields, "kind") == Some(if it.kind == Task then "task" else if it.kind == Decision
                then "decision"
                                              else if it.kind == Resource then "resource" else "question")
            && Get(row.fields, "owner") == (if it.kind == Question then None else named)
            && Get(row.fields, "by") == (if it.kind == Question then named else None)
            && Get(row.fields, "due") == (if dated then Some(due) else None)
  {
    hide Get, Trim, Strip, CleanText, Known, Unique, Join;
    RowGets(it, valid, allowed, "kind");
    RowGets(it, valid, allowed, "owner");
    RowGets(it, valid, allowed, "by");
    RowGets(it, valid, allowed, "due");
    assert "kind" != "owner" && "kind" != "by" && "kind" != "due" && "owner" != "by" && "owner" != "due"
           && "by" != "due";
    assert "src" != "owner" && "src" != "by" && "src" != "due";
  }

  lemma RowGets(it: ItemOut, valid: set<string>, allowed: set<string>, key: string)
    ensures var name, due := Owner(it), Trim(it.due); var who := if it.kind == Question then "by" else "owner";
            Get(FieldsOf(it, valid, allowed), key)
            == if key == "kind" then Some(KindName(it.kind))
               else if name != "" && name in allowed && who == key then Some("[[" + name + "]]")
               else if IsDate(due) && "due" == key then Some(due)
               else if "src" == key then Some(Join(", ", Unique(Known(it.srcIds, valid))))
               else None
  {
    hide Get, Trim, Strip, Known, Unique, Join, IsDate, Owner, KindName;
    var src := Field("src", Join(", ", Unique(Known(it.srcIds, valid))));
    var due := Field("due", Trim(it.due));
    var who := Field(if it.kind == Question then "by" else "owner", "[[" + Owner(it) + "]]");
    var dues := (if IsDate(Trim(it.due)) then [due] else []) + [src];
    var whos := (if Owner(it) != "" && Owner(it) in allowed then [who] else []) + dues;
    GetNothing(key);
    GetFront(src, [], key);
    assert [src] + [] == [src];
    GetOptional(IsDate(Trim(it.due)), due, [src], key);
    GetOptional(Owner(it) != "" && Owner(it) in allowed, who, dues, key);
    GetFront(Field("kind", KindName(it.kind)), whos, key);
    assert FieldsOf(it, valid, allowed) == [Field("kind", KindName(it.kind))] + whos;
  }

  lemma GetNothing(key: string)
    ensures Get([], key) == None
  {}

  /** A row whose text and values are clean is read back whole from its line. */
  lemma CleanRowReadsBack(it: ItemOut, id: string, valid: set<string>, allowed: set<string>)
    requires Clean(RowOf(it, id, valid, allowed))
    ensures ParseItemLine(FormatItem(RowOf(it, id, valid, allowed))) == Some(RowOf(it, id, valid, allowed))
  {
    hide RowOf, Clean, FormatItem, ParseItemLine, Neutral.NeutraliseLine;
    CleanReads(RowOf(it, id, valid, allowed));
  }

  // ---------------------------------------------------------------------
  // The whole text
  // ---------------------------------------------------------------------

  lemma {:induction false} RowsArePlain(items: seq<ItemOut>, existing: seq<Item>, valid: set<string>,
                                        allowed: set<string>, digest: Digest, taken: set<string>)
    requires Usual(existing, valid, allowed, digest)
    ensures forall row | row in Rows(items, existing, valid, allowed, digest, taken) :: PlainItem(row)
  {
    hide PlainItem, Grounded, RowOf, IdFor;
    if items != [] {
      if !Grounded(items[0], valid) {
        RowsArePlain(items[1..], existing, valid, allowed, digest, taken);
      } else {
        var id := IdFor(items[0], existing, taken, digest);
        IdForIsId(items[0], existing, taken, digest);
        RowIsPlain(items[0], id, valid, allowed);
        RowsArePlain(items[1..], existing, valid, allowed, digest, taken + {id});
      }
    }
  }

  lemma {:induction false} RowsReadBack(rows: seq<Item>)
    requires forall row | row in rows :: PlainItem(row)
    ensures Ids(ParseLines(FormatAll(rows))) == Ids(rows)
    ensures forall l | l in FormatAll(rows) :: l != "" && NoNewline(l)
  {
    hide ParseItemLine, FormatItem, PlainItem;
    if rows != [] {
      assert rows[0] in rows && forall row | row in rows[1..] :: row in rows;
      RowsReadBack(rows[1..]);
      RowReadsBack(rows[0]);
      assert FormatAll(rows)[1..] == FormatAll(rows[1..]);
      IdsCons(rows[0], rows[1..]);
      IdsCons(ParseItemLine(FormatItem(rows[0])).value, ParseLines(FormatAll(rows[1..])));
      assert rows == [rows[0]] + rows[1..];
    }
  }

  lemma RowReadsBack(row: Item)
    requires PlainItem(row)
    ensures var l := FormatItem(row); var r := ParseItemLine(l);
            l != "" && NoNewline(l) && r.Some? && r.value.blockId == row.blockId
  {
    hide FormatItem, IsId;
    PlainIsOneLine(row);
    BlockIdRecovered(row);
    FormatParts(row);
  }

  lemma {:induction false} NonBlankAll(ls: seq<string>)
    requires forall l | l in ls :: l != ""
    ensures NonBlank(ls) == ls
  {
    if ls != [] {
      assert ls[0] in ls && forall l | l in ls[1..] :: l in ls;
      NonBlankAll(ls[1..]);
    }
  }

  /** Whatever the model's text, reading the rendered lines gives back exactly the
      ids that were given, in order: no text adds an item, hides one or changes an
      id. */
  lemma RenderedReadsBack(items: seq<ItemOut>, existing: seq<Item>, valid: set<string>, allowed: set<string>,
      digest: Digest)
    requires Usual(existing, valid, allowed, digest)
    ensures var rows := Rows(items, existing, valid, allowed, digest, {});
            Ids(ParseItems(Join("\n", FormatAll(rows)))) == Ids(rows)
  {
    hide ParseItemLine, FormatItem, PlainItem, Usual;
    var rows := Rows(items, existing, valid, allowed, digest, {});
    RowsArePlain(items, existing, valid, allowed, digest, {});
    RowsReadBack(rows);
    var ls := FormatAll(rows);
    assert forall i | 0 <= i < |ls| :: ls[i] in ls;
    ShownJoin(ls);
    NonBlankAll(ls);
    ParseShown(LinesOf(Join("\n", ls)));
  }

  // ---------------------------------------------------------------------
  // Cleaned text
  // ---------------------------------------------------------------------

  lemma {:induction false} StripSqueezed(s: string, drop: char -> bool)
    requires Squeezed(s)
    ensures Squeezed(StripFrom(s, drop)) && Squeezed(StripTo(s, drop))
    decreases |s|
  {
    if s != "" {
      assert forall i | 0 <= i < |s| - 1 :: s[1..][i] == s[i + 1];
      StripSqueezed(s[1..], drop);
      StripSqueezed(s[..|s| - 1], drop);
    }
  }

  /** Cleaned text has one spelling only. */
  lemma CleanTextNorm(s: string)
    ensures Norm(CleanText(s)) == Lower(CleanText(s))
  {
    hide Lower, IsSpace, Trimmed;
    SqueezeSqueezes(s);
    var q := Squeeze(s);
    SqueezedSlice(q, LeadSpace(q, 0), TrailSpace(q, LeadSpace(q, 0), |q|));
    StripSqueezed(OneLine(s), IsDash);
    StripSqueezed(StripFrom(OneLine(s), IsDash), IsDash);
    var d := Strip(OneLine(s), IsDash);
    SqueezedSlice(d, LeadSpace(d, 0), TrailSpace(d, LeadSpace(d, 0), |d|));
    SqueezedKept(CleanText(s));
    TrimTrimmed(CleanText(s));
  }
}
