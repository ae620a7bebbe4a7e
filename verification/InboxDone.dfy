/** Acknowledged items on the inbox page, and items people type there
    (shared/inbox/interface.py). */
module InboxDone {
  import opened Options
  import opened Parts
  import opened Text
  import opened PageFormat
  import opened Schema
  import opened Neutral
  import opened Fence
  import opened Editor
  import opened Sections
  import opened Tidy
  import opened Items
  import opened ItemText
  import opened ItemEdits
  import opened UpsertTwice
  import opened CleanItems
  import opened FieldReads
  import opened ThreadTransfer
  import opened InboxLines
  import opened Inbox
  import opened InboxPage
  import Squeezing

  // ---------------------------------------------------------------------
  // The line of a finished item
  // ---------------------------------------------------------------------

  lemma {:induction false} FieldsSnoc(fs: seq<Field>, f: Field)
    requires CleanFields(fs) && CleanField(f) && Get(fs, f.key).None?
    ensures CleanFields(fs + [f])
    ensures forall k :: Get(fs + [f], k) == if Get(fs, k).Some? then Get(fs, k) else if k == f.key then Some(f.value)
            else None
  {
    hide SafeField, MarkerFree;
    if fs == [] {
      assert [] + [f] == [f] && [f][1..] == [];
    } else {
      assert (fs + [f])[1..] == fs[1..] + [f];
      FieldsSnoc(fs[1..], f);
    }
  }

  /** The fields of a finished item: those it had, and when it was done. */
  lemma DoneFields(it: InboxItem, env: Env, now: string)
    requires Writable(it, env) && CleanValue(now) && now != ""
    ensures LineFields(it, Some(now)) == LineFields(it, None) + [Field("done", now)]
    ensures CleanFields(LineFields(it, Some(now)))
    ensures Get(LineFields(it, Some(now)), "done") == Some(now)
    ensures Get(LineFields(it, Some(now)), "kind") == Some(it.kind)
  {
    hide CleanValue, WikiText, MarkerFree, Trimmed, NoNewline, Get, CleanFields, Linked, IsId, Plain, CleanField;
    FieldsClean(it, env);
    OneKey(it, "done");
    FieldsRead(it);
    DoneLast(it, now);
    DoneIsClean(now);
    FieldsSnoc(LineFields(it, None), Field("done", now));
  }

  lemma DoneLast(it: InboxItem, now: string)
    requires now != ""
    ensures LineFields(it, Some(now)) == LineFields(it, None) + [Field("done", now)]
    ensures Given(it, "done") == None && Opt("done", None) == []
  {
    hide Linked;
    assert Opt("done", None) == [] && Opt("done", Some(now)) == [Field("done", now)];
  }

  lemma DoneIsClean(now: string)
    requires CleanValue(now)
    ensures CleanField(Field("done", now))
  {
    hide WikiText, MarkerFree;
    assert forall i | 0 <= i < 4 :: IsWord("done"[i]);
  }

  /** The item a finished item's line shows. */
  function ShownDone(it: InboxItem, now: string): Item {
    Item(Defang(Plain(it.text)), it.id, Some(true), LineFields(it, Some(now)))
  }

  /** A finished item's line is read as the item ticked, with its id, its text
      neutral and on one line, its kind, and the time it was done. */
  lemma DoneLineReads(it: InboxItem, env: Env, now: string)
    requires Writable(it, env) && CleanValue(now) && now != ""
    ensures var r := ParseItemLine(NeutraliseLine(ToLine(it, Some(now))));
            && r.Some? && r.value.blockId == it.id && r.value.checked == Some(true)
            && r.value.text == Defang(Plain(it.text))
            && Get(r.value.fields, "done") == Some(now) && Get(r.value.fields, "kind") == Some(it.kind)
    ensures NeutraliseLine(ToLine(it, Some(now))) != "" && NoNewline(ToLine(it, Some(now)))
  {
    hide Clean, FormatItem, ParseItemLine, NeutraliseLine, Plain, LineFields, Get, CleanValue, NoNewline, IsId,
         NeutralLine, CleanFields, Defang;
    DoneFields(it, env, now);
    DoneShown(it, env, now);
    CleanReads(ShownDone(it, now));
    DoneLine(it, env, now);
  }

  lemma DoneShown(it: InboxItem, env: Env, now: string)
    requires Writable(it, env) && CleanFields(LineFields(it, Some(now)))
    ensures Clean(ShownDone(it, now)) && NeutraliseLine(ToLine(it, Some(now))) == FormatItem(ShownDone(it, now))
  {
    hide Plain, LineFields, CleanFields, MarkerFree, NoOpener, Trimmed, NoNewline, CheckboxAt, IsId, CleanValue,
         FormatItem, NeutraliseLine, BracketFree, Defang, DefangFields, WordKeys;
    PlainIs(it.text);
    DefangOneLine(Plain(it.text));
    NoBracketsNoOpener(Defang(Plain(it.text)));
    CleanIsSafe(LineFields(it, Some(now)));
    SafeKeys(LineFields(it, Some(now)));
    DefangClean(LineFields(it, Some(now)));
    WrittenIs(ToItem(it, Some(now)));
  }

  lemma DoneLine(it: InboxItem, env: Env, now: string)
    requires Writable(it, env) && Clean(ShownDone(it, now))
    requires NeutraliseLine(ToLine(it, Some(now))) == FormatItem(ShownDone(it, now))
    ensures NeutraliseLine(ToLine(it, Some(now))) != "" && NoNewline(ToLine(it, Some(now)))
  {
    hide Plain, LineFields, MarkerFree, IsHeading, Defang, EscapeHeading, IsId, CleanFields, FormatItem, NoOpener;
    CleanLine(ShownDone(it, now));
    FormatParts(ShownDone(it, now));
    var l := ToLine(it, Some(now));
    NewlineStays(EscapeHeading(l));
    EscapeNewline(l);
  }

  // ---------------------------------------------------------------------
  // The list of finished items
  // ---------------------------------------------------------------------

  /** A line that shows something and takes one line. */
  predicate DoneText(l: string) { NoNewline(l) && Trim(l) != "" }

  lemma {:induction false} SomethingStays(l: string, k: nat)
    requires k < |l| && !IsSpace(l[k])
    ensures exists j :: 0 <= j < |Defang(l)| && !IsSpace(Defang(l)[j])
  {
    hide MarkerFirst;
    var d := Defang(l);
    if MarkerFirst(l) {
      assert d == "&lt;" + Defang(l[1..]) && d[0] == '&' && !IsSpace('&');
    } else if k == 0 {
      assert d[0] == l[0];
    } else {
      SomethingStays(l[1..], k - 1);
      var r := Defang(l[1..]);
      var j :| 0 <= j < |r| && !IsSpace(r[j]);
      assert d[j + 1] == r[j];
    }
  }

  lemma TrimShows(l: string)
    ensures Trim(l) != "" <==> exists k :: 0 <= k < |l| && !IsSpace(l[k])
  {
    if Trim(l) != "" {
      var a := LeadSpace(l, 0);
      assert 0 <= a < |l| && !IsSpace(l[a]);
    }
    if k :| 0 <= k < |l| && !IsSpace(l[k]) {
      Squeezing.SpaceLeadIs(l, 0, LeadSpace(l, 0)) by { LeadAll(l, 0); }
      LeadAll(l, 0);
      TrailAll(l, LeadSpace(l, 0), |l|);
    }
  }

  lemma {:induction false} LeadAll(s: string, i: nat)
    requires i <= |s|
    ensures forall k | i <= k < LeadSpace(s, i) :: IsSpace(s[k])
    decreases |s| - i
  {
    if i < |s| && IsSpace(s[i]) { LeadAll(s, i + 1); }
  }

  lemma {:induction false} TrailAll(s: string, a: nat, j: nat)
    requires a <= j <= |s|
    ensures forall k | TrailSpace(s, a, j) <= k < j :: IsSpace(s[k])
    decreases j
  {
    if a < j && IsSpace(s[j - 1]) { TrailAll(s, a, j - 1); }
  }

  /** A line that shows something still does once neutralised. */
  lemma StillShows(l: string)
    requires DoneText(l)
    ensures DoneText(NeutraliseLine(l))
  {
    hide Trim, IsHeading;
    TrimShows(l);
    var k :| 0 <= k < |l| && !IsSpace(l[k]);
    var e := EscapeHeading(l);
    EscapeHeadingNoNewline(l);
    DefangNoNewline(e);
    var w := SpaceRun(l, 0);
    if e == l { SomethingStays(e, k); } else {
      assert e[w] == '\\' && !IsSpace('\\');
      SomethingStays(e, w);
    }
    TrimShows(NeutraliseLine(l));
  }

  lemma {:induction false} AllSpoken(ls: seq<string>)
    requires forall l | l in ls :: Trim(l) != ""
    ensures Spoken(ls) == ls
  {
    hide Trim;
    if ls != [] {
      assert ls[0] in ls && forall l | l in ls[1..] :: l in ls;
      AllSpoken(ls[1..]);
    }
  }

  /** The last of the lines, fifty at most. */
  predicate LastFifty(all: seq<string>, kept: seq<string>) {
    if |all| <= 50 then kept == all else |kept| == 50 && kept == all[|all| - 50..]
  }

  /** Filling the page shows the last fifty of the lines done, neutralised. */
  lemma FilledDone(p: Page, pending: seq<InboxItem>, done: seq<string>, env: Env) returns (kept: seq<string>)
    requires p.pageType == "inbox" && TidyPage(p) && Whole(p, "Pending") && Whole(p, "Done")
             && AllWritable(pending, env)
    requires forall l | l in done :: DoneText(l)
    ensures Filled(p, pending, done).Ok? && LastFifty(done, kept)
    ensures DoneOf(Filled(p, pending, done).value) == NeutraliseLines(kept)
  {
    hide TidyPage, Whole, FencedContent, Neutralise, SectionOf, LinesOf, Join, StripNL, SetFenced, Trim, NeutraliseLine,
         NoNewline;
    kept := Kept(done);
    assert forall l | l in kept :: l in done;
    var text := Join("\n", ToLines(pending));
    ListWritten(p, "Pending", text, "Done");
    var q1 := SetFenced(p, "Pending", text).value;
    ContentOfSection(p, q1, "Done");
    ListWritten(q1, "Done", Join("\n", kept), "Notes");
    forall i | 0 <= i < |kept| ensures NoNewline(kept[i]) && NeutraliseLines(kept)[i] != ""
        && Trim(NeutraliseLines(kept)[i]) != "" {
      NeutralAt(kept, i);
      assert kept[i] in kept;
      StillShows(kept[i]);
      NotBlank(NeutraliseLine(kept[i]));
    }
    ListText(kept);
    AllSpoken(NeutraliseLines(kept));
  }

  lemma NotBlank(l: string)
    requires Trim(l) != ""
    ensures l != ""
  {}

  lemma {:induction false} NeutralAt(ls: seq<string>, i: nat)
    requires i < |ls|
    ensures NeutraliseLines(ls)[i] == NeutraliseLine(ls[i])
  {
    hide NeutraliseLine;
    if i > 0 { NeutralAt(ls[1..], i - 1); }
  }

  lemma {:induction false} DoneLinesAre(items: seq<InboxItem>, now: string)
    ensures |DoneLines(items, now)| == |items|
    ensures forall i | 0 <= i < |items| :: DoneLines(items, now)[i] == ToLine(items[i], Some(now))
  {
    hide ToLine;
    if items != [] { DoneLinesAre(items[1..], now); }
  }

  /** The lines of the items at some places of a list, finished. */
  predicate LinesAt(pending: seq<InboxItem>, at: seq<nat>, now: string, added: seq<string>) {
    && |added| == |at| && (forall m, n | 0 <= m < n < |at| :: at[m] < at[n])
    && forall n | 0 <= n < |at| :: at[n] < |pending| && added[n] == ToLine(pending[at[n]], Some(now))
  }

  lemma FinishedLines(pending: seq<InboxItem>, ids: set<string>, now: string, env: Env)
      returns (at: seq<nat>, added: seq<string>)
    requires AllWritable(pending, env) && CleanValue(now) && now != ""
    ensures added == DoneLines(Finished(pending, ids), now) && LinesAt(pending, at, now, added)
    ensures forall i: nat | i < |pending| :: i in at <==> pending[i].id in ids
    ensures forall l | l in added :: DoneText(l)
  {
    hide ToLine, Trim, NoNewline, CleanValue, Ready, DoneText;
    var left;
    left, at := AckSplits(pending, ids);
    DoneLinesAre(Finished(pending, ids), now);
    added := DoneLines(Finished(pending, ids), now);
    forall l | l in added ensures DoneText(l) {
      var n :| 0 <= n < |added| && added[n] == l;
      assert Ready(pending[at[n]], env);
      DoneLineShows(pending[at[n]], env, now);
    }
  }

  lemma DoneLineShows(it: InboxItem, env: Env, now: string)
    requires Ready(it, env) && CleanValue(now) && now != ""
    ensures DoneText(ToLine(it, Some(now)))
  {
    hide ToLine, Trim, NoNewline, CleanValue, ParseItemLine, NeutraliseLine, Plain, Defang, Get, IsId;
    DoneLineReads(it, env, now);
    BulletShows(it, now);
  }

  /** Acknowledging adds a line for each item taken off the list, in their order,
      below those there; of all of them the page shows the last fifty. */
  lemma AckShows(p: Page, ids: set<string>, now: string, env: Env)
      returns (at: seq<nat>, added: seq<string>, kept: seq<string>)
    requires p.pageType == "inbox" && TidyPage(p) && Whole(p, "Pending") && Whole(p, "Done")
    requires AllWritable(PendingOf(p, env), env)
    requires CleanValue(now) && now != "" && forall l | l in DoneOf(p) :: DoneText(l)
    ensures var pending, op := PendingOf(p, env), AckOp(ids, now);
            var r := Filled(p, NewPending(op, pending), NewDone(op, pending, DoneOf(p)));
            && LinesAt(pending, at, now, added) && (forall i: nat | i < |pending| :: i in at <==> pending[i].id in ids)
            && r.Ok? && DoneOf(r.value) == NeutraliseLines(kept) && LastFifty(DoneOf(p) + added, kept)
  {
    hide TidyPage, Whole, PendingOf, DoneOf, CleanValue, Filled, NeutraliseLines, DoneText, LinesAt, AllWritable,
         LastFifty;
    var pending := PendingOf(p, env);
    at, added := FinishedLines(pending, ids, now, env);
    OpWritable(AckOp(ids, now), pending, env);
    assert forall l | l in DoneOf(p) + added :: l in DoneOf(p) || l in added;
    kept := FilledDone(p, Remaining(pending, ids), DoneOf(p) + added, env);
  }

  lemma BulletShows(it: InboxItem, now: string)
    ensures Trim(ToLine(it, Some(now))) != ""
  {
    hide LineFields, Plain, Trim;
    var l := ToLine(it, Some(now));
    FormatParts(ToItem(it, Some(now)));
    assert l[0] == '-' && !IsSpace('-');
    TrimShows(l);
  }

  // ---------------------------------------------------------------------
  // Items people type
  // ---------------------------------------------------------------------

  /** A line a person types, with or without a box, is a request of that text. */
  lemma TypedIsRequest(text: string, box: string, env: Env)
    requires text != "" && Trimmed(text) && box in {"", "[ ] ", "[x] ", "[X] "}
    requires box == "" ==> !CheckboxAt("- " + text, 2)
    requires ParseItemLine("- " + box + text).None?
    ensures FromLine("- " + box + text, env)
            == Some(InboxItem(env.mint(text), "request", text, false, None, None, None, None, None))
  {
    hide ParseItemLine;
    var l := "- " + box + text;
    assert l[0] == '-' && l[|l| - 1] == text[|text| - 1];
    assert !IsSpace('-');
    TrimTrimmed(l);
    assert "- " <= l;
    TypedText(text, box);
  }

  lemma TypedText(text: string, box: string)
    requires text != "" && Trimmed(text) && box in {"", "[ ] ", "[x] ", "[X] "}
    requires box == "" ==> !CheckboxAt("- " + text, 2)
    ensures Unbulleted("- " + box + text) == text
  {
    var l := "- " + box + text;
    assert IsSpace(' ') && !IsSpace('[');
    if box == "" {
      assert l == "- " + text && l[2] == text[0];
      SpaceRunIs(l, 1, 2);
      assert l[2..] == text;
    } else {
      assert l[2] == '[' && l[4] == ']' && l[5] == ' ' && l[6] == text[0];
      SpaceRunIs(l, 1, 2);
      SpaceRunIs(l, 5, 6);
      assert CheckboxAt(l, 2);
      assert l[6..] == text;
    }
  }
}
