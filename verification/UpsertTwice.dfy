/** `upsert_items` a second time (shared/wiki/editor.py): exactly when it leaves
    the page as it was. */
module UpsertTwice {
  import opened Options
  import opened Text
  import opened PageFormat
  import opened Schema
  import opened Neutral
  import opened Fence
  import opened Editor
  import opened Items
  import opened ItemText
  import opened Sections
  import opened ItemEdits
  import opened Upserts

  // ---------------------------------------------------------------------
  // Lines that are rewritten to themselves
  // ---------------------------------------------------------------------

  /** The line `it` is written as. */
  function Written(it: Item): string { NeutraliseLine(FormatItem(it)) }

  /** The line is rewritten to itself. */
  predicate Stable(l: string, items: seq<Item>, merge: Merge) {
    match Hit(l, items, {})
    case None => true
    case Some((was, now)) => Written(merge(was, now)) == l
  }

  /** Every line that would be replaced, given `done`, is stable. */
  predicate FirstsStable(ls: seq<string>, items: seq<Item>, merge: Merge, done: set<string>) {
    ls == [] ||
      match Hit(ls[0], items, done)
      case None => FirstsStable(ls[1..], items, merge, done)
      case Some((was, _)) => Stable(ls[0], items, merge) && FirstsStable(ls[1..], items, merge, done + {was.blockId})
  }

  lemma HitIs(l: string, items: seq<Item>, done: set<string>)
    ensures Hit(l, items, done)
            == match ParseItemLine(l)
               case None => None
               case Some(was) =>
                 match Lookup(items, was.blockId)
                 case None => None
                 case Some(now) => if was.blockId in done then None else Some((was, now))
  {
    hide ParseItemLine;
    ParseTrimmed(l);
  }

  lemma BlankIsNoHit(items: seq<Item>, done: set<string>)
    ensures Hit("", items, done) == None
  {
    hide ParseItemLine;
    HitIs("", items, done);
    BlankIsNoItem();
  }

  /** Blank lines play no part. */
  lemma {:induction false} BlanksAside(ls: seq<string>, items: seq<Item>, merge: Merge, done: set<string>)
    ensures FirstsStable(NonBlank(ls), items, merge, done) == FirstsStable(ls, items, merge, done)
    ensures Replaced(NonBlank(ls), items, done) == Replaced(ls, items, done)
  {
    hide Hit, Stable;
    if ls != [] {
      if ls[0] == "" {
        BlankIsNoHit(items, done);
        BlanksAside(ls[1..], items, merge, done);
      } else {
        assert NonBlank(ls)[1..] == NonBlank(ls[1..]);
        match Hit(ls[0], items, done)
        case None => BlanksAside(ls[1..], items, merge, done);
        case Some((was, _)) => BlanksAside(ls[1..], items, merge, done + {was.blockId});
      }
    }
  }

  lemma {:induction false} StableConcat(a: seq<string>, b: seq<string>, items: seq<Item>, merge: Merge,
      done: set<string>)
    ensures Replaced(a + b, items, done) == Replaced(b, items, Replaced(a, items, done))
    ensures FirstsStable(a + b, items, merge, done)
            == (FirstsStable(a, items, merge, done) && FirstsStable(b, items, merge, Replaced(a, items, done)))
  {
    hide Hit, Stable;
    if a == [] {
      assert a + b == b;
    } else {
      assert (a + b)[1..] == a[1..] + b;
      match Hit(a[0], items, done)
      case None => StableConcat(a[1..], b, items, merge, done);
      case Some((was, _)) => StableConcat(a[1..], b, items, merge, done + {was.blockId});
    }
  }

  /** Stable neutral lines come out as they went in. */
  lemma {:induction false} StableKept(ls: seq<string>, items: seq<Item>, merge: Merge, done: set<string>)
    requires FirstsStable(ls, items, merge, done) && NeutralLines(ls)
    ensures NeutraliseLines(Replace(ls, items, merge, done)) == ls
  {
    hide Hit, FormatItem, NeutraliseLine, NeutralLine, ParseItemLine;
    if ls != [] {
      NeutralLineKept(ls[0]);
      HitIs(ls[0], items, done);
      HitIs(ls[0], items, {});
      var r := Replace(ls, items, merge, done);
      match Hit(ls[0], items, done) {
        case None =>
          StableKept(ls[1..], items, merge, done);
          NeutraliseCons(ls[0], Replace(ls[1..], items, merge, done));
        case Some((was, now)) =>
          StableKept(ls[1..], items, merge, done + {was.blockId});
          NeutraliseCons(FormatItem(merge(was, now)), Replace(ls[1..], items, merge, done + {was.blockId}));
      }
      assert ls == [ls[0]] + ls[1..];
    }
  }

  lemma NeutraliseCons(l: string, rest: seq<string>)
    ensures NeutraliseLines([l] + rest) == [NeutraliseLine(l)] + NeutraliseLines(rest)
  {
    hide NeutraliseLine;
    assert ([l] + rest)[1..] == rest;
  }

  /** A neutralised line that was no hit still is none. */
  lemma NeutralHit(l: string, items: seq<Item>, done: set<string>)
    requires Hit(l, items, done) == None
    ensures Hit(NeutraliseLine(l), items, done) == None
  {
    hide IdOf, ItemOf, NeutraliseLine;
    IdOfNeutral(l);
    HitIs(l, items, done);
    HitIs(NeutraliseLine(l), items, done);
  }

  lemma ConsNoHit(l: string, rest: seq<string>, items: seq<Item>, merge: Merge, done: set<string>)
    requires Hit(l, items, done) == None
    ensures FirstsStable([l] + rest, items, merge, done) == FirstsStable(rest, items, merge, done)
    ensures Replaced([l] + rest, items, done) == Replaced(rest, items, done)
  {
    hide Hit, Stable;
    assert ([l] + rest)[1..] == rest;
  }

  lemma ConsHit(l: string, rest: seq<string>, items: seq<Item>, merge: Merge, done: set<string>, now: Item)
    requires Hit(l, items, done).Some? && Hit(l, items, done).value.0.blockId == now.blockId
    ensures FirstsStable([l] + rest, items, merge, done)
            == (Stable(l, items, merge) && FirstsStable(rest, items, merge, done + {now.blockId}))
    ensures Replaced([l] + rest, items, done) == Replaced(rest, items, done + {now.blockId})
  {
    hide Hit, Stable;
    assert ([l] + rest)[1..] == rest;
  }

  lemma {:induction false} NeutraliseConcat(a: seq<string>, b: seq<string>)
    ensures NeutraliseLines(a + b) == NeutraliseLines(a) + NeutraliseLines(b)
  {
    hide NeutraliseLine;
    if a == [] {
      assert a + b == b;
    } else {
      assert (a + b)[1..] == a[1..] + b;
      NeutraliseConcat(a[1..], b);
    }
  }

  lemma {:induction false} JoinLines(s: string)
    requires s != "" && !EndsNL(s)
    ensures LinesOf(s) == SplitNL(s)
    decreases |s|
  {
    var e := LineEnd(s, 0);
    if e < |s| {
      assert s[e + 1..] != "";
      JoinLines(s[e + 1..]);
    } else {
      assert s[..e] == s && [s] + [] == [s];
    }
  }

  /** Fenced text is its lines, joined again. */
  lemma InnerOfLines(x: string)
    ensures Inner(Join("\n", LinesOf(Inner(x)))) == Inner(x)
  {
    hide LinesOf, Join;
    StripEdges(x);
    var s := StripNL(x);
    if s == "" {
      NoLines();
    } else {
      LinesNewline(s);
      JoinLines(s);
      JoinSplit(s);
      StripNLIdempotent(x);
    }
  }

  lemma NoLines()
    ensures Inner(Join("\n", LinesOf(""))) == ""
  {
    assert StripNL("") == "";
  }

  lemma {:induction false} NeutralShown(ls: seq<string>)
    ensures NeutralLines(NonBlank(ls)) ==> NeutralLines(ls)
  {
    hide NeutralLine;
    if ls != [] {
      NeutralShown(ls[1..]);
      if ls[0] == "" { BlankIsNeutral(); } else { assert NonBlank(ls)[1..] == NonBlank(ls[1..]); }
    }
  }

  lemma {:induction false} ShownNeutralLines(ls: seq<string>)
    ensures NeutralLines(ls) ==> NeutralLines(NonBlank(ls))
  {
    hide NeutralLine;
    if ls != [] {
      ShownNeutralLines(ls[1..]);
      if ls[0] != "" { assert NonBlank(ls)[1..] == NonBlank(ls[1..]); }
    }
  }

  lemma BlankIsNeutral()
    ensures NeutralLine("")
  {}

  lemma {:induction false} LinesHaveNoNewline(t: string)
    ensures forall l | l in LinesOf(t) :: NoNewline(l)
    decreases |t|
  {
    if t != "" {
      LineEndClear(t, 0);
      if LineEnd(t, 0) < |t| { LinesHaveNoNewline(t[LineEnd(t, 0) + 1..]); }
    }
  }

  lemma {:induction false} MissingOneLine(items: seq<Item>, done: set<string>)
    requires forall it | it in items :: OneLineItem(it)
    ensures forall l | l in Missing(items, done) :: NoNewline(l)
  {
    hide NoNewline, FormatItem, IsId;
    if items != [] {
      assert items[0] in items && forall it | it in items[1..] :: it in items;
      assert OneLineItem(items[0]);
      MissingOneLine(items[1..], done);
    }
  }

  /** The lines read back from written text are its neutralised lines. */
  lemma WrittenText(t: string)
    ensures var again := LinesOf(Inner(Neutralise(t)));
            NonBlank(again) == NonBlank(NeutraliseLines(SplitNL(t))) && NeutralLines(again)
  {
    hide NonBlank, LinesOf, Inner, Join, NeutralLines, NeutraliseLine;
    var ls := NeutraliseLines(SplitNL(t));
    ShownInner(Neutralise(t));
    SplitNoNewline(t);
    NeutraliseLinesNeutral(SplitNL(t));
    NeutralLinesKept(ls);
    ShownJoin(ls);
    ShownNeutralLines(ls);
    NeutralShown(LinesOf(Inner(Neutralise(t))));
  }

  lemma WrittenLines(out: seq<string>, again: seq<string>)
    requires out != [] && forall i | 0 <= i < |out| :: NoNewline(out[i])
    requires again == LinesOf(Inner(Neutralise(Join("\n", out))))
    ensures NonBlank(again) == NonBlank(NeutraliseLines(out)) && NeutralLines(again)
  {
    hide NonBlank, LinesOf, Inner, Neutralise, Join, NeutralLines, NeutraliseLine;
    WrittenText(Join("\n", out));
    SplitJoin(out);
  }

  /** Lines that neutralise to `ls` join to text that neutralises to theirs. */
  lemma NeutralJoined(out: seq<string>, ls: seq<string>)
    requires NeutraliseLines(out) == ls && NeutralLines(ls)
    ensures Neutralise(Join("\n", out)) == Join("\n", ls)
  {
    hide NeutraliseLine, NeutralLine;
    OneLineBefore(out);
    if out == [] {
      BlankIsNeutral();
      SplitLast("");
      NeutraliseKeepsIffNeutral("");
    } else {
      SplitJoin(out);
    }
  }

  lemma {:induction false} NewlineStays(s: string)
    requires NoNewline(Defang(s))
    ensures NoNewline(s)
  {
    hide MarkerFirst;
    if s != "" {
      var d := Defang(s[1..]);
      var k := if MarkerFirst(s) then 4 else 1;
      assert forall i | 0 <= i < |d| :: d[i] == Defang(s)[k + i];
      if s[0] != '<' { NotMarker(s); }
      NewlineStays(s[1..]);
      forall i | 0 <= i < |s| ensures s[i] != NL {
        if i > 0 { assert s[i] == s[1..][i - 1]; } else if !MarkerFirst(s) { assert Defang(s)[0] == s[0]; }
      }
    }
  }

  lemma EscapeNewline(s: string)
    requires NoNewline(EscapeHeading(s))
    ensures NoNewline(s)
  {
    if IsHeading(s) {
      var w := SpaceRun(s, 0);
      var e := EscapeHeading(s);
      forall i | 0 <= i < |s| ensures s[i] != NL {
        assert s[i] == if i < w then e[i] else e[i + 1];
      }
    }
  }

  lemma {:induction false} OneLineBefore(ls: seq<string>)
    requires NeutralLines(NeutraliseLines(ls))
    ensures forall i | 0 <= i < |ls| :: NoNewline(ls[i])
  {
    hide EscapeHeading, Defang, IsHeading, MarkerFree, NoNewline;
    if ls != [] {
      NewlineStays(EscapeHeading(ls[0]));
      EscapeNewline(ls[0]);
      OneLineBefore(ls[1..]);
    }
  }

  // ---------------------------------------------------------------------
  // The lines items are written as, whatever their text
  // ---------------------------------------------------------------------

  /** The lines that show something of `l` once written. */
  function ShownOf(l: string): seq<string> { NonBlank(NeutraliseLines(SplitNL(l))) }

  function AllShown(out: seq<string>): seq<string> { if out == [] then [] else ShownOf(out[0]) + AllShown(out[1..]) }

  lemma {:induction false} SplitGlue(a: string, b: string)
    ensures SplitNL(a + "\n" + b) == SplitNL(a) + SplitNL(b)
    decreases |a|
  {
    var e := LineEnd(a, 0);
    LineEndClear(a, 0);
    if e == |a| {
      SplitStep(a, b);
    } else {
      var l, rest := a[..e], a[e + 1..];
      assert a == l + "\n" + rest;
      assert a + "\n" + b == l + "\n" + (rest + "\n" + b);
      SplitStep(l, rest + "\n" + b);
      SplitGlue(rest, b);
    }
  }

  lemma {:induction false} ShownAll(out: seq<string>)
    requires out != []
    ensures NonBlank(NeutraliseLines(SplitNL(Join("\n", out)))) == AllShown(out)
  {
    hide NonBlank, NeutraliseLines, SplitNL;
    if |out| == 1 {
      assert AllShown(out[1..]) == [] && AllShown(out) == ShownOf(out[0]) + [];
    } else {
      ShownAll(out[1..]);
      var a, b := out[0], Join("\n", out[1..]);
      SplitGlue(a, b);
      NeutraliseConcat(SplitNL(a), SplitNL(b));
      NonBlankConcat(NeutraliseLines(SplitNL(a)), NeutraliseLines(SplitNL(b)));
    }
  }

  lemma {:induction false} AllConcat(a: seq<string>, b: seq<string>)
    ensures AllShown(a + b) == AllShown(a) + AllShown(b)
  {
    hide ShownOf;
    if a == [] {
      assert a + b == b;
    } else {
      assert (a + b)[1..] == a[1..] + b;
      AllConcat(a[1..], b);
    }
  }

  lemma ShownOne(l: string)
    requires NoNewline(l)
    ensures ShownOf(l) == if l == "" then [] else [NeutraliseLine(l)]
  {
    hide Defang;
    SplitLast(l);
    DefangEmpty(EscapeHeading(l));
    var n := NeutraliseLine(l);
    assert [n][1..] == [] && [l][1..] == [];
    if l == "" {
      BlankIsNeutral();
      NeutralLineKept("");
    } else {
      assert EscapeHeading(l) != "";
    }
    assert NeutraliseLines([l]) == [n] && NonBlank([n]) == if n == "" then [] else [n];
  }

  lemma {:induction false} SomethingShown(t: string)
    requires t != "" && !EndsNL(t)
    ensures |ShownOf(t)| >= if NoNewline(t) || t[0] == NL then 1 else 2
    decreases |t|
  {
    hide NonBlank, NeutraliseLines;
    var e := LineEnd(t, 0);
    LineEndClear(t, 0);
    if e == |t| {
      ShownOne(t);
    } else {
      var l, rest := t[..e], t[e + 1..];
      assert t == l + "\n" + rest && rest != "" && !EndsNL(rest);
      SomethingShown(rest);
      SplitStep(l, rest);
      NeutraliseConcat([l], SplitNL(rest));
      NonBlankConcat(NeutraliseLines([l]), NeutraliseLines(SplitNL(rest)));
      SplitLast(l);
      ShownOne(l);
    }
  }

  /** An item shows on one line, or on more if its text or fields take more. */
  lemma ItemShown(it: Item)
    requires IsId(it.blockId)
    ensures |ShownOf(FormatItem(it))| >= 1
    ensures |ShownOf(FormatItem(it))| == 1 ==> ShownOf(FormatItem(it)) == [Written(it)]
  {
    hide ShownOf, FormatItem, Front;
    FormatParts(it);
    var l := FormatItem(it);
    assert l[|l| - 1] == it.blockId[|it.blockId| - 1] && l[0] == '-';
    SomethingShown(l);
    if NoNewline(l) { ShownOne(l); }
  }

  predicate Identified(items: seq<Item>) { forall it | it in items :: IsId(it.blockId) }

  /** What a merge is for: another version of the item with that id. */
  ghost predicate KeepsIds(merge: Merge) { forall was, now :: merge(was, now).blockId == now.blockId }

  lemma MergedId(l: string, items: seq<Item>, merge: Merge, done: set<string>)
    requires Identified(items) && KeepsIds(merge) && Hit(l, items, done).Some?
    ensures var (was, now) := Hit(l, items, done).value;
            IsId(merge(was, now).blockId) && merge(was, now).blockId == now.blockId == was.blockId
  {
    hide ParseItemLine, IsId, TrimRight;
  }

  /** A pass never shows fewer lines. */
  lemma {:induction false} NoFewer(ls: seq<string>, items: seq<Item>, merge: Merge, done: set<string>)
    requires NeutralLines(ls) && Identified(items) && KeepsIds(merge)
    ensures |AllShown(Replace(ls, items, merge, done))| >= |NonBlank(ls)|
  {
    hide Hit, FormatItem, NeutraliseLine, NeutralLine, ShownOf, Identified, KeepsIds, IsId;
    if ls != [] {
      ShownKept(ls[0]);
      match Hit(ls[0], items, done)
      case None => NoFewer(ls[1..], items, merge, done);
      case Some((was, now)) =>
        NoFewer(ls[1..], items, merge, done + {was.blockId});
        MergedId(ls[0], items, merge, done);
        ItemShown(merge(was, now));
    }
  }

  lemma ShownKept(l: string)
    requires NeutralLine(l)
    ensures ShownOf(l) == if l == "" then [] else [l]
  {
    ShownOne(l);
    NeutralLineKept(l);
  }

  /** If a pass and what it adds show what was there, each line it replaces is
      stable and it adds nothing. */
  lemma {:induction false} ShownSame(ls: seq<string>, items: seq<Item>, merge: Merge, done: set<string>,
      more: seq<string>)
    requires NeutralLines(ls) && Identified(items) && KeepsIds(merge)
    requires AllShown(Replace(ls, items, merge, done)) + more == NonBlank(ls)
    ensures FirstsStable(ls, items, merge, done) && more == []
  {
    hide Hit, FormatItem, NeutraliseLine, NeutralLine, ShownOf, Identified, KeepsIds, IsId, Stable;
    if ls != [] {
      var l := ls[0];
      ShownKept(l);
      match Hit(l, items, done) {
        case None =>
          var rest := AllShown(Replace(ls[1..], items, merge, done));
          assert ShownOf(l) + rest + more == ShownOf(l) + NonBlank(ls[1..]);
          SameTail(ShownOf(l), rest + more, NonBlank(ls[1..]));
          ShownSame(ls[1..], items, merge, done, more);
        case Some((was, now)) =>
          var out := Replace(ls[1..], items, merge, done + {was.blockId});
          MergedId(l, items, merge, done);
          HitShown(l, ls[1..], merge(was, now), items, merge, done + {was.blockId}, out, more) by {
            if l == "" { BlankIsNoHit(items, done); }
          }
          ShownSame(ls[1..], items, merge, done + {was.blockId}, more);
          StableIs(l, items, merge, done);
      }
    } else {
      assert AllShown([]) == [] && [] + more == more;
    }
  }

  lemma HitShown(l: string, rest: seq<string>, it: Item, items: seq<Item>, merge: Merge, done: set<string>,
      out: seq<string>, more: seq<string>)
    requires NeutralLines(rest) && Identified(items) && KeepsIds(merge) && IsId(it.blockId)
    requires out == Replace(rest, items, merge, done)
             && ShownOf(FormatItem(it)) + AllShown(out) + more == [l] + NonBlank(rest)
    ensures Written(it) == l && AllShown(out) + more == NonBlank(rest)
  {
    hide Hit, FormatItem, NeutraliseLine, NeutralLine, ShownOf, Identified, KeepsIds, IsId, NonBlank, Replace;
    NoFewer(rest, items, merge, done);
    ItemShown(it);
    var f := ShownOf(FormatItem(it));
    assert |f + AllShown(out) + more| == |[l] + NonBlank(rest)|;
    assert f == [Written(it)];
    assert (f + AllShown(out) + more)[0] == ([l] + NonBlank(rest))[0];
    assert f + (AllShown(out) + more) == [l] + NonBlank(rest);
    SameTail([l], AllShown(out) + more, NonBlank(rest));
  }

  lemma SameTail(a: seq<string>, b: seq<string>, c: seq<string>)
    requires a + b == a + c
    ensures b == c
  {
    assert (a + b)[|a|..] == b && (a + c)[|a|..] == c;
  }

  lemma StableIs(l: string, items: seq<Item>, merge: Merge, done: set<string>)
    requires Hit(l, items, done).Some?
    ensures var (was, now) := Hit(l, items, done).value; Stable(l, items, merge) == (Written(merge(was, now)) == l)
  {
    hide ParseItemLine, FormatItem, NeutraliseLine;
    HitIs(l, items, done);
    HitIs(l, items, {});
  }

  lemma {:induction false} NothingMissing(items: seq<Item>, done: set<string>)
    requires Identified(items)
    ensures Missing(items, done) == [] <==> forall it | it in items :: it.blockId in done
    ensures AllShown(Missing(items, done)) == [] ==> Missing(items, done) == []
  {
    hide IsId, FormatItem, ShownOf;
    if items != [] {
      assert items[0] in items && forall it | it in items[1..] :: it in items;
      NothingMissing(items[1..], done);
      ItemShown(items[0]);
      assert items == [items[0]] + items[1..];
    }
  }

  // ---------------------------------------------------------------------
  // One fence
  // ---------------------------------------------------------------------

  /** Each line that a pass replaces is stable, and it adds none. */
  predicate Still(ls: seq<string>, items: seq<Item>, merge: Merge) {
    FirstsStable(ls, items, merge, {}) && forall it | it in items :: it.blockId in Replaced(ls, items, {})
  }

  /** A pass over fenced text as it is written leaves it exactly if it is still. */
  lemma InnerAgainIff(x: string, items: seq<Item>, merge: Merge)
    requires Identified(items) && KeepsIds(merge)
    ensures var once := Inner(Neutralise(x)); var again := LinesOf(once);
            Inner(Neutralise(Join("\n", OutLines(again, items, merge)))) == once <==> Still(again, items, merge)
  {
    hide LinesOf, Join, Inner, NonBlank, Neutralise, NeutralLines, AllShown, NeutraliseLines, FirstsStable, Replace,
         Missing, Replaced, KeepsIds, Identified, SplitNL;
    var once := Inner(Neutralise(x));
    var again := LinesOf(once);
    var done := Replaced(again, items, {});
    var first, more := Replace(again, items, merge, {}), Missing(items, done);
    var out := OutLines(again, items, merge);
    WrittenText(x);
    NothingMissing(items, done);
    if Still(again, items, merge) {
      StableKept(again, items, merge, {});
      assert first + [] == first;
      NeutralJoined(out, again);
      InnerOfLines(Neutralise(x));
    }
    if Inner(Neutralise(Join("\n", out))) == once {
      if out == [] {
        NothingLeft(again, items, merge);
      } else {
        WrittenText(Join("\n", out));
        ShownAll(out);
        AllConcat(first, more);
        ShownSame(again, items, merge, {}, AllShown(more));
      }
    }
  }

  lemma NothingLeft(ls: seq<string>, items: seq<Item>, merge: Merge)
    requires OutLines(ls, items, merge) == []
    ensures ls == [] && FirstsStable(ls, items, merge, {}) && Missing(items, Replaced(ls, items, {})) == []
  {}

  /** The fence: a pass repeats itself exactly if its first opening marker is
      closed or absent, and what it wrote is still. */
  lemma BodyAgainIff(body: string, items: seq<Item>, merge: Merge)
    requires Identified(items) && KeepsIds(merge)
    ensures var b := UpsertBody(body, items, merge);
            UpsertBody(b, items, merge) == b
            <==> !FenceOf(body).Orphan? && Still(LinesOf(SplitFence(b, "managed").1), items, merge)
  {
    hide SplitFence, FenceOf, LinesOf, Inner, Neutralise, OutLines, Join, Unfenced, KeepsIds, Identified, Still;
    var (before, inner, after) := SplitFence(body, "managed");
    var text := Join("\n", OutLines(LinesOf(inner), items, merge));
    var x := Neutralise(text);
    NeutraliseSafe(text);
    ManagedName();
    if FenceOf(body).Orphan? {
      OrphanMoves(body, x, items, merge);
    } else {
      UnfencedHasNoClose(x);
      InnerFits(x);
      SplitAgain(body, "managed", Inner(x));
      InnerAgainIff(text, items, merge);
      var y := Inner(Neutralise(Join("\n", OutLines(LinesOf(Inner(x)), items, merge))));
      SameMiddle(before, Inner(x), y, after);
    }
  }

  lemma SameMiddle(a: string, x: string, y: string, c: string)
    ensures a + x + c == a + y + c <==> x == y
  {
    if a + x + c == a + y + c {
      assert |x| == |y|;
      Slices(a, x, c);
      Slices(a, y, c);
    }
  }

  /** Behind an unclosed marker the first pass leaves a marker in what the second
      one reads, and the second neutralises it. */
  lemma OrphanMoves(body: string, x: string, items: seq<Item>, merge: Merge)
    requires FenceOf(body).Orphan? && Unfenced(x)
    ensures var b := PutFenced(body, "managed", x); UpsertBody(b, items, merge) != b
  {
    hide FenceOf, LinesOf, Inner, Neutralise, OutLines, Join, Unfenced, FenceOpen, BeforeFresh, OrphanStart, PutFenced;
    ManagedName();
    OrphanFence(body, "managed", x);
    var b, e := PutFenced(body, "managed", x), OrphanStart(body);
    var c := |b| - 18;
    var text := Join("\n", OutLines(LinesOf(b[e..c]), items, merge));
    var y := Inner(Neutralise(text));
    NeutraliseSafe(text);
    UnfencedInner(Neutralise(text));
    OpenMarks();
    MarkerStays(BeforeFresh(body)[e..], FenceOpen("managed") + "\n", Inner(x));
    assert UpsertBody(b, items, merge) == b[..e] + y + b[c..];
    CutAtTwo(b, e, c);
    SameMiddle(b[..e], b[e..c], y, b[c..]);
  }

  lemma CutAtTwo(b: string, e: nat, c: nat)
    requires e <= c <= |b|
    ensures b == b[..e] + b[e..c] + b[c..]
  {}

  lemma OpenMarks()
    ensures "<!-- watcher" <= FenceOpen("managed") + "\n"
  {
    var m := FenceOpen("managed") + "\n";
    assert m == "<!-- watcher" + (":" + "managed" + " -->" + "\n");
  }

  lemma {:induction false} MarkerStays(head: string, m: string, rest: string)
    requires "<!-- watcher" <= m
    ensures !Unfenced(head + m + rest)
  {
    if head == "" {
      assert head + m + rest == m + rest;
    } else {
      assert (head + m + rest)[1..] == head[1..] + m + rest;
      MarkerStays(head[1..], m, rest);
    }
  }

  lemma {:induction false} UnfencedSuffix(t: string, k: nat)
    requires Unfenced(t) && k <= |t|
    ensures Unfenced(t[k..])
  {
    if k > 0 {
      UnfencedSuffix(t[1..], k - 1);
      assert t[1..][k - 1..] == t[k..];
    } else {
      assert t[0..] == t;
    }
  }

  lemma {:induction false} UnfencedPrefix(t: string, k: nat)
    requires Unfenced(t) && k <= |t|
    ensures Unfenced(t[..k])
  {
    if k > 0 {
      UnfencedPrefix(t[1..], k - 1);
      assert t[1..][..k - 1] == t[..k][1..];
      assert t[..k] <= t;
    }
  }

  lemma UnfencedInner(t: string)
    requires Unfenced(t)
    ensures Unfenced(Inner(t))
  {
    hide Unfenced, LeadNL, TrailNL;
    StripParts(t);
    var a := LeadNL(t, 0);
    var b := TrailNL(t, a, |t|);
    UnfencedPrefix(t, b);
    UnfencedSuffix(t[..b], a);
    assert t[..b][a..] == StripNL(t);
    UnfencedNewline(StripNL(t));
    UnfencedNothing();
  }

  lemma UnfencedNothing()
    ensures Unfenced("")
  {}

  lemma {:induction false} UnfencedNewline(t: string)
    requires Unfenced(t)
    ensures Unfenced(t + "\n")
  {
    if t == "" {
      assert t + "\n" == "\n" && "\n"[1..] == "";
    } else {
      assert (t + "\n")[1..] == t[1..] + "\n";
      UnfencedNewline(t[1..]);
      assert (t + "\n")[|t|] == NL && (t + "\n")[..|t|] == t;
    }
  }

  // ---------------------------------------------------------------------
  // The page
  // ---------------------------------------------------------------------

  /** The lines `upsert_items` reads. */
  function FencedLines(p: Page, title: string): seq<string> {
    LinesOf(SplitFence(BodyOf(p, title, Managed), "managed").1)
  }

  lemma ManagedName()
    ensures OwnerName("managed")
  {}

  /** Upserting any items with any merge a second time leaves the page unchanged
      exactly if the fence was no open one and, in what the first call wrote, every
      line first of its id is stable under the last item of that id, and every id
      is on a line. */
  lemma UpsertAgainIff(p: Page, title: string, items: seq<Item>, merge: Merge)
    requires Require(p, title, {Managed}).Ok? && Identified(items) && KeepsIds(merge)
    ensures UpsertItems(p, title, items, merge).Ok?
    ensures var q := UpsertItems(p, title, items, merge).value;
            UpsertItems(q, title, items, merge) == Ok(q)
            <==> !FenceOf(BodyOf(p, title, Managed)).Orphan? && Still(FencedLines(q, title), items, merge)
  {
    hide OwnerOf, WithSection, SplitFence, FenceOf, LinesOf, Inner, Neutralise, OutLines, Join, SectionOf, KeepsIds,
         Identified, Still;
    var body := BodyOf(p, title, Managed);
    var b1 := UpsertBody(body, items, merge);
    var b2 := UpsertBody(b1, items, merge);
    BodyAgainIff(body, items, merge);
    RewriteGets(p, title, Managed, b1);
    RewriteTwice(p, title, Managed, b1, b1);
    RewriteTwice(p, title, Managed, b1, b2);
    var q := Rewrite(p, title, Managed, b1);
    RewriteTwice(q, title, Managed, b2, b2);
    hide Rewrite, BodyOf;
  }

  // ---------------------------------------------------------------------
  // Told from the lines and items of the first call
  // ---------------------------------------------------------------------

  /** Merging `now` into what the line of `it` reads back writes that line again. */
  predicate Settles(merge: Merge, it: Item, now: Item) {
    ReadBack(it).Some? && Written(merge(ReadBack(it).value, now)) == Written(it)
  }

  /** Each first line of an incoming id settles, once replaced. */
  predicate HitsSettle(ls: seq<string>, items: seq<Item>, merge: Merge, done: set<string>) {
    ls == [] ||
      match Hit(ls[0], items, done)
      case None => HitsSettle(ls[1..], items, merge, done)
      case Some((was, now)) =>
        Settles(merge, merge(was, now), now) && HitsSettle(ls[1..], items, merge, done + {was.blockId})
  }

  /** Each first line added for an id settles under the last item of that id. */
  predicate NewsSettle(rest: seq<Item>, items: seq<Item>, merge: Merge, done: set<string>) {
    rest == [] ||
      match Lookup(items, rest[0].blockId)
      case Some(now) =>
        if rest[0].blockId in done then NewsSettle(rest[1..], items, merge, done)
        else Settles(merge, rest[0], now) && NewsSettle(rest[1..], items, merge, done + {now.blockId})
      case None => NewsSettle(rest[1..], items, merge, done)
  }

  predicate AllSettle(ls: seq<string>, items: seq<Item>, merge: Merge) {
    HitsSettle(ls, items, merge, {}) && NewsSettle(items, items, merge, Replaced(ls, items, {}))
  }

  /** Whatever is merged into the line takes one line. */
  predicate OneLineMerge(l: string, items: seq<Item>, merge: Merge) {
    match ParseItemLine(l)
    case None => true
    case Some(was) =>
      match Lookup(items, was.blockId)
      case None => true
      case Some(now) => OneLineItem(merge(was, now))
  }

  predicate OneLineMerges(ls: seq<string>, items: seq<Item>, merge: Merge) {
    forall l | l in ls :: OneLineMerge(l, items, merge)
  }

  /** A written line is read as its item again. */
  lemma WrittenHit(it: Item, items: seq<Item>, merge: Merge, now: Item, done: set<string>)
    requires IsId(it.blockId) && Lookup(items, it.blockId) == Some(now) && now.blockId !in done
    ensures ReadBack(it).Some? && ReadBack(it).value.blockId == now.blockId
    ensures Hit(Written(it), items, done) == Some((ReadBack(it).value, now))
    ensures Stable(Written(it), items, merge) == Settles(merge, it, now)
  {
    hide ParseItemLine, FormatItem, NeutraliseLine, IdOf, IsId;
    BlockIdRecovered(it);
    ReadId(it);
    HitIs(Written(it), items, done);
    HitIs(Written(it), items, {});
  }

  lemma ReadId(it: Item)
    requires IdOf(NeutraliseLine(FormatItem(it))) == Some(it.blockId)
    ensures ReadBack(it).Some? && ReadBack(it).value.blockId == it.blockId
  {
    hide NeutraliseLine, FormatItem, IdOf, ItemOf;
  }

  lemma {:induction false} ReplaceSettles(ls: seq<string>, items: seq<Item>, merge: Merge, done: set<string>)
    requires Identified(items) && KeepsIds(merge)
    ensures var out := NeutraliseLines(Replace(ls, items, merge, done));
            && FirstsStable(out, items, merge, done) == HitsSettle(ls, items, merge, done)
            && Replaced(out, items, done) == Replaced(ls, items, done)
  {
    hide Hit, FormatItem, NeutraliseLine, ParseItemLine, Stable, Settles, Identified, KeepsIds, ReadBack, Written, IsId;
    if ls != [] {
      match Hit(ls[0], items, done) {
        case None =>
          var rest := Replace(ls[1..], items, merge, done);
          ReplaceSettles(ls[1..], items, merge, done);
          NeutraliseCons(ls[0], rest);
          NeutralHit(ls[0], items, done);
          ConsNoHit(NeutraliseLine(ls[0]), NeutraliseLines(rest), items, merge, done);
        case Some((was, now)) =>
          var rest := Replace(ls[1..], items, merge, done + {was.blockId});
          ReplaceSettles(ls[1..], items, merge, done + {was.blockId});
          NeutraliseCons(FormatItem(merge(was, now)), rest);
          MergedId(ls[0], items, merge, done);
          HitNow(ls[0], items, done);
          WrittenHit(merge(was, now), items, merge, now, done);
          WrittenAs(merge(was, now));
          ConsHit(Written(merge(was, now)), NeutraliseLines(rest), items, merge, done, now);
      }
    }
  }

  lemma WrittenAs(it: Item)
    ensures Written(it) == NeutraliseLine(FormatItem(it))
  {}

  lemma HitNow(l: string, items: seq<Item>, done: set<string>)
    requires Hit(l, items, done).Some?
    ensures var (was, now) := Hit(l, items, done).value; Lookup(items, now.blockId) == Some(now) && now.blockId !in done
  {
    hide ParseItemLine, TrimRight;
  }

  lemma {:induction false} LookupHas(items: seq<Item>, it: Item)
    requires it in items
    ensures Lookup(items, it.blockId).Some?
  {
    if items[0] != it {
      assert it in items[1..];
      LookupHas(items[1..], it);
    }
  }

  /** The added lines cover every id; which of them are stable. */
  lemma {:induction false} MissingSettles(items: seq<Item>, rest: seq<Item>, merge: Merge, known: set<string>,
      done: set<string>)
    requires Identified(items) && known <= done && forall it | it in rest :: it in items
    ensures var out := NeutraliseLines(Missing(rest, known));
            && FirstsStable(out, items, merge, done) == NewsSettle(rest, items, merge, done)
            && done <= Replaced(out, items, done) && forall it | it in rest :: it.blockId in Replaced(out, items, done)
  {
    hide Hit, FormatItem, NeutraliseLine, Stable, ReadBack, Settles, Written, IsId, Lookup;
    if rest != [] {
      var it := rest[0];
      assert it in rest && forall x | x in rest[1..] :: x in rest;
      LookupHas(items, it);
      var more := NeutraliseLines(Missing(rest[1..], known));
      if it.blockId in known {
        MissingSettles(items, rest[1..], merge, known, done);
      } else {
        NeutraliseCons(FormatItem(it), Missing(rest[1..], known));
        WrittenAs(it);
        if it.blockId in done {
          MissingSettles(items, rest[1..], merge, known, done);
          KnownNoHit(it, items, done);
          ConsNoHit(Written(it), more, items, merge, done);
        } else {
          var now := Lookup(items, it.blockId).value;
          MissingSettles(items, rest[1..], merge, known, done + {now.blockId});
          WrittenHit(it, items, merge, now, done);
          ConsHit(Written(it), more, items, merge, done, now);
        }
      }
      assert rest == [it] + rest[1..];
    }
  }

  lemma KnownNoHit(it: Item, items: seq<Item>, done: set<string>)
    requires IsId(it.blockId) && it.blockId in done
    ensures Hit(Written(it), items, done) == None
  {
    hide ParseItemLine, FormatItem, NeutraliseLine, IdOf, IsId, Lookup;
    BlockIdRecovered(it);
    ReadId(it);
    HitIs(Written(it), items, done);
  }

  lemma {:induction false} ReplaceOneLine(ls: seq<string>, items: seq<Item>, merge: Merge, done: set<string>)
    requires (forall l | l in ls :: NoNewline(l)) && OneLineMerges(ls, items, merge)
    ensures forall l | l in Replace(ls, items, merge, done) :: NoNewline(l)
  {
    hide NoNewline, Hit, FormatItem, ParseItemLine, Lookup, IsId;
    if ls != [] {
      assert ls[0] in ls && OneLineMerge(ls[0], items, merge);
      assert forall l | l in ls[1..] :: l in ls;
      HitIs(ls[0], items, done);
      match Hit(ls[0], items, done)
      case None => ReplaceOneLine(ls[1..], items, merge, done);
      case Some((was, now)) => ReplaceOneLine(ls[1..], items, merge, done + {was.blockId});
    }
  }

  lemma OutOneLine(inner: string, items: seq<Item>, merge: Merge)
    requires OneLineItems(items) && OneLineMerges(LinesOf(inner), items, merge)
    ensures var out := OutLines(LinesOf(inner), items, merge); forall i | 0 <= i < |out| :: NoNewline(out[i])
  {
    hide NoNewline, Hit, LinesOf, OneLineItem, OneLineMerges;
    var ls := LinesOf(inner);
    LinesHaveNoNewline(inner);
    ReplaceOneLine(ls, items, merge, {});
    MissingOneLine(items, Replaced(ls, items, {}));
    var a, b := Replace(ls, items, merge, {}), Missing(items, Replaced(ls, items, {}));
    forall i | 0 <= i < |a + b| ensures NoNewline((a + b)[i]) {
      assert (a + b)[i] in a || (a + b)[i] in b;
    }
  }

  /** What a pass over one-line items leaves is still exactly if all settle. */
  lemma StillIff(inner: string, items: seq<Item>, merge: Merge)
    requires OneLineItems(items) && Identified(items) && KeepsIds(merge) && OneLineMerges(LinesOf(inner), items, merge)
    ensures var ls := LinesOf(inner);
            Still(LinesOf(Inner(Neutralise(Join("\n", OutLines(ls, items, merge))))), items, merge)
            == AllSettle(ls, items, merge)
  {
    hide LinesOf, Join, Inner, Neutralise, NonBlank, NeutraliseLines, Replace, Missing, Replaced, FirstsStable,
         HitsSettle, NewsSettle, OneLineItems, OneLineMerges, KeepsIds, Identified, NeutralLines;
    var ls := LinesOf(inner);
    var done := Replaced(ls, items, {});
    var first, more := Replace(ls, items, merge, {}), Missing(items, done);
    var out := OutLines(ls, items, merge);
    var again := LinesOf(Inner(Neutralise(Join("\n", out))));
    var a, b := NeutraliseLines(first), NeutraliseLines(more);
    OutOneLine(inner, items, merge);
    NeutraliseConcat(first, more);
    ReplaceSettles(ls, items, merge, {});
    MissingSettles(items, items, merge, done, done);
    StableConcat(a, b, items, merge, {});
    BlanksAside(a + b, items, merge, {});
    BlanksAside(again, items, merge, {});
    if out == [] { NothingShown(out); } else { WrittenLines(out, again); }
  }

  lemma NothingShown(out: seq<string>)
    requires out == []
    ensures NonBlank(LinesOf(Inner(Neutralise(Join("\n", out))))) == NonBlank(NeutraliseLines(out))
  {
    BlankIsNeutral();
    SplitLast("");
    NeutraliseKeepsIffNeutral("");
  }

  /** For items of one line, told before the call: upserting them twice leaves the
      page unchanged exactly if the fence is no open one, and every first line of
      an id, replaced or added, settles under the last item of that id. */
  lemma UpsertTwiceIff(p: Page, title: string, items: seq<Item>, merge: Merge)
    requires Require(p, title, {Managed}).Ok? && OneLineItems(items) && KeepsIds(merge)
    requires OneLineMerges(FencedLines(p, title), items, merge)
    ensures UpsertItems(p, title, items, merge).Ok?
    ensures var q := UpsertItems(p, title, items, merge).value;
            UpsertItems(q, title, items, merge) == Ok(q)
            <==> !FenceOf(BodyOf(p, title, Managed)).Orphan? && AllSettle(FencedLines(p, title), items, merge)
  {
    hide OwnerOf, WithSection, SplitFence, FenceOf, LinesOf, Inner, Neutralise, OutLines, Join, SectionOf, KeepsIds,
         Still, AllSettle, OneLineMerges, Unfenced;
    var body := BodyOf(p, title, Managed);
    var b1 := UpsertBody(body, items, merge);
    forall it | it in items ensures IsId(it.blockId) { assert OneLineItem(it); }
    UpsertAgainIff(p, title, items, merge);
    RewriteTwice(p, title, Managed, b1, b1);
    if !FenceOf(body).Orphan? {
      var inner := SplitFence(body, "managed").1;
      var text := Join("\n", OutLines(LinesOf(inner), items, merge));
      NeutraliseSafe(text);
      UnfencedHasNoClose(Neutralise(text));
      InnerFits(Neutralise(text));
      ManagedName();
      SplitAgain(body, "managed", Inner(Neutralise(text)));
      StillIff(inner, items, merge);
    }
  }

  // ---------------------------------------------------------------------
  // The default merge
  // ---------------------------------------------------------------------

  /** The first item added for an id is written as the last. */
  predicate FirstsAreLast(rest: seq<Item>, items: seq<Item>, done: set<string>) {
    rest == [] ||
      match Lookup(items, rest[0].blockId)
      case Some(now) =>
        if rest[0].blockId in done then FirstsAreLast(rest[1..], items, done)
        else Written(now) == Written(rest[0]) && FirstsAreLast(rest[1..], items, done + {now.blockId})
      case None => FirstsAreLast(rest[1..], items, done)
  }

  lemma {:induction false} NewsLast(rest: seq<Item>, items: seq<Item>, done: set<string>)
    requires forall it | it in rest :: it in items && IsId(it.blockId)
    ensures NewsSettle(rest, items, (was, now) => now, done) == FirstsAreLast(rest, items, done)
  {
    hide ReadBack, Written, IsId, Lookup;
    if rest != [] {
      var it := rest[0];
      assert it in rest && forall x | x in rest[1..] :: x in rest;
      LookupHas(items, it);
      ReadsSomething(it);
      NewsLast(rest[1..], items, done);
      NewsLast(rest[1..], items, done + {it.blockId});
    }
  }

  lemma ReadsSomething(it: Item)
    requires IsId(it.blockId)
    ensures ReadBack(it).Some? && ReadBack(it).value.blockId == it.blockId
  {
    hide ReadBack, IdOf, IsId, FormatItem, NeutraliseLine;
    BlockIdRecovered(it);
    ReadId(it);
  }

  lemma {:induction false} HitsLast(ls: seq<string>, items: seq<Item>, done: set<string>)
    requires Identified(items)
    ensures HitsSettle(ls, items, (was, now) => now, done)
  {
    hide ParseItemLine, ReadBack, Written, IsId, TrimRight;
    if ls != [] {
      match Hit(ls[0], items, done)
      case None => HitsLast(ls[1..], items, done);
      case Some((was, now)) =>
        ReadsSomething(now);
        HitsLast(ls[1..], items, done + {was.blockId});
    }
  }

  /** When incoming items win outright, upserting twice is upserting once exactly
      if no id is added first with one line and last with another. */
  lemma IncomingWins(p: Page, title: string, items: seq<Item>)
    requires Require(p, title, {Managed}).Ok? && OneLineItems(items)
    ensures var merge: Merge := (was, now) => now;
            var q := UpsertItems(p, title, items, merge);
            q.Ok? && (UpsertItems(q.value, title, items, merge) == Ok(q.value)
                      <==> !FenceOf(BodyOf(p, title, Managed)).Orphan?
                           && FirstsAreLast(items, items, Replaced(FencedLines(p, title), items, {})))
  {
    hide OwnerOf, SplitFence, FenceOf, LinesOf, BodyOf, SectionOf, ParseItemLine, UpsertBody, Rewrite, Replaced,
         FormatItem, NoNewline, IsId, HitsSettle, NewsSettle, FirstsAreLast;
    var merge: Merge := (was, now) => now;
    forall it | it in items ensures IsId(it.blockId) { assert OneLineItem(it); }
    assert KeepsIds(merge);
    var ls := FencedLines(p, title);
    forall l | l in ls ensures OneLineMerge(l, items, merge) {}
    UpsertTwiceIff(p, title, items, merge);
    HitsLast(ls, items, {});
    NewsLast(items, items, Replaced(ls, items, {}));
  }
}
