/** `upsert_items` (shared/wiki/editor.py): items of a managed section are
    replaced in place by block id, and new ones added at its end. */
module Upserts {
  import opened Options
  import opened Text
  import opened PageFormat
  import opened Schema
  import opened Neutral
  import opened Fence
  import opened Editor
  import opened Items
  import opened ItemText
  import opened Sections
  import opened ItemEdits

  // ---------------------------------------------------------------------
  // Neutralising a line leaves its id alone, whatever the line
  // ---------------------------------------------------------------------

  /** The line from its last `^` on; empty without one. */
  function CaretTail(s: string): string {
    if s == "" then ""
    else if CaretTail(s[1..]) != "" then CaretTail(s[1..])
    else if s[0] == '^' then s else ""
  }

  lemma {:induction false} CaretTailIs(s: string)
    ensures CaretTail(s) == s[LastCaret(s)..]
  {
    if s != "" {
      CaretTailIs(s[1..]);
      var c := LastCaret(s[1..]);
      assert s[1..][c..] == s[c + 1..];
    }
  }

  lemma {:induction false} CaretTailDefang(s: string)
    ensures CaretTail(Defang(s)) == Defang(CaretTail(s))
  {
    hide MarkerFirst;
    if s != "" {
      CaretTailDefang(s[1..]);
      var d := Defang(s[1..]);
      if CaretTail(s[1..]) != "" { DefangEmpty(CaretTail(s[1..])); }
      if MarkerFirst(s) {
        if s[0] != '<' { NotMarker(s); }
        EscapedTail(d);
      } else {
        assert ([s[0]] + d)[1..] == d;
      }
    }
  }

  lemma EscapedTail(d: string)
    ensures CaretTail("&lt;" + d) == CaretTail(d)
  {
    var t := "&lt;" + d;
    assert t[1..] == "lt;" + d && t[1..][1..] == "t;" + d && t[1..][1..][1..] == ";" + d && (";" + d)[1..] == d;
    assert CaretTail(";" + d) == CaretTail(d);
    assert CaretTail("t;" + d) == CaretTail(d);
  }

  function TailId(u: string): Option<string> {
    if u == "" then None else
      var e := IdRun(u, 1);
      if e > 1 && SpaceRun(u, e) == |u| then Some(u[1..e]) else None
  }

  lemma {:induction false} RunsShift(l: string, c: nat, i: nat)
    requires c + i <= |l|
    ensures IdRun(l, c + i) == c + IdRun(l[c..], i) && SpaceRun(l, c + i) == c + SpaceRun(l[c..], i)
    decreases |l| - i
  {
    if c + i < |l| { RunsShift(l, c, i + 1); }
  }

  predicate Bulleted(l: string) { |l| >= 2 && l[0] == '-' && IsSpace(l[1]) }

  lemma IdByTail(l: string)
    ensures IdOf(l) == if Bulleted(l) then TailId(CaretTail(l)) else None
  {
    CaretTailIs(l);
    var c := LastCaret(l);
    var u := l[c..];
    if c < |l| {
      RunsShift(l, c, 1);
      var e := IdRun(u, 1);
      RunsShift(l, c, e);
      assert u[1..e] == l[c + 1..c + e];
    }
  }

  lemma AmpFirst(u: string)
    requires u != "" && MarkerFirst(u)
    ensures Defang(u) != "" && Defang(u)[0] == '&'
  {
    hide MarkerFirst;
  }

  lemma {:induction false} DefangNoAmp(u: string)
    requires forall i | 0 <= i < |Defang(u)| :: Defang(u)[i] != '&'
    ensures Defang(u) == u
  {
    hide MarkerFirst;
    if u != "" {
      var d := Defang(u[1..]);
      if !MarkerFirst(u) {
        assert forall i | 0 <= i < |d| :: d[i] == Defang(u)[i + 1];
        DefangNoAmp(u[1..]);
      } else {
        AmpFirst(u);
      }
    }
  }

  lemma {:induction false} IdRunAll(s: string, i: nat)
    requires i <= |s|
    ensures forall k | i <= k < IdRun(s, i) :: IsIdChar(s[k])
    decreases |s| - i
  {
    if i < |s| && IsIdChar(s[i]) { IdRunAll(s, i + 1); }
  }

  lemma TailIdPlain(u: string)
    requires TailId(u).Some? && u[0] == '^'
    ensures forall i | 0 <= i < |u| :: u[i] != '<' && u[i] != '&'
  {
    IdRunAll(u, 1);
    SpaceRunAll(u, IdRun(u, 1));
  }

  lemma {:induction false} CaretTailFirst(s: string)
    ensures CaretTail(s) != "" ==> CaretTail(s)[0] == '^'
  {
    if s != "" { CaretTailFirst(s[1..]); }
  }

  lemma TailIdDefang(u: string)
    requires u == "" || u[0] == '^'
    ensures TailId(Defang(u)) == TailId(u)
  {
    hide TailId;
    if u != "" {
      NotMarker(u);
      hide MarkerFirst;
      if TailId(u).Some? {
        TailIdPlain(u);
        DefangPlainTail(u);
      } else if TailId(Defang(u)).Some? {
        TailIdPlain(Defang(u));
        DefangNoAmp(u);
      }
    }
  }

  lemma BulletEscape(l: string)
    ensures Bulleted(EscapeHeading(l)) == Bulleted(l) && (Bulleted(l) ==> EscapeHeading(l) == l)
  {
    if IsHeading(l) {
      var w := SpaceRun(l, 0);
      SpaceRunAll(l, 0);
      assert w > 0 ==> EscapeHeading(l)[0] == l[0];
    }
  }

  lemma BulletDefang(l: string)
    ensures Bulleted(Defang(l)) == Bulleted(l)
  {
    if l != "" {
      if l[0] != '<' { NotMarker(l); }
      if |l| > 1 && l[1] != '<' { NotMarker(l[1..]); }
    }
  }

  /** Neutralising never changes whether a line is an item, nor which. */
  lemma IdOfNeutral(l: string)
    ensures IdOf(NeutraliseLine(l)) == IdOf(l)
  {
    hide TailId, CaretTail, Defang, IdOf, Bulleted, EscapeHeading;
    var e := EscapeHeading(l);
    IdByTail(l);
    IdByTail(Defang(e));
    BulletEscape(l);
    BulletDefang(e);
    CaretTailDefang(e);
    CaretTailFirst(e);
    TailIdDefang(CaretTail(e));
  }

  // ---------------------------------------------------------------------
  // The model
  // ---------------------------------------------------------------------

  /** The item a dict of `items` by id holds for `id`: the last one. */
  function Lookup(items: seq<Item>, id: string): (r: Option<Item>)
    ensures r.Some? ==> r.value in items && r.value.blockId == id
  {
    if items == [] then None else
      match Lookup(items[1..], id)
      case Some(it) => Some(it)
      case None => if items[0].blockId == id then Some(items[0]) else None
  }

  /** The item on the line and the one to put in its place, if any. */
  function Hit(l: string, items: seq<Item>, done: set<string>): Option<(Item, Item)> {
    match ParseItemLine(TrimRight(l))
    case None => None
    case Some(was) =>
      match Lookup(items, was.blockId)
      case Some(now) => if was.blockId in done then None else Some((was, now))
      case None => None
  }

  type Merge = (Item, Item) -> Item

  function Replace(ls: seq<string>, items: seq<Item>, merge: Merge, done: set<string>): (r: seq<string>)
    ensures |r| == |ls|
  {
    if ls == [] then [] else
      match Hit(ls[0], items, done)
      case Some((was, now)) => [FormatItem(merge(was, now))] + Replace(ls[1..], items, merge, done + {was.blockId})
      case None => [ls[0]] + Replace(ls[1..], items, merge, done)
  }

  /** `done` with the ids replaced on the lines. */
  function Replaced(ls: seq<string>, items: seq<Item>, done: set<string>): set<string> {
    if ls == [] then done else
      match Hit(ls[0], items, done)
      case Some((was, _)) => Replaced(ls[1..], items, done + {was.blockId})
      case None => Replaced(ls[1..], items, done)
  }

  function Missing(items: seq<Item>, done: set<string>): seq<string> {
    if items == [] then []
    else if items[0].blockId in done then Missing(items[1..], done)
    else [FormatItem(items[0])] + Missing(items[1..], done)
  }

  function OutLines(ls: seq<string>, items: seq<Item>, merge: Merge): seq<string> {
    Replace(ls, items, merge, {}) + Missing(items, Replaced(ls, items, {}))
  }

  /** The body with its fenced lines upserted. */
  function UpsertBody(body: string, items: seq<Item>, merge: Merge): string {
    var (before, inner, after) := SplitFence(body, "managed");
    before + Inner(Neutralise(Join("\n", OutLines(LinesOf(inner), items, merge)))) + after
  }

  function UpsertItems(p: Page, title: string, items: seq<Item>, merge: Merge): Result<Page> {
    match Require(p, title, {Managed})
    case Err(e) => Err(e)
    case Ok(o) => Ok(Rewrite(p, title, o, UpsertBody(BodyOf(p, title, o), items, merge)))
  }

  /** Lines that hold no incoming item are kept verbatim, in place. */
  lemma {:induction false} OtherLinesKept(ls: seq<string>, items: seq<Item>, merge: Merge, done: set<string>, i: nat)
    requires i < |ls|
    requires ParseItemLine(ls[i]).Some? ==> Lookup(items, ParseItemLine(ls[i]).value.blockId).None?
    ensures Replace(ls, items, merge, done)[i] == ls[i]
  {
    hide ParseItemLine, FormatItem, TrimRight, Lookup;
    if i == 0 {
      ParseTrimmed(ls[0]);
    } else {
      match Hit(ls[0], items, done)
      case None => OtherLinesKept(ls[1..], items, merge, done, i - 1);
      case Some((was, _)) => OtherLinesKept(ls[1..], items, merge, done + {was.blockId}, i - 1);
    }
  }

  /** The loops of `upsert_items`. */
  method UpsertLines(inner: string, items: seq<Item>, merge: Merge) returns (out: seq<string>)
    ensures out == OutLines(LinesOf(inner), items, merge)
  {
    hide Hit, FormatItem, LinesOf;
    var lines := LinesOf(inner);
    out := [];
    var replaced := {};
    assert lines[0..] == lines;
    for i := 0 to |lines|
      invariant out + Replace(lines[i..], items, merge, replaced) == Replace(lines, items, merge, {})
      invariant Replaced(lines[i..], items, replaced) == Replaced(lines, items, {})
    {
      assert lines[i..][1..] == lines[i + 1..];
      match Hit(lines[i], items, replaced) {
        case Some((was, now)) =>
          out := out + [FormatItem(merge(was, now))];
          replaced := replaced + {was.blockId};
        case None =>
          out := out + [lines[i]];
      }
    }
    assert lines[|lines|..] == [];
    assert out == out + [] == Replace(lines, items, merge, {});
    ghost var replacedLines := out;
    assert items[0..] == items;
    for i := 0 to |items|
      invariant out + Missing(items[i..], replaced) == replacedLines + Missing(items, replaced)
    {
      assert items[i..][1..] == items[i + 1..];
      if items[i].blockId !in replaced {
        out := out + [FormatItem(items[i])];
      }
    }
    assert items[|items|..] == [];
    assert out == out + [];
  }

  // ---------------------------------------------------------------------
  // Trailing blanks
  // ---------------------------------------------------------------------

  lemma {:induction false} TrailSpaces(s: string, a: nat, j: nat)
    requires a <= j <= |s|
    ensures forall k | TrailSpace(s, a, j) <= k < j :: IsSpace(s[k])
    decreases j
  {
    if a < j && IsSpace(s[j - 1]) { TrailSpaces(s, a, j - 1); }
  }

  lemma {:induction false} LastCaretClear(l: string)
    ensures forall k | LastCaret(l) < k < |l| :: l[k] != '^'
  {
    if l != "" {
      LastCaretClear(l[1..]);
      NoCaretAbove(l);
    }
  }

  lemma NoCaretAbove(l: string)
    requires l != "" && forall k | LastCaret(l[1..]) < k < |l[1..]| :: l[1..][k] != '^'
    ensures forall k | LastCaret(l) < k < |l| :: l[k] != '^'
  {
    var u := l[1..];
    var c := LastCaret(u);
    forall k | LastCaret(l) < k < |l| ensures l[k] != '^' {
      assert l[k] == u[k - 1];
      if c == |u| { NoneAt(u, k - 1); }
    }
  }

  lemma {:induction false} NoneAt(u: string, k: nat)
    requires LastCaret(u) == |u| && k < |u|
    ensures u[k] != '^'
  {
    if k > 0 { NoneAt(u[1..], k - 1); }
  }

  lemma LastCaretTrimmed(l: string)
    ensures var t := TrimRight(l); var c := LastCaret(l);
            LastCaret(t) == if c < |l| then c else |t|
    ensures LastCaret(l) < |l| ==> LastCaret(l) < |TrimRight(l)|
  {
    TrailSpaces(l, 0, |l|);
    LastCaretClear(l);
    var t := TrimRight(l);
    var c := LastCaret(l);
    if c < |l| {
      LastCaretIs(t, c);
    } else {
      forall k | 0 <= k < |t| ensures t[k] != '^' { NoneAt(l, k); }
      NoCaret(t);
    }
  }

  lemma {:induction false} IdRunStops(s: string, i: nat)
    requires i <= |s|
    ensures IdRun(s, i) < |s| ==> !IsIdChar(s[IdRun(s, i)])
    decreases |s| - i
  {
    if i < |s| && IsIdChar(s[i]) { IdRunStops(s, i + 1); }
  }

  lemma RunsTrimmed(l: string, b: nat, c: nat)
    requires c < b <= |l| && l[c] == '^' && !IsSpace(l[b - 1]) && forall k | b <= k < |l| :: IsSpace(l[k])
    ensures var t := l[..b]; var e := IdRun(l, c + 1);
            && e <= b && IdRun(t, c + 1) == e
            && (SpaceRun(l, e) == |l| <==> e == b) && (SpaceRun(t, e) == b <==> e == b)
  {
    hide IsSpace, IsIdChar;
    var t := l[..b];
    var e := IdRun(l, c + 1);
    IdRunAll(l, c + 1);
    IdRunStops(l, c + 1);
    if b < e { IdIsNoSpace(l[b]); }
    IdRunIs(t, c + 1, e);
    SpacesToEnd(l, e, b);
    SpacesToEnd(t, e, b);
  }

  lemma IdIsNoSpace(c: char)
    requires IsIdChar(c)
    ensures !IsSpace(c)
  {}

  lemma SpacesToEnd(l: string, e: nat, b: nat)
    requires e <= b <= |l| && (e < b ==> !IsSpace(l[b - 1])) && forall k | b <= k < |l| :: IsSpace(l[k])
    ensures SpaceRun(l, e) == |l| <==> e == b
  {
    hide IsSpace;
    if e == b { SpaceRunIs(l, e, |l|); } else { SpaceRunAll(l, e); }
  }

  lemma IdOfTrimmed(l: string)
    ensures IdOf(TrimRight(l)) == IdOf(l)
  {
    hide IdRun, SpaceRun, LastCaret, TrailSpace;
    LastCaretTrimmed(l);
    var c := LastCaret(l);
    if c < |l| {
      TrailSpaces(l, 0, |l|);
      RunsTrimmed(l, |TrimRight(l)|, c);
      TrimPrefix(l);
      if IdOf(l).Some? || IdOf(TrimRight(l)).Some? {
        assert l[c + 1..IdRun(l, c + 1)] == TrimRight(l)[c + 1..IdRun(l, c + 1)];
      }
    }
  }

  lemma TrimPrefix(l: string)
    ensures TrimRight(l) <= l
    ensures forall k | 0 <= k < |TrimRight(l)| :: TrimRight(l)[k] == l[k]
  {}

  /** Trailing blanks make no difference to the item on a line. */
  lemma ParseTrimmed(l: string)
    ensures ParseItemLine(TrimRight(l)) == ParseItemLine(l)
  {
    hide IdOf, ItemOf, LastCaret, SpaceRun, CheckboxAt, TrimRight;
    IdOfTrimmed(l);
    if IdOf(l).Some? {
      var t := TrimRight(l);
      IdOfShape(l);
      LastCaretTrimmed(l);
      TrimPrefix(l);
      SameFront(l, t, LastCaret(l));
      hide ParseItemLine;
      ParseSame(l, t, LastCaret(l));
    }
  }

  lemma IdOfShape(l: string)
    requires IdOf(l).Some?
    ensures |l| >= 2 && 1 <= LastCaret(l) < |l|
  {}

  /** Lines that agree up to their last `^` have the same front. */
  lemma SameFront(l: string, t: string, c: nat)
    requires c < |t| <= |l| && 1 <= |t| && l[c] == t[c] == '^' && c >= 1
    requires forall k | 0 <= k < |t| :: t[k] == l[k]
    ensures SpaceRun(t, 1) == SpaceRun(l, 1) <= c
    ensures var p := SpaceRun(l, 1);
            CheckboxAt(t, p) == CheckboxAt(l, p) && (CheckboxAt(l, p) ==> SpaceRun(t, p + 3) == SpaceRun(l, p + 3) <= c)
  {
    SpacesBefore(l, 1, c);
    SpaceRunAll(l, 1);
    var p := SpaceRun(l, 1);
    SpaceRunIs(t, 1, p);
    if CheckboxAt(l, p) {
      SpacesBefore(l, p + 3, c);
      SpaceRunAll(l, p + 3);
      SpaceRunIs(t, p + 3, SpaceRun(l, p + 3));
    }
  }

  lemma ParseSame(l: string, t: string, c: nat)
    requires IdOf(l) == IdOf(t) && IdOf(l).Some? && LastCaret(l) == LastCaret(t) == c && 1 <= c < |t| <= |l|
    requires forall k | 0 <= k < |t| :: t[k] == l[k]
    requires SpaceRun(t, 1) == SpaceRun(l, 1) <= c
    requires var p := SpaceRun(l, 1);
             CheckboxAt(t, p) == CheckboxAt(l, p)
                 && (CheckboxAt(l, p) ==> SpaceRun(t, p + 3) == SpaceRun(l, p + 3) <= c)
    ensures ParseItemLine(t) == ParseItemLine(l)
  {
    hide IdOf, ItemOf, LastCaret, SpaceRun, ParseItemLine;
    var p := SpaceRun(l, 1);
    var id := IdOf(l).value;
    if CheckboxAt(l, p) {
      var q := SpaceRun(l, p + 3);
      hide CheckboxAt;
      ParseChecked(l, id, c, p, q);
      ParseChecked(t, id, c, p, q);
      assert l[q..c] == t[q..c];
    } else {
      hide CheckboxAt;
      ParsePlain(l, id, c, p);
      ParsePlain(t, id, c, p);
      assert l[p..c] == t[p..c];
    }
  }
}
