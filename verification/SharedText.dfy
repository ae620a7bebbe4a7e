/** Lines added at the end of a section that has no fence: what the section
    said stays above them, and they are the neutralised lines given. */
module SharedText {
  import opened Options
  import opened Text
  import opened PageFormat
  import opened Schema
  import opened Neutral
  import opened Fence
  import opened Editor
  import opened Sections

  /** `kept` is `body` without its final newlines. */
  predicate Kept(kept: string, body: string) {
    && kept <= body && !EndsNL(kept)
    && forall k | |kept| <= k < |body| :: body[k] == NL
  }

  /** Every line of every text given, the newlines at a text's end left out. */
  function GivenLines(lines: seq<string>): seq<string> {
    if lines == [] then [] else SplitNL(StripRightNL(lines[0])) + GivenLines(lines[1..])
  }

  /** The lines kept, then those given, neutralised, then a blank one when
      another section follows. */
  predicate Lengthened(kept: string, now: string, lines: seq<string>, last: bool) {
    && kept <= now
    && SplitNL(now) == (if kept == "" then [] else SplitNL(kept)) + NeutraliseLines(GivenLines(lines))
                       + (if last then [""] else ["", ""])
  }

  lemma KeptIs(kept: string, body: string)
    requires Kept(kept, body)
    ensures StripRightNL(body) == kept
  {
    TrailIs(body, 0, |body|, |kept|);
  }

  lemma StripIsKept(body: string)
    ensures Kept(StripRightNL(body), body)
  {
    TrailAll(body, 0, |body|);
  }

  lemma {:induction false} SplitBoth(a: string, b: string)
    ensures SplitNL(a + "\n" + b) == SplitNL(a) + SplitNL(b)
    decreases |a|
  {
    var e := LineEnd(a, 0);
    LineEndClear(a, 0);
    var t := a + "\n" + b;
    if e == |a| {
      SplitStep(a, b);
    } else {
      SplitBoth(a[e + 1..], b);
      assert a == a[..e] + "\n" + a[e + 1..];
      assert t == a[..e] + "\n" + (a[e + 1..] + "\n" + b);
      SplitStep(a[..e], a[e + 1..] + "\n" + b);
      SplitStep(a[..e], a[e + 1..]);
    }
  }

  lemma {:induction false} GivenIs(lines: seq<string>)
    requires lines != []
    ensures SplitNL(Join("\n", StripLines(lines))) == GivenLines(lines)
  {
    hide SplitNL, StripRightNL;
    if |lines| > 1 {
      GivenIs(lines[1..]);
      SplitBoth(StripRightNL(lines[0]), Join("\n", StripLines(lines[1..])));
      assert StripLines(lines)[1..] == StripLines(lines[1..]);
    }
  }

  lemma BodyGrows(kept: string, was: string, lines: seq<string>, last: bool)
    requires lines != [] && Kept(kept, was)
    ensures Lengthened(kept, SharedBody(was, Neutralise(Join("\n", StripLines(lines))), last), lines, last)
    ensures kept != "" ==> kept + "\n" <= SharedBody(was, Neutralise(Join("\n", StripLines(lines))), last)
  {
    hide SplitNL, StripRightNL, Join, StripLines, Neutralise, NeutraliseLines, GivenLines;
    KeptIs(kept, was);
    var text := Join("\n", StripLines(lines));
    var addition := Neutralise(text);
    GivenIs(lines);
    NeutraliseSplit(text);
    var tail := if last then "" else "\n";
    SplitTail(last);
    SplitBoth(addition, tail);
    var now := SharedBody(was, addition, last);
    if kept == "" {
      assert now == addition + "\n" + tail;
    } else {
      SplitBoth(kept, addition + "\n" + tail);
      assert now == kept + "\n" + (addition + "\n" + tail);
    }
  }

  lemma SplitTail(last: bool)
    ensures SplitNL(if last then "" else "\n") == if last then [""] else ["", ""]
  {
    SplitLast("");
    if !last {
      SplitStep("", "");
      assert "" + "\n" + "" == "\n";
    }
  }

  /** `append_lines` on a `shared` section, or on a `human` one for a confirmed
      proposal: the text there was stands first and whole, then come exactly
      the lines given, in order. */
  lemma LinesGoBelow(p: Page, title: string, o: Owner, kept: string, lines: seq<string>, allowHuman: bool)
    requires OwnerOf(p.pageType, title) == Some(o) && (o == Shared || (o == Human && allowHuman)) && lines != []
    requires match SectionOf(p, title)
             case Some(s) => Kept(kept, s.body)
             case None => kept == ""
    ensures var r := AppendLines(p, title, lines, allowHuman);
            && r.Ok? && SectionOf(r.value, title).Some?
            && Lengthened(kept, SectionOf(r.value, title).value.body, lines,
                SectionIndex(p.pageType, r.value.sections, Canonical(p.pageType, title), 0) == |r.value.sections| - 1)
  {
    hide OwnerOf, Canonical, WithSection, SectionIndex, SharedBody, Neutralise, Join, StripLines, Lengthened;
    var (q, i) := WithSection(p, title, o);
    WithSectionFinds(p, title, o);
    assert SectionOf(p, title).None? ==> q.sections[i].body == "\n";
    var addition := Neutralise(Join("\n", StripLines(lines)));
    var last := i == |q.sections| - 1;
    BodyGrows(kept, q.sections[i].body, lines, last);
    var body := SharedBody(q.sections[i].body, addition, last);
    RewriteGets(p, title, o, body);
    SetBodyIndex(q, i, body, Canonical(p.pageType, title));
    assert AppendLines(p, title, lines, allowHuman) == Ok(SetBody(q, i, body));
  }

  /** `append_lines` on an `append` section whose first opening marker is closed
      or that has none: its fence then holds what it held and, below, the
      lines given. */
  lemma LinesGoInside(p: Page, title: string, lines: seq<string>, allowHuman: bool)
    requires OwnerOf(p.pageType, title) == Some(Append) && lines != []
    requires !FenceOf(BodyOf(p, title, Append)).Orphan?
    ensures var r := AppendLines(p, title, lines, allowHuman);
            var was := BodyOf(p, title, Append);
            var held := if FenceOf(was).Complete? then was[FenceOf(was).from..FenceOf(was).to] else "";
            r.Ok? && FencedContent(r.value, title)
                     == StripNL(held + "\n" + Join("\n", NeutraliseLines(GivenLines(lines))))
  {
    hide OwnerOf, Canonical, WithSection, SectionIndex, Neutralise, Join, StripLines, FenceOf, StripNL, SplitNL,
         NeutraliseLines, GivenLines, Unfenced, GrowFenced;
    var text := Join("\n", StripLines(lines));
    var addition := Neutralise(text);
    var was := BodyOf(p, title, Append);
    GivenIs(lines);
    NeutraliseSafe(text);
    NeutraliseJoins(text);
    var body := GrowFenced(was, "append", addition);
    RewriteGets(p, title, Append, body);
    assert AppendLines(p, title, lines, allowHuman) == Ok(Rewrite(p, title, Append, body));
    GrownHolds(was, addition);
  }

  lemma NeutraliseJoins(text: string)
    ensures Neutralise(text) == Join("\n", NeutraliseLines(SplitNL(text)))
  {}

  lemma GrownHolds(was: string, addition: string)
    requires Unfenced(addition) && !FenceOf(was).Orphan?
    ensures var held := if FenceOf(was).Complete? then was[FenceOf(was).from..FenceOf(was).to] else "";
            FencedText(GrowFenced(was, "append", addition)) == StripNL(held + "\n" + addition)
  {
    hide Unfenced, StripNL, FencedText, FenceOf, Inner, FenceOpen, BeforeFresh;
    if FenceOf(was).Complete? {
      GrownComplete(was, "append", addition);
    } else {
      assert OwnerName("append");
      assert "" + "\n" + addition == "\n" + addition;
      assert GrowFenced(was, "append", addition) == PutFenced(was, "append", "\n" + addition);
      UnfencedAfterNewline(addition);
      PutGet(was, "append", "\n" + addition);
    }
  }

  // ---------------------------------------------------------------------
  // Over several edits
  // ---------------------------------------------------------------------

  /** The lines a text has before its final newlines come first in the other. */
  ghost predicate Above(was: string, now: string) {
    forall kept | Kept(kept, was) :: Kept(kept, now) || kept == "" || kept + "\n" <= now
  }

  lemma KeptGrows(kept: string, body: string)
    requires kept != "" && !EndsNL(kept) && kept + "\n" <= body
    ensures kept <= StripRightNL(body)
    ensures StripRightNL(body) == kept || kept + "\n" <= StripRightNL(body)
  {
    StripIsKept(body);
    var k := StripRightNL(body);
    assert body[|kept| - 1] == kept[|kept| - 1];
    assert body[|kept|] == NL;
    if |k| > |kept| { assert k[..|kept| + 1] == body[..|kept| + 1]; }
    assert k[..|kept|] == body[..|kept|];
  }

  lemma AboveTrans(a: string, b: string, c: string)
    requires Above(a, b) && Above(b, c)
    ensures Above(a, c)
  {
    hide StripRightNL;
    forall kept | Kept(kept, a) ensures Kept(kept, c) || kept == "" || kept + "\n" <= c {
      if kept != "" && !Kept(kept, b) {
        KeptGrows(kept, b);
        StripIsKept(b);
        var k := StripRightNL(b);
        assert Kept(k, c) || k == "" || k + "\n" <= c;
      }
    }
  }

  lemma AboveClosed(body: string)
    ensures Above(body, body) && Above(body, CloseLine(body))
  {
    forall kept | Kept(kept, body) ensures Kept(kept, CloseLine(body)) {}
  }

  lemma AboveGrown(was: string, lines: seq<string>, last: bool)
    requires lines != []
    ensures Above(was, SharedBody(was, Neutralise(Join("\n", StripLines(lines))), last))
  {
    hide SharedBody, Neutralise, Join, StripLines, Lengthened;
    forall kept | Kept(kept, was) && kept != ""
      ensures kept + "\n" <= SharedBody(was, Neutralise(Join("\n", StripLines(lines))), last)
    {
      BodyGrows(kept, was, lines, last);
    }
  }
}
