/** What every edit keeps: a page whose dump parses back to exactly itself,
    and still does after any further edit. */
module Tidy {
  import opened Options
  import opened Text
  import opened PageFormat
  import opened Schema
  import opened Neutral
  import opened Fence
  import opened Editor

  predicate TitledSection(s: Section) { HeaderLine(s.header) && s.title == HeaderTitle(s.header) }

  predicate TidySection(s: Section) { TitledSection(s) && Quiet(s.body) }

  predicate TidySections(ss: seq<Section>) {
    && (forall i | 0 <= i < |ss| :: TidySection(ss[i]))
    && (forall i | 0 <= i < |ss| - 1 :: Closed(ss[i].body))
  }

  /** Well-formed, and with no unterminated last line that would become a
      header if a newline were added after it. */
  predicate TidyPage(p: Page) {
    && GoodRaw(p.raw) && Quiet(p.preamble) && (p.sections != [] ==> Closed(p.preamble))
    && TidySections(p.sections)
  }

  lemma {:induction false} TidySectionsWellFormed(ss: seq<Section>)
    requires TidySections(ss)
    ensures WellFormedSections(ss)
  {
    hide HeaderLine, HeaderTitle, Quiet, HeaderFree;
    if ss != [] {
      assert TidySection(ss[0]);
      QuietIsHeaderFree(ss[0].body);
      forall i | 0 <= i < |ss[1..]| ensures TidySection(ss[1..][i]) { assert TidySection(ss[i + 1]); }
      forall i | 0 <= i < |ss[1..]| - 1 ensures Closed(ss[1..][i].body) { assert Closed(ss[i + 1].body); }
      TidySectionsWellFormed(ss[1..]);
    }
  }

  lemma TidyWellFormed(p: Page)
    requires TidyPage(p)
    ensures WellFormedRest(p) && GoodRaw(p.raw)
  {
    QuietIsHeaderFree(p.preamble);
    TidySectionsWellFormed(p.sections);
  }

  // ---------------------------------------------------------------------
  // Which parsed pages are tidy
  // ---------------------------------------------------------------------

  /** The text's last line is unterminated and reads as a header. */
  predicate HeaderTail(t: string) {
    exists i | 0 <= i < |t| :: HeaderLike(t, i) && LineEnd(t, i) == |t|
  }

  lemma QuietIffNoTail(t: string)
    ensures Quiet(t) <==> HeaderFree(t) && !HeaderTail(t)
  {
    if Quiet(t) {
      QuietIsHeaderFree(t);
    } else {
      var i :| 0 <= i < |t| && HeaderLike(t, i);
      assert HeaderAt(t, i) || LineEnd(t, i) == |t|;
    }
  }

  lemma ClosedHasNoTail(t: string)
    requires Closed(t)
    ensures !HeaderTail(t)
  {
    forall i | 0 <= i < |t| ensures !(HeaderLike(t, i) && LineEnd(t, i) == |t|) {
      LineEndClear(t, i);
    }
  }

  /** Adding the missing final newline leaves a header-free text header-free
      exactly when its last line does not read as a header. */
  lemma TerminatingTail(t: string)
    requires HeaderFree(t) && !Closed(t)
    ensures HeaderFree(t + "\n") <==> !HeaderTail(t)
  {
    QuietIffNoTail(t);
    if Quiet(t) {
      QuietNewline(t);
      QuietIsHeaderFree(t + "\n");
    } else {
      var i :| 0 <= i < |t| && HeaderLike(t, i) && LineEnd(t, i) == |t|;
      LineEndClear(t, i);
      LineEndIs(t + "\n", i, |t|);
      assert HeaderAt(t + "\n", i);
    }
  }

  /** Such a tail: no header while it is unterminated, one once it is not. */
  lemma HeaderTailHappens()
    ensures HeaderFree("## X") && HeaderTail("## X") && !HeaderFree("## X" + "\n")
  {
    var t := "## X";
    LineEndIs(t, 0, 4);
    assert HeaderLike(t, 0);
    forall i | 0 <= i < |t| ensures !HeaderAt(t, i) { LineEndIs(t, i, 4); }
    TerminatingTail(t);
  }

  predicate TailOk(p: Page) {
    !HeaderTail(if p.sections == [] then p.preamble else p.sections[|p.sections| - 1].body)
  }

  /** A well-formed page is tidy exactly when its final line does not read as
      an unterminated header: the parser alone guarantees everything else. */
  lemma TidyIffTailOk(p: Page)
    requires WellFormedRest(p) && GoodRaw(p.raw)
    ensures TidyPage(p) <==> TailOk(p)
  {
    hide HeaderTail, Quiet, HeaderFree;
    QuietIffNoTail(p.preamble);
    if p.sections != [] { ClosedHasNoTail(p.preamble); }
    WellFormedIndexed(p.sections);
    forall i | 0 <= i < |p.sections|
      ensures TitledSection(p.sections[i])
      ensures Quiet(p.sections[i].body) <==> !HeaderTail(p.sections[i].body)
      ensures i < |p.sections| - 1 ==> !HeaderTail(p.sections[i].body)
    {
      assert GoodSection(p.sections[i]);
      QuietIffNoTail(p.sections[i].body);
      if i < |p.sections| - 1 { ClosedHasNoTail(p.sections[i].body); }
    }
    if TidyPage(p) && p.sections != [] { assert TidySection(p.sections[|p.sections| - 1]); }
    if TailOk(p) {
      forall i | 0 <= i < |p.sections| ensures TidySection(p.sections[i]) {}
    }
  }

  lemma {:induction false} WellFormedIndexed(ss: seq<Section>)
    requires WellFormedSections(ss)
    ensures forall i | 0 <= i < |ss| :: GoodSection(ss[i])
    ensures forall i | 0 <= i < |ss| - 1 :: Closed(ss[i].body)
  {
    hide GoodSection;
    if ss != [] {
      WellFormedIndexed(ss[1..]);
      forall i | 0 <= i < |ss| ensures GoodSection(ss[i]) {
        if i > 0 { assert ss[i] == ss[1..][i - 1]; }
      }
      forall i | 0 <= i < |ss| - 1 ensures Closed(ss[i].body) {
        if i > 0 { assert ss[i] == ss[1..][i - 1]; }
      }
    }
  }

  // ---------------------------------------------------------------------
  // Inserting and replacing sections
  // ---------------------------------------------------------------------

  lemma CloseLineQuiet(t: string)
    requires Quiet(t)
    ensures Quiet(CloseLine(t)) && EndsNL(CloseLine(t)) && t <= CloseLine(t)
  {
    if !EndsNL(t) { QuietNewline(t); }
  }

  lemma OwnerNames(o: Owner)
    ensures OwnerName(OwnerText(o))
  {}

  lemma InsertTidy(p: Page, at: nat, s: Section)
    requires TidyPage(p) && at <= |p.sections| && TidySection(s) && EndsNL(s.body)
    ensures TidyPage(InsertSection(p, at, s))
  {
    hide HeaderLine, HeaderTitle, Quiet, GoodRaw;
    var ss := p.sections;
    var q := InsertSection(p, at, s);
    if at == 0 {
      CloseLineQuiet(p.preamble);
      assert forall i | 0 < i <= |ss| :: q.sections[i] == ss[i - 1];
    } else {
      assert TidySection(ss[at - 1]);
      CloseLineQuiet(ss[at - 1].body);
      forall i | 0 <= i <= |ss|
        ensures TidySection(q.sections[i])
        ensures i < |ss| ==> Closed(q.sections[i].body)
      {
        if i < at - 1 { assert q.sections[i] == ss[i]; }
        if i > at { assert q.sections[i] == ss[i - 1]; }
      }
    }
  }

  lemma {:induction false} TitleEndPlain(h: string, i: nat, j: nat)
    requires i <= j == |h| - 1 && EndsNL(h) && j > 0
    requires i < j ==> !IsBlank(h[j - 1]) && h[j - 1] != '\r'
    ensures TitleEnd(h, i) == j
    decreases j - i
  {
    if i < j {
      if TitleTail(h, i) { TailStops(h, i, j - 1); }
      TitleEndPlain(h, i + 1, j);
    }
  }

  /** The tail of a title is blanks and at most one carriage return. */
  lemma {:induction false} TailStops(h: string, i: nat, k: nat)
    requires i <= k < |h| - 1 && TitleTail(h, i)
    ensures IsBlank(h[k]) || h[k] == '\r'
    decreases k - i
  {
    if i < k { TailStops(h, i + 1, k); }
  }

  /** `## title` is a header line and carries exactly that title. */
  lemma HeaderOfTitle(t: string)
    requires PlainTitle(t)
    ensures var h := "## " + t + "\n"; HeaderLine(h) && HeaderTitle(h) == t
  {
    var h := "## " + t + "\n";
    assert h[3] == t[0] && h[|h| - 2] == t[|t| - 1];
    assert forall k | 0 <= k < |t| :: h[3 + k] == t[k];
    LineEndIs(h, 0, |h| - 1);
    TitleEndPlain(h, 4, |h| - 1);
    assert h[3..|h| - 1] == t;
  }

  lemma SkeletonTidy(o: Owner)
    ensures Quiet(SkeletonBody(o, "", false)) && EndsNL(SkeletonBody(o, "", false))
  {
    if FencedOwner(o) {
      OwnerNames(o);
      FreshQuiet("", OwnerText(o));
      var m := "" + FenceOpen(OwnerText(o)) + "\n";
      QuietJoin(m, FENCE_CLOSE + "\n");
      assert SkeletonBody(o, "", false) == m + (FENCE_CLOSE + "\n");
    }
  }

  lemma FreshTidy(pageType: string, title: string, o: Owner)
    requires OwnerOf(pageType, title) == Some(o)
    ensures TidySection(FreshSection(Canonical(pageType, title), o))
    ensures EndsNL(FreshSection(Canonical(pageType, title), o).body)
  {
    OwnedTitle(pageType, title);
    HeaderOfTitle(Canonical(pageType, title));
    SkeletonTidy(o);
  }

  lemma WithSectionTidy(p: Page, title: string, o: Owner)
    requires TidyPage(p) && OwnerOf(p.pageType, title) == Some(o)
    ensures TidyPage(WithSection(p, title, o).0)
  {
    hide TidyPage, TidySection, Canonical, FreshSection;
    var canonical := Canonical(p.pageType, title);
    if SectionIndex(p.pageType, p.sections, canonical, 0) == |p.sections| {
      FreshTidy(p.pageType, title, o);
      InsertTidy(p, LaterIndex(p.pageType, p.sections, Rank(p.pageType, title), 0), FreshSection(canonical, o));
    }
  }

  lemma SetBodyTidy(p: Page, i: nat, body: string)
    requires TidyPage(p) && i < |p.sections| && Quiet(body)
    requires Closed(p.sections[i].body) ==> Closed(body)
    ensures TidyPage(SetBody(p, i, body))
  {
    hide HeaderLine, HeaderTitle, Quiet, GoodRaw;
    var q := SetBody(p, i, body);
    assert TidySection(p.sections[i]);
    forall j | 0 <= j < |q.sections|
      ensures TidySection(q.sections[j])
      ensures j < |q.sections| - 1 ==> Closed(q.sections[j].body)
    {
      if j != i { assert q.sections[j] == p.sections[j]; }
    }
  }

  lemma BodyIsQuiet(p: Page, i: nat)
    requires TidyPage(p) && i < |p.sections|
    ensures Quiet(p.sections[i].body)
  {
    assert TidySection(p.sections[i]);
  }

  lemma SharedBodyQuiet(body: string, addition: string, last: bool)
    requires Quiet(body) && Quiet(addition)
    ensures Quiet(SharedBody(body, addition, last)) && EndsNL(SharedBody(body, addition, last))
  {
    var kept := StripRightNL(body);
    QuietPrefix(body, |kept|);
    QuietNewline(kept);
    var front := if kept == "" then "" else kept + "\n";
    QuietJoin(front, addition);
    QuietNewline(front + addition);
    var grown := front + addition + "\n";
    QuietNewline(grown);
  }

  // ---------------------------------------------------------------------
  // Each edit keeps the page tidy
  // ---------------------------------------------------------------------

  lemma PutSectionTidy(p: Page, title: string, o: Owner, text: string)
    requires TidyPage(p) && OwnerOf(p.pageType, title) == Some(o)
    ensures TidyPage(PutSection(p, title, o, text))
  {
    hide TidyPage, Quiet, Neutralise, PutFenced, Unfenced, WithSection;
    WithSectionTidy(p, title, o);
    var (q, i) := WithSection(p, title, o);
    BodyIsQuiet(q, i);
    OwnerNames(o);
    NeutraliseSafe(text);
    PutQuiet(q.sections[i].body, OwnerText(o), Neutralise(text));
    SetBodyTidy(q, i, PutFenced(q.sections[i].body, OwnerText(o), Neutralise(text)));
  }

  lemma GrowSectionTidy(p: Page, title: string, o: Owner, addition: string)
    requires TidyPage(p) && OwnerOf(p.pageType, title) == Some(o) && Quiet(addition)
    ensures TidyPage(GrowSection(p, title, o, addition))
  {
    hide TidyPage, Quiet, GrowFenced, SharedBody, WithSection;
    WithSectionTidy(p, title, o);
    var (q, i) := WithSection(p, title, o);
    var body := q.sections[i].body;
    BodyIsQuiet(q, i);
    OwnerNames(o);
    if o == Append {
      GrowQuiet(body, OwnerText(o), addition);
      SetBodyTidy(q, i, GrowFenced(body, OwnerText(o), addition));
    } else {
      SharedBodyQuiet(body, addition, i == |q.sections| - 1);
      SetBodyTidy(q, i, SharedBody(body, addition, i == |q.sections| - 1));
    }
  }
}
