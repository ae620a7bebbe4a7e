/** Finding sections again after an edit: the edited one, every other one, and
    the order of them all. */
module Sections {
  import opened Options
  import opened Text
  import opened PageFormat
  import opened Schema
  import opened Neutral
  import opened Fence
  import opened Editor

  lemma {:induction false} IndexSkips(pageType: string, ss: seq<Section>, c: string, i: nat, k: nat)
    requires i <= |ss| && i <= k < SectionIndex(pageType, ss, c, i)
    ensures Canonical(pageType, ss[k].title) != c
    decreases k - i
  {
    hide Canonical;
    if i < k { IndexSkips(pageType, ss, c, i + 1, k); }
  }

  lemma {:induction false} IndexIs(pageType: string, ss: seq<Section>, c: string, i: nat, j: nat)
    requires i <= j <= |ss| && (j < |ss| ==> Canonical(pageType, ss[j].title) == c)
    requires forall k | i <= k < j :: Canonical(pageType, ss[k].title) != c
    ensures SectionIndex(pageType, ss, c, i) == j
    decreases j - i
  {
    hide Canonical;
    if i < j { IndexIs(pageType, ss, c, i + 1, j); }
  }

  /** Sections that differ at most by the final newline an insertion adds. */
  predicate SameButClosed(s: Section, t: Section) {
    t.title == s.title && t.header == s.header && (t.body == s.body || t.body == CloseLine(s.body))
  }

  /** The sections after inserting `s` at `at`, one by one. */
  lemma InsertedAt(p: Page, at: nat, s: Section, k: nat)
    requires at <= |p.sections| && k <= |p.sections|
    ensures var ss := InsertSection(p, at, s).sections;
            && |ss| == |p.sections| + 1
            && (k == at ==> ss[k] == s)
            && (k < at ==> SameButClosed(p.sections[k], ss[k]))
            && (k > at ==> ss[k] == p.sections[k - 1])
  {}

  lemma InsertedIndex(p: Page, at: nat, s: Section, c: string)
    requires at <= |p.sections|
    ensures var q := InsertSection(p, at, s); var j := SectionIndex(p.pageType, p.sections, c, 0);
            SectionIndex(p.pageType, q.sections, c, 0)
            == if j < at then j else if Canonical(p.pageType, s.title) == c then at else j + 1
  {
    hide Canonical, InsertSection, SectionIndex;
    var q := InsertSection(p, at, s);
    var j := SectionIndex(p.pageType, p.sections, c, 0);
    var to := if j < at then j else if Canonical(p.pageType, s.title) == c then at else j + 1;
    InsertedAt(p, at, s, 0);
    forall k | 0 <= k < to ensures Canonical(p.pageType, q.sections[k].title) != c {
      InsertedAt(p, at, s, k);
      if k < at { IndexSkips(p.pageType, p.sections, c, 0, k); }
      if k > at { IndexSkips(p.pageType, p.sections, c, 0, k - 1); }
    }
    if to < |q.sections| { InsertedAt(p, at, s, to); }
    IndexIs(p.pageType, q.sections, c, 0, to);
  }

  /** After `_with_section` the section is the first of its title, with the
      body it had or the schema's skeleton. */
  lemma WithSectionFinds(p: Page, title: string, o: Owner)
    requires OwnerOf(p.pageType, title) == Some(o)
    ensures var (q, i) := WithSection(p, title, o); var c := Canonical(p.pageType, title);
            && q.pageType == p.pageType && q.raw == p.raw
            && SectionIndex(p.pageType, q.sections, c, 0) == i
            && q.sections[i].body
               == match SectionOf(p, title)
                  case Some(s) => s.body
                  case None => SkeletonBody(o, "", false)
  {
    hide Canonical, InsertSection, SkeletonBody, OwnerOf;
    var c := Canonical(p.pageType, title);
    CanonicalIdempotent(p.pageType, title);
    var j := SectionIndex(p.pageType, p.sections, c, 0);
    if j == |p.sections| {
      var at := LaterIndex(p.pageType, p.sections, Rank(p.pageType, title), 0);
      InsertedIndex(p, at, FreshSection(c, o), c);
      InsertedAt(p, at, FreshSection(c, o), at);
      InsertKeepsRaw(p, at, FreshSection(c, o));
    }
  }

  lemma InsertKeepsRaw(p: Page, at: nat, s: Section)
    requires at <= |p.sections|
    ensures InsertSection(p, at, s).raw == p.raw && InsertSection(p, at, s).pageType == p.pageType
  {}

  lemma {:induction false} SetBodyIndex(p: Page, i: nat, body: string, c: string)
    requires i < |p.sections|
    ensures SectionIndex(p.pageType, SetBody(p, i, body).sections, c, 0) == SectionIndex(p.pageType, p.sections, c, 0)
  {
    hide Canonical, SectionIndex;
    var j := SectionIndex(p.pageType, p.sections, c, 0);
    var q := SetBody(p, i, body);
    forall k | 0 <= k < j ensures Canonical(p.pageType, q.sections[k].title) != c {
      IndexSkips(p.pageType, p.sections, c, 0, k);
    }
    IndexIs(p.pageType, q.sections, c, 0, j);
  }

  /** The page with the section's body replaced by `f` of it, in one step. */
  function Rewrite(p: Page, title: string, o: Owner, body: string): Page {
    var (q, i) := WithSection(p, title, o);
    SetBody(q, i, body)
  }

  function BodyOf(p: Page, title: string, o: Owner): string {
    var (q, i) := WithSection(p, title, o);
    q.sections[i].body
  }

  /** The rewritten section reads back as written. */
  lemma RewriteGets(p: Page, title: string, o: Owner, body: string)
    requires OwnerOf(p.pageType, title) == Some(o)
    ensures var r := Rewrite(p, title, o, body);
            r.pageType == p.pageType && r.raw == p.raw && SectionOf(r, title).Some?
                && SectionOf(r, title).value.body == body
  {
    hide Canonical, SectionIndex, WithSection;
    WithSectionFinds(p, title, o);
    var (q, i) := WithSection(p, title, o);
    SetBodyIndex(q, i, body, Canonical(p.pageType, title));
  }

  /** A second rewrite of the same section replaces the first. */
  lemma RewriteTwice(p: Page, title: string, o: Owner, b1: string, b2: string)
    requires OwnerOf(p.pageType, title) == Some(o)
    ensures var r := Rewrite(p, title, o, b1);
            Rewrite(r, title, o, b2) == Rewrite(p, title, o, b2) && BodyOf(r, title, o) == b1
            && WithSection(r, title, o).0 == r
  {
    hide Canonical, SectionIndex;
    RewriteGets(p, title, o, b1);
    var (q, i) := WithSection(p, title, o);
    WithSectionFinds(p, title, o);
    hide WithSection;
    var r := SetBody(q, i, b1);
    SetBodyIndex(q, i, b1, Canonical(p.pageType, title));
    WithSectionPresent(r, title, o, i);
    assert q.sections[i := q.sections[i].(body := b1)][i := q.sections[i].(body := b2)]
           == q.sections[i := q.sections[i].(body := b2)];
  }

  lemma WithSectionPresent(p: Page, title: string, o: Owner, i: nat)
    requires i < |p.sections| && SectionIndex(p.pageType, p.sections, Canonical(p.pageType, title), 0) == i
    ensures WithSection(p, title, o) == (p, i)
  {
    hide Canonical, SectionIndex;
  }

  // ---------------------------------------------------------------------
  // Every other section
  // ---------------------------------------------------------------------

  predicate SameSection(s: Option<Section>, t: Option<Section>) {
    match s
    case None => t.None?
    case Some(x) => t.Some? && SameButClosed(x, t.value)
  }

  lemma InsertOthers(p: Page, at: nat, s: Section, other: string)
    requires at <= |p.sections| && Canonical(p.pageType, s.title) != Canonical(p.pageType, other)
    ensures SameSection(SectionOf(p, other), SectionOf(InsertSection(p, at, s), other))
  {
    hide Canonical, InsertSection, SectionIndex, SameButClosed;
    var d := Canonical(p.pageType, other);
    var j := SectionIndex(p.pageType, p.sections, d, 0);
    InsertedIndex(p, at, s, d);
    InsertKeepsRaw(p, at, s);
    InsertedAt(p, at, s, if j < at then j else if j < |p.sections| then j + 1 else at);
    SameSelf();
  }

  lemma SameSelf()
    ensures forall s: Section {:trigger SameButClosed(s, s)} :: SameButClosed(s, s)
  {}

  lemma WithSectionOthers(p: Page, title: string, o: Owner, other: string)
    requires OwnerOf(p.pageType, title) == Some(o) && Canonical(p.pageType, other) != Canonical(p.pageType, title)
    ensures SameSection(SectionOf(p, other), SectionOf(WithSection(p, title, o).0, other))
  {
    hide Canonical, InsertSection, SkeletonBody, OwnerOf, SectionIndex, SectionOf, SameSection;
    var c := Canonical(p.pageType, title);
    CanonicalIdempotent(p.pageType, title);
    if SectionIndex(p.pageType, p.sections, c, 0) == |p.sections| {
      InsertOthers(p, LaterIndex(p.pageType, p.sections, Rank(p.pageType, title), 0), FreshSection(c, o), other);
    } else {
      SameAsItself(SectionOf(p, other));
    }
  }

  lemma SameAsItself(s: Option<Section>)
    ensures SameSection(s, s)
  {}

  /** An edit of one section leaves every other as it was, but for the newline
      that ends the body an inserted section follows. */
  lemma RewriteOthers(p: Page, title: string, o: Owner, body: string, other: string)
    requires OwnerOf(p.pageType, title) == Some(o) && Canonical(p.pageType, other) != Canonical(p.pageType, title)
    ensures SameSection(SectionOf(p, other), SectionOf(Rewrite(p, title, o, body), other))
  {
    hide Canonical, SectionIndex, WithSection, SameButClosed;
    WithSectionOthers(p, title, o, other);
    WithSectionFinds(p, title, o);
    var (q, i) := WithSection(p, title, o);
    SetBodyIndex(q, i, body, Canonical(p.pageType, other));
  }

  // ---------------------------------------------------------------------
  // Schema order
  // ---------------------------------------------------------------------

  predicate Known(pageType: string, s: Section) { Rank(pageType, s.title) < |SectionOwners(pageType)| }

  /** The sections the schema knows stand in schema order. */
  predicate SchemaOrdered(pageType: string, ss: seq<Section>) {
    forall i, j | 0 <= i < j < |ss| && Known(pageType, ss[i]) && Known(pageType, ss[j]) ::
      Rank(pageType, ss[i].title) <= Rank(pageType, ss[j].title)
  }

  lemma {:induction false} LaterSkips(pageType: string, ss: seq<Section>, r: nat, i: nat, k: nat)
    requires i <= |ss| && i <= k < LaterIndex(pageType, ss, r, i)
    ensures !(r < Rank(pageType, ss[k].title) < |SectionOwners(pageType)|)
    decreases k - i
  {
    hide Rank, SectionOwners;
    if i < k { LaterSkips(pageType, ss, r, i + 1, k); }
  }

  lemma {:induction false} LaterHit(pageType: string, ss: seq<Section>, r: nat, i: nat)
    requires i <= |ss|
    ensures var j := LaterIndex(pageType, ss, r, i);
            j < |ss| ==> r < Rank(pageType, ss[j].title) < |SectionOwners(pageType)|
    decreases |ss| - i
  {
    hide Rank, SectionOwners;
    if i < |ss| && !(r < Rank(pageType, ss[i].title) < |SectionOwners(pageType)|) { LaterHit(pageType, ss, r, i + 1); }
  }

  lemma RankOfCanonical(pageType: string, title: string)
    ensures Rank(pageType, Canonical(pageType, title)) == Rank(pageType, title)
  {
    CanonicalIdempotent(pageType, title);
  }

  /** A missing section goes in where the schema wants it. */
  lemma WithSectionOrdered(p: Page, title: string, o: Owner)
    requires SchemaOrdered(p.pageType, p.sections)
    ensures SchemaOrdered(p.pageType, WithSection(p, title, o).0.sections)
  {
    hide Rank, Canonical, SectionOwners, InsertSection, SkeletonBody, SectionIndex, LaterIndex;
    var (q, _) := WithSection(p, title, o);
    var c := Canonical(p.pageType, title);
    if SectionIndex(p.pageType, p.sections, c, 0) == |p.sections| {
      var r := Rank(p.pageType, title);
      var at := LaterIndex(p.pageType, p.sections, r, 0);
      RankOfCanonical(p.pageType, title);
      LaterHit(p.pageType, p.sections, r, 0);
      var s := FreshSection(c, o);
      InsertedAt(p, at, s, 0);
      forall i, j | 0 <= i < j < |q.sections| && Known(p.pageType, q.sections[i]) && Known(p.pageType, q.sections[j])
        ensures Rank(p.pageType, q.sections[i].title) <= Rank(p.pageType, q.sections[j].title)
      {
        InsertedAt(p, at, s, i);
        InsertedAt(p, at, s, j);
        if i < at { LaterSkips(p.pageType, p.sections, r, 0, i); }
      }
    }
  }

  /** The body a new section gets: the two markers of its owner, or a blank line. */
  function BlankBody(o: Owner): string {
    if o == Human || o == Shared then "\n"
    else "<!-- watcher:" + OwnerText(o) + " -->" + "\n" + ("<!-- /watcher -->" + "\n")
  }

  lemma BlankIsSkeleton(o: Owner)
    ensures SkeletonBody(o, "", false) == BlankBody(o)
  {
    var m := FenceOpen(OwnerText(o)) + "\n";
    assert m + "" + (FENCE_CLOSE + "\n") == m + (FENCE_CLOSE + "\n");
  }

  /** A missing section is added before the first that the schema puts after it, with
      its title, header and blank body; the others stay, but for the newline the
      one before may need. */
  lemma WithSectionAdds(p: Page, title: string, o: Owner) returns (at: nat)
    requires SectionOf(p, title).None?
    ensures var q, c, es := WithSection(p, title, o).0, Canonical(p.pageType, title), SectionOwners(p.pageType);
            && at <= |p.sections| && |q.sections| == |p.sections| + 1
            && q.sections[at] == Section(c, "## " + c + "\n", BlankBody(o))
            && (forall k: nat | k < at :: SameButClosed(p.sections[k], q.sections[k])
                  && !(Rank(p.pageType, title) < Rank(p.pageType, p.sections[k].title) < |es|))
            && (forall k: nat | at <= k < |p.sections| :: q.sections[k + 1] == p.sections[k])
            && (at < |p.sections| ==> Rank(p.pageType, title) < Rank(p.pageType, p.sections[at].title) < |es|)
  {
    hide Canonical, InsertSection, SkeletonBody, SectionOwners, Rank, BlankBody, SameButClosed;
    var c, r := Canonical(p.pageType, title), Rank(p.pageType, title);
    at := LaterIndex(p.pageType, p.sections, r, 0);
    var s := FreshSection(c, o);
    BlankIsSkeleton(o);
    InsertedAt(p, at, s, at);
    LaterHit(p.pageType, p.sections, r, 0);
    forall k: nat | k < at
      ensures SameButClosed(p.sections[k], InsertSection(p, at, s).sections[k])
              && !(r < Rank(p.pageType, p.sections[k].title) < |SectionOwners(p.pageType)|)
    {
      InsertedAt(p, at, s, k);
      LaterSkips(p.pageType, p.sections, r, 0, k);
    }
    forall k: nat | at <= k < |p.sections| ensures InsertSection(p, at, s).sections[k + 1] == p.sections[k] {
      InsertedAt(p, at, s, k + 1);
    }
  }

  lemma RewriteOrdered(p: Page, title: string, o: Owner, body: string)
    requires SchemaOrdered(p.pageType, p.sections) && OwnerOf(p.pageType, title) == Some(o)
    ensures SchemaOrdered(p.pageType, Rewrite(p, title, o, body).sections)
  {
    hide Rank, Canonical, SectionOwners, SectionIndex, WithSection;
    WithSectionOrdered(p, title, o);
    WithSectionFinds(p, title, o);
  }
}
