/** The page format (shared/wiki/parser.py): a page is split into verbatim
    slices - frontmatter block, preamble, and each H2 section's header line
    and body - and dumped by concatenating them again. */
module PageFormat {
  import opened Options
  import opened Text

  datatype Section = Section(title: string, header: string, body: string)

  datatype Page = Page(pageType: string, raw: string, preamble: string, sections: seq<Section>)

  /** What the frontmatter loader says of a raw block: the page type, or None
      when the block does not load, has no `type`, or fails its schema. */
  type Loader = string -> Option<string>

  // ---------------------------------------------------------------------
  // Section headers: `^##[ \t]+(.+?)[ \t]*\r?\n`, one line at a time
  // ---------------------------------------------------------------------

  predicate LineStart(t: string, i: nat) { i == 0 || (i <= |t| && t[i - 1] == NL) }

  /** A line at `i` that is a section header once a newline terminates it. */
  predicate HeaderLike(t: string, i: nat) {
    && i + 3 < |t| && LineStart(t, i)
    && t[i] == '#' && t[i + 1] == '#' && IsBlank(t[i + 2]) && t[i + 3] != NL
  }

  predicate HeaderAt(t: string, i: nat) {
    HeaderLike(t, i) && LineEnd(t, i) < |t|
  }

  /** First header at or after `i`; the length of the text when there is none. */
  function FirstHeader(t: string, i: nat): (j: nat)
    requires i <= |t|
    ensures i <= j <= |t|
    ensures j < |t| ==> HeaderAt(t, j)
    decreases |t| - i
  {
    if i == |t| || HeaderAt(t, i) then i else FirstHeader(t, i + 1)
  }

  lemma {:induction false} NoHeaderBefore(t: string, i: nat)
    requires i <= |t|
    ensures forall k | i <= k < FirstHeader(t, i) :: !HeaderAt(t, k)
    decreases |t| - i
  {
    if i < |t| && !HeaderAt(t, i) { NoHeaderBefore(t, i + 1); }
  }

  /** `[ \t]*\r?\n` to the end of the header, from `i`. */
  predicate TitleTail(h: string, i: nat)
    requires i < |h|
    decreases |h| - i
  {
    || i == |h| - 1
    || (h[i] == '\r' && i == |h| - 2)
    || (IsBlank(h[i]) && TitleTail(h, i + 1))
  }

  /** Where the lazy `(.+?)` stops: the first place the tail can match. */
  function TitleEnd(h: string, i: nat): (j: nat)
    requires i < |h|
    ensures i <= j < |h|
    decreases |h| - i
  {
    if TitleTail(h, i) then i else TitleEnd(h, i + 1)
  }

  /** Where the greedy `[ \t]+` stops; one blank is given back when the whole
      rest of the line is blank. */
  function TitleStart(h: string, i: nat): (j: nat)
    requires i < |h| - 1
    ensures i <= j < |h| - 1
    decreases |h| - i
  {
    if i == |h| - 2 || !IsBlank(h[i]) then i else TitleStart(h, i + 1)
  }

  /** The title captured from a header line, newline included. */
  function HeaderTitle(h: string): string
    requires |h| >= 5
  {
    var start := TitleStart(h, 3);
    h[start..TitleEnd(h, start + 1)]
  }

  // ---------------------------------------------------------------------
  // Sections: from one header to the next
  // ---------------------------------------------------------------------

  /** The sections from the header at `i` to the end of the text. */
  function SectionsFrom(t: string, i: nat): seq<Section>
    requires i <= |t| && (i < |t| ==> HeaderAt(t, i))
    decreases |t| - i
  {
    if i == |t| then [] else
      var e := LineEnd(t, i);
      var n := FirstHeader(t, e + 1);
      [Section(HeaderTitle(t[i..e + 1]), t[i..e + 1], t[e + 1..n])] + SectionsFrom(t, n)
  }

  function ParseRest(t: string): (string, seq<Section>) {
    var n := FirstHeader(t, 0);
    (t[..n], SectionsFrom(t, n))
  }

  // ---------------------------------------------------------------------
  // Frontmatter: `\A---\r?\n(.*?\r?\n)---\r?\n?`
  // ---------------------------------------------------------------------

  datatype Split = Split(raw: string, rest: string, openLF: bool, closeLF: bool)

  /** The closing delimiter's place: a line ends at `k` and `---` follows. */
  predicate ClosesBlock(u: string, k: nat) {
    1 <= k <= |u| && u[k - 1] == NL && HasAt(u, k, "---")
  }

  /** First `k >= i` such that the block ends its line at `k` and `---` follows. */
  function BlockEnd(u: string, i: nat): (k: nat)
    requires 1 <= i <= |u| + 1
    ensures i <= k <= |u| + 1
    ensures k <= |u| ==> ClosesBlock(u, k)
    ensures forall j | i <= j < k :: !ClosesBlock(u, j)
    decreases |u| + 1 - i
  {
    if i == |u| + 1 || ClosesBlock(u, i) then i else BlockEnd(u, i + 1)
  }

  /** The match, and whether both delimiter lines end in a bare newline. */
  function SplitFrontmatter(t: string): Option<Split> {
    var o := if HasAt(t, 0, "---\n") then 4 else if HasAt(t, 0, "---\r\n") then 5 else 0;
    if o == 0 then None else
      var u := t[o..];
      var k := BlockEnd(u, 1);
      if k > |u| then None else
        var a := k + 3;
        var b := if a < |u| && u[a] == '\r' then a + 1 else a;
        var c := if b < |u| && u[b] == NL then b + 1 else b;
        Some(Split(u[..k], u[c..], o == 4, b == a && c == b + 1))
  }

  datatype ParseResult = Parsed(page: Page) | BadPage

  function ParsePage(t: string, loader: Loader): ParseResult {
    match SplitFrontmatter(t)
    case None => BadPage
    case Some(s) =>
      match loader(s.raw)
      case None => BadPage
      case Some(pageType) =>
        var (preamble, sections) := ParseRest(s.rest);
        Parsed(Page(pageType, s.raw, preamble, sections))
  }

  // ---------------------------------------------------------------------
  // Dumping
  // ---------------------------------------------------------------------

  function DumpSections(ss: seq<Section>): string {
    if ss == [] then "" else ss[0].header + ss[0].body + DumpSections(ss[1..])
  }

  function DumpRest(p: Page): string { p.preamble + DumpSections(p.sections) }

  function DumpPage(p: Page): string { "---\n" + p.raw + "---\n" + DumpRest(p) }

  // ---------------------------------------------------------------------
  // Parse after dump: exactly the well-formed pages come back
  // ---------------------------------------------------------------------

  /** A header line together with its newline. */
  predicate HeaderLine(h: string) {
    HeaderLike(h, 0) && EndsNL(h) && LineEnd(h, 0) == |h| - 1
  }

  /** No line of `t` opens a section. */
  predicate HeaderFree(t: string) { forall i | 0 <= i < |t| :: !HeaderAt(t, i) }

  predicate GoodSection(s: Section) {
    HeaderLine(s.header) && s.title == HeaderTitle(s.header) && HeaderFree(s.body)
  }

  /** Each section is good, and every one but the last ends its last line. */
  predicate WellFormedSections(ss: seq<Section>) {
    ss != [] ==>
      GoodSection(ss[0]) && (|ss| > 1 ==> Closed(ss[0].body)) && WellFormedSections(ss[1..])
  }

  predicate WellFormedRest(p: Page) {
    && HeaderFree(p.preamble) && (p.sections != [] ==> Closed(p.preamble))
    && WellFormedSections(p.sections)
  }

  /** A raw block that ends its last line and holds no closing delimiter. */
  predicate GoodRaw(raw: string) {
    EndsNL(raw) && forall k | 1 <= k < |raw| :: !ClosesBlock(raw, k)
  }

  lemma {:induction false} FirstHeaderIs(t: string, i: nat, j: nat)
    requires i <= j <= |t| && (j < |t| ==> HeaderAt(t, j))
    requires forall k | i <= k < j :: !HeaderAt(t, k)
    ensures FirstHeader(t, i) == j
    decreases j - i
  {
    if i < j { FirstHeaderIs(t, i + 1, j); }
  }

  /** Being a header survives cutting a slice out at a line start... */
  lemma HeaderAtSlice(t: string, s: nat, j: nat, k: nat)
    requires s <= j <= |t| && LineStart(t, s) && k < j - s && HeaderAt(t[s..j], k)
    ensures HeaderAt(t, s + k)
  {
    LineEndClear(t[s..j], k);
    LineEndIs(t, s + k, s + LineEnd(t[s..j], k));
  }

  /** ...and taking one that runs to the end or ends its last line. */
  lemma HeaderAtInside(t: string, s: nat, n: nat, i: nat)
    requires s <= i < n <= |t| && HeaderAt(t, i) && (n < |t| ==> t[n - 1] == NL)
    ensures HeaderAt(t[s..n], i - s)
  {
    LineEndClear(t, i);
    LineEndIs(t[s..n], i - s, LineEnd(t, i) - s);
  }

  lemma BodyIsHeaderFree(t: string, s: nat, n: nat)
    requires s <= n <= |t| && LineStart(t, s) && n == FirstHeader(t, s)
    ensures HeaderFree(t[s..n]) && (n < |t| ==> Closed(t[s..n]))
  {
    NoHeaderBefore(t, s);
    forall k | 0 <= k < n - s ensures !HeaderAt(t[s..n], k) {
      if HeaderAt(t[s..n], k) { HeaderAtSlice(t, s, n, k); }
    }
  }

  /** After complete lines, a header-free slice runs to its own end. */
  lemma BodyEnds(t: string, s: nat, n: nat)
    requires s <= n <= |t| && HeaderFree(t[s..n])
    requires n < |t| ==> Closed(t[s..n]) && HeaderAt(t, n)
    ensures FirstHeader(t, s) == n
  {
    forall i | s <= i < n ensures !HeaderAt(t, i) {
      if HeaderAt(t, i) { HeaderAtInside(t, s, n, i); }
    }
    FirstHeaderIs(t, s, n);
  }

  lemma HeaderLineAt(a: string, h: string, rest: string)
    requires Closed(a) && HeaderLine(h)
    ensures HeaderAt(a + h + rest, |a|) && LineEnd(a + h + rest, |a|) == |a| + |h| - 1
  {
    var t := a + h + rest;
    LineEndClear(h, 0);
    assert forall k | 0 <= k < |h| :: t[|a| + k] == h[k];
    LineEndIs(t, |a|, |a| + |h| - 1);
  }

  /** The text around one section, whatever follows it. */
  lemma SectionSlices(a: string, s: Section, tail: string)
    requires |s.header| >= 1
    ensures var t := a + s.header + s.body + tail; var i, e, n := |a|, |a| + |s.header|, |a| + |s.header| + |s.body|;
            t[i..e] == s.header && t[e..n] == s.body && t == a + s.header + (s.body + tail)
  {}

  lemma SectionsFromEnd(t: string)
    ensures SectionsFrom(t, |t|) == []
  {}

  lemma SectionsFromCut(t: string, i: nat, e: nat, n: nat, s: Section)
    requires HeaderAt(t, i) && e == LineEnd(t, i) + 1 && n == FirstHeader(t, e)
    requires t[i..e] == s.header && t[e..n] == s.body && s.title == HeaderTitle(s.header)
    ensures SectionsFrom(t, i) == [s] + SectionsFrom(t, n)
  {}

  lemma ParseDumpStep(a: string, s: Section, tail: string)
    requires Closed(a) && GoodSection(s)
    requires var n := |a + s.header + s.body|;
             tail != "" ==> Closed(s.body) && HeaderAt(a + s.header + s.body + tail, n)
    ensures var t := a + s.header + s.body + tail;
            HeaderAt(t, |a|) && SectionsFrom(t, |a|) == [s] + SectionsFrom(t, |a + s.header + s.body|)
  {
    hide HeaderTitle, HeaderFree, SectionsFrom, HeaderAt;
    var t := a + s.header + s.body + tail;
    SectionSlices(a, s, tail);
    HeaderLineAt(a, s.header, s.body + tail);
    BodyEnds(t, |a + s.header|, |a + s.header + s.body|);
    SectionsFromCut(t, |a|, |a + s.header|, |a + s.header + s.body|, s);
  }

  lemma ClosedAfter(a: string, s: Section)
    requires GoodSection(s) && Closed(s.body)
    ensures Closed(a + s.header + s.body)
  {}

  lemma {:induction false} ParseDumpSections(a: string, ss: seq<Section>)
    requires Closed(a) && WellFormedSections(ss)
    ensures var t := a + DumpSections(ss);
            (|a| < |t| ==> HeaderAt(t, |a|)) && (ss != [] ==> |a| < |t|) && SectionsFrom(t, |a|) == ss
    decreases |ss|
  {
    hide GoodSection, HeaderAt, SectionsFrom;
    if ss == [] {
      assert a + "" == a;
      SectionsFromEnd(a);
    } else {
      var s, tail := ss[0], DumpSections(ss[1..]);
      assert a + DumpSections(ss) == a + s.header + s.body + tail;
      if |ss| > 1 {
        ClosedAfter(a, s);
        ParseDumpSections(a + s.header + s.body, ss[1..]);
      } else {
        SectionsFromEnd(a + s.header + s.body + tail);
      }
      assert ss == [s] + ss[1..];
      ParseDumpStep(a, s, tail);
    }
  }

  lemma ParseDumpRest(p: Page)
    requires WellFormedRest(p)
    ensures ParseRest(DumpRest(p)).0 == p.preamble && ParseRest(DumpRest(p)).1 == p.sections
  {
    var t := DumpRest(p);
    assert t[0..|p.preamble|] == p.preamble;
    if p.sections == [] {
      assert t == p.preamble;
    } else {
      ParseDumpSections(p.preamble, p.sections);
    }
    BodyEnds(t, 0, |p.preamble|);
  }

  lemma {:induction false} BlockEndIs(u: string, i: nat, k: nat)
    requires 1 <= i <= k && ClosesBlock(u, k)
    requires forall j | i <= j < k :: !ClosesBlock(u, j)
    ensures BlockEnd(u, i) == k
    decreases k - i
  {
    if i < k { BlockEndIs(u, i + 1, k); }
  }

  /** A delimiter before a newline at `n - 1` lies wholly before `n`. */
  lemma ClosesBlockPrefix(u: string, n: nat, j: nat)
    requires 1 <= n <= |u| && u[n - 1] == NL && j < n
    ensures ClosesBlock(u[..n], j) == ClosesBlock(u, j)
  {
    if ClosesBlock(u, j) {
      HasAtChar(u, j, "---", 0);
      HasAtChar(u, j, "---", 1);
      HasAtChar(u, j, "---", 2);
    }
    if j + 3 <= n { HasAtPrefix(u, u[..n], n, j, "---"); }
  }

  /** A good raw block is closed at its own end and nowhere earlier. */
  lemma RawBlockEnd(raw: string, rest: string)
    requires GoodRaw(raw)
    ensures BlockEnd(raw + "---" + rest, 1) == |raw|
  {
    var u := raw + "---" + rest;
    assert u[|raw|..|raw| + 3] == "---" && u[..|raw|] == raw;
    forall j | 1 <= j < |raw| ensures !ClosesBlock(u, j) {
      ClosesBlockPrefix(u, |raw|, j);
    }
    BlockEndIs(u, 1, |raw|);
  }

  lemma SplitDump(p: Page)
    requires GoodRaw(p.raw)
    ensures SplitFrontmatter(DumpPage(p)) == Some(Split(p.raw, DumpRest(p), true, true))
  {
    var t := DumpPage(p);
    assert t[0..4] == "---\n";
    var u := t[4..];
    var k := |p.raw|;
    assert u == p.raw + "---" + ("\n" + DumpRest(p));
    RawBlockEnd(p.raw, "\n" + DumpRest(p));
    assert u[k + 3] == NL;
    assert u[k + 4..] == DumpRest(p);
    assert u[..k] == p.raw;
  }

  /** A well-formed page is read back from its dump slice for slice. */
  lemma ParseAfterDump(p: Page, loader: Loader)
    requires WellFormedRest(p) && GoodRaw(p.raw) && loader(p.raw) == Some(p.pageType)
    ensures ParsePage(DumpPage(p), loader) == Parsed(p)
  {
    SplitDump(p);
    ParseDumpRest(p);
  }

  // ---------------------------------------------------------------------
  // Dump after parse: what parsing yields, and when it loses a byte
  // ---------------------------------------------------------------------

  lemma SectionAtIsGood(t: string, i: nat)
    requires HeaderAt(t, i)
    ensures var e := LineEnd(t, i); var n := FirstHeader(t, e + 1);
            && t[i..] == t[i..e + 1] + t[e + 1..n] + t[n..]
            && HeaderLine(t[i..e + 1]) && HeaderFree(t[e + 1..n]) && (n < |t| ==> Closed(t[e + 1..n]))
  {
    var e := LineEnd(t, i);
    LineEndClear(t, i);
    LineEndIs(t[i..e + 1], 0, e - i);
    BodyIsHeaderFree(t, e + 1, FirstHeader(t, e + 1));
  }

  lemma {:induction false} ParsedSectionsWellFormed(t: string, i: nat)
    requires i <= |t| && (i < |t| ==> HeaderAt(t, i))
    ensures DumpSections(SectionsFrom(t, i)) == t[i..]
    ensures WellFormedSections(SectionsFrom(t, i))
    decreases |t| - i
  {
    hide HeaderTitle, HeaderFree, HeaderLine;
    if i < |t| {
      SectionAtIsGood(t, i);
      ParsedSectionsWellFormed(t, FirstHeader(t, LineEnd(t, i) + 1));
    }
  }

  lemma ParsedRestWellFormed(t: string)
    ensures var (pre, ss) := ParseRest(t);
            pre + DumpSections(ss) == t
            && HeaderFree(pre) && (ss != [] ==> Closed(pre)) && WellFormedSections(ss)
  {
    var n := FirstHeader(t, 0);
    assert t[0..n] + t[n..] == t && t[..n] == t[0..n];
    BodyIsHeaderFree(t, 0, n);
    ParsedSectionsWellFormed(t, n);
  }

  /** Parsing the dump returns the page's slices for the well-formed pages
      and for no others: well-formedness is exactly what the format keeps. */
  lemma RoundTripIffWellFormed(p: Page)
    ensures (ParseRest(DumpRest(p)).0 == p.preamble && ParseRest(DumpRest(p)).1 == p.sections) <==> WellFormedRest(p)
  {
    ParsedRestWellFormed(DumpRest(p));
    if WellFormedRest(p) { ParseDumpRest(p); }
  }

  /** Every page the parser returns is well-formed, whatever the text. */
  lemma ParsedPageWellFormed(t: string, loader: Loader)
    requires ParsePage(t, loader).Parsed?
    ensures var p := ParsePage(t, loader).page;
            WellFormedRest(p) && GoodRaw(p.raw) && loader(p.raw) == Some(p.pageType)
  {
    var s := SplitFrontmatter(t).value;
    ParsedRestWellFormed(s.rest);
    SplitGoodRaw(t);
  }

  lemma BareDelimiters(t: string)
    requires SplitFrontmatter(t).Some?
    requires SplitFrontmatter(t).value.openLF && SplitFrontmatter(t).value.closeLF
    ensures t == "---\n" + SplitFrontmatter(t).value.raw + "---\n" + SplitFrontmatter(t).value.rest
  {
    assert t == t[0..4] + t[4..];
    var u := t[4..];
    var k := BlockEnd(u, 1);
    CloseDelimiter(u, k);
  }

  lemma CloseDelimiter(u: string, k: nat)
    requires ClosesBlock(u, k) && k + 3 < |u| && u[k + 3] == NL
    ensures u == u[..k] + "---\n" + u[k + 4..]
  {
    assert u[k..k + 4] == u[k..k + 3] + "\n";
    assert u == u[..k] + u[k..k + 4] + u[k + 4..];
  }

  /** The raw block the parser returns is closed nowhere before its end. */
  lemma SplitGoodRaw(t: string)
    requires SplitFrontmatter(t).Some?
    ensures GoodRaw(SplitFrontmatter(t).value.raw)
  {
    var u := t[if HasAt(t, 0, "---\n") then 4 else 5..];
    var k := BlockEnd(u, 1);
    forall j | 1 <= j < k ensures !ClosesBlock(u[..k], j) {
      ClosesBlockPrefix(u, k, j);
    }
  }

  /** `dump(parse(text)) == text` holds exactly when both frontmatter
      delimiter lines end in a bare newline; the documented "any input"
      is false for a CRLF delimiter or a closing `---` without a newline. */
  lemma DumpAfterParse(t: string, loader: Loader)
    requires ParsePage(t, loader).Parsed?
    ensures DumpPage(ParsePage(t, loader).page) == t
            <==> SplitFrontmatter(t).value.openLF && SplitFrontmatter(t).value.closeLF
  {
    var s := SplitFrontmatter(t).value;
    var p := ParsePage(t, loader).page;
    ParsedRestWellFormed(s.rest);
    SplitGoodRaw(t);
    if s.openLF && s.closeLF { BareDelimiters(t); }
    if DumpPage(p) == t { SplitDump(p); }
  }

  /** A CRLF page loses its carriage return: a byte outside every section. */
  lemma DumpAfterParseFailsOnCRLF(loader: Loader)
    requires loader("type: member\n") == Some("member")
    ensures ParsePage("---\r\ntype: member\n---\n", loader).Parsed?
    ensures DumpPage(ParsePage("---\r\ntype: member\n---\n", loader).page) != "---\r\ntype: member\n---\n"
  {
    var t := "---\r\ntype: member\n---\n";
    var raw := "type: member\n";
    assert t[0..5] == "---\r\n";
    assert t[0..4][3] == '\r';
    assert t[5..] == raw + "---" + "\n";
    RawBlockEnd(raw, "\n");
    assert t[5..][..13] == raw;
    DumpAfterParse(t, loader);
  }

  // ---------------------------------------------------------------------
  // The loops of the source, proved against the functions above
  // ---------------------------------------------------------------------

  /** The section at `i`, as sliced by the loop. */
  function SectionAt(t: string, i: nat): Section
    requires HeaderAt(t, i)
  {
    var e := LineEnd(t, i);
    Section(HeaderTitle(t[i..e + 1]), t[i..e + 1], t[e + 1..FirstHeader(t, e + 1)])
  }

  lemma SectionsFromStep(t: string, i: nat, done: seq<Section>)
    requires HeaderAt(t, i)
    ensures done + SectionsFrom(t, i) == done + [SectionAt(t, i)] + SectionsFrom(t, FirstHeader(t, LineEnd(t, i) + 1))
  {
    hide HeaderTitle, HeaderAt;
  }

  /** `_split`: slice the text at each header match in turn. */
  method SplitRest(rest: string) returns (preamble: string, sections: seq<Section>)
    ensures preamble == ParseRest(rest).0 && sections == ParseRest(rest).1
  {
    hide SectionsFrom, HeaderTitle, FirstHeader;
    var at := FirstHeader(rest, 0);
    preamble, sections := rest[..at], [];
    ghost var all := SectionsFrom(rest, at);
    while at < |rest|
      invariant at <= |rest| && (at < |rest| ==> HeaderAt(rest, at))
      invariant sections + SectionsFrom(rest, at) == all
      decreases |rest| - at
    {
      var e := LineEnd(rest, at);
      var bodyEnd := FirstHeader(rest, e + 1);
      var section := Section(HeaderTitle(rest[at..e + 1]), rest[at..e + 1], rest[e + 1..bodyEnd]);
      SectionsFromStep(rest, at, sections);
      sections := sections + [section];
      at := bodyEnd;
    }
    SectionsFromEnd(rest);
  }

  /** `dump_page`'s accumulating loop. */
  method DumpLoop(p: Page) returns (out: string)
    ensures out == DumpPage(p)
  {
    out := "---\n" + p.raw + "---\n" + p.preamble;
    for i := 0 to |p.sections|
      invariant out + DumpSections(p.sections[i..]) == DumpPage(p)
    {
      out := out + (p.sections[i].header + p.sections[i].body);
      assert p.sections[i..][1..] == p.sections[i + 1..];
    }
  }
}
