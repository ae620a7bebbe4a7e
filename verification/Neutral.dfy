/** `neutralise` (shared/wiki/editor.py): arbitrary text made safe to put
    inside a section body. */
module Neutral {
  import opened Text
  import opened PageFormat

  // ---------------------------------------------------------------------
  // Text that opens no section
  // ---------------------------------------------------------------------

  /** No line is a header, terminated or not: stronger than HeaderFree, and
      unlike it still true once a final newline is added. */
  predicate Quiet(t: string) { forall i | 0 <= i < |t| :: !HeaderLike(t, i) }

  /** `t` opens no section after its first line. */
  predicate QuietAfterFirst(t: string) { forall i | 0 < i < |t| :: !HeaderLike(t, i) }

  /** The last character cannot be the beginning of a header. */
  predicate Settled(t: string) {
    t == "" || (t[|t| - 1] != '#' && !IsBlank(t[|t| - 1]))
  }

  lemma QuietIsHeaderFree(t: string)
    requires Quiet(t)
    ensures HeaderFree(t)
  {}

  lemma HeaderLikeJoin(a: string, b: string, i: nat)
    requires Settled(a) && HeaderLike(a + b, i)
    ensures if i < |a| then HeaderLike(a, i) else HeaderLike(b, i - |a|) && (i == |a| ==> Closed(a))
  {
    var t := a + b;
    assert a != "" ==> t[|a| - 1] == a[|a| - 1];
  }

  /** Joining two texts opens no section, even in the middle of a line. */
  lemma QuietJoin(a: string, b: string)
    requires Quiet(a) && Settled(a) && QuietAfterFirst(b)
    requires Closed(a) ==> !HeaderLike(b, 0)
    ensures Quiet(a + b)
  {
    forall i | 0 <= i < |a + b| ensures !HeaderLike(a + b, i) {
      if HeaderLike(a + b, i) { HeaderLikeJoin(a, b, i); }
    }
  }

  lemma QuietPrefix(t: string, n: nat)
    requires n <= |t| && Quiet(t)
    ensures Quiet(t[..n])
  {
    forall i | 0 <= i < n ensures !HeaderLike(t[..n], i) {
      if HeaderLike(t[..n], i) { assert HeaderLike(t, i); }
    }
  }

  lemma QuietSuffix(t: string, n: nat)
    requires n <= |t| && Quiet(t)
    ensures QuietAfterFirst(t[n..])
    ensures LineStart(t, n) ==> Quiet(t[n..])
  {
    forall i | 0 <= i < |t| - n && (i > 0 || LineStart(t, n)) ensures !HeaderLike(t[n..], i) {
      if HeaderLike(t[n..], i) { assert HeaderLike(t, n + i); }
    }
  }

  // ---------------------------------------------------------------------
  // Headings: `^(\s{0,3})(#{1,6})(?=\s|$)`
  // ---------------------------------------------------------------------

  function SpaceRun(l: string, i: nat): (j: nat)
    requires i <= |l|
    ensures i <= j <= |l|
    ensures j < |l| ==> !IsSpace(l[j])
    ensures i < j ==> IsSpace(l[i])
    decreases |l| - i
  {
    if i == |l| || !IsSpace(l[i]) then i else SpaceRun(l, i + 1)
  }

  function HashRun(l: string, i: nat): (j: nat)
    requires i <= |l|
    ensures i <= j <= |l|
    ensures j < |l| ==> l[j] != '#'
    ensures i < j ==> l[i] == '#'
    decreases |l| - i
  {
    if i == |l| || l[i] != '#' then i else HashRun(l, i + 1)
  }

  predicate IsHeading(l: string) {
    var w := SpaceRun(l, 0);
    var h := HashRun(l, w);
    w <= 3 && 1 <= h - w <= 6 && (h == |l| || IsSpace(l[h]))
  }

  function EscapeHeading(l: string): string {
    if IsHeading(l) then l[..SpaceRun(l, 0)] + "\\" + l[SpaceRun(l, 0)..] else l
  }

  // ---------------------------------------------------------------------
  // Fence markers: `<!--(\s*/?watcher)`
  // ---------------------------------------------------------------------

  // `\s*/?watcher` at the start of `s`.
  predicate WatcherFirst(s: string) {
    || "watcher" <= s
    || "/watcher" <= s
    || (s != "" && IsSpace(s[0]) && WatcherFirst(s[1..]))
  }

  predicate MarkerFirst(s: string) { "<!--" <= s && WatcherFirst(s[4..]) }

  predicate MarkerFree(s: string) {
    s != "" ==> !MarkerFirst(s) && MarkerFree(s[1..])
  }

  /** Every marker's `<` becomes `&lt;`. The rest of a marker holds no `<`, so
      replacing left to right replaces them all. */
  function Defang(l: string): string {
    if l == "" then ""
    else if MarkerFirst(l) then "&lt;" + Defang(l[1..])
    else [l[0]] + Defang(l[1..])
  }

  function NeutraliseLine(l: string): string { Defang(EscapeHeading(l)) }

  function NeutraliseLines(ls: seq<string>): (r: seq<string>)
    ensures |r| == |ls|
  {
    if ls == [] then [] else [NeutraliseLine(ls[0])] + NeutraliseLines(ls[1..])
  }

  function Neutralise(t: string): string { Join("\n", NeutraliseLines(SplitNL(t))) }

  // ---------------------------------------------------------------------
  // Defanging leaves no marker
  // ---------------------------------------------------------------------

  predicate NoAmp(s: string) { forall i | 0 <= i < |s| :: s[i] != '&' }

  lemma NoAmpTail(c: char, s: string)
    requires NoAmp([c] + s)
    ensures NoAmp(s)
  {
    forall i | 0 <= i < |s| ensures s[i] != '&' { assert ([c] + s)[i + 1] == s[i]; }
  }

  /** Up to its first `&` the output is the input, character for character. */
  lemma {:induction false} DefangPlain(l: string, n: nat)
    requires n <= |Defang(l)| && NoAmp(Defang(l)[..n])
    ensures n <= |l| && l[..n] == Defang(l)[..n] && Defang(l)[n..] == Defang(l[n..])
    decreases n
  {
    if n > 0 {
      assert Defang(l)[..n][0] != '&';
      assert Defang(l)[1..] == Defang(l[1..]);
      assert Defang(l)[..n] == [l[0]] + Defang(l[1..])[..n - 1];
      NoAmpTail(l[0], Defang(l[1..])[..n - 1]);
      DefangPlain(l[1..], n - 1);
      assert l[1..][n - 1..] == l[n..];
    }
  }

  lemma DefangPrefix(l: string, pat: string)
    requires NoAmp(pat) && pat <= Defang(l)
    ensures pat <= l && Defang(l)[|pat|..] == Defang(l[|pat|..])
  {
    DefangPlain(l, |pat|);
  }

  lemma {:induction false} WatcherDefang(l: string)
    requires WatcherFirst(Defang(l))
    ensures WatcherFirst(l)
    decreases |l|
  {
    var d := Defang(l);
    if "watcher" <= d {
      DefangPrefix(l, "watcher");
    } else if "/watcher" <= d {
      DefangPrefix(l, "/watcher");
    } else {
      DefangPrefix(l, d[..1]);
      WatcherDefang(l[1..]);
    }
  }

  lemma {:induction false} DefangMarkerFree(l: string)
    ensures MarkerFree(Defang(l))
  {
    if l != "" {
      var d := Defang(l);
      DefangMarkerFree(l[1..]);
      if MarkerFirst(l) {
        EscapedMarkerFree(Defang(l[1..]));
      } else {
        if MarkerFirst(d) {
          DefangPrefix(l, "<!--");
          WatcherDefang(l[4..]);
        }
        assert d[1..] == Defang(l[1..]);
      }
    }
  }

  lemma MarkerFreeCons(c: char, s: string)
    requires MarkerFree(s) && c != '<'
    ensures MarkerFree([c] + s)
  {
    assert ([c] + s)[1..] == s;
    assert "<!--"[0] == '<';
  }

  lemma EscapedMarkerFree(s: string)
    requires MarkerFree(s)
    ensures MarkerFree("&lt;" + s)
  {
    MarkerFreeCons(';', s);
    MarkerFreeCons('t', [';'] + s);
    MarkerFreeCons('l', ['t'] + ([';'] + s));
    MarkerFreeCons('&', ['l'] + (['t'] + ([';'] + s)));
    assert "&lt;" + s == ['&'] + (['l'] + (['t'] + ([';'] + s)));
  }

  lemma {:induction false} DefangKeepsMarkerFree(l: string)
    requires MarkerFree(l)
    ensures Defang(l) == l
  {
    if l != "" { DefangKeepsMarkerFree(l[1..]); }
  }

  lemma {:induction false} DefangNoNewline(l: string)
    requires NoNewline(l)
    ensures NoNewline(Defang(l))
  {
    if l != "" { DefangNoNewline(l[1..]); }
  }

  // ---------------------------------------------------------------------
  // Escaping leaves no heading
  // ---------------------------------------------------------------------

  lemma {:induction false} SpaceRunIs(l: string, i: nat, j: nat)
    requires i <= j <= |l| && (j < |l| ==> !IsSpace(l[j]))
    requires forall k | i <= k < j :: IsSpace(l[k])
    ensures SpaceRun(l, i) == j
    decreases j - i
  {
    if i < j { SpaceRunIs(l, i + 1, j); }
  }

  lemma {:induction false} SpaceRunAll(l: string, i: nat)
    requires i <= |l|
    ensures forall k | i <= k < SpaceRun(l, i) :: IsSpace(l[k])
    decreases |l| - i
  {
    if i < |l| && IsSpace(l[i]) { SpaceRunAll(l, i + 1); }
  }

  lemma {:induction false} HashRunIs(l: string, i: nat, j: nat)
    requires i <= j <= |l| && (j < |l| ==> l[j] != '#')
    requires forall k | i <= k < j :: l[k] == '#'
    ensures HashRun(l, i) == j
    decreases j - i
  {
    if i < j { HashRunIs(l, i + 1, j); }
  }

  lemma {:induction false} HashRunAll(l: string, i: nat)
    requires i <= |l|
    ensures forall k | i <= k < HashRun(l, i) :: l[k] == '#'
    decreases |l| - i
  {
    if i < |l| && l[i] == '#' { HashRunAll(l, i + 1); }
  }

  lemma EscapeHeadingEscapes(l: string)
    ensures !IsHeading(EscapeHeading(l))
  {
    if IsHeading(l) {
      SpaceRunAll(l, 0);
      SpaceRunIs(EscapeHeading(l), 0, SpaceRun(l, 0));
    }
  }

  lemma EscapeHeadingNoNewline(l: string)
    requires NoNewline(l)
    ensures NoNewline(EscapeHeading(l))
  {}

  lemma SamePrefix(l: string, d: string, n: nat)
    requires n <= |l| && n <= |d| && l[..n] == d[..n]
    ensures forall k | 0 <= k < n :: l[k] == d[k]
  {
    forall k | 0 <= k < n ensures l[k] == d[k] { assert l[..n][k] == d[..n][k]; }
  }

  lemma DefangEmpty(l: string)
    ensures Defang(l) == "" ==> l == ""
  {}

  /** A heading the defanged line shows was already there. */
  lemma HeadingDefang(l: string)
    requires IsHeading(Defang(l))
    ensures IsHeading(l)
  {
    var d := Defang(l);
    var w := SpaceRun(d, 0);
    var h := HashRun(d, w);
    SpaceRunAll(d, 0);
    HashRunAll(d, w);
    var n := if h == |d| then h else h + 1;
    DefangPlain(l, n);
    hide Defang;
    SamePrefix(l, d, n);
    if h == |d| { DefangEmpty(l[n..]); }
    SpaceRunIs(l, 0, w);
    HashRunIs(l, w, h);
  }

  // ---------------------------------------------------------------------
  // Neutral lines and neutral text
  // ---------------------------------------------------------------------

  predicate NeutralLine(l: string) { NoNewline(l) && !IsHeading(l) && MarkerFree(l) }

  predicate NeutralLines(ls: seq<string>) {
    ls != [] ==> NeutralLine(ls[0]) && NeutralLines(ls[1..])
  }

  lemma NeutraliseLineIsNeutral(l: string)
    requires NoNewline(l)
    ensures NeutralLine(NeutraliseLine(l))
  {
    var e := EscapeHeading(l);
    EscapeHeadingEscapes(l);
    EscapeHeadingNoNewline(l);
    DefangMarkerFree(e);
    DefangNoNewline(e);
    if IsHeading(Defang(e)) { HeadingDefang(e); }
  }

  lemma NeutralLineKept(l: string)
    requires NeutralLine(l)
    ensures NeutraliseLine(l) == l
  {
    DefangKeepsMarkerFree(l);
  }

  lemma {:induction false} SplitNoNewline(t: string)
    ensures forall i | 0 <= i < |SplitNL(t)| :: NoNewline(SplitNL(t)[i])
    decreases |t|
  {
    LineEndClear(t, 0);
    if LineEnd(t, 0) < |t| { SplitNoNewline(t[LineEnd(t, 0) + 1..]); }
  }

  lemma {:induction false} NeutraliseLinesNeutral(ls: seq<string>)
    requires forall i | 0 <= i < |ls| :: NoNewline(ls[i])
    ensures NeutralLines(NeutraliseLines(ls))
  {
    if ls != [] {
      NeutraliseLineIsNeutral(ls[0]);
      NeutraliseLinesNeutral(ls[1..]);
    }
  }

  lemma {:induction false} NeutralLinesKept(ls: seq<string>)
    requires NeutralLines(ls)
    ensures NeutraliseLines(ls) == ls
    ensures forall i | 0 <= i < |ls| :: NoNewline(ls[i])
  {
    if ls != [] {
      NeutralLineKept(ls[0]);
      NeutralLinesKept(ls[1..]);
      assert ls == [ls[0]] + ls[1..];
    }
  }

  lemma NeutraliseSplit(t: string)
    ensures NeutralLines(SplitNL(Neutralise(t)))
    ensures SplitNL(Neutralise(t)) == NeutraliseLines(SplitNL(t))
  {
    var ls := NeutraliseLines(SplitNL(t));
    SplitNoNewline(t);
    NeutraliseLinesNeutral(SplitNL(t));
    NeutralLinesKept(ls);
    SplitJoin(ls);
  }

  /** Neutralising changes exactly the texts that hold a heading or a marker. */
  lemma NeutraliseKeepsIffNeutral(t: string)
    ensures Neutralise(t) == t <==> NeutralLines(SplitNL(t))
  {
    NeutraliseSplit(t);
    if NeutralLines(SplitNL(t)) {
      NeutralLinesKept(SplitNL(t));
      JoinSplit(t);
    }
  }

  lemma NeutraliseIdempotent(t: string)
    ensures Neutralise(Neutralise(t)) == Neutralise(t)
  {
    NeutraliseSplit(t);
    NeutraliseKeepsIffNeutral(Neutralise(t));
  }

  // ---------------------------------------------------------------------
  // What neutral text shows
  // ---------------------------------------------------------------------

  /** The text with every `&lt;` read as the `<` it stands for. */
  function Unescaped(s: string): string {
    if "&lt;" <= s then "<" + Unescaped(s[4..])
    else if s == "" then ""
    else [s[0]] + Unescaped(s[1..])
  }

  /** Up to three blanks, then one to six `#` before a blank or the end. */
  predicate Heads(l: string, w: nat, h: nat) {
    && w <= 3 && w < h <= w + 6 && h <= |l| && (h == |l| || IsSpace(l[h]))
    && (forall k | 0 <= k < w :: IsSpace(l[k])) && (forall k | w <= k < h :: l[k] == '#')
  }

  lemma HeadsIs(l: string, w: nat, h: nat)
    requires Heads(l, w, h)
    ensures IsHeading(l) && SpaceRun(l, 0) == w && HashRun(l, w) == h
  {
    SpaceRunIs(l, 0, w);
    HashRunIs(l, w, h);
  }

  lemma {:induction false} UnescapedDefang(l: string)
    ensures Unescaped(Defang(l)) == Unescaped(l)
    decreases |l|
  {
    hide MarkerFirst;
    var d := Defang(l);
    if "&lt;" <= l {
      AmpKept(l);
      UnescapedDefang(l[4..]);
    } else if l != "" {
      UnescapedDefang(l[1..]);
      if MarkerFirst(l) {
        MarkerHead(l);
        assert d[4..] == Defang(l[1..]);
      } else {
        assert d == [l[0]] + Defang(l[1..]);
        if "&lt;" <= d { AmpFrom(l); }
        assert d[1..] == Defang(l[1..]);
      }
    }
  }

  lemma MarkerHead(l: string)
    requires MarkerFirst(l)
    ensures l != "" && l[0] == '<'
  {
    assert "<!--"[0] == '<';
  }

  lemma DefangStep(l: string)
    requires l != "" && !MarkerFirst(l)
    ensures Defang(l) == [l[0]] + Defang(l[1..])
  {}

  lemma AmpKept(l: string)
    requires "&lt;" <= l
    ensures "&lt;" <= Defang(l) && Defang(l)[4..] == Defang(l[4..])
  {
    hide WatcherFirst;
    assert l == ['&', 'l', 't', ';'] + l[4..];
    assert l[1..][1..] == l[2..] && l[2..][1..] == l[3..] && l[3..][1..] == l[4..];
    assert "<!--"[0] == '<' && !MarkerFirst(l) && !MarkerFirst(l[1..]) && !MarkerFirst(l[2..]) && !MarkerFirst(l[3..]);
    DefangStep(l);
    DefangStep(l[1..]);
    DefangStep(l[2..]);
    DefangStep(l[3..]);
    hide Defang;
    assert Defang(l) == "&" + ("l" + ("t" + (";" + Defang(l[4..]))));
  }

  lemma AmpFrom(l: string)
    requires l != "" && !MarkerFirst(l) && "&lt;" <= Defang(l)
    ensures "&lt;" <= l
  {
    assert Defang(l)[1..] == Defang(l[1..]);
    assert "lt;" == "&lt;"[1..] && "lt;" <= Defang(l[1..]);
    DefangPrefix(l[1..], "lt;");
    assert l == [l[0]] + l[1..];
  }

  /** A neutralised line reads as the line given: but for a backslash put before
      the `#` of a heading, and `&lt;` for the `<` of a marker. */
  lemma NeutralLineShows(l: string)
    ensures !IsHeading(l) ==> Unescaped(NeutraliseLine(l)) == Unescaped(l)
    ensures forall w: nat, h: nat | Heads(l, w, h) :: Unescaped(NeutraliseLine(l)) == Unescaped(l[..w] + "\\" + l[w..])
    ensures IsHeading(l) <==> exists w: nat, h: nat :: Heads(l, w, h)
  {
    hide Defang, Unescaped;
    UnescapedDefang(EscapeHeading(l));
    forall w: nat, h: nat | Heads(l, w, h) ensures IsHeading(l) && SpaceRun(l, 0) == w { HeadsIs(l, w, h); }
    if IsHeading(l) {
      SpaceRunAll(l, 0);
      HashRunAll(l, SpaceRun(l, 0));
      assert Heads(l, SpaceRun(l, 0), HashRun(l, SpaceRun(l, 0)));
    }
  }

  // ---------------------------------------------------------------------
  // Neutral text inside a page
  // ---------------------------------------------------------------------

  /** No place in `t` reads as an opening or closing fence marker. */
  predicate Unfenced(t: string) {
    t != "" ==> !("<!-- watcher" <= t) && !("<!-- /watcher" <= t) && Unfenced(t[1..])
  }

  lemma MarkerStrings(s: string)
    requires "<!-- watcher" <= s || "<!-- /watcher" <= s
    ensures MarkerFirst(s)
  {
    assert s[4..][1..] == s[5..];
    if "<!-- watcher" <= s {
      assert "watcher" == "<!-- watcher"[5..];
      assert "watcher" <= s[5..];
    } else {
      assert "/watcher" == "<!-- /watcher"[5..];
      assert "/watcher" <= s[5..];
    }
  }

  lemma NotUnfencedFirst(l: string, rest: string)
    requires "<!-- watcher" <= l + "\n" + rest || "<!-- /watcher" <= l + "\n" + rest
    ensures MarkerFirst(l)
  {
    hide MarkerFirst;
    if "<!-- watcher" <= l + "\n" + rest { InLine(l, rest, "<!-- watcher"); } else { InLine(l, rest, "<!-- /watcher"); }
    MarkerStrings(l);
  }

  lemma {:induction false} MarkerFreeUnfenced(l: string, rest: string)
    requires MarkerFree(l) && Unfenced(rest)
    ensures Unfenced(l + "\n" + rest)
    decreases |l|
  {
    hide MarkerFirst;
    var t := l + "\n" + rest;
    if l == "" {
      assert t[1..] == rest && t[0] == NL;
    } else {
      assert t[1..] == l[1..] + "\n" + rest;
      MarkerFreeUnfenced(l[1..], rest);
      if "<!-- watcher" <= t || "<!-- /watcher" <= t { NotUnfencedFirst(l, rest); }
    }
  }

  lemma {:induction false} MarkerFreeUnfencedLast(l: string)
    requires MarkerFree(l)
    ensures Unfenced(l)
  {
    hide MarkerFirst;
    if l != "" {
      MarkerFreeUnfencedLast(l[1..]);
      if "<!-- watcher" <= l || "<!-- /watcher" <= l { MarkerStrings(l); }
    }
  }

  /** A newline-free pattern that starts on a line stays on it. */
  lemma InLine(l: string, rest: string, pat: string)
    requires NoNewline(pat) && pat <= l + "\n" + rest
    ensures pat <= l
  {
    var t := l + "\n" + rest;
    assert t[|l|] == NL && t[..|l|] == l;
  }

  lemma {:induction false} NeutralJoin(ls: seq<string>)
    requires ls != [] && NeutralLines(ls)
    ensures Quiet(Join("\n", ls)) && Unfenced(Join("\n", ls))
  {
    QuietLine(ls[0]);
    if |ls| == 1 {
      MarkerFreeUnfencedLast(ls[0]);
    } else {
      NeutralJoin(ls[1..]);
      MarkerFreeUnfenced(ls[0], Join("\n", ls[1..]));
      QuietJoin(ls[0] + "\n", Join("\n", ls[1..]));
    }
  }

  lemma QuietLine(l: string)
    requires NeutralLine(l)
    ensures Quiet(l) && Quiet(l + "\n")
  {
    if HeaderLike(l, 0) || HeaderLike(l + "\n", 0) {
      SpaceRunIs(l, 0, 0);
      HashRunIs(l, 0, 2);
    }
  }

  /** Whatever the text, its neutral form opens no section and neither opens
      nor closes a fence. */
  lemma NeutraliseSafe(t: string)
    ensures Quiet(Neutralise(t)) && Unfenced(Neutralise(t))
  {
    NeutraliseSplit(t);
    NeutralJoin(NeutraliseLines(SplitNL(t)));
  }

  // ---------------------------------------------------------------------
  // The loop of the source
  // ---------------------------------------------------------------------

  lemma NeutraliseLinesStep(ls: seq<string>, i: nat)
    requires i < |ls|
    ensures NeutraliseLines(ls[i..]) == [Defang(EscapeHeading(ls[i]))] + NeutraliseLines(ls[i + 1..])
  {
    assert ls[i..][1..] == ls[i + 1..];
  }

  method NeutraliseLoop(text: string) returns (r: string)
    ensures r == Neutralise(text)
  {
    hide NeutraliseLine, EscapeHeading, Defang, SplitNL, Join;
    var parts := SplitNL(text);
    var lines := [];
    assert parts[0..] == parts;
    for i := 0 to |parts|
      invariant lines + NeutraliseLines(parts[i..]) == NeutraliseLines(parts)
    {
      var line := EscapeHeading(parts[i]);
      lines := lines + [Defang(line)];
      NeutraliseLinesStep(parts, i);
    }
    assert parts[|parts|..] == [] && NeutraliseLines([]) == [];
    assert lines + [] == lines;
    r := Join("\n", lines);
  }
}
