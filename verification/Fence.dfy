/** Fences (shared/wiki/editor.py): the one region of a section body that
    agent code rewrites, found by its opening and closing markers. */
module Fence {
  import opened Text
  import opened PageFormat
  import opened Neutral

  const FENCE_CLOSE := "<!-- /watcher -->"

  function FenceOpen(owner: string): string { "<!-- watcher:" + owner + " -->" }

  predicate OwnerName(w: string) { w != "" && forall i | 0 <= i < |w| :: IsWord(w[i]) }

  // ---------------------------------------------------------------------
  // Finding the markers
  // ---------------------------------------------------------------------

  function WordRun(s: string, i: nat): (j: nat)
    requires i <= |s|
    ensures i <= j <= |s|
    decreases |s| - i
  {
    if i == |s| || !IsWord(s[i]) then i else WordRun(s, i + 1)
  }

  // Length of `<!-- watcher:(\w+) -->` at the start of `s`; 0 for no match.
  function CoreLen(s: string): (n: nat)
    ensures n <= |s|
  {
    if !("<!-- watcher:" <= s) then 0 else
      var r := WordRun(s, 13);
      if r == 13 || !(" -->" <= s[r..]) then 0 else r + 4
  }

  /** The same with the optional newline. */
  function OpenLen(s: string): (n: nat)
    ensures n <= |s|
  {
    var n := CoreLen(s);
    if n > 0 && n < |s| && s[n] == NL then n + 1 else n
  }

  /** Where the first opening marker starts; the length of `t` for none. */
  function FindOpen(t: string): (o: nat)
    ensures o <= |t|
  {
    if t == "" || CoreLen(t) > 0 then 0 else 1 + FindOpen(t[1..])
  }

  predicate AtClose(s: string) { FENCE_CLOSE <= s }

  /** Where the first closing marker starts; the length of `t` for none. */
  function FindClose(t: string): (c: nat)
    ensures c <= |t|
  {
    if t == "" || AtClose(t) then 0 else 1 + FindClose(t[1..])
  }

  predicate NoClose(t: string) { FindClose(t) == |t| }

  /** No opening marker; an opening marker that nothing closes; or a region
      `[from, to)` between the first opening marker and the next closing one. */
  datatype FenceState = NoFence | Orphan(from: nat) | Complete(from: nat, to: nat)

  function FenceOf(body: string): (f: FenceState)
    ensures f.Complete? ==> f.from <= f.to < |body|
    ensures f.Orphan? ==> f.from <= |body|
  {
    var o := FindOpen(body);
    if o == |body| then NoFence else
      var e := o + OpenLen(body[o..]);
      var c := e + FindClose(body[e..]);
      if c == |body| then Orphan(e) else Complete(e, c)
  }

  /** The text a missing fence is added after. */
  function BeforeFresh(body: string): string { if Closed(body) then body else body + "\n" }

  /** `_split_fence`: before, inside and after the fence. */
  function SplitFence(body: string, owner: string): (string, string, string) {
    match FenceOf(body)
    case Complete(e, c) => (body[..e], body[e..c], body[c..])
    case _ => (BeforeFresh(body) + FenceOpen(owner) + "\n", "", FENCE_CLOSE + "\n")
  }

  /** `_inner`. */
  function Inner(text: string): string {
    var s := StripNL(text);
    if s == "" then "" else s + "\n"
  }

  /** What `fenced_content` returns for a section body. */
  function FencedText(body: string): string {
    match FenceOf(body)
    case NoFence => ""
    case Orphan(e) => StripNL(body[e..])
    case Complete(e, c) => StripNL(body[e..c])
  }

  /** The body with `text` put inside its fence. */
  function PutFenced(body: string, owner: string, text: string): string {
    var (before, _, after) := SplitFence(body, owner);
    before + Inner(text) + after
  }

  // ---------------------------------------------------------------------
  // The shape of a marker
  // ---------------------------------------------------------------------

  lemma {:induction false} WordRunAll(s: string, i: nat)
    requires i <= |s|
    ensures forall k | i <= k < WordRun(s, i) :: IsWord(s[k])
    decreases |s| - i
  {
    if i < |s| && IsWord(s[i]) { WordRunAll(s, i + 1); }
  }

  lemma {:induction false} WordRunIs(s: string, i: nat, j: nat)
    requires i <= j <= |s| && (j < |s| ==> !IsWord(s[j]))
    requires forall k | i <= k < j :: IsWord(s[k])
    ensures WordRun(s, i) == j
    decreases j - i
  {
    if i < j { WordRunIs(s, i + 1, j); }
  }

  /** A marker holds no newline, and no `<` but its first character. */
  lemma CoreShape(s: string)
    requires CoreLen(s) > 0
    ensures s[0] == '<' && CoreLen(s) >= 18
    ensures forall k | 0 < k < CoreLen(s) :: s[k] != '<' && s[k] != NL
    ensures s[CoreLen(s) - 1] == '>'
  {
    WordRunAll(s, 13);
    var r := WordRun(s, 13);
    assert forall k | 0 <= k < 13 :: s[k] == "<!-- watcher:"[k];
    assert forall k | 0 <= k < 4 :: s[r..][k] == " -->"[k] && s[r..][k] == s[r + k];
    forall k | 0 < k < r + 4 ensures s[k] != '<' && s[k] != NL {
      if k >= r { assert s[k] == s[r..][k - r]; }
    }
    assert s[r + 3] == s[r..][3];
  }

  /** A marker that fits in a common prefix is in both texts. */
  lemma CorePrefix(s: string, u: string, n: nat)
    requires n <= |s| && n <= |u| && s[..n] == u[..n]
    requires 0 < CoreLen(s) <= n
    ensures CoreLen(u) == CoreLen(s)
  {
    var r := WordRun(s, 13);
    WordRunAll(s, 13);
    assert forall k | 0 <= k < n :: s[k] == u[k] by {
      forall k | 0 <= k < n ensures s[k] == u[k] { assert s[..n][k] == u[..n][k]; }
    }
    assert s[r..][0] == ' ' == u[r];
    WordRunIs(u, 13, r);
    assert forall k | 0 <= k < 4 :: s[r..][k] == s[r + k] && u[r..][k] == u[r + k];
  }

  lemma CoreOf(owner: string, rest: string)
    requires OwnerName(owner)
    ensures CoreLen(FenceOpen(owner) + rest) == |FenceOpen(owner)| > 0
  {
    var s := FenceOpen(owner) + rest;
    var r := 13 + |owner|;
    assert forall k | 13 <= k < r :: s[k] == owner[k - 13];
    WordRunIs(s, 13, r);
    assert s[r..] == " -->" + rest;
  }

  lemma AtCloseFirst(s: string)
    requires AtClose(s)
    ensures s != "" && s[0] == '<'
  {
    assert FENCE_CLOSE[0] == '<';
  }

  lemma {:induction false} FindOpenHit(t: string)
    ensures FindOpen(t) < |t| ==> CoreLen(t[FindOpen(t)..]) > 0
  {
    hide CoreLen;
    if t != "" && CoreLen(t) == 0 {
      FindOpenHit(t[1..]);
      assert t[1..][FindOpen(t[1..])..] == t[FindOpen(t)..];
    } else {
      assert t[0..] == t;
    }
  }

  lemma {:induction false} FindCloseHit(t: string)
    ensures FindClose(t) < |t| ==> AtClose(t[FindClose(t)..])
  {
    hide AtClose;
    if t != "" && !AtClose(t) {
      FindCloseHit(t[1..]);
      assert t[1..][FindClose(t[1..])..] == t[FindClose(t)..];
    } else {
      assert t[0..] == t;
    }
  }

  // ---------------------------------------------------------------------
  // Searching in joined texts
  // ---------------------------------------------------------------------

  lemma NoCoreAcross(a: string, s: string)
    requires a != "" && CoreLen(a) == 0
    requires s != "" && (s[0] == '<' || s[0] == NL)
    ensures CoreLen(a + s) == 0
  {
    var t := a + s;
    if CoreLen(t) > 0 {
      CoreShape(t);
      assert t[|a|] == s[0];
      assert CoreLen(t) <= |a|;
      assert t[..|a|] == a[..|a|];
      CorePrefix(t, a, |a|);
    }
  }

  /** A marker after text without one is found where it stands. */
  lemma {:induction false} FindOpenAfter(a: string, s: string)
    requires FindOpen(a) == |a| && CoreLen(s) > 0
    ensures FindOpen(a + s) == |a|
  {
    hide CoreLen;
    if a == "" {
      assert a + s == s;
    } else {
      CoreShape(s);
      NoCoreAcross(a, s);
      FindOpenAfter(a[1..], s);
      assert (a + s)[1..] == a[1..] + s;
    }
  }

  lemma {:induction false} FindOpenNewline(a: string)
    requires FindOpen(a) == |a|
    ensures FindOpen(a + "\n") == |a| + 1
  {
    if a == "" {
      assert (a + "\n")[1..] == "";
    } else {
      NoCoreAcross(a, "\n");
      FindOpenNewline(a[1..]);
      assert (a + "\n")[1..] == a[1..] + "\n";
    }
  }

  /** The first marker of `u` is the first of any text that shares it. */
  lemma {:induction false} FindOpenShared(u: string, v: string)
    requires FindOpen(u) < |u|
    requires var e := FindOpen(u) + CoreLen(u[FindOpen(u)..]); e <= |v| && u[..e] == v[..e]
    ensures FindOpen(v) == FindOpen(u)
    ensures CoreLen(v[FindOpen(v)..]) == CoreLen(u[FindOpen(u)..])
  {
    hide CoreLen;
    FindOpenHit(u);
    var o := FindOpen(u);
    var e := o + CoreLen(u[o..]);
    if o == 0 {
      assert u[o..] == u && v[o..] == v;
      CorePrefix(u, v, e);
    } else {
      NotEarlier(u, v, o, e);
      assert u[1..][o - 1..] == u[o..] && v[1..][o - 1..] == v[o..];
      assert u[1..][..e - 1] == u[..e][1..] && v[1..][..e - 1] == v[..e][1..];
      FindOpenShared(u[1..], v[1..]);
    }
  }

  /** No match at 0 in `u` means none in `v`: it would end before the `<` at `o`. */
  lemma NotEarlier(u: string, v: string, o: nat, e: nat)
    requires 0 < o < e <= |u| && e <= |v| && u[..e] == v[..e] && u[o..] != "" && CoreLen(u[o..]) > 0
    requires CoreLen(u) == 0
    ensures CoreLen(v) == 0
  {
    CoreShape(u[o..]);
    assert v[o] == v[..e][o] == u[..e][o] == u[o..][0];
    if CoreLen(v) > 0 {
      CoreShape(v);
      assert v[..o] == v[..e][..o] && u[..o] == u[..e][..o];
      CorePrefix(v, u, o);
    }
  }

  /** The first closing marker after complete lines that hold none. */
  lemma {:induction false} FindCloseAfter(x: string, s: string)
    requires FindClose(x) == |x| && Closed(x) && AtClose(s)
    ensures FindClose(x + s) == |x|
  {
    hide AtClose;
    if x == "" {
      assert x + s == s;
      AtCloseFirst(s);
    } else {
      assert (x + s)[1..] == x[1..] + s;
      FindCloseAfter(x[1..], s);
      if AtClose(x + s) { CloseStays(x, s); }
    }
  }

  lemma CloseStays(x: string, s: string)
    requires EndsNL(x) && AtClose(x + s)
    ensures AtClose(x)
  {
    var t := x + s;
    assert t[|x| - 1] == NL;
    assert forall k | 0 <= k < 17 :: t[k] == FENCE_CLOSE[k] != NL;
    assert forall k | 0 <= k < 17 :: x[k] == t[k];
  }

  lemma {:induction false} UnfencedHasNoClose(x: string)
    requires Unfenced(x)
    ensures FindClose(x) == |x|
  {
    if x != "" {
      UnfencedHasNoClose(x[1..]);
      assert forall k | 0 <= k < 13 :: FENCE_CLOSE[k] == "<!-- /watcher"[k];
    }
  }

  lemma {:induction false} NoCloseConcat(a: string, b: string)
    requires FindClose(a) == |a| && FindClose(b) == |b| && Closed(a)
    ensures FindClose(a + b) == |a + b|
  {
    hide AtClose;
    if a == "" {
      assert a + b == b;
    } else {
      assert (a + b)[1..] == a[1..] + b;
      NoCloseConcat(a[1..], b);
      if AtClose(a + b) { CloseStays(a, b); }
    }
  }

  lemma {:induction false} NoCloseNewline(x: string)
    requires FindClose(x) == |x|
    ensures FindClose(x + "\n") == |x| + 1
  {
    if x == "" {
      assert (x + "\n")[1..] == "";
    } else {
      assert (x + "\n")[1..] == x[1..] + "\n";
      NoCloseNewline(x[1..]);
      assert x + "\n" + "" == x + "\n";
      if AtClose(x + "\n") { InLine(x, "", FENCE_CLOSE); }
    }
  }

  // ---------------------------------------------------------------------
  // Writing into the fence and looking again
  // ---------------------------------------------------------------------

  /** Text the editor may put between the markers. */
  predicate Fits(x: string) { Closed(x) && NoClose(x) && (x != "" ==> x[0] != NL) }

  /** The region's start is where it was: the text before it is shared, and
      what follows does not turn into the marker's newline. */
  lemma RefindOpen(body: string, t: string, e: nat)
    requires FindOpen(body) < |body| && e == FindOpen(body) + OpenLen(body[FindOpen(body)..])
    requires e < |t| && t[..e] == body[..e] && t[e] != NL
    ensures FindOpen(t) == FindOpen(body) && OpenLen(t[FindOpen(t)..]) == e - FindOpen(body)
  {
    hide CoreLen, FindOpen;
    FindOpenHit(body);
    var o := FindOpen(body);
    var m := o + CoreLen(body[o..]);
    assert t[..m] == t[..e][..m] && body[..m] == body[..e][..m];
    FindOpenShared(body, t);
    assert e > m ==> t[m] == t[..e][m] == body[..e][m];
  }

  lemma FenceOfIs(t: string, e: nat, c: nat)
    requires FindOpen(t) < |t| && e == FindOpen(t) + OpenLen(t[FindOpen(t)..])
    requires e <= c < |t| && FindClose(t[e..]) == c - e
    ensures FenceOf(t) == Complete(e, c)
  {
    hide FindOpen, FindClose, OpenLen;
    assert t[FindOpen(t) + OpenLen(t[FindOpen(t)..])..] == t[e..];
  }

  lemma RefindComplete(body: string, x: string)
    requires FenceOf(body).Complete? && Fits(x)
    ensures var Complete(e, c) := FenceOf(body);
            FenceOf(body[..e] + x + body[c..]) == Complete(e, e + |x|)
  {
    hide OpenLen, FindOpen, FindClose, Unfenced;
    var Complete(e, c) := FenceOf(body);
    var before, after := body[..e], body[c..];
    var t := before + x + after;
    CloseStarts(body, e, c);
    AtCloseFirst(after);
    Slices(before, x, after);
    hide FenceOf, AtClose;
    assert t[e] == (x + after)[0];
    FindCloseAfter(x, after);
    RefindOpen(body, t, e);
    FenceOfIs(t, e, e + |x|);
  }

  lemma DropDrop(t: string, e: nat, c: nat)
    requires e <= c <= |t|
    ensures t[e..][c - e..] == t[c..]
  {}

  lemma CloseAt(body: string, e: nat, c: nat)
    requires e <= c < |body| && FindClose(body[e..]) == c - e
    ensures AtClose(body[c..])
  {
    hide FindClose, AtClose;
    FindCloseHit(body[e..]);
    DropDrop(body, e, c);
  }

  lemma FenceParts(body: string)
    requires FenceOf(body).Complete?
    ensures var Complete(e, c) := FenceOf(body);
            && FindOpen(body) < |body| && e == FindOpen(body) + OpenLen(body[FindOpen(body)..])
            && FindClose(body[e..]) == c - e
  {
    hide FindClose, FindOpen, OpenLen;
  }

  lemma CloseStarts(body: string, e: nat, c: nat)
    requires FenceOf(body) == Complete(e, c)
    ensures AtClose(body[c..])
    ensures FindOpen(body) < |body| && e == FindOpen(body) + OpenLen(body[FindOpen(body)..])
  {
    hide OpenLen, FindOpen, FindClose, AtClose, FenceOf;
    FenceParts(body);
    CloseAt(body, e, c);
  }

  /** A body without an opening marker gets its fence after the text in it. */
  lemma FreshFence(before: string, owner: string, x: string)
    requires FindOpen(before) == |before| && OwnerName(owner) && Fits(x)
    ensures var b := before + FenceOpen(owner) + "\n";
            FenceOf(b + x + (FENCE_CLOSE + "\n")) == Complete(|b|, |b| + |x|)
  {
    assert AtClose(FENCE_CLOSE + "\n");
    FreshFenceAt(before, owner, x, FENCE_CLOSE + "\n");
  }

  lemma FreshFenceAt(before: string, owner: string, x: string, close: string)
    requires FindOpen(before) == |before| && OwnerName(owner) && Fits(x) && AtClose(close)
    ensures var b := before + FenceOpen(owner) + "\n";
            FenceOf(b + x + close) == Complete(|b|, |b| + |x|)
  {
    hide CoreLen, FenceOpen, FindOpen, FindClose, Unfenced, FenceOf, AtClose;
    var m := FenceOpen(owner);
    var b := before + m + "\n";
    var rest := "\n" + x + close;
    var t := b + x + close;
    AtCloseFirst(close);
    Slices(before, m, rest);
    Slices(b, x, close);
    assert t == before + (m + rest);
    CoreOf(owner, rest);
    FindOpenAfter(before, m + rest);
    FindCloseAfter(x, close);
    FenceOfIs(t, |b|, |b| + |x|);
  }

  /** When the first opening marker is closed, or there is none, splitting the
      rewritten body gives back the same outside and the text written. */
  lemma SplitAgain(body: string, owner: string, x: string)
    requires OwnerName(owner) && Fits(x) && !FenceOf(body).Orphan?
    ensures var (before, _, after) := SplitFence(body, owner);
            SplitFence(before + x + after, owner) == (before, x, after)
  {
    hide FindOpen, FindClose, CoreLen, Unfenced;
    var (before, inner, after) := SplitFence(body, owner);
    var t := before + x + after;
    var e, c := |before|, |before| + |x|;
    Slices(before, x, after);
    match FenceOf(body)
    case Complete(_, _) =>
      RefindComplete(body, x);
    case NoFence =>
      NoFenceText(body);
      FreshFence(BeforeFresh(body), owner, x);
  }

  lemma NoFenceText(body: string)
    requires FenceOf(body).NoFence?
    ensures FindOpen(BeforeFresh(body)) == |BeforeFresh(body)|
  {
    if !Closed(body) { FindOpenNewline(body); }
  }

  // ---------------------------------------------------------------------
  // The lens laws
  // ---------------------------------------------------------------------

  lemma {:induction false} NoCloseSuffix(x: string, k: nat)
    requires NoClose(x) && k <= |x|
    ensures NoClose(x[k..])
  {
    hide AtClose;
    if k > 0 {
      NoCloseSuffix(x[1..], k - 1);
      DropDrop(x, 1, k);
    } else {
      assert x[0..] == x;
    }
  }

  lemma {:induction false} NoClosePrefix(x: string, k: nat)
    requires NoClose(x) && k <= |x|
    ensures NoClose(x[..k])
    decreases k
  {
    hide AtClose;
    if k > 0 {
      assert x[..k][1..] == x[1..][..k - 1];
      NoClosePrefix(x[1..], k - 1);
      AtClosePrefix(x, k);
    }
  }

  lemma AtClosePrefix(x: string, k: nat)
    requires k <= |x|
    ensures AtClose(x[..k]) ==> AtClose(x)
  {}

  lemma InnerFits(x: string)
    requires NoClose(x)
    ensures Fits(Inner(x)) && StripNL(Inner(x)) == StripNL(x)
  {
    hide FindClose;
    var a := LeadNL(x, 0);
    var b := TrailNL(x, a, |x|);
    NoClosePrefix(x, b);
    NoCloseSuffix(x[..b], a);
    assert x[..b][a..] == x[a..b];
    var s := StripNL(x);
    assert s == x[a..b];
    StripEdges(x);
    StripNLIdempotent(x);
    StripNLAppend(s);
    hide StripNL;
    NoCloseNewline(s);
    assert FindClose("") == 0;
  }

  lemma FencedTextIsInner(body: string, owner: string)
    requires !FenceOf(body).Orphan?
    ensures FencedText(body) == StripNL(SplitFence(body, owner).1)
  {
    hide FenceOf;
  }

  /** Reading gives what was written, without its edge newlines. */
  lemma PutGet(body: string, owner: string, x: string)
    requires OwnerName(owner) && Unfenced(x) && !FenceOf(body).Orphan?
    ensures FencedText(PutFenced(body, owner, x)) == StripNL(x)
    ensures FenceOf(PutFenced(body, owner, x)).Complete?
  {
    hide Unfenced, FenceOf, SplitFence, FencedText, Inner;
    UnfencedHasNoClose(x);
    InnerFits(x);
    SplitAgain(body, owner, Inner(x));
    SplitInnerComplete(body, owner, Inner(x));
    FencedTextIsInner(PutFenced(body, owner, x), owner);
  }

  lemma SplitInnerComplete(body: string, owner: string, x: string)
    requires OwnerName(owner) && Fits(x) && !FenceOf(body).Orphan?
    ensures var (before, _, after) := SplitFence(body, owner); FenceOf(before + x + after).Complete?
  {
    hide FindOpen, FindClose, CoreLen, Unfenced;
    match FenceOf(body)
    case Complete(_, _) => RefindComplete(body, x);
    case NoFence =>
      NoFenceText(body);
      FreshFence(BeforeFresh(body), owner, x);
  }

  /** Writing twice is writing the second text. */
  lemma PutPut(body: string, owner: string, x: string, y: string)
    requires OwnerName(owner) && Unfenced(x) && !FenceOf(body).Orphan?
    ensures PutFenced(PutFenced(body, owner, x), owner, y) == PutFenced(body, owner, y)
  {
    hide Unfenced, FenceOf, SplitFence, Inner;
    UnfencedHasNoClose(x);
    InnerFits(x);
    SplitAgain(body, owner, Inner(x));
  }

  /** Writing back what is there changes nothing, once a text has been put. */
  lemma PutTheSame(body: string, owner: string, x: string)
    requires OwnerName(owner) && Unfenced(x) && !FenceOf(body).Orphan?
    ensures var b := PutFenced(body, owner, x); PutFenced(b, owner, FencedText(b)) == b
  {
    hide Unfenced, FenceOf, SplitFence, FencedText;
    var b := PutFenced(body, owner, x);
    PutGet(body, owner, x);
    PutPut(body, owner, x, FencedText(b));
    StripNLIdempotent(x);
  }

  /** Nothing outside the fence changes: a complete fence keeps the text around
      it, and a missing one is added after everything that was there. */
  lemma PutKeepsOutside(body: string, owner: string, x: string)
    ensures match FenceOf(body)
            case Complete(e, c) => PutFenced(body, owner, x) == body[..e] + Inner(x) + body[c..]
            case _ => body <= PutFenced(body, owner, x)
  {
    hide FenceOf, Inner;
  }

  // ---------------------------------------------------------------------
  // Writing inside a fence opens no section
  // ---------------------------------------------------------------------

  /** `append_lines` on a fenced section: the fence keeps its text and grows. */
  function GrowFenced(body: string, owner: string, addition: string): string {
    var (before, inner, after) := SplitFence(body, owner);
    before + Inner(inner + "\n" + addition) + after
  }

  /** Where a complete fence cuts: after `>` or a newline, and before `<`. */
  lemma CompleteCuts(body: string)
    requires FenceOf(body).Complete?
    ensures var Complete(e, c) := FenceOf(body);
            0 < e <= c < |body| && (body[e - 1] == NL || body[e - 1] == '>') && body[c] == '<'
  {
    var Complete(e, c) := FenceOf(body);
    CloseStarts(body, e, c);
    AtCloseFirst(body[c..]);
    FindOpenHit(body);
    var o := FindOpen(body);
    CoreShape(body[o..]);
    hide FenceOf, FindOpen, FindClose, CoreLen, AtClose;
    OpenEnds(body, o, e);
  }

  lemma QuietCuts(body: string, e: nat, c: nat)
    requires Quiet(body) && 0 < e <= c < |body| && (body[e - 1] == NL || body[e - 1] == '>') && body[c] == '<'
    ensures Quiet(body[..e]) && Settled(body[..e])
    ensures QuietAfterFirst(body[e..c]) && (Closed(body[..e]) ==> Quiet(body[e..c]))
    ensures Quiet(body[c..])
  {
    QuietPrefix(body, e);
    QuietSuffix(body, c);
    forall i | 0 <= i < c - e && (i > 0 || Closed(body[..e])) ensures !HeaderLike(body[e..c], i) {
      if HeaderLike(body[e..c], i) { assert HeaderLike(body, e + i); }
    }
  }

  /** What a complete fence's parts look like. */
  lemma CompleteParts(body: string)
    requires FenceOf(body).Complete? && Quiet(body)
    ensures var Complete(e, c) := FenceOf(body);
            && Quiet(body[..e]) && Settled(body[..e])
            && QuietAfterFirst(body[e..c]) && (Closed(body[..e]) ==> Quiet(body[e..c]))
            && Quiet(body[c..])
  {
    CompleteCuts(body);
    hide FenceOf, Quiet;
    QuietCuts(body, FenceOf(body).from, FenceOf(body).to);
  }

  lemma OpenEnds(body: string, o: nat, e: nat)
    requires o <= |body| && CoreLen(body[o..]) > 0 && e == o + OpenLen(body[o..])
    requires body[o..][CoreLen(body[o..]) - 1] == '>'
    ensures 0 < e <= |body| && (body[e - 1] == NL || body[e - 1] == '>')
  {
    hide CoreLen;
    var n := CoreLen(body[o..]);
    assert body[o..][n - 1] == body[o + n - 1];
    if n < |body[o..]| { assert body[o..][n] == body[o + n]; }
  }

  /** A slice that starts a line, or starts where `t` does, is as quiet as `t`. */
  lemma QuietSlice(t: string, a: nat, b: nat)
    requires a <= b <= |t| && QuietAfterFirst(t) && LineStart(t, a)
    ensures QuietAfterFirst(t[a..b]) && (a > 0 || Quiet(t) ==> Quiet(t[a..b]))
  {
    forall i | 0 <= i < b - a && (i > 0 || a > 0 || Quiet(t)) ensures !HeaderLike(t[a..b], i) {
      if HeaderLike(t[a..b], i) { assert HeaderLike(t, a + i); }
    }
  }

  lemma QuietInner(x: string)
    requires QuietAfterFirst(x)
    ensures QuietAfterFirst(Inner(x)) && Closed(Inner(x))
    ensures Quiet(x) || (x != "" && x[0] == NL) ==> Quiet(Inner(x))
  {
    StripParts(x);
    var a := LeadNL(x, 0);
    var b := TrailNL(x, a, |x|);
    QuietSlice(x, a, b);
    var s := x[a..b];
    forall i | 0 <= i < |s + "\n"| && HeaderLike(s + "\n", i) ensures i < |s| && HeaderLike(s, i) {}
    assert x != "" && x[0] == NL ==> a > 0;
  }

  lemma GrownQuiet(inner: string, addition: string)
    requires QuietAfterFirst(inner) && Quiet(addition)
    ensures var y := inner + "\n" + addition;
            QuietAfterFirst(y) && (Quiet(inner) ==> Quiet(y)) && (inner == "" ==> y[0] == NL)
  {
    var y := inner + "\n" + addition;
    forall i | 0 <= i < |y| && HeaderLike(y, i)
      ensures i < |inner| && HeaderLike(inner, i)
    {
      HeaderLikeJoin(inner + "\n", addition, i);
    }
  }

  lemma FramedQuiet(before: string, x: string, after: string)
    requires Quiet(before) && Settled(before) && Closed(x) && QuietAfterFirst(x) && Quiet(after)
    requires Closed(before) ==> Quiet(x)
    ensures Quiet(before + x + after)
  {
    assert before + x + after == (before + x) + after;
    if x == "" {
      assert before + x == before;
      QuietJoin(before, after);
    } else {
      QuietJoin(before, x);
      QuietJoin(before + x, after);
    }
  }

  lemma FreshQuiet(body: string, owner: string)
    requires Quiet(body) && OwnerName(owner)
    ensures var b := BeforeFresh(body) + FenceOpen(owner) + "\n";
            Quiet(b) && Settled(b) && Closed(b)
    ensures Quiet(FENCE_CLOSE + "\n")
  {
    CoreOf(owner, "\n");
    CoreShape(FenceOpen(owner) + "\n");
    var m := FenceOpen(owner) + "\n";
    assert forall i | 0 <= i < |m| :: !HeaderLike(m, i);
    if !Closed(body) { QuietNewline(body); }
    QuietJoin(BeforeFresh(body), m);
    assert BeforeFresh(body) + m == BeforeFresh(body) + FenceOpen(owner) + "\n";
    var close := FENCE_CLOSE + "\n";
    assert forall i | 0 <= i < |close| :: !HeaderLike(close, i);
  }

  lemma QuietNewline(x: string)
    requires Quiet(x)
    ensures Quiet(x + "\n")
  {
    forall i | 0 <= i < |x + "\n"| && HeaderLike(x + "\n", i) ensures i < |x| && HeaderLike(x, i) {}
  }

  lemma PutQuiet(body: string, owner: string, x: string)
    requires OwnerName(owner) && Quiet(body) && Quiet(x)
    ensures Quiet(PutFenced(body, owner, x)) && (Closed(body) ==> EndsNL(PutFenced(body, owner, x)))
  {
    QuietInner(x);
    hide Inner, FenceOf, Quiet;
    if FenceOf(body).Complete? { CompleteParts(body); } else { FreshQuiet(body, owner); }
    var (before, _, after) := SplitFence(body, owner);
    QuietIsAfterFirst(Inner(x));
    FramedQuiet(before, Inner(x), after);
    if FenceOf(body).Complete? { CompleteEnds(body, before + Inner(x)); }
  }

  lemma QuietIsAfterFirst(x: string)
    requires Quiet(x)
    ensures QuietAfterFirst(x)
  {}

  lemma CompleteEnds(body: string, front: string)
    requires FenceOf(body).Complete?
    ensures Closed(body) ==> EndsNL(front + body[FenceOf(body).to..])
  {}

  lemma GrowQuiet(body: string, owner: string, addition: string)
    requires OwnerName(owner) && Quiet(body) && Quiet(addition)
    ensures Quiet(GrowFenced(body, owner, addition)) && (Closed(body) ==> EndsNL(GrowFenced(body, owner, addition)))
  {
    hide FenceOf;
    var (before, inner, after) := SplitFence(body, owner);
    if FenceOf(body).Complete? { CompleteParts(body); } else { FreshQuiet(body, owner); }
    GrownQuiet(inner, addition);
    var y := inner + "\n" + addition;
    QuietInner(y);
    hide Inner, Quiet;
    FramedQuiet(before, Inner(y), after);
    if FenceOf(body).Complete? { CompleteEnds(body, before + Inner(y)); }
  }

  // ---------------------------------------------------------------------
  // An opening marker nobody closes
  // ---------------------------------------------------------------------

  /** A lone opening marker is one nobody closes. */
  lemma OrphanHappens(owner: string)
    requires OwnerName(owner)
    ensures FenceOf(FenceOpen(owner) + "\n").Orphan?
  {
    var s := FenceOpen(owner) + "\n";
    CoreOf(owner, "\n");
    assert FindOpen(s) == 0 && s[0..] == s;
    assert s[CoreLen(s)] == NL;
    assert s[|s|..] == "" && FindClose("") == 0;
    hide FindOpen, FindClose, CoreLen, FenceOpen;
  }

  lemma {:induction false} NoCloseWithoutLt(s: string)
    requires forall i | 0 <= i < |s| :: s[i] != '<'
    ensures FindClose(s) == |s|
  {
    if s != "" {
      NoCloseWithoutLt(s[1..]);
      if AtClose(s) { AtCloseFirst(s); }
    }
  }

  lemma NoCloseInOpen(owner: string)
    requires OwnerName(owner)
    ensures FindClose(FenceOpen(owner) + "\n") == |FenceOpen(owner) + "\n"|
  {
    var s := FenceOpen(owner) + "\n";
    CoreOf(owner, "\n");
    CoreShape(s);
    NoCloseWithoutLt(s[1..]);
    assert s[5] == 'w' && FENCE_CLOSE[5] == '/';
  }

  /** Where the region starts once text follows an unclosed marker: past the
      newline that now ends the marker's line, if the body ended with it. */
  function OrphanStart(body: string): nat
    requires FenceOf(body).Orphan?
  {
    var e := FenceOf(body).from;
    if e == |body| && !Closed(body) then e + 1 else e
  }

  lemma OrphanShared(body: string, t: string)
    requires FenceOf(body).Orphan? && |body| < |t| && t[..|body|] == body
    ensures FindOpen(body) < |body| && FindOpen(t) == FindOpen(body)
    ensures CoreLen(t[FindOpen(t)..]) == CoreLen(body[FindOpen(body)..]) > 0
  {
    hide CoreLen, FindOpen, FindClose;
    FindOpenHit(body);
    var m := FindOpen(body) + CoreLen(body[FindOpen(body)..]);
    assert t[..m] == t[..|body|][..m];
    FindOpenShared(body, t);
  }

  /** The first opening marker, seen again once more text follows it. */
  lemma OrphanReopens(body: string, t: string)
    requires FenceOf(body).Orphan? && |body| < |t| && t[..|body|] == body
    requires !Closed(body) ==> t[|body|] == NL
    ensures FindOpen(t) < |t| && OrphanStart(body) == FindOpen(t) + OpenLen(t[FindOpen(t)..])
  {
    hide CoreLen, FindOpen, FindClose, OpenLen, FenceOf;
    OrphanShared(body, t);
    OrphanFrom(body);
    var o := FindOpen(body);
    var n := CoreLen(body[o..]);
    CoreShape(body[o..]);
    MarkerEnds(body, t, o, n);
    OpenLenIs(body[o..], n);
    OpenLenIs(t[o..], n);
  }

  lemma OrphanFrom(body: string)
    requires FenceOf(body).Orphan?
    ensures FenceOf(body).from == FindOpen(body) + OpenLen(body[FindOpen(body)..])
  {
    hide CoreLen, FindOpen, FindClose, OpenLen;
  }

  lemma OpenLenIs(s: string, n: nat)
    requires CoreLen(s) == n > 0
    ensures OpenLen(s) == if n < |s| && s[n] == NL then n + 1 else n
  {
    hide CoreLen;
  }

  /** The character after the marker, in the body and in the longer text. */
  lemma MarkerEnds(body: string, t: string, o: nat, n: nat)
    requires |body| < |t| && t[..|body|] == body && 0 < n && o + n <= |body|
    ensures body[o..][n - 1] == body[o + n - 1]
    ensures t[o..][n] == t[o + n] && (o + n < |body| ==> body[o..][n] == t[o + n] == body[o + n])
  {
    if o + n < |body| { assert t[..|body|][o + n] == t[o + n]; }
  }

  lemma OrphanTail(body: string, owner: string, x: string)
    requires OwnerName(owner) && Fits(x) && FenceOf(body).Orphan?
    ensures OrphanStart(body) <= |BeforeFresh(body)|
    ensures var tail := BeforeFresh(body)[OrphanStart(body)..] + (FenceOpen(owner) + "\n") + x;
            FindClose(tail) == |tail| && Closed(tail)
  {
    hide FindOpen, FindClose, CoreLen, Unfenced, FenceOpen, AtClose;
    var e := FenceOf(body).from;
    var head, m := BeforeFresh(body)[OrphanStart(body)..], FenceOpen(owner) + "\n";
    if Closed(body) {
    } else if e == |body| {
      assert head == "";
      assert FindClose("") == 0;
    } else {
      assert head == body[e..] + "\n";
      NoCloseNewline(body[e..]);
    }
    NoCloseInOpen(owner);
    NoCloseConcat(head, m);
    NoCloseConcat(head + m, x);
  }

  lemma OrphanPut(body: string, owner: string, x: string)
    requires FenceOf(body).Orphan?
    ensures PutFenced(body, owner, x)
            == BeforeFresh(body) + (FenceOpen(owner) + "\n" + Inner(x)) + (FENCE_CLOSE + "\n")
  {
    hide FenceOf, Inner, FenceOpen;
  }

  /** The second fence goes in after the text, but readers stop at the first
      opening marker: what they see is all the text from there on. */
  lemma OrphanFence(body: string, owner: string, x: string)
    requires OwnerName(owner) && Unfenced(x) && FenceOf(body).Orphan?
    ensures var t := PutFenced(body, owner, x); var e := OrphanStart(body);
            e + 18 <= |t| && FenceOf(t) == Complete(e, |t| - 18) && e <= |BeforeFresh(body)|
            && t[e..|t| - 18] == BeforeFresh(body)[e..] + (FenceOpen(owner) + "\n") + Inner(x)
  {
    UnfencedHasNoClose(x);
    InnerFits(x);
    OrphanPut(body, owner, x);
    OrphanTail(body, owner, Inner(x));
    var text, m, close := BeforeFresh(body), FenceOpen(owner) + "\n", FENCE_CLOSE + "\n";
    assert AtClose(close) && |close| == 18;
    OrphanLocated(body, m, Inner(x), close);
  }

  lemma TailSlices(text: string, e: nat, m: string, x: string, close: string)
    requires e <= |text|
    ensures var t := text + (m + x) + close; var tail := text[e..] + m + x;
            && t[e..] == tail + close && e + |tail| == |t| - |close| && t[e..|t| - |close|] == tail
            && t[..|text|] == text
  {}

  lemma BodyFirst(body: string, t: string)
    requires var n := |BeforeFresh(body)|; n <= |t| && t[..n] == BeforeFresh(body)
    ensures t[..|body|] == body && (!Closed(body) ==> t[|body|] == NL)
  {
    var n := |BeforeFresh(body)|;
    assert t[..n][..|body|] == t[..|body|];
    if !Closed(body) { assert t[..n][|body|] == t[|body|]; }
  }

  lemma OrphanLocated(body: string, m: string, x: string, close: string)
    requires FenceOf(body).Orphan? && m != "" && AtClose(close)
    requires OrphanStart(body) <= |BeforeFresh(body)|
    requires var tail := BeforeFresh(body)[OrphanStart(body)..] + m + x; FindClose(tail) == |tail| && Closed(tail)
    ensures var e := OrphanStart(body); var t := BeforeFresh(body) + (m + x) + close;
            FenceOf(t) == Complete(e, |t| - |close|)
            && t[e..|t| - |close|] == BeforeFresh(body)[e..] + m + x
  {
    AtCloseFirst(close);
    hide FindOpen, FindClose, CoreLen, OpenLen, FenceOf, AtClose, OrphanStart;
    var text, e := BeforeFresh(body), OrphanStart(body);
    var tail := text[e..] + m + x;
    var t := text + (m + x) + close;
    TailSlices(text, e, m, x, close);
    BodyFirst(body, t);
    hide BeforeFresh;
    OrphanReopens(body, t);
    FindCloseAfter(tail, close);
    FenceOfIs(t, e, e + |tail|);
  }

  /** Reading back what was written works exactly when the first opening
      marker is closed or there is none. */
  lemma PutGetIff(body: string, owner: string, x: string)
    requires OwnerName(owner) && Unfenced(x)
    ensures FencedText(PutFenced(body, owner, x)) == StripNL(x) <==> !FenceOf(body).Orphan?
  {
    hide FenceOf, Unfenced, PutFenced, StripNL, Inner;
    if FenceOf(body).Orphan? {
      OrphanFence(body, owner, x);
      OrphanReadsMore(BeforeFresh(body), owner, x, OrphanStart(body));
    } else {
      PutGet(body, owner, x);
    }
  }

  lemma OrphanReadsMore(text: string, owner: string, x: string, e: nat)
    requires OwnerName(owner) && e <= |text|
    ensures |StripNL(text[e..] + (FenceOpen(owner) + "\n") + Inner(x))| > |StripNL(x)|
  {
    hide StripNL;
    StripEdges(x);
    var m := FenceOpen(owner);
    assert m[0] == '<' && m[|m| - 1] == '>';
    var z := text[e..] + (m + "\n") + Inner(x);
    StripKeeps(z, |text| - e, |z| - 1);
  }

  /** Likewise for a second write replacing the first. */
  lemma PutPutIff(body: string, owner: string, x: string, y: string)
    requires OwnerName(owner) && Unfenced(x)
    ensures PutFenced(PutFenced(body, owner, x), owner, y) == PutFenced(body, owner, y)
            <==> !FenceOf(body).Orphan?
  {
    if FenceOf(body).Orphan? {
      OrphanFence(body, owner, x);
      OrphanPut(body, owner, y);
      hide FenceOf, Unfenced, Inner;
      var once := PutFenced(body, owner, x);
      PutKeepsOutside(once, owner, y);
      assert |FENCE_CLOSE + "\n"| == 18;
    } else {
      PutPut(body, owner, x, y);
    }
  }
  // ---------------------------------------------------------------------
  // An append fence only grows
  // ---------------------------------------------------------------------

  lemma StripPrefix(p: string, rest: string)
    ensures StripNL(p) <= StripNL(p + rest)
  {
    var y := p + rest;
    StripParts(p);
    StripParts(y);
    var a := LeadNL(p, 0);
    var b := TrailNL(p, a, |p|);
    if a < b {
      assert y[a] == p[a] && y[b - 1] == p[b - 1];
      LeadIs(y, 0, a);
      var b' := TrailNL(y, a, |y|);
      assert b <= b';
      assert y[a..b'][..b - a] == y[a..b] == p[a..b];
    }
  }

  lemma NoCloseInner(body: string)
    requires FenceOf(body).Complete?
    ensures NoClose(body[FenceOf(body).from..FenceOf(body).to])
  {
    var Complete(e, c) := FenceOf(body);
    FenceParts(body);
    hide FenceOf;
    FirstCloseCuts(body[e..]);
    assert body[e..][..c - e] == body[e..c];
  }

  lemma {:induction false} FirstCloseCuts(t: string)
    ensures NoClose(t[..FindClose(t)])
  {
    hide AtClose;
    if t != "" && !AtClose(t) {
      FirstCloseCuts(t[1..]);
      var k := FindClose(t);
      assert t[..k][1..] == t[1..][..k - 1];
      AtClosePrefix(t, k);
    } else {
      assert t[..0] == "";
    }
  }

  /** A complete fence that grows is still complete and holds the grown text. */
  lemma GrownComplete(body: string, owner: string, addition: string)
    requires FenceOf(body).Complete? && Unfenced(addition)
    ensures var inner := SplitFence(body, owner).1;
            FencedText(GrowFenced(body, owner, addition)) == StripNL(inner + "\n" + addition)
    ensures FenceOf(GrowFenced(body, owner, addition)).Complete?
  {
    var Complete(e, c) := FenceOf(body);
    var inner := body[e..c];
    var y := inner + "\n" + addition;
    NoCloseInner(body);
    UnfencedHasNoClose(addition);
    NoCloseNewline(inner);
    NoCloseConcat(inner + "\n", addition);
    InnerFits(y);
    RefindComplete(body, Inner(y));
    hide FenceOf, FindClose, Unfenced, Inner;
    Slices(body[..e], Inner(y), body[c..]);
  }

  /** Appending keeps what the fence already showed as a prefix, whether the
      fence was complete, missing or left open. */
  lemma GrowKeepsPrefix(body: string, owner: string, addition: string)
    requires OwnerName(owner) && Unfenced(addition)
    ensures FencedText(body) <= FencedText(GrowFenced(body, owner, addition))
  {
    hide Unfenced, FindClose, FindOpen, Inner, StripNL;
    match FenceOf(body)
    case Complete(e, c) =>
      GrownComplete(body, owner, addition);
      StripPrefix(body[e..c], "\n" + addition);
      assert body[e..c] + "\n" + addition == body[e..c] + ("\n" + addition);
    case NoFence =>
    case Orphan(e) =>
      UnfencedAfterNewline(addition);
      assert "" + "\n" + addition == "\n" + addition;
      OrphanFence(body, owner, "\n" + addition);
      OrphanKeepsPrefix(body, FenceOpen(owner) + "\n", Inner("\n" + addition));
  }

  lemma UnfencedAfterNewline(x: string)
    requires Unfenced(x)
    ensures Unfenced("\n" + x)
  {
    assert ("\n" + x)[1..] == x;
    assert "<!-- watcher"[0] == "<!-- /watcher"[0] == '<';
  }

  lemma OrphanKeepsPrefix(body: string, m: string, x: string)
    requires FenceOf(body).Orphan? && OrphanStart(body) <= |BeforeFresh(body)|
    ensures FencedText(body) <= StripNL(BeforeFresh(body)[OrphanStart(body)..] + m + x)
  {
    hide StripNL, FindOpen, FindClose;
    var e := FenceOf(body).from;
    var p := body[e..];
    var q := BeforeFresh(body)[OrphanStart(body)..];
    if Closed(body) {
      assert q == p;
      StripPrefix(p, m + x);
    } else if e == |body| {
      assert q == "" && p == "";
      StripPrefix(p, m + x);
    } else {
      assert q == p + "\n";
      StripPrefix(p, "\n" + (m + x));
      Slices(p, "\n", m + x);
    }
    Slices(q, m, x);
    assert p + (m + x) == p + m + x;
  }
}
