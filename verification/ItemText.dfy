/** Items inside section text: `parse_items` (shared/wiki/items.py) and what
    the fence operations do to the lines it reads. */
module ItemText {
  import opened Options
  import opened Text
  import opened PageFormat
  import opened Neutral
  import opened Fence
  import opened Items

  /** `str.splitlines()`, with the newline as the only separator. */
  function LinesOf(t: string): seq<string>
    decreases |t|
  {
    if t == "" then [] else
      var e := LineEnd(t, 0);
      [t[..e]] + (if e == |t| then [] else LinesOf(t[e + 1..]))
  }

  function ParseLines(ls: seq<string>): seq<Item> {
    if ls == [] then [] else
      match ParseItemLine(ls[0])
      case Some(it) => [it] + ParseLines(ls[1..])
      case None => ParseLines(ls[1..])
  }

  /** `parse_items`. */
  function ParseItems(t: string): seq<Item> { ParseLines(LinesOf(t)) }

  function NonBlank(ls: seq<string>): seq<string> {
    if ls == [] then [] else if ls[0] == "" then NonBlank(ls[1..]) else [ls[0]] + NonBlank(ls[1..])
  }

  /** The lines of `t` that show something: what adding or stripping newlines
      at the edges cannot change. */
  function Shown(t: string): seq<string> { NonBlank(LinesOf(t)) }

  // ---------------------------------------------------------------------
  // Lines of joined texts
  // ---------------------------------------------------------------------

  lemma LinesStep(t: string, e: nat)
    requires e < |t| && LineEnd(t, 0) == e
    ensures LinesOf(t) == [t[..e]] + LinesOf(t[e + 1..])
  {}

  lemma {:induction false} LinesConcat(a: string, b: string)
    requires Closed(a)
    ensures LinesOf(a + b) == LinesOf(a) + LinesOf(b)
    decreases |a|
  {
    if a == "" {
      assert a + b == b;
    } else {
      var e := LineEnd(a, 0);
      var first, rest := FirstLine(a, b);
      hide LinesOf, LineEnd, Closed, EndsNL;
      LinesConcat(rest, b);
      Assoc([first], LinesOf(rest), LinesOf(b));
    }
  }

  lemma FirstLine(a: string, b: string) returns (first: string, rest: string)
    requires EndsNL(a)
    ensures |rest| < |a| && Closed(rest)
    ensures LinesOf(a) == [first] + LinesOf(rest) && LinesOf(a + b) == [first] + LinesOf(rest + b)
  {
    hide LinesOf;
    var e := LineEnd(a, 0);
    LineEndClear(a, 0);
    LineEndIs(a + b, 0, e);
    first, rest := a[..e], a[e + 1..];
    LinesStep(a, e);
    LinesStep(a + b, e);
    assert (a + b)[..e] == first && (a + b)[e + 1..] == rest + b;
  }

  lemma LinesOfLine(l: string)
    requires NoNewline(l)
    ensures LinesOf(l + "\n") == [l] && LinesOf(l) == if l == "" then [] else [l]
  {
    LineEndIs(l + "\n", 0, |l|);
    LineEndIs(l, 0, |l|);
    assert (l + "\n")[..|l|] == l && l[..|l|] == l;
    LinesStep(l + "\n", |l|);
  }

  lemma {:induction false} LinesNewline(t: string)
    requires t != "" && !EndsNL(t)
    ensures LinesOf(t + "\n") == LinesOf(t)
    decreases |t|
  {
    var e := LineEnd(t, 0);
    LineEndClear(t, 0);
    LineEndIs(t + "\n", 0, e);
    if e == |t| {
      assert (t + "\n")[..e] == t[..e];
    } else {
      assert (t + "\n")[..e] == t[..e] && (t + "\n")[e + 1..] == t[e + 1..] + "\n";
      LinesNewline(t[e + 1..]);
    }
  }

  lemma {:induction false} NonBlankConcat(a: seq<string>, b: seq<string>)
    ensures NonBlank(a + b) == NonBlank(a) + NonBlank(b)
  {
    if a == [] {
      assert a + b == b;
    } else {
      assert (a + b)[1..] == a[1..] + b;
      NonBlankConcat(a[1..], b);
    }
  }

  lemma {:induction false} ParseConcat(a: seq<string>, b: seq<string>)
    ensures ParseLines(a + b) == ParseLines(a) + ParseLines(b)
  {
    hide ParseItemLine;
    if a == [] {
      assert a + b == b;
    } else {
      assert (a + b)[1..] == a[1..] + b;
      ParseConcat(a[1..], b);
    }
  }

  lemma {:induction false} ParseShown(ls: seq<string>)
    ensures ParseLines(NonBlank(ls)) == ParseLines(ls)
  {
    hide ParseItemLine;
    if ls != [] {
      ParseShown(ls[1..]);
      if ls[0] == "" {
        BlankIsNoItem();
      } else {
        assert NonBlank(ls)[1..] == NonBlank(ls[1..]);
      }
    }
  }

  lemma BlankIsNoItem()
    ensures ParseItemLine("") == None
  {
    assert IdOf("") == None;
  }

  // ---------------------------------------------------------------------
  // Shown lines
  // ---------------------------------------------------------------------

  lemma ShownConcat(a: string, b: string)
    requires Closed(a)
    ensures Shown(a + b) == Shown(a) + Shown(b)
  {
    LinesConcat(a, b);
    NonBlankConcat(LinesOf(a), LinesOf(b));
  }

  lemma ShownNewline(t: string)
    ensures Shown(t + "\n") == Shown(t) && Shown("\n" + t) == Shown(t)
  {
    LinesOfLine("");
    assert "" + "\n" == "\n";
    ShownConcat("\n", t);
    if Closed(t) { ShownConcat(t, "\n"); } else { LinesNewline(t); }
  }

  lemma {:induction false} ShownLead(t: string, k: nat)
    requires k <= |t| && forall i | 0 <= i < k :: t[i] == NL
    ensures Shown(t[k..]) == Shown(t)
  {
    if k == 0 {
      assert t[0..] == t;
    } else {
      ShownLead(t[1..], k - 1);
      assert t[1..][k - 1..] == t[k..] && t == "\n" + t[1..];
      ShownNewline(t[1..]);
    }
  }

  lemma {:induction false} ShownTrail(t: string, k: nat)
    requires k <= |t| && forall i | k <= i < |t| :: t[i] == NL
    ensures Shown(t[..k]) == Shown(t)
    decreases |t|
  {
    if k == |t| {
      assert t[..k] == t;
    } else {
      var u := t[..|t| - 1];
      ShownTrail(u, k);
      assert u[..k] == t[..k] && t == u + "\n";
      ShownNewline(u);
    }
  }

  lemma ShownStrip(t: string)
    ensures Shown(StripNL(t)) == Shown(t)
  {
    hide Shown, LeadNL, TrailNL;
    StripParts(t);
    var a := LeadNL(t, 0);
    var b := TrailNL(t, a, |t|);
    ShownTrail(t, b);
    ShownLead(t[..b], a);
    assert t[..b][a..] == t[a..b];
  }

  lemma ShownInner(t: string)
    ensures Shown(Inner(t)) == Shown(t)
  {
    hide Shown, StripNL;
    ShownStrip(t);
    ShownNewline(StripNL(t));
  }

  lemma ShownGrow(a: string, b: string)
    ensures Shown(a + "\n" + b) == Shown(a) + Shown(b)
  {
    hide Shown;
    ShownNewline(a);
    ShownConcat(a + "\n", b);
  }

  lemma {:induction false} ShownJoin(ls: seq<string>)
    requires forall i | 0 <= i < |ls| :: NoNewline(ls[i])
    ensures Shown(Join("\n", ls)) == NonBlank(ls)
  {
    hide Shown, NonBlank, NoNewline;
    if |ls| == 0 {
      NoLinesInNothing();
    } else {
      ShownLine(ls[0]);
      NonBlankConcat([ls[0]], ls[1..]);
      assert [ls[0]] + ls[1..] == ls;
      if |ls| == 1 {
        assert ls[1..] == [] && ls == [ls[0]];
      } else {
        ShownJoin(ls[1..]);
        ShownGrow(ls[0], Join("\n", ls[1..]));
      }
    }
  }

  lemma ShownLine(l: string)
    requires NoNewline(l)
    ensures Shown(l) == NonBlank([l])
  {
    LinesOfLine(l);
    assert [l][1..] == [];
  }

  lemma NoLinesInNothing()
    ensures Shown(Join("\n", [])) == NonBlank([])
  {}

  /** The lines of written text are the neutralised lines handed in. */
  lemma ShownNeutral(ls: seq<string>)
    requires ls != [] && forall i | 0 <= i < |ls| :: NoNewline(ls[i])
    ensures Shown(Neutralise(Join("\n", ls))) == NonBlank(NeutraliseLines(ls))
  {
    hide Shown, NeutraliseLine, Join;
    SplitJoin(ls);
    NeutraliseLinesNeutral(ls);
    NeutralLinesKept(NeutraliseLines(ls));
    ShownJoin(NeutraliseLines(ls));
  }

  // ---------------------------------------------------------------------
  // Fences whose markers stand on lines of their own
  // ---------------------------------------------------------------------

  /** How the editor itself writes a fence. */
  predicate OwnLines(body: string) {
    match FenceOf(body)
    case Complete(e, c) => Closed(body[..e]) && Closed(body[e..c])
    case _ => true
  }

  lemma InnerClosed(x: string)
    ensures Closed(Inner(x))
  {}

  lemma SplitClosed(body: string, owner: string)
    requires OwnLines(body)
    ensures var (before, inner, _) := SplitFence(body, owner); Closed(before) && Closed(inner)
  {
    hide FenceOf;
  }

  lemma MarkerIsNoItem(l: string)
    requires l != "" && l[0] == '<'
    ensures ParseItemLine(l) == None
  {
    assert IdOf(l) == None;
  }

  /** The items of a body are those before its fence, in it, and after it. */
  lemma ItemsBySplit(body: string, owner: string)
    requires OwnLines(body) && OwnerName(owner)
    ensures var (before, inner, after) := SplitFence(body, owner);
            ParseItems(body) == ParseItems(before) + ParseItems(inner) + ParseItems(after)
  {
    hide ParseItems, FenceOf, OwnerName, FenceOpen, BeforeFresh;
    SplitClosed(body, owner);
    var (before, inner, after) := SplitFence(body, owner);
    match FenceOf(body)
    case Complete(e, c) =>
      assert body == before + inner + after;
      ItemsOfThree(before, inner, after);
    case _ =>
      FreshItems(body, owner);
      assert ParseItems(body) + [] + [] == ParseItems(body);
  }

  lemma ItemsOfThree(a: string, b: string, c: string)
    requires Closed(a) && Closed(b)
    ensures ParseItems(a + b + c) == ParseItems(a) + ParseItems(b) + ParseItems(c)
  {
    hide ParseLines, LinesOf;
    LinesConcat(a + b, c);
    LinesConcat(a, b);
    ParseConcat(LinesOf(a) + LinesOf(b), LinesOf(c));
    ParseConcat(LinesOf(a), LinesOf(b));
  }

  lemma OpenLine(owner: string)
    requires OwnerName(owner)
    ensures FenceOpen(owner) != "" && NoNewline(FenceOpen(owner)) && FenceOpen(owner)[0] == '<'
    ensures NoNewline(FENCE_CLOSE) && FENCE_CLOSE[0] == '<'
  {
    CoreOf(owner, "");
    assert FenceOpen(owner) + "" == FenceOpen(owner);
    CoreShape(FenceOpen(owner));
  }

  lemma FreshItems(body: string, owner: string)
    requires OwnerName(owner)
    ensures ParseItems(BeforeFresh(body) + FenceOpen(owner) + "\n") == ParseItems(body)
    ensures ParseItems("") == [] && ParseItems(FENCE_CLOSE + "\n") == []
  {
    hide ParseItemLine, FenceOpen, OwnerName;
    OpenLine(owner);
    var m := FenceOpen(owner);
    MarkerIsNoItem(m);
    MarkerIsNoItem(FENCE_CLOSE);
    LinesOfLine(m);
    LinesOfLine(FENCE_CLOSE);
    assert BeforeFresh(body) + m + "\n" == BeforeFresh(body) + (m + "\n");
    LinesConcat(BeforeFresh(body), m + "\n");
    ParseConcat(LinesOf(BeforeFresh(body)), [m]);
    ParseOne(m);
    ParseOne(FENCE_CLOSE);
    if !Closed(body) { LinesNewline(body); }
  }

  lemma ParseOne(l: string)
    requires ParseItemLine(l) == None
    ensures ParseLines([l]) == []
  {
    hide ParseItemLine;
    assert [l][1..] == [];
  }

  /** What writing `x` into the fence makes of the body's items. */
  lemma ItemsOfPut(body: string, owner: string, x: string)
    requires OwnLines(body)
    ensures var (before, _, after) := SplitFence(body, owner);
            ParseItems(before + Inner(x) + after) == ParseItems(before) + ParseItems(x) + ParseItems(after)
  {
    hide SplitFence, OwnLines, Inner, LinesOf, ParseLines;
    SplitClosed(body, owner);
    InnerClosed(x);
    var (before, _, after) := SplitFence(body, owner);
    ItemsOfThree(before, Inner(x), after);
    ShownInner(x);
    ParseShown(LinesOf(x));
    ParseShown(LinesOf(Inner(x)));
  }
}
