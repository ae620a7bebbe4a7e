/** Slugs (`slugify`, shared/wiki/templates.py). */
module Slugs {
  import opened Text

  const SLUG_MAX_LEN := 80

  predicate IsAlnum(c: char) { 'a' <= c <= 'z' || '0' <= c <= '9' }

  /** The text from the first letter or digit on. */
  function Rest(s: string): (r: string)
    ensures |r| <= |s| && (r != "" ==> IsAlnum(r[0]))
  {
    if s == "" || IsAlnum(s[0]) then s else Rest(s[1..])
  }

  /** `re.sub(r"[^a-z0-9]+", "-", s)`. */
  function Dashed(s: string): string
    decreases |s|
  {
    if s == "" then ""
    else if IsAlnum(s[0]) then [s[0]] + Dashed(s[1..])
    else "-" + Dashed(Rest(s[1..]))
  }

  /** `strip("-")` and `rstrip("-")`. */
  function StripLeft(s: string): (r: string)
    ensures r != "" ==> r[0] != '-'
  {
    if s == "" || s[0] != '-' then s else StripLeft(s[1..])
  }

  function StripRight(s: string): (r: string)
    ensures r != "" ==> r[|r| - 1] != '-'
    ensures r <= s
  {
    if s == "" || s[|s| - 1] != '-' then s else StripRight(s[..|s| - 1])
  }

  function Cut(s: string): string { if |s| <= SLUG_MAX_LEN then s else s[..SLUG_MAX_LEN] }

  function Slugify(title: string): string {
    var slug := StripRight(Cut(StripRight(StripLeft(Dashed(Lower(Trim(title)))))));
    if slug == "" then "untitled" else slug
  }

  // ---------------------------------------------------------------------
  // What a slug looks like
  // ---------------------------------------------------------------------

  /** Letters, digits and single dashes. */
  predicate DashedText(s: string) {
    && (forall i | 0 <= i < |s| :: IsAlnum(s[i]) || s[i] == '-')
    && (forall i | 0 < i < |s| :: s[i - 1] == '-' ==> s[i] != '-')
  }

  predicate IsSlug(s: string) {
    1 <= |s| <= SLUG_MAX_LEN && DashedText(s) && s[0] != '-' && s[|s| - 1] != '-'
  }

  lemma {:induction false} DashedIsDashed(s: string)
    ensures DashedText(Dashed(s)) && (s != "" && IsAlnum(s[0]) ==> Dashed(s) != "" && Dashed(s)[0] == s[0])
    decreases |s|
  {
    if s != "" {
      if IsAlnum(s[0]) {
        DashedIsDashed(s[1..]);
        ConsDashed(s[0], Dashed(s[1..]));
      } else {
        DashedIsDashed(Rest(s[1..]));
        ConsDashed('-', Dashed(Rest(s[1..])));
      }
    }
  }

  lemma ConsDashed(c: char, r: string)
    requires DashedText(r) && (IsAlnum(c) || (c == '-' && (r != "" ==> r[0] != '-')))
    ensures DashedText([c] + r)
  {
    var s := [c] + r;
    forall i | 0 < i < |s| ensures s[i - 1] == '-' ==> s[i] != '-' {
      assert s[i] == r[i - 1];
      if i > 1 { assert s[i - 1] == r[i - 2]; }
    }
  }

  lemma DashedSlice(s: string, a: nat, b: nat)
    requires DashedText(s) && a <= b <= |s|
    ensures DashedText(s[a..b])
  {
    var t := s[a..b];
    forall i | 0 < i < |t| ensures t[i - 1] == '-' ==> t[i] != '-' {
      assert t[i] == s[a + i] && t[i - 1] == s[a + i - 1];
    }
  }

  lemma {:induction false} StripLeftDashed(s: string)
    requires DashedText(s)
    ensures DashedText(StripLeft(s))
  {
    if s != "" && s[0] == '-' {
      DashedSlice(s, 1, |s|);
      assert s[1..|s|] == s[1..];
      StripLeftDashed(s[1..]);
    }
  }

  lemma PrefixDashed(s: string, r: string)
    requires DashedText(s) && r <= s
    ensures DashedText(r) && (r != "" ==> s != "" && r[0] == s[0])
  {
    DashedSlice(s, 0, |r|);
    assert s[0..|r|] == r;
  }

  /** Every slug is 1 to 80 letters, digits and single inner dashes. */
  lemma SlugifyIsSlug(title: string)
    ensures IsSlug(Slugify(title))
  {
    hide Dashed, Trim, Lower, DashedText, StripLeft, StripRight, IsAlnum;
    var d := Dashed(Lower(Trim(title)));
    DashedIsDashed(Lower(Trim(title)));
    StripLeftDashed(d);
    var a := StripLeft(d);
    PrefixDashed(a, StripRight(a));
    var c := Cut(StripRight(a));
    PrefixDashed(StripRight(a), c);
    PrefixDashed(c, StripRight(c));
    Untitled();
  }

  lemma Untitled()
    ensures IsSlug("untitled")
  {
    assert forall i | 0 <= i < 8 :: IsAlnum("untitled"[i]);
  }

  // ---------------------------------------------------------------------
  // Slugs are fixed
  // ---------------------------------------------------------------------

  lemma {:induction false} DashedKept(s: string)
    requires DashedText(s) && (s != "" ==> s[|s| - 1] != '-')
    ensures Dashed(s) == s
  {
    if s != "" {
      DashedSlice(s, 1, |s|);
      assert s[1..|s|] == s[1..];
      DashedKept(s[1..]);
      if !IsAlnum(s[0]) {
        assert |s| > 1 && s[1 - 1] == '-' && s[1] != '-';
        assert s[1..][0] == s[1];
        assert Rest(s[1..]) == s[1..];
      }
    }
  }

  lemma LowerKept(s: string)
    requires DashedText(s)
    ensures Lower(s) == s
  {}

  lemma SlugTrimmed(s: string)
    requires IsSlug(s)
    ensures Trim(s) == s
  {
    assert IsAlnum(s[0]) && IsAlnum(s[|s| - 1]);
  }

  /** A slug is its own slug. */
  lemma SlugKept(s: string)
    requires IsSlug(s)
    ensures Slugify(s) == s
  {
    SlugTrimmed(s);
    LowerKept(s);
    DashedKept(s);
    hide Dashed, Trim, Lower, DashedText;
    assert StripLeft(s) == s && StripRight(s) == s && Cut(s) == s;
  }

  lemma SlugifyIdempotent(title: string)
    ensures Slugify(Slugify(title)) == Slugify(title)
  {
    SlugifyIsSlug(title);
    SlugKept(Slugify(title));
  }

  // ---------------------------------------------------------------------
  // The slug of any title
  // ---------------------------------------------------------------------

  /** The runs of letters and digits. */
  function Runs(s: string): (rs: seq<string>)
    ensures s != "" && IsAlnum(s[0]) ==> rs != []
  {
    if s == "" then []
    else if !IsAlnum(s[0]) then Runs(s[1..])
    else if |s| > 1 && IsAlnum(s[1]) then
      var rs := Runs(s[1..]);
      [[s[0]] + rs[0]] + rs[1..]
    else [[s[0]]] + Runs(s[1..])
  }

  lemma {:induction false} RestRuns(s: string)
    ensures Runs(Rest(s)) == Runs(s) && (Rest(s) != "" ==> Rest(s)[|Rest(s)| - 1] == s[|s| - 1])
    ensures Rest(s) == "" <==> Runs(s) == []
  {
    if s != "" && !IsAlnum(s[0]) { RestRuns(s[1..]); }
  }

  lemma JoinCons(sep: string, r: string, rs: seq<string>)
    ensures Join(sep, [r] + rs) == if rs == [] then r else r + sep + Join(sep, rs)
  {
    assert ([r] + rs)[1..] == rs;
  }

  /** The runs with dashes between, and one at an edge that is no run. */
  function Spread(s: string): string {
    (if s != "" && !IsAlnum(s[0]) then "-" else "") + Join("-", Runs(s))
    + (if Runs(s) != [] && !IsAlnum(s[|s| - 1]) then "-" else "")
  }

  lemma {:induction false} DashedIs(s: string)
    ensures Dashed(s) == Spread(s)
    decreases |s|
  {
    hide IsAlnum, Spread, Join, Runs;
    if s == "" {
      SpreadNothing();
    } else if !IsAlnum(s[0]) {
      DashedIs(Rest(s[1..]));
      SpreadOther(s);
    } else {
      DashedIs(s[1..]);
      SpreadRun(s);
    }
  }

  lemma SpreadNothing()
    ensures Spread("") == ""
  {
    assert Runs("") == [] && Join("-", []) == "";
    assert "" + "" + "" == "";
  }

  lemma SpreadOther(s: string)
    requires s != "" && !IsAlnum(s[0])
    ensures Spread(s) == "-" + Spread(Rest(s[1..]))
  {
    hide IsAlnum, Join;
    var r := Rest(s[1..]);
    RestRuns(s[1..]);
    if r == "" {
      SpreadNothing();
      assert Join("-", []) == "" && Runs(s) == [];
    } else {
      assert s[1..] != "" && s[1..][|s| - 2] == s[|s| - 1];
    }
  }

  lemma JoinGrows(c: char, rs: seq<string>)
    requires rs != []
    ensures Join("-", [[c] + rs[0]] + rs[1..]) == [c] + Join("-", rs)
  {
    hide Join;
    JoinCons("-", [c] + rs[0], rs[1..]);
    JoinCons("-", rs[0], rs[1..]);
    assert rs == [rs[0]] + rs[1..];
  }

  lemma SpreadRun(s: string)
    requires s != "" && IsAlnum(s[0])
    ensures Spread(s) == [s[0]] + Spread(s[1..])
  {
    hide IsAlnum, Spread;
    if |s| == 1 { SpreadShort(s); } else if IsAlnum(s[1]) { SpreadInside(s); } else { SpreadEnd(s); }
  }

  lemma SpreadShort(s: string)
    requires |s| == 1 && IsAlnum(s[0])
    ensures Spread(s) == [s[0]] + Spread(s[1..])
  {
    hide IsAlnum, Join;
    assert s[1..] == "";
    SpreadNothing();
    JoinCons("-", [s[0]], []);
  }

  lemma SpreadInside(s: string)
    requires |s| > 1 && IsAlnum(s[0]) && IsAlnum(s[1])
    ensures Spread(s) == [s[0]] + Spread(s[1..])
  {
    hide IsAlnum, Join;
    var u := s[1..];
    assert u[0] == s[1] && u[|u| - 1] == s[|s| - 1];
    JoinGrows(s[0], Runs(u));
  }

  lemma SpreadEnd(s: string)
    requires |s| > 1 && IsAlnum(s[0]) && !IsAlnum(s[1])
    ensures Spread(s) == [s[0]] + Spread(s[1..])
  {
    hide IsAlnum;
    var u := s[1..];
    assert u[0] == s[1] && u[|u| - 1] == s[|s| - 1];
    JoinCons("-", [s[0]], Runs(u));
    if Runs(u) == [] { RunlessEnd(u); }
    hide Join;
    NothingJoined();
  }

  lemma {:induction false} RunlessEnd(s: string)
    requires s != "" && Runs(s) == []
    ensures !IsAlnum(s[|s| - 1])
  {
    if |s| > 1 { RunlessEnd(s[1..]); }
  }

  lemma NothingJoined()
    ensures Join("-", []) == ""
  {}

  lemma {:induction false} RunEdges(s: string)
    ensures forall r | r in Runs(s) :: r != "" && r[0] != '-' && r[|r| - 1] != '-'
  {
    if s != "" { RunEdges(s[1..]); }
  }

  lemma {:induction false} JoinEdges(rs: seq<string>)
    requires rs != [] && forall r | r in rs :: r != "" && r[0] != '-' && r[|r| - 1] != '-'
    ensures var t := Join("-", rs); t != "" && t[0] != '-' && t[|t| - 1] != '-'
  {
    if |rs| > 1 {
      JoinEdges(rs[1..]);
      var t, rest := Join("-", rs), Join("-", rs[1..]);
      assert t == rs[0] + "-" + rest;
      assert t[0] == rs[0][0] && t[|t| - 1] == rest[|rest| - 1];
    }
  }

  lemma StripFront(a: string, t: string)
    requires a in {"", "-"} && t != "" && t[0] != '-'
    ensures StripLeft(a + t) == t
  {
    if a == "-" { assert (a + t)[1..] == t; } else { assert a + t == t; }
  }

  lemma StripBack(j: string, b: string)
    requires b in {"", "-"} && j != "" && j[|j| - 1] != '-'
    ensures StripRight(j + b) == j
  {
    var t := j + b;
    if b == "-" { assert t[..|t| - 1] == j && t[|t| - 1] == '-'; } else { assert t == j; }
  }

  lemma StripSides(a: string, j: string, b: string)
    requires a in {"", "-"} && b in {"", "-"} && j != "" && j[0] != '-' && j[|j| - 1] != '-'
    ensures StripRight(StripLeft(a + j + b)) == j
  {
    hide StripLeft, StripRight;
    var t := j + b;
    assert a + j + b == a + t && t[0] == j[0];
    StripFront(a, t);
    StripBack(j, b);
  }

  /** The slug of any title: its runs of letters and digits in lower case with a
      dash between, cut at 80 characters and at a dash left at the end; and
      "untitled" for a title without any. */
  lemma SlugOfTitle(title: string)
    ensures var full := Join("-", Runs(Lower(Trim(title))));
            Slugify(title)
            == if full == "" then "untitled" else if |full| <= 80 then full
               else if full[79] == '-' then full[..79] else full[..80]
  {
    hide Join, Runs, Trim, Lower, IsAlnum, StripLeft;
    var s := Lower(Trim(title));
    var full := Join("-", Runs(s));
    DashedIs(s);
    if Runs(s) == [] {
      NoRuns(s);
    } else {
      RunEdges(s);
      JoinEdges(Runs(s));
      StripSides(if s != "" && !IsAlnum(s[0]) then "-" else "", full,
        if Runs(s) != [] && !IsAlnum(s[|s| - 1]) then "-" else "");
      CutFull(full, s);
    }
  }

  lemma NoRuns(s: string)
    requires Runs(s) == []
    ensures Join("-", Runs(s)) == "" && StripRight(Cut(StripRight(StripLeft(Spread(s))))) == ""
  {
    var t := Spread(s);
    assert t == "" || t == "-";
    assert "-"[1..] == "" && StripLeft("") == "" && StripLeft(t) == "" && StripRight("") == "" && Cut("") == "";
  }

  lemma CutFull(full: string, s: string)
    requires full == Join("-", Runs(s)) && full != "" && full[|full| - 1] != '-'
    ensures StripRight(Cut(full))
            == if |full| <= 80 then full else if full[79] == '-' then full[..79] else full[..80]
  {
    hide Join, Runs, Dashed;
    if |full| <= 80 {
      assert StripRight(full) == full;
    } else {
      var c := full[..80];
      assert c[79] == full[79];
      if full[79] == '-' {
        NoTwoDashes(s);
        assert full[78] != '-';
        assert c[..79] == full[..79] && full[..79][78] == full[78];
      }
    }
  }

  lemma NoTwoDashes(s: string)
    ensures DashedText(Join("-", Runs(s)))
  {
    hide Join, Runs, DashedText;
    DashedIsDashed(s);
    DashedIs(s);
    var full := Join("-", Runs(s));
    var a := if s != "" && !IsAlnum(s[0]) then "-" else "";
    var t := Spread(s);
    assert t[|a|..|a| + |full|] == full;
    DashedSlice(t, |a|, |a| + |full|);
  }
}
