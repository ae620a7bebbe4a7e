/** Text whose blanks are squeezed (`re.sub(r"\s+", " ", text).strip()`). */
module Squeezing {
  import opened Text
  import opened Editor

  /** No blank but single spaces. */
  predicate Squeezed(s: string) {
    forall i | 0 <= i < |s| && IsSpace(s[i]) :: s[i] == ' ' && (i + 1 < |s| ==> !IsSpace(s[i + 1]))
  }

  lemma {:induction false} SqueezeSqueezes(t: string)
    ensures Squeezed(Squeeze(t)) && (t != "" && !IsSpace(t[0]) ==> Squeeze(t) != "" && Squeeze(t)[0] == t[0])
    ensures t == "" ==> Squeeze(t) == ""
  {
    if t != "" {
      SqueezeSqueezes(t[1..]);
      var r := Squeeze(t[1..]);
      if IsSpace(t[0]) && !(|t| > 1 && IsSpace(t[1])) {
        assert |t| > 1 ==> !IsSpace(r[0]);
        SqueezedCons(' ', r);
      } else if !IsSpace(t[0]) {
        SqueezedCons(t[0], r);
      }
    }
  }

  lemma SqueezedCons(c: char, r: string)
    requires Squeezed(r) && (IsSpace(c) ==> c == ' ' && (r != "" ==> !IsSpace(r[0])))
    ensures Squeezed([c] + r)
  {
    var s := [c] + r;
    forall i | 0 <= i < |s| && IsSpace(s[i]) ensures s[i] == ' ' && (i + 1 < |s| ==> !IsSpace(s[i + 1])) {
      if i > 0 { assert s[i] == r[i - 1]; }
    }
  }

  lemma {:induction false} SqueezedKept(s: string)
    requires Squeezed(s)
    ensures Squeeze(s) == s
  {
    if s != "" {
      assert Squeezed(s[1..]) by {
        forall i | 0 <= i < |s[1..]| && IsSpace(s[1..][i])
          ensures s[1..][i] == ' ' && (i + 1 < |s[1..]| ==> !IsSpace(s[1..][i + 1]))
        {
          assert s[1..][i] == s[i + 1];
        }
      }
      SqueezedKept(s[1..]);
      assert s == [s[0]] + s[1..];
    }
  }

  lemma SqueezedSlice(s: string, a: nat, b: nat)
    requires Squeezed(s) && a <= b <= |s|
    ensures Squeezed(s[a..b])
  {
    forall i | 0 <= i < b - a && IsSpace(s[a..b][i])
      ensures s[a..b][i] == ' ' && (i + 1 < b - a ==> !IsSpace(s[a..b][i + 1]))
    {
      assert s[a..b][i] == s[a + i];
    }
  }

  /** Squeezed text without edges is on one line as it is. */
  lemma OneLineKept(s: string)
    requires Squeezed(s) && Trimmed(s)
    ensures OneLine(s) == s
  {
    SqueezedKept(s);
    var a := LeadSpace(s, 0);
    assert s != "" ==> a == 0;
  }

  lemma {:induction false} SqueezeNoNewline(t: string)
    ensures NoNewline(Squeeze(t))
  {
    if t != "" { SqueezeNoNewline(t[1..]); }
  }

  lemma OneLineNoNewline(t: string)
    ensures NoNewline(OneLine(t))
  {
    SqueezeNoNewline(t);
  }

  // ---------------------------------------------------------------------
  // What is left: the words, with one space between them
  // ---------------------------------------------------------------------

  /** The runs of characters that are not blank. */
  function Words(t: string): (ws: seq<string>)
    ensures t != "" && !IsSpace(t[0]) ==> ws != []
  {
    if t == "" then []
    else if IsSpace(t[0]) then Words(t[1..])
    else if |t| > 1 && !IsSpace(t[1]) then
      var ws := Words(t[1..]);
      [[t[0]] + ws[0]] + ws[1..]
    else [[t[0]]] + Words(t[1..])
  }

  lemma {:induction false} SpaceLeadIs(s: string, i: nat, j: nat)
    requires i <= j <= |s| && (j < |s| ==> !IsSpace(s[j])) && forall k | i <= k < j :: IsSpace(s[k])
    ensures LeadSpace(s, i) == j
    decreases j - i
  {
    if i < j { SpaceLeadIs(s, i + 1, j); }
  }

  lemma {:induction false} SpaceTrailIs(s: string, a: nat, j: nat, b: nat)
    requires a <= b <= j <= |s| && (a < b ==> !IsSpace(s[b - 1])) && forall k | b <= k < j :: IsSpace(s[k])
    ensures TrailSpace(s, a, j) == b
    decreases j - b
  {
    if b < j { SpaceTrailIs(s, a, j - 1, b); }
  }

  /** Trimming takes off the blanks before and after, and no others. */
  lemma TrimIs(s: string, a: nat, b: nat)
    requires a <= b <= |s| && (a < b ==> !IsSpace(s[a]) && !IsSpace(s[b - 1]))
    requires (forall k | 0 <= k < a :: IsSpace(s[k])) && forall k | b <= k < |s| :: IsSpace(s[k])
    ensures Trim(s) == s[a..b]
  {
    if a < b {
      SpaceLeadIs(s, 0, a);
      SpaceTrailIs(s, a, |s|, b);
    } else {
      SpaceLeadIs(s, 0, |s|);
    }
  }

  /** Joined words have no blank at the edges. */
  lemma {:induction false} WordsEdges(t: string)
    ensures forall w | w in Words(t) :: w != "" && !IsSpace(w[0]) && !IsSpace(w[|w| - 1])
  {
    hide IsSpace;
    if t != "" { WordsEdges(t[1..]); }
  }

  lemma {:induction false} JoinEdges(ws: seq<string>)
    requires ws != [] && forall w | w in ws :: w != "" && !IsSpace(w[0]) && !IsSpace(w[|w| - 1])
    ensures var s := Join(" ", ws); s != "" && !IsSpace(s[0]) && !IsSpace(s[|s| - 1])
  {
    hide IsSpace;
    if |ws| > 1 {
      JoinEdges(ws[1..]);
      var s, rest := Join(" ", ws), Join(" ", ws[1..]);
      assert s == ws[0] + " " + rest;
      assert s[0] == ws[0][0] && s[|s| - 1] == rest[|rest| - 1];
    }
  }

  lemma JoinCons(sep: string, w: string, ws: seq<string>)
    ensures Join(sep, [w] + ws) == if ws == [] then w else w + sep + Join(sep, ws)
  {
    assert ([w] + ws)[1..] == ws;
  }

  /** The words joined, and a blank at an edge where the text has one. */
  function Spaced(t: string): string {
    (if t != "" && IsSpace(t[0]) && Words(t) != [] then " " else "") + Join(" ", Words(t))
    + (if t != "" && IsSpace(t[|t| - 1]) then " " else "")
  }

  lemma {:induction false} SqueezeWords(t: string)
    ensures Squeeze(t) == Spaced(t)
  {
    hide IsSpace, Spaced, Words, Join;
    if |t| <= 1 {
      SpacedShort(t);
    } else {
      SqueezeWords(t[1..]);
      if IsSpace(t[0]) {
        SpacedBlank(t);
      } else if IsSpace(t[1]) {
        SpacedEnd(t);
      } else {
        SpacedInside(t);
      }
    }
  }

  lemma SpacedShort(t: string)
    requires |t| <= 1
    ensures Squeeze(t) == Spaced(t)
  {
    hide IsSpace, Join;
    JoinNone();
    if t != "" {
      assert t[1..] == "" && Words("") == [];
      JoinCons(" ", [t[0]], []);
    }
  }

  lemma SpacedBlank(t: string)
    requires |t| > 1 && IsSpace(t[0])
    ensures Spaced(t) == (if IsSpace(t[1]) then "" else " ") + Spaced(t[1..])
  {
    hide IsSpace, Join;
    var u := t[1..];
    assert u[0] == t[1] && u[|u| - 1] == t[|t| - 1];
  }

  lemma SpacedEnd(t: string)
    requires |t| > 1 && !IsSpace(t[0]) && IsSpace(t[1])
    ensures Spaced(t) == [t[0]] + Spaced(t[1..])
  {
    hide IsSpace, Join;
    var u := t[1..];
    assert u[0] == t[1] && u[|u| - 1] == t[|t| - 1];
    JoinNone();
    JoinCons(" ", [t[0]], Words(u));
  }

  lemma SpacedInside(t: string)
    requires |t| > 1 && !IsSpace(t[0]) && !IsSpace(t[1])
    ensures Spaced(t) == [t[0]] + Spaced(t[1..])
  {
    hide IsSpace, Join;
    var u := t[1..];
    assert u[0] == t[1] && u[|u| - 1] == t[|t| - 1];
    JoinGrows(t[0], Words(u));
  }

  lemma JoinNone()
    ensures Join(" ", []) == "" && "" + "" + "" == "" && "" + "" + " " == " "
  {}

  lemma JoinGrows(c: char, ws: seq<string>)
    requires ws != []
    ensures Join(" ", [[c] + ws[0]] + ws[1..]) == [c] + Join(" ", ws)
  {
    hide Join;
    JoinCons(" ", [c] + ws[0], ws[1..]);
    JoinCons(" ", ws[0], ws[1..]);
    assert ws == [ws[0]] + ws[1..];
  }

  lemma TrimMiddle(a: string, j: string, b: string)
    requires (forall k | 0 <= k < |a| :: IsSpace(a[k])) && forall k | 0 <= k < |b| :: IsSpace(b[k])
    requires j != "" && !IsSpace(j[0]) && !IsSpace(j[|j| - 1])
    ensures Trim(a + j + b) == j
  {
    hide IsSpace, Trim;
    var s := a + j + b;
    assert s[|a|..|a| + |j|] == j;
    assert s[|a|] == j[0] && s[|a| + |j| - 1] == j[|j| - 1];
    TrimIs(s, |a|, |a| + |j|);
  }

  lemma TrimBlank(s: string)
    requires forall k | 0 <= k < |s| :: IsSpace(s[k])
    ensures Trim(s) == ""
  {
    hide IsSpace, Trim;
    TrimIs(s, 0, 0);
  }

  /** Text on one line is its words joined with single spaces. */
  lemma OneLineIs(t: string)
    ensures OneLine(t) == Join(" ", Words(t))
  {
    hide IsSpace, Squeeze, Trim, Join, Words;
    SqueezeWords(t);
    var j := Join(" ", Words(t));
    SpaceIsSpace();
    JoinNone();
    if Words(t) == [] {
      TrimBlank(Spaced(t));
    } else {
      WordsEdges(t);
      JoinEdges(Words(t));
      TrimMiddle(if t != "" && IsSpace(t[0]) then " " else "", j,
        if t != "" && IsSpace(t[|t| - 1]) then " " else "");
    }
  }

  lemma SpaceIsSpace()
    ensures IsSpace(' ')
  {}
}
