/** What linking names keeps: the links already there, and itself. */
module NamesTwice {
  import opened Options
  import opened Text
  import opened Names

  /** Every alias starts and ends in a word character, or none does. */
  predicate Edged(forms: seq<Form>, w: bool) {
    forall i | 0 <= i < |forms| ::
      var a := forms[i].alias;
      a != "" && IsWord(a[0]) == w && IsWord(a[|a| - 1]) == w
  }

  predicate Titled(forms: seq<Form>) {
    forall i | 0 <= i < |forms| :: forms[i].title != "" && ']' !in forms[i].title
  }

  // ---------------------------------------------------------------------
  // Links are found by how they start
  // ---------------------------------------------------------------------

  lemma {:induction false} FirstCloseIs(s: string, i: nat, j: nat)
    requires i <= j < |s| && s[j] == ']' && forall k | i <= k < j :: s[k] != ']'
    ensures FirstClose(s, i) == j
  {
    FirstCloseClear(s, i);
  }

  lemma LinkStarts(l: string, rest: string)
    requires LinkAt(l) && LinkLen(l) == |l|
    ensures LinkAt(l + rest) && LinkLen(l + rest) == |l|
  {
    var s := l + rest;
    FirstCloseClear(l, 2);
    assert forall k | 0 <= k < |l| :: s[k] == l[k];
    FirstCloseIs(s, 2, |l| - 2);
  }

  lemma CutLink(s: string)
    requires LinkAt(s)
    ensures LinkAt(s[..LinkLen(s)]) && LinkLen(s[..LinkLen(s)]) == LinkLen(s)
  {
    var l := s[..LinkLen(s)];
    FirstCloseClear(s, 2);
    FirstCloseIs(l, 2, |l| - 2);
  }

  lemma LinkIsLink(title: string)
    requires title != "" && ']' !in title
    ensures LinkAt(Link(title)) && LinkLen(Link(title)) == |title| + 4
  {
    var l := Link(title);
    assert forall k | 2 <= k < |title| + 2 :: l[k] == title[k - 2];
    FirstCloseIs(l, 2, |title| + 2);
  }

  lemma GapAtMost(s: string, g: nat)
    requires g <= |s| && (g < |s| ==> LinkAt(s[g..]))
    ensures Gap(s) <= g
  {
    GapIs(s);
  }

  // ---------------------------------------------------------------------
  // The walk, one step at a time
  // ---------------------------------------------------------------------

  lemma EdgeOf(a: string, s: string, word: bool)
    requires AliasAt(a, s, word)
    ensures IsWord(s[0]) == IsWord(a[0]) && IsWord(s[|a| - 1]) == IsWord(a[|a| - 1])
  {
    assert LowerChar(s[0]) == LowerChar(a[0]) && LowerChar(s[|a| - 1]) == LowerChar(a[|a| - 1]);
  }

  lemma WalkLink(forms: seq<Form>, s: string, word: bool)
    requires LinkAt(s)
    ensures var r := Linked(forms, s, word); var e := LinkLen(s);
            && r == s[..e] + Linked(forms, s[e..], false)
            && LinkAt(r) && LinkLen(r) == e && r[..e] == s[..e] && r[e..] == Linked(forms, s[e..], false)
  {
    CutLink(s);
    LinkStarts(s[..LinkLen(s)], Linked(forms, s[LinkLen(s)..], false));
  }

  /** The form whose alias matches at the start, outside links. */
  function Match(forms: seq<Form>, s: string, word: bool): nat { First(forms, s[..Gap(s)], word) }

  lemma WalkMatch(forms: seq<Form>, s: string, word: bool)
    requires s != "" && !LinkAt(s) && Match(forms, s, word) < |forms| && Titled(forms)
    ensures var r := Linked(forms, s, word); var f := forms[Match(forms, s, word)]; var n := |f.alias|;
            && 1 <= n <= Gap(s) && AliasAt(f.alias, s[..Gap(s)], word)
            && r == Link(f.title) + Linked(forms, s[n..], IsWord(s[n - 1]))
            && LinkAt(r) && LinkLen(r) == |f.title| + 4
            && r[|f.title| + 4..] == Linked(forms, s[n..], IsWord(s[n - 1]))
  {
    var f := forms[Match(forms, s, word)];
    FirstIs(forms, s[..Gap(s)], word);
    LinkIsLink(f.title);
    LinkStarts(Link(f.title), Linked(forms, s[|f.alias|..], IsWord(s[|f.alias| - 1])));
  }

  lemma WalkCopy(forms: seq<Form>, s: string, word: bool)
    requires s != "" && !LinkAt(s) && Match(forms, s, word) == |forms|
    ensures var r := Linked(forms, s, word);
            && r != "" && r[0] == s[0] && r[1..] == Linked(forms, s[1..], IsWord(s[0]))
    ensures Gap(s) == 1 + Gap(s[1..]) && Held(s) == Held(s[1..])
  {
    GapOfRest(s, 1);
    HeldRest(s, 1);
    assert Step(forms, s, word) == 1 && StepText(forms, s, word) == [s[0]];
  }

  predicate Agree(s: string, r: string, d: nat) {
    d <= |s| && d <= |r| && forall k | 0 <= k < d :: s[k] == r[k]
  }

  lemma AgreeCons(s: string, r: string, d: nat)
    requires s != "" && r != "" && s[0] == r[0] && Agree(s[1..], r[1..], d)
    ensures Agree(s, r, d + 1)
  {
    assert forall k | 0 < k < d + 1 :: s[k] == s[1..][k - 1] && r[k] == r[1..][k - 1];
  }

  // ---------------------------------------------------------------------
  // Between links
  // ---------------------------------------------------------------------

  /** Two texts agree for `d` characters, up to a link in the one and, in the
      other, a link, the end, or an alias with that kind of edge. */
  predicate Stops(w: bool, s: string, r: string, d: nat, word: bool) {
    && Agree(s, r, d) && Gap(r) <= d <= Gap(s)
    && (d < Gap(s) ==> IsWord(s[d]) == w && !(if d == 0 then word else IsWord(s[d - 1])))
  }

  lemma StopsCons(w: bool, s: string, r: string, d: nat, word: bool)
    requires s != "" && r != "" && s[0] == r[0] && !LinkAt(s)
    requires Stops(w, s[1..], r[1..], d, IsWord(s[0]))
    ensures Stops(w, s, r, d + 1, word)
  {
    AgreeCons(s, r, d);
    var g := Gap(r[1..]);
    assert r[g + 1..] == r[1..][g..];
    GapIs(r[1..]);
    GapAtMost(r, g + 1);
    assert s[0..] == s;
    GapOfRest(s, 1);
  }

  /** How far the walk copies before its first link. */
  lemma {:induction false} Run(forms: seq<Form>, w: bool, s: string, word: bool, r: string) returns (d: nat)
    requires Edged(forms, w) && Titled(forms) && r == Linked(forms, s, word)
    ensures Stops(w, s, r, d, word)
    decreases |s|
  {
    if s == "" {
      d := 0;
    } else if LinkAt(s) || Match(forms, s, word) < |forms| {
      StopsAtLink(forms, w, s, word);
      d := 0;
    } else {
      WalkCopy(forms, s, word);
      d := Run(forms, w, s[1..], IsWord(s[0]), r[1..]);
      StopsCons(w, s, r, d, word);
      d := d + 1;
    }
  }

  lemma StopsAtLink(forms: seq<Form>, w: bool, s: string, word: bool)
    requires Edged(forms, w) && Titled(forms)
    requires s != "" && (LinkAt(s) || Match(forms, s, word) < |forms|)
    ensures Stops(w, s, Linked(forms, s, word), 0, word)
  {
    var r := Linked(forms, s, word);
    assert r[0..] == r && s[0..] == s;
    if LinkAt(s) {
      WalkLink(forms, s, word);
    } else {
      WalkMatch(forms, s, word);
      EdgeOf(forms[Match(forms, s, word)].alias, s[..Gap(s)], word);
    }
  }

  /** `again` may stand for `word` before `s`: they agree, or nothing can match
      where `s` starts anyway. */
  predicate Fits(w: bool, s: string, word: bool, again: bool) {
    again == word || (w && !again && (s == "" || !IsWord(s[0])))
  }

  /** Where nothing matched, nothing matches the second time. */
  lemma NoNewMatch(forms: seq<Form>, w: bool, s: string, word: bool, again: bool)
    requires Edged(forms, w) && Titled(forms) && Fits(w, s, word, again)
    requires s != "" && !LinkAt(s) && Match(forms, s, word) == |forms|
    requires !LinkAt(Linked(forms, s, word))
    ensures Match(forms, Linked(forms, s, word), again) == |forms|
  {
    var r := Linked(forms, s, word);
    var i := Match(forms, r, again);
    if i < |forms| {
      MatchedBefore(forms, w, s, word, again, i);
      FirstIs(forms, s[..Gap(s)], word);
      assert false;
    }
  }

  lemma MatchedBefore(forms: seq<Form>, w: bool, s: string, word: bool, again: bool, i: nat)
    requires Edged(forms, w) && Titled(forms) && Fits(w, s, word, again)
    requires s != "" && !LinkAt(s) && Match(forms, s, word) == |forms|
    requires i < |forms| && i == Match(forms, Linked(forms, s, word), again)
    ensures AliasAt(forms[i].alias, s[..Gap(s)], word)
  {
    var r := Linked(forms, s, word);
    FirstIs(forms, r[..Gap(r)], again);
    WalkCopy(forms, s, word);
    var d := Run(forms, w, s, word, r);
    EdgeOf(forms[i].alias, r[..Gap(r)], again);
    SameMatch(forms[i].alias, w, s, r, d, word);
  }

  /** An alias that matches where two texts agree matches in both. */
  lemma SameMatch(a: string, w: bool, s: string, r: string, d: nat, word: bool)
    requires Stops(w, s, r, d, word)
    requires a != "" && IsWord(a[|a| - 1]) == w
    requires AliasAt(a, r[..Gap(r)], word)
    ensures AliasAt(a, s[..Gap(s)], word)
  {
    var n := |a|;
    var u := r[..Gap(r)];
    var v := s[..Gap(s)];
    assert forall k | 0 <= k < |u| :: u[k] == r[k] == s[k] == v[k];
    EdgeOf(a, u, word);
    GapIs(r);
    if n < |v| {
      assert v[n] == s[n];
      if n < |u| {
        assert u[n] == s[n];
      } else if n < d {
        assert r[n..][0] == s[n];
      }
    }
  }

  lemma {:induction false} HeadClose(forms: seq<Form>, s: string, word: bool)
    requires Linked(forms, s, word) != "" && Linked(forms, s, word)[0] == ']'
    ensures s != "" && s[0] == ']'
  {
  }

  /** The first `]` of a text, at `j`, is doubled. */
  predicate Closes(r: string, j: nat) {
    j + 1 < |r| && r[j] == ']' && r[j + 1] == ']' && forall k | 0 <= k < j :: r[k] != ']'
  }

  /** What the first `]` of the walk closes: what it closes in the text, or else a
      link the walk made. What comes after that link is then the walk of a rest
      of the text, with the same links in it. */
  predicate Reached(forms: seq<Form>, w: bool, s: string, r: string, j: nat, at: Option<(string, bool)>) {
    match at
    case None => Agree(s, r, j + 2)
    case Some((rest, after)) =>
      && j + 2 <= |r| && |rest| < |s| && r[j + 2..] == Linked(forms, rest, after)
      && Fits(w, rest, after, false) && Held(rest) == Held(s)
  }

  lemma ReachedCons(forms: seq<Form>, w: bool, s: string, r: string, j: nat, at: Option<(string, bool)>)
    requires s != "" && r != "" && s[0] == r[0] && Held(s) == Held(s[1..])
    requires Reached(forms, w, s[1..], r[1..], j, at)
    ensures Reached(forms, w, s, r, j + 1, at)
  {
    if at == None {
      AgreeCons(s, r, j + 2);
    } else {
      assert r[j + 3..] == r[1..][j + 2..];
    }
  }

  lemma ClosesRest(r: string, j: nat)
    requires Closes(r, j) && j > 0
    ensures Closes(r[1..], j - 1)
  {}

  lemma {:induction false} Reach(forms: seq<Form>, w: bool, s: string, word: bool, r: string, j: nat)
      returns (at: Option<(string, bool)>)
    requires Edged(forms, w) && Titled(forms) && r == Linked(forms, s, word) && Closes(r, j)
    ensures Reached(forms, w, s, r, j, at)
    decreases |s|
  {
    assert s != "";
    if LinkAt(s) || Match(forms, s, word) < |forms| {
      at := ReachLink(forms, w, s, word, j);
    } else {
      WalkCopy(forms, s, word);
      if j == 0 {
        CloseCopied(forms, s, word);
        at := None;
      } else {
        ClosesRest(r, j);
        at := Reach(forms, w, s[1..], IsWord(s[0]), r[1..], j - 1);
        ReachedCons(forms, w, s, r, j - 1, at);
      }
    }
  }

  lemma CloseCopied(forms: seq<Form>, s: string, word: bool)
    requires s != "" && !LinkAt(s) && Match(forms, s, word) == |forms| && Closes(Linked(forms, s, word), 0)
    ensures Agree(s, Linked(forms, s, word), 2)
  {
    WalkCopy(forms, s, word);
    HeadClose(forms, s[1..], IsWord(s[0]));
  }

  lemma ReachLink(forms: seq<Form>, w: bool, s: string, word: bool, j: nat) returns (at: Option<(string, bool)>)
    requires Edged(forms, w) && Titled(forms) && Closes(Linked(forms, s, word), j)
    requires s != "" && (LinkAt(s) || Match(forms, s, word) < |forms|)
    ensures Reached(forms, w, s, Linked(forms, s, word), j, at)
  {
    if LinkAt(s) {
      ReachOld(forms, s, word, j);
      at := None;
    } else {
      at := ReachNew(forms, w, s, word, j);
    }
  }

  lemma ReachOld(forms: seq<Form>, s: string, word: bool, j: nat)
    requires LinkAt(s) && Closes(Linked(forms, s, word), j)
    ensures Agree(s, Linked(forms, s, word), j + 2)
  {
    var r := Linked(forms, s, word);
    WalkLink(forms, s, word);
    LinkCloses(r, j);
    forall k | 0 <= k < j + 2 ensures s[k] == r[k] { assert s[..j + 2][k] == r[..j + 2][k]; }
  }

  lemma ReachNew(forms: seq<Form>, w: bool, s: string, word: bool, j: nat) returns (at: Option<(string, bool)>)
    requires Edged(forms, w) && Titled(forms) && Closes(Linked(forms, s, word), j)
    requires s != "" && !LinkAt(s) && Match(forms, s, word) < |forms|
    ensures Reached(forms, w, s, Linked(forms, s, word), j, at)
  {
    WalkMatch(forms, s, word);
    LinkCloses(Linked(forms, s, word), j);
    AfterMatch(forms, w, s, word);
    var n := |forms[Match(forms, s, word)].alias|;
    HeldRest(s, n);
    at := Some((s[n..], IsWord(s[n - 1])));
  }

  lemma LinkCloses(r: string, j: nat)
    requires LinkAt(r) && Closes(r, j)
    ensures LinkLen(r) == j + 2
  {
    FirstCloseIs(r, 2, j);
  }

  lemma AfterMatch(forms: seq<Form>, w: bool, s: string, word: bool)
    requires Edged(forms, w) && Titled(forms)
    requires s != "" && !LinkAt(s) && Match(forms, s, word) < |forms|
    ensures var n := |forms[Match(forms, s, word)].alias|;
            1 <= n <= Gap(s) && Fits(w, s[n..], IsWord(s[n - 1]), false)
  {
    WalkMatch(forms, s, word);
    var a := forms[Match(forms, s, word)].alias;
    var n := |a|;
    EdgeOf(a, s[..Gap(s)], word);
    if n < |s| {
      GapIs(s);
      if n < Gap(s) { assert s[..Gap(s)][n] == s[n]; } else { assert s[Gap(s)..][0] == s[n]; }
    }
  }

  lemma AgreedLink(s: string, r: string)
    requires LinkAt(r) && Agree(s, r, LinkLen(r))
    ensures LinkAt(s)
  {
    FirstCloseClear(r, 2);
    FirstCloseIs(s, 2, FirstClose(r, 2));
  }

  /** What a link made of the walk holds, when it starts before one the walk made. */
  lemma LinkReach(forms: seq<Form>, w: bool, s: string, word: bool, r: string) returns (rest: string, after: bool)
    requires Edged(forms, w) && Titled(forms) && s != "" && !LinkAt(s)
    requires r == Linked(forms, s, word) && LinkAt(r)
    ensures Reached(forms, w, s, r, LinkLen(r) - 2, Some((rest, after)))
  {
    OpensAndCloses(r);
    var at := Reach(forms, w, s, word, r, LinkLen(r) - 2);
    if at == None { AgreedLink(s, r); }
    rest, after := at.value.0, at.value.1;
  }

  lemma OpensAndCloses(r: string)
    requires LinkAt(r)
    ensures Closes(r, LinkLen(r) - 2)
  {
    FirstCloseClear(r, 2);
  }

  // ---------------------------------------------------------------------
  // Once is enough
  // ---------------------------------------------------------------------

  lemma {:induction false} WalkTwice(forms: seq<Form>, w: bool, s: string, word: bool, again: bool)
    requires Edged(forms, w) && Titled(forms) && Fits(w, s, word, again)
    ensures Linked(forms, Linked(forms, s, word), again) == Linked(forms, s, word)
    decreases |s|
  {
    var r := Linked(forms, s, word);
    if s == "" {
    } else if LinkAt(s) {
      WalkLink(forms, s, word);
      WalkTwice(forms, w, s[LinkLen(s)..], false, false);
      LinkFixed(forms, r, again);
    } else if LinkAt(r) {
      var rest, after := LinkReach(forms, w, s, word, r);
      WalkTwice(forms, w, rest, after, false);
      LinkFixed(forms, r, again);
    } else {
      if Match(forms, s, word) < |forms| { WalkMatch(forms, s, word); }
      WalkCopy(forms, s, word);
      NoNewMatch(forms, w, s, word, again);
      WalkTwice(forms, w, s[1..], IsWord(s[0]), IsWord(s[0]));
      CopyFixed(forms, r, again);
    }
  }

  lemma LinkFixed(forms: seq<Form>, r: string, word: bool)
    requires LinkAt(r) && Linked(forms, r[LinkLen(r)..], false) == r[LinkLen(r)..]
    ensures Linked(forms, r, word) == r
  {
    WalkLink(forms, r, word);
  }

  lemma CopyFixed(forms: seq<Form>, r: string, word: bool)
    requires r != "" && !LinkAt(r) && Match(forms, r, word) == |forms|
    requires Linked(forms, r[1..], IsWord(r[0])) == r[1..]
    ensures Linked(forms, r, word) == r
  {
    WalkCopy(forms, r, word);
    var t := Linked(forms, r, word);
    assert t == [t[0]] + t[1..] == [r[0]] + r[1..] == r;
  }

  // ---------------------------------------------------------------------
  // Links already there stay, in order
  // ---------------------------------------------------------------------

  /** `part` is `whole` with some of its elements left out. */
  predicate Within(part: seq<string>, whole: seq<string>) {
    part == [] || (whole != [] && (if part[0] == whole[0] then Within(part[1..], whole[1..])
        else Within(part, whole[1..])))
  }

  lemma {:induction false} WithinMore(part: seq<string>, x: string, whole: seq<string>)
    requires Within(part, whole)
    ensures Within(part, [x] + whole)
    decreases |part| + |whole|, 1
  {
    assert ([x] + whole)[1..] == whole;
    if part != [] && part[0] == x {
      if part[0] == whole[0] {
        WithinMore(part[1..], whole[0], whole[1..]);
        assert [whole[0]] + whole[1..] == whole;
      } else {
        WithinRest(part, whole);
      }
    }
  }

  lemma {:induction false} WithinRest(part: seq<string>, whole: seq<string>)
    requires Within(part, whole) && part != []
    ensures Within(part[1..], whole)
    decreases |part| + |whole|, 0
  {
    if part[0] == whole[0] {
      WithinMore(part[1..], whole[0], whole[1..]);
      assert [whole[0]] + whole[1..] == whole;
    } else {
      WithinRest(part, whole[1..]);
      WithinMore(part[1..], whole[0], whole[1..]);
      assert [whole[0]] + whole[1..] == whole;
    }
  }

  lemma {:induction false} LinksStay(forms: seq<Form>, w: bool, s: string, word: bool)
    requires Edged(forms, w) && Titled(forms)
    ensures Within(Held(s), Held(Linked(forms, s, word)))
    decreases |s|
  {
    var r := Linked(forms, s, word);
    if s == "" {
    } else if LinkAt(s) {
      WalkLink(forms, s, word);
      LinksStay(forms, w, s[LinkLen(s)..], false);
      var more := Held(s[LinkLen(s)..]);
      assert Held(s)[1..] == more && Held(r)[1..] == Held(r[LinkLen(r)..]);
    } else if LinkAt(r) {
      var rest, after := LinkReach(forms, w, s, word, r);
      LinksStay(forms, w, rest, after);
      WithinMore(Held(s), r[..LinkLen(r)], Held(r[LinkLen(r)..]));
    } else {
      if Match(forms, s, word) < |forms| { WalkMatch(forms, s, word); }
      WalkCopy(forms, s, word);
      LinksStay(forms, w, s[1..], IsWord(s[0]));
    }
  }

  /** A pass over text and aliases without placeholder characters succeeds, keeps
      every link already there, in order, and a second pass changes nothing. */
  lemma AppliedTwice(forms: seq<Form>, w: bool, text: string)
    requires CleanForms(forms) && NoMarks(text) && Edged(forms, w) && Titled(forms)
    requires forall k: nat :: !Numbered(forms, k)
    ensures var r := Applied(forms, text);
            r.Some? && Within(Held(text), Held(r.value)) && Applied(forms, r.value) == r
  {
    var r := Linked(forms, text, false);
    AppliedIffNotNumbered(forms, text);
    LinkedClean(forms, text, false);
    AppliedIffNotNumbered(forms, r);
    LinksStay(forms, w, text, false);
    WalkTwice(forms, w, text, false, false);
  }

  // ---------------------------------------------------------------------
  // Edges of two kinds
  // ---------------------------------------------------------------------

  lemma {:induction false} NoOpenGap(s: string)
    requires '[' !in s
    ensures Gap(s) == |s| && (s != "" ==> !LinkAt(s))
  {
    GapIs(s);
    assert forall k | 0 <= k < |s| :: s[k..][0] == s[k];
    assert s[0..] == s;
  }

  lemma {:induction false} CopiesShort(f: Form, s: string, word: bool)
    requires '[' !in s && (|s| < |f.alias| || (word && |s| == |f.alias|))
    ensures Linked([f], s, word) == s
    decreases |s|
  {
    if s != "" {
      assert !AliasAt(f.alias, s, word);
      FirstNone([f], s, word);
      CopiesOne([f], s, word);
      CopiesShort(f, s[1..], IsWord(s[0]));
    }
  }

  lemma MatchesWhole(f: Form, rest: string)
    requires f.alias != "" && '[' !in f.alias
    requires rest != "" ==> !IsWord(rest[0])
    requires Gap(f.alias + rest) >= |f.alias|
    ensures Linked([f], f.alias + rest, false)
            == Link(f.title) + Linked([f], rest, IsWord(f.alias[|f.alias| - 1]))
  {
    var s := f.alias + rest;
    var u := s[..Gap(s)];
    assert u[..|f.alias|] == f.alias;
    assert AliasAt(f.alias, u, false);
    assert s[|f.alias|..] == rest;
  }

  lemma MatchesAlone(f: Form)
    requires f.alias != "" && '[' !in f.alias
    ensures Linked([f], f.alias, false) == Link(f.title)
  {
    assert f.alias + "" == f.alias;
    NoOpenGap(f.alias);
    MatchesWhole(f, "");
  }

  predicate WordThenNot(a: string) { a != "" && '[' !in a && IsWord(a[0]) && !IsWord(a[|a| - 1]) }

  /** Twice a word-opened alias with another edge at its end: the first is not
      free, and nothing matches before the second. */
  lemma NotFree(f: Form, p: nat, word: bool)
    requires WordThenNot(f.alias) && p < |f.alias|
    ensures var a := f.alias;
            Linked([f], a[p..] + a, word) == [a[p]] + Linked([f], a[p + 1..] + a, IsWord(a[p]))
  {
    var a := f.alias;
    var s := a[p..] + a;
    NotFreeAt(a, p, word);
    FirstNone([f], s, word);
    CopiesOne([f], s, word);
    assert s[0] == a[p] && s[1..] == a[p + 1..] + a;
  }

  lemma NotFreeAt(a: string, p: nat, word: bool)
    requires WordThenNot(a) && p < |a|
    ensures !AliasAt(a, a[p..] + a, word)
  {
    var s := a[p..] + a;
    assert s[|a|] == a[p] == s[0];
    if AliasAt(a, s, word) { EdgeOf(a, s, word); }
  }

  lemma CopiesOne(forms: seq<Form>, s: string, word: bool)
    requires '[' !in s && s != "" && First(forms, s, word) == |forms|
    ensures Linked(forms, s, word) == [s[0]] + Linked(forms, s[1..], IsWord(s[0]))
  {
    NoOpenGap(s);
    assert s[..Gap(s)] == s;
    assert Step(forms, s, word) == 1 && StepText(forms, s, word) == [s[0]];
  }

  lemma {:induction false} SlidesOver(f: Form, p: nat, word: bool)
    requires WordThenNot(f.alias) && p <= |f.alias| && (p == |f.alias| ==> !word)
    ensures Linked([f], f.alias[p..] + f.alias, word) == f.alias[p..] + Link(f.title)
    decreases |f.alias| - p
  {
    var a := f.alias;
    if p == |a| {
      MatchesAlone(f);
      assert a[p..] + a == a && a[p..] + Link(f.title) == Link(f.title);
    } else {
      NotFree(f, p, word);
      SlidesOver(f, p + 1, IsWord(a[p]));
      Cons(a[p..], Link(f.title));
    }
  }

  predicate Settles(f: Form, s: string) {
    Linked([f], Linked([f], s, false), false) == Linked([f], s, false)
  }

  /** The source's own form `Title (jid)` starts in a word character and does not
      end in one; twice in a row, with nothing between, the second is linked by
      the first pass and the first by the second. */
  lemma LinkedOneByOne(f: Form)
    requires WordThenNot(f.alias)
    ensures !Settles(f, f.alias + f.alias)
  {
    var a := f.alias;
    var l := Link(f.title);
    assert a[0..] == a;
    SlidesOver(f, 0, false);
    var s := a + l;
    GapIs(s);
    assert forall k | 0 <= k < |a| :: s[k..][0] == a[k];
    MatchesWhole(f, l);
    assert Linked([f], s, false)[0] == '[' && s[0] == a[0];
  }

  lemma LinkedInTurn(f: Form)
    requires var a := f.alias; a != "" && '[' !in a && !IsWord(a[0]) && IsWord(a[|a| - 1])
    requires f.title != "" && ']' !in f.title
    ensures !Settles(f, f.alias + f.alias)
  {
    var a := f.alias;
    var l := Link(f.title);
    NoOpenGap(a + a);
    MatchesWhole(f, a);
    CopiesShort(f, a, true);
    AfterLink(f);
    assert (l + l)[|l|] == '[' && (l + a)[|l|] == a[0];
  }

  lemma AfterLink(f: Form)
    requires f.alias != "" && '[' !in f.alias && f.title != "" && ']' !in f.title
    ensures Linked([f], Link(f.title) + f.alias, false) == Link(f.title) + Link(f.title)
  {
    var l := Link(f.title);
    var s := l + f.alias;
    LinkIsLink(f.title);
    LinkStarts(l, f.alias);
    WalkLink([f], s, false);
    assert s[..|l|] == l && s[|l|..] == f.alias;
    MatchesAlone(f);
  }

  /** One alias is settled by one pass, on every text, exactly when its two edges
      are of a kind. */
  lemma SettlesIffEdged(f: Form)
    requires f.alias != "" && '[' !in f.alias && f.title != "" && ']' !in f.title
    ensures (forall s: string :: Settles(f, s)) <==> IsWord(f.alias[0]) == IsWord(f.alias[|f.alias| - 1])
  {
    var w := IsWord(f.alias[0]);
    if IsWord(f.alias[|f.alias| - 1]) == w {
      forall s: string ensures Settles(f, s) { WalkTwice([f], w, s, false, false); }
    } else if w {
      LinkedOneByOne(f);
    } else {
      LinkedInTurn(f);
    }
  }

  /** And so is the function itself, with its placeholders, on every text without
      placeholder characters, if the alias is no number. */
  lemma AppliedSettlesIff(f: Form)
    requires CleanForms([f]) && '[' !in f.alias && f.title != "" && ']' !in f.title
             && forall k: nat :: !Numbered([f], k)
    ensures (forall s | NoMarks(s) :: Applied([f], s).Some? && Applied([f], Applied([f], s).value) == Applied([f], s))
            <==> IsWord(f.alias[0]) == IsWord(f.alias[|f.alias| - 1])
  {
    assert f.alias == [f][0].alias;
    forall s | NoMarks(s)
      ensures Applied([f], s).Some? && (Applied([f], Applied([f], s).value) == Applied([f], s) <==> Settles(f, s))
    {
      AppliedIffNotNumbered([f], s);
      LinkedClean([f], s, false);
      AppliedIffNotNumbered([f], Linked([f], s, false));
    }
    if IsWord(f.alias[0]) == IsWord(f.alias[|f.alias| - 1]) {
      SettlesIffEdged(f);
    } else {
      assert NoMarks(f.alias + f.alias);
      if IsWord(f.alias[0]) { LinkedOneByOne(f); } else { LinkedInTurn(f); }
    }
  }
}
