/** What `apply_member_wikilinks` (shared/wiki/names.py) writes, told from the
    pairs of alias and title it is given. */
module NamesGiven {
  import opened Options
  import opened Parts
  import opened Text
  import opened Names

  // ---------------------------------------------------------------------
  // What is to be written where
  // ---------------------------------------------------------------------

  /** A wikilink runs from `i` to `j`. */
  predicate LinkOn(text: string, i: nat, j: nat) {
    && i + 5 <= j <= |text| && text[i] == text[i + 1] == '[' && text[j - 2] == text[j - 1] == ']'
    && forall k | i + 2 <= k < j - 2 :: text[k] != ']'
  }

  ghost predicate OpensAt(text: string, i: nat) { exists j: nat :: LinkOn(text, i, j) }

  /** The pair's alias, trimmed, stands free at `i`, ignoring case, and no link
      opens within it. Pairs with a blank part stand nowhere. */
  ghost predicate Standing(aliases: seq<(string, string)>, k: nat, text: string, i: nat) {
    && k < |aliases| && Trim(aliases[k].0) != "" && Trim(aliases[k].1) != ""
    && var a := Trim(aliases[k].0);
       && i + |a| <= |text| && (forall j | 0 <= j < |a| :: LowerChar(text[i + j]) == LowerChar(a[j]))
       && (i == 0 || !IsWord(text[i - 1])) && (i + |a| == |text| || !IsWord(text[i + |a|]))
       && forall j: nat | i <= j < i + |a| :: !OpensAt(text, j)
  }

  /** Of those that stand at `i` the longest, and of one length the first given. */
  ghost predicate Chosen(aliases: seq<(string, string)>, k: nat, text: string, i: nat) {
    && Standing(aliases, k, text, i)
    && forall m: nat | Standing(aliases, m, text, i) ::
         |Trim(aliases[m].0)| < |Trim(aliases[k].0)| || (|Trim(aliases[m].0)| == |Trim(aliases[k].0)| && k <= m)
  }

  /** `text[i..j]` is written as `out`: a link as it is, the chosen alias as a
      link to its title, and any other character as it is. */
  ghost predicate Piece(aliases: seq<(string, string)>, text: string, i: nat, j: nat, out: string) {
    && i < j <= |text|
    && if OpensAt(text, i) then LinkOn(text, i, j) && out == text[i..j]
       else (exists k: nat :: Chosen(aliases, k, text, i) && j == i + |Trim(aliases[k].0)|
                              && out == "[[" + Trim(aliases[k].1) + "]]")
            || ((forall k: nat :: !Standing(aliases, k, text, i)) && j == i + 1 && out == [text[i]])
  }

  /** The text from `i` on, cut into pieces. */
  ghost predicate Pieces(aliases: seq<(string, string)>, text: string, i: nat, at: seq<nat>, outs: seq<string>) {
    && |at| == |outs| + 1 && at[0] == i && at[|outs|] == |text|
    && forall n | 0 <= n < |outs| :: Piece(aliases, text, at[n], at[n + 1], outs[n])
  }

  function Concat(outs: seq<string>): string { if outs == [] then "" else outs[0] + Concat(outs[1..]) }

  // ---------------------------------------------------------------------
  // The forms, and the pairs they come from
  // ---------------------------------------------------------------------

  /** The form of a pair. */
  function FormAt(aliases: seq<(string, string)>, k: nat): Form
    requires k < |aliases|
  {
    Form(Trim(aliases[k].0), Trim(aliases[k].1))
  }

  lemma {:induction false} StrippedAt(aliases: seq<(string, string)>) returns (at: seq<nat>)
    ensures |at| == |Stripped(aliases)|
    ensures forall n | 0 <= n < |at| :: at[n] < |aliases| && Stripped(aliases)[n] == FormAt(aliases, at[n])
    ensures forall m, n | 0 <= m < n < |at| :: at[m] < at[n]
    ensures forall k: nat | k < |aliases| :: k in at <==> Usable(aliases[k])
  {
    hide Trim, Usable, Places, Stripped, FormAt;
    at := [];
    if aliases == [] {
      NothingStripped();
    } else {
      var a := StrippedAt(aliases[1..]);
      at := Places(Usable(aliases[0]), a);
      StrippedIndex(aliases, a);
      StrippedHas(aliases, a);
    }
  }

  lemma NothingStripped()
    ensures Stripped([]) == []
  {}

  lemma StrippedCons(aliases: seq<(string, string)>)
    requires aliases != []
    ensures Stripped(aliases)
            == (if Usable(aliases[0]) then [FormAt(aliases, 0)] else []) + Stripped(aliases[1..])
  {
    hide Trim;
  }

  lemma StrippedIndex(aliases: seq<(string, string)>, a: seq<nat>)
    requires aliases != [] && |a| == |Stripped(aliases[1..])|
    requires forall n | 0 <= n < |a| ::
               a[n] < |aliases| - 1 && Stripped(aliases[1..])[n] == FormAt(aliases[1..], a[n])
    requires forall m, n | 0 <= m < n < |a| :: a[m] < a[n]
    ensures var at := Places(Usable(aliases[0]), a);
            && |at| == |Stripped(aliases)|
            && (forall n | 0 <= n < |at| :: at[n] < |aliases| && Stripped(aliases)[n] == FormAt(aliases, at[n]))
            && forall m, n | 0 <= m < n < |at| :: at[m] < at[n]
  {
    hide Trim, Usable, Places, Stripped, FormAt;
    PlacesAre(Usable(aliases[0]), a);
    StrippedCons(aliases);
    var d := if Usable(aliases[0]) then 1 else 0;
    var at := Places(Usable(aliases[0]), a);
    forall n | 0 <= n < |at| ensures at[n] < |aliases| && Stripped(aliases)[n] == FormAt(aliases, at[n]) {
      if n >= d {
        assert at[n - d + d] == a[n - d] + 1;
        FormLater(aliases, a[n - d]);
      }
    }
    forall m, n | 0 <= m < n < |at| ensures at[m] < at[n] { PlacesGrow(Usable(aliases[0]), a, m, n); }
  }

  lemma FormLater(aliases: seq<(string, string)>, k: nat)
    requires k + 1 < |aliases|
    ensures FormAt(aliases[1..], k) == FormAt(aliases, k + 1)
  {
    hide Trim;
  }

  lemma StrippedHas(aliases: seq<(string, string)>, a: seq<nat>)
    requires aliases != [] && forall k: nat | k < |aliases| - 1 :: k in a <==> Usable(aliases[1..][k])
    ensures forall k: nat | k < |aliases| :: k in Places(Usable(aliases[0]), a) <==> Usable(aliases[k])
  {
    hide Trim, Usable, Places;
    PlacesAre(Usable(aliases[0]), a);
    forall k: nat | k < |aliases| ensures k in Places(Usable(aliases[0]), a) <==> Usable(aliases[k]) {
      if k > 0 {
        var j: nat := k - 1;
        assert aliases[k] == aliases[1..][j];
      }
    }
  }

  /** Where a form goes in: after the longer ones. */
  lemma {:induction false} InsertAt(f: Form, forms: seq<Form>) returns (p: nat)
    ensures p <= |forms| && Insert(f, forms) == forms[..p] + [f] + forms[p..]
    ensures (forall n | 0 <= n < p :: |forms[n].alias| > |f.alias|)
            && (p < |forms| ==> |forms[p].alias| <= |f.alias|)
  {
    p := 0;
    if forms != [] && |forms[0].alias| > |f.alias| {
      var q := InsertAt(f, forms[1..]);
      p := q + 1;
      assert forms[..p] == [forms[0]] + forms[1..][..p - 1] && forms[p..] == forms[1..][p - 1..];
    }
  }

  /** The earlier place holds the longer alias, or one as long from an earlier place
      of the list sorted. */
  predicate InOrder(forms: seq<Form>, from: seq<nat>)
    requires |from| == |forms|
  {
    forall m, n | 0 <= m < n < |forms| ::
      |forms[m].alias| > |forms[n].alias| || (|forms[m].alias| == |forms[n].alias| && from[m] < from[n])
  }

  /** Sorting keeps the order of aliases of one length. */
  lemma {:induction false} SortedAt(forms: seq<Form>) returns (from: seq<nat>)
    ensures |from| == |Sorted(forms)| == |forms| && InOrder(Sorted(forms), from)
    ensures forall n | 0 <= n < |from| :: from[n] < |forms| && Sorted(forms)[n] == forms[from[n]]
    ensures forall k: nat | k < |forms| :: k in from
  {
    from := [];
    if forms != [] {
      var rest := Sorted(forms[1..]);
      var r := SortedAt(forms[1..]);
      var p := InsertAt(forms[0], rest);
      from := Shifted(r[..p]) + [0] + Shifted(r[p..]);
      InsertedOrder(forms, rest, r, p, from);
    }
  }

  lemma InsertedOrder(forms: seq<Form>, rest: seq<Form>, r: seq<nat>, p: nat, from: seq<nat>)
    requires forms != [] && p <= |rest| == |r| == |forms| - 1 && InOrder(rest, r)
    requires forall n | 0 <= n < |r| :: r[n] < |forms| - 1 && rest[n] == forms[r[n] + 1]
    requires (forall n | 0 <= n < p :: |rest[n].alias| > |forms[0].alias|)
             && (p < |rest| ==> |rest[p].alias| <= |forms[0].alias|)
    requires forall k: nat | k < |forms| - 1 :: k in r
    requires from == Shifted(r[..p]) + [0] + Shifted(r[p..])
    ensures var s := rest[..p] + [forms[0]] + rest[p..];
            && |s| == |from| == |forms| && InOrder(s, from)
            && (forall n | 0 <= n < |from| :: from[n] < |forms| && s[n] == forms[from[n]])
            && forall k: nat | k < |forms| :: k in from
  {
    hide InOrder;
    var s := rest[..p] + [forms[0]] + rest[p..];
    FromIs(r, p, from);
    FromHas(r, p, from);
    hide Shifted;
    forall n | p <= n < |rest| ensures s[n + 1] == rest[n] && from[n + 1] == r[n] + 1 {}
    OrderGrows(forms[0], rest, r, p, s, from);
  }

  lemma OrderGrows(f: Form, rest: seq<Form>, r: seq<nat>, p: nat, s: seq<Form>, from: seq<nat>)
    requires p <= |rest| == |r| && |s| == |from| == |rest| + 1 && InOrder(rest, r)
    requires (forall n | 0 <= n < p :: |rest[n].alias| > |f.alias|) && (p < |rest| ==> |rest[p].alias| <= |f.alias|)
    requires s[p] == f && from[p] == 0 && forall n | 0 <= n < p :: s[n] == rest[n] && from[n] == r[n] + 1
    requires forall n | p <= n < |rest| :: s[n + 1] == rest[n] && from[n + 1] == r[n] + 1
    ensures InOrder(s, from)
  {
    forall n | p <= n < |rest| ensures |rest[n].alias| <= |f.alias| {}
    forall m, n | 0 <= m < n < |s|
      ensures |s[m].alias| > |s[n].alias| || (|s[m].alias| == |s[n].alias| && from[m] < from[n])
    {
      if m > p { assert s[m - 1 + 1] == rest[m - 1]; }
      if n > p { assert s[n - 1 + 1] == rest[n - 1]; }
    }
  }

  lemma FromHas(r: seq<nat>, p: nat, from: seq<nat>)
    requires p <= |r| && from == Shifted(r[..p]) + [0] + Shifted(r[p..]) && forall k: nat | k < |r| :: k in r
    ensures forall k: nat | k <= |r| :: k in from
  {
    FromIs(r, p, from);
    hide Shifted;
    forall k: nat | k <= |r| ensures k in from {
      if k == 0 { assert from[p] == 0; } else {
        var j: nat := k - 1;
        assert j in r;
        var n :| 0 <= n < |r| && r[n] == j;
        assert from[if n < p then n else n + 1] == k;
      }
    }
  }

  lemma FromIs(r: seq<nat>, p: nat, from: seq<nat>)
    requires p <= |r| && from == Shifted(r[..p]) + [0] + Shifted(r[p..])
    ensures |from| == |r| + 1
    ensures forall n | 0 <= n < |from| :: from[n] == if n < p then r[n] + 1 else if n == p then 0 else r[n - 1] + 1
  {}

  /** The forms are the pairs with both parts non-blank, each trimmed; longest alias
      first, and aliases of one length in the order given. */
  lemma FormsAt(aliases: seq<(string, string)>) returns (src: seq<nat>)
    ensures |src| == |Forms(aliases)| && InOrder(Forms(aliases), src)
    ensures forall n | 0 <= n < |src| :: src[n] < |aliases| && Forms(aliases)[n] == FormAt(aliases, src[n])
    ensures forall k: nat | k < |aliases| :: k in src <==> Trim(aliases[k].0) != "" && Trim(aliases[k].1) != ""
  {
    hide Trim, Stripped, Sorted;
    var at := StrippedAt(aliases);
    var from := SortedAt(Stripped(aliases));
    src := seq(|from|, n requires 0 <= n < |from| => at[from[n]]);
    forall k: nat | k < |aliases| ensures k in src <==> k in at {
      if k in at {
        var n :| 0 <= n < |at| && at[n] == k;
        assert n in from;
        var m :| 0 <= m < |from| && from[m] == n;
        assert src[m] == k;
      }
    }
  }

  // ---------------------------------------------------------------------
  // One place
  // ---------------------------------------------------------------------

  lemma LinkThere(text: string, i: nat)
    requires i <= |text|
    ensures LinkAt(text[i..]) <==> OpensAt(text, i)
    ensures forall j: nat | LinkOn(text, i, j) :: LinkAt(text[i..]) && j == i + LinkLen(text[i..])
    ensures LinkAt(text[i..]) ==> LinkOn(text, i, i + LinkLen(text[i..]))
  {
    var s := text[i..];
    assert forall k | 0 <= k < |s| :: s[k] == text[i + k];
    forall j: nat | LinkOn(text, i, j) ensures FirstClose(s, 2) == j - 2 - i {
      CloseIs(s, 2, j - 2 - i);
    }
    if LinkAt(s) {
      FirstCloseClear(s, 2);
      assert LinkOn(text, i, i + LinkLen(s)) by {
        forall k | i + 2 <= k < i + LinkLen(s) - 2 ensures text[k] != ']' { assert text[k] == s[k - i]; }
      }
    }
  }

  lemma {:induction false} CloseIs(s: string, i: nat, j: nat)
    requires i <= j < |s| && s[j] == ']' && forall k | i <= k < j :: s[k] != ']'
    ensures FirstClose(s, i) == j
    decreases j - i
  {
    if i < j { CloseIs(s, i + 1, j); }
  }

  /** Whether a word character comes before. */
  predicate WordBefore(text: string, i: nat)
    requires i <= |text|
  {
    i > 0 && IsWord(text[i - 1])
  }

  /** An alias matches before the next link exactly if it stands free. */
  lemma StandsIff(aliases: seq<(string, string)>, k: nat, text: string, i: nat)
    requires i < |text| && !LinkAt(text[i..]) && k < |aliases|
    ensures Standing(aliases, k, text, i)
            <==> Trim(aliases[k].0) != "" && Trim(aliases[k].1) != ""
                 && AliasAt(Trim(aliases[k].0), text[i..][..Gap(text[i..])], WordBefore(text, i))
  {
    hide Trim, LinkAt, IsWord, LinkOn;
    var a, s := Trim(aliases[k].0), text[i..];
    var g := Gap(s);
    GapIs(s);
    forall j: nat | i <= j < i + g ensures !OpensAt(text, j) {
      assert text[j..] == s[j - i..];
      assert !LinkAt(s[j - i..]);
      LinkThere(text, j);
    }
    if g < |s| {
      assert text[i + g..] == s[g..];
      LinkThere(text, i + g);
      LinkOpens(text, i + g);
    }
    var u := s[..g];
    assert forall j | 0 <= j < g :: u[j] == text[i + j];
    if i + |a| <= |text| && |a| > g { assert i <= i + g < i + |a| && OpensAt(text, i + g); }
  }

  lemma LinkOpens(text: string, i: nat)
    requires i < |text| && OpensAt(text, i)
    ensures !IsWord(text[i])
  {}

  /** The first form that matches is that of the chosen pair. */
  lemma FirstIsChosen(aliases: seq<(string, string)>, src: seq<nat>, text: string, i: nat)
    requires i < |text| && !LinkAt(text[i..])
    requires |src| == |Forms(aliases)| && InOrder(Forms(aliases), src)
    requires forall n | 0 <= n < |src| :: src[n] < |aliases| && Forms(aliases)[n] == FormAt(aliases, src[n])
    requires forall k: nat | k < |aliases| :: k in src <==> Trim(aliases[k].0) != "" && Trim(aliases[k].1) != ""
    ensures var f := First(Forms(aliases), text[i..][..Gap(text[i..])], WordBefore(text, i));
            if f < |src| then Chosen(aliases, src[f], text, i) else forall k: nat :: !Standing(aliases, k, text, i)
  {
    hide Trim, LinkAt, IsWord, LinkOn, Forms, AliasAt, Standing, Gap;
    var forms, u, word := Forms(aliases), text[i..][..Gap(text[i..])], WordBefore(text, i);
    FirstIs(forms, u, word);
    var f := First(forms, u, word);
    forall k: nat | Standing(aliases, k, text, i)
      ensures exists n :: f <= n < |src| && src[n] == k
    {
      StandsFits(aliases, k, text, i);
      StandsIff(aliases, k, text, i);
      var n :| 0 <= n < |src| && src[n] == k;
      assert forms[n].alias == Trim(aliases[k].0);
      assert n >= f;
    }
    if f < |src| {
      assert src[f] in src;
      StandsIff(aliases, src[f], text, i);
      forall m: nat | Standing(aliases, m, text, i)
        ensures |Trim(aliases[m].0)| < |Trim(aliases[src[f]].0)|
                || (|Trim(aliases[m].0)| == |Trim(aliases[src[f]].0)| && src[f] <= m)
      {
        var n :| f <= n < |src| && src[n] == m;
        assert forms[n].alias == Trim(aliases[m].0) && forms[f].alias == Trim(aliases[src[f]].0);
      }
    }
  }

  lemma StandsFits(aliases: seq<(string, string)>, k: nat, text: string, i: nat)
    requires Standing(aliases, k, text, i)
    ensures k < |aliases| && Trim(aliases[k].0) != "" && Trim(aliases[k].1) != ""
  {}

  // ---------------------------------------------------------------------
  // The walk
  // ---------------------------------------------------------------------

  lemma PiecesCons(aliases: seq<(string, string)>, text: string, i: nat, j: nat, out: string, at: seq<nat>,
      outs: seq<string>)
    requires Piece(aliases, text, i, j, out) && Pieces(aliases, text, j, at, outs)
    ensures Pieces(aliases, text, i, [i] + at, [out] + outs) && Concat([out] + outs) == out + Concat(outs)
  {
    hide Piece;
    assert ([out] + outs)[1..] == outs;
    var at', outs' := [i] + at, [out] + outs;
    forall n | 0 <= n < |outs'| ensures Piece(aliases, text, at'[n], at'[n + 1], outs'[n]) {
      if n > 0 { assert Piece(aliases, text, at[n - 1], at[n], outs[n - 1]); }
    }
  }

  /** A step of the walk is a piece. */
  lemma StepIsPiece(aliases: seq<(string, string)>, src: seq<nat>, text: string, i: nat)
    requires i < |text| && !LinkAt(text[i..])
    requires |src| == |Forms(aliases)| && InOrder(Forms(aliases), src)
    requires forall n | 0 <= n < |src| :: src[n] < |aliases| && Forms(aliases)[n] == FormAt(aliases, src[n])
    requires forall k: nat | k < |aliases| :: k in src <==> Trim(aliases[k].0) != "" && Trim(aliases[k].1) != ""
    ensures var s := text[i..]; var forms := Forms(aliases); var m := Step(forms, s, WordBefore(text, i));
            i + m <= |text| && Piece(aliases, text, i, i + m, StepText(forms, s, WordBefore(text, i)))
  {
    hide Trim, LinkAt, IsWord, LinkOn, Forms, AliasAt, Standing, Chosen;
    LinkThere(text, i);
    FirstIsChosen(aliases, src, text, i);
    var s, forms := text[i..], Forms(aliases);
    var f := First(forms, s[..Gap(s)], WordBefore(text, i));
    assert s[0] == text[i] && s[..Gap(s)][0] == s[0];
    if f < |src| {
      assert Chosen(aliases, src[f], text, i) && forms[f] == FormAt(aliases, src[f]);
    }
  }

  lemma {:induction false} WalkIsPieces(aliases: seq<(string, string)>, src: seq<nat>, text: string, i: nat)
      returns (at: seq<nat>, outs: seq<string>)
    requires i <= |text|
    requires |src| == |Forms(aliases)| && InOrder(Forms(aliases), src)
    requires forall n | 0 <= n < |src| :: src[n] < |aliases| && Forms(aliases)[n] == FormAt(aliases, src[n])
    requires forall k: nat | k < |aliases| :: k in src <==> Trim(aliases[k].0) != "" && Trim(aliases[k].1) != ""
    ensures Pieces(aliases, text, i, at, outs)
    ensures Concat(outs) == Linked(Forms(aliases), text[i..], WordBefore(text, i))
    decreases |text| - i
  {
    hide Trim, LinkAt, Forms, Piece, Pieces, Gap, Step, StepText, IsWord, Linked, LinkLen, Concat;
    var s, forms, word := text[i..], Forms(aliases), WordBefore(text, i);
    if i == |text| {
      at, outs := [i], [];
      NoPieces(aliases, text);
      assert s == "";
    } else if LinkAt(s) {
      var n := LinkLen(s);
      LinkPiece(aliases, text, i);
      LinkedAtLink(forms, s, word);
      at, outs := WalkIsPieces(aliases, src, text, i + n);
      assert text[i + n..] == s[n..];
      PiecesCons(aliases, text, i, i + n, text[i..i + n], at, outs);
      at, outs := [i] + at, [text[i..i + n]] + outs;
      assert text[i..i + n] == s[..n];
    } else {
      var m := Step(forms, s, word);
      StepIsPiece(aliases, src, text, i);
      LinkedAtText(forms, s, word);
      at, outs := WalkIsPieces(aliases, src, text, i + m);
      assert text[i + m..] == s[m..] && text[i + m - 1] == s[m - 1];
      PiecesCons(aliases, text, i, i + m, StepText(forms, s, word), at, outs);
      at, outs := [i] + at, [StepText(forms, s, word)] + outs;
    }
  }

  lemma NoPieces(aliases: seq<(string, string)>, text: string)
    ensures Pieces(aliases, text, |text|, [|text|], [])
    ensures Concat([]) == "" && forall word :: Linked(Forms(aliases), "", word) == ""
  {}

  lemma LinkedAtLink(forms: seq<Form>, s: string, word: bool)
    requires LinkAt(s)
    ensures Linked(forms, s, word) == s[..LinkLen(s)] + Linked(forms, s[LinkLen(s)..], false)
  {}

  lemma LinkedAtText(forms: seq<Form>, s: string, word: bool)
    requires s != "" && !LinkAt(s)
    ensures var m := Step(forms, s, word);
            Linked(forms, s, word) == StepText(forms, s, word) + Linked(forms, s[m..], IsWord(s[m - 1]))
  {
    hide Step, StepText;
  }

  lemma LinkPiece(aliases: seq<(string, string)>, text: string, i: nat)
    requires i < |text| && LinkAt(text[i..])
    ensures var n := LinkLen(text[i..]);
            i + n <= |text| && Piece(aliases, text, i, i + n, text[i..i + n]) && !WordBefore(text, i + n)
  {
    hide Standing, Chosen, LinkAt;
    LinkThere(text, i);
  }

  // ---------------------------------------------------------------------
  // The pass
  // ---------------------------------------------------------------------

  /** No placeholder character in a pair, and no alias that is the number of a
      link of the text. */
  predicate Plain(aliases: seq<(string, string)>, text: string) {
    forall k | 0 <= k < |aliases| ::
      && NoMarks(aliases[k].0) && NoMarks(aliases[k].1)
      && forall n | 0 <= n < |Held(text)| :: Trim(aliases[k].0) != Digits(n)
  }

  lemma TrimNoMarks(s: string)
    requires NoMarks(s)
    ensures NoMarks(Trim(s))
  {}

  lemma PlainForms(aliases: seq<(string, string)>, src: seq<nat>, text: string)
    requires Plain(aliases, text) && |src| == |Forms(aliases)|
    requires forall n | 0 <= n < |src| :: src[n] < |aliases| && Forms(aliases)[n] == FormAt(aliases, src[n])
    requires forall k: nat | k < |aliases| :: k in src <==> Trim(aliases[k].0) != "" && Trim(aliases[k].1) != ""
    ensures CleanForms(Forms(aliases)) && NoneNumbered(Forms(aliases), 0, |Held(text)|)
  {
    hide Trim, Forms, NoMarks, Held, Digits;
    forall n | 0 <= n < |src|
      ensures var f := Forms(aliases)[n]; f.alias != "" && NoMarks(f.alias) && NoMarks(f.title)
    {
      assert src[n] in src;
      TrimNoMarks(aliases[src[n]].0);
      TrimNoMarks(aliases[src[n]].1);
    }
    forall k | 0 <= k < |Held(text)| ensures !Numbered(Forms(aliases), k) {
      forall n | 0 <= n < |src| ensures Forms(aliases)[n].alias != Digits(k) {}
    }
  }

  /** The pass writes the text piece by piece: links as they are, and elsewhere,
      from left to right, each alias that stands free as a link to the title
      given for it, the longest first and then the earliest given. */
  lemma NamesLinked(aliases: seq<(string, string)>, text: string) returns (at: seq<nat>, outs: seq<string>)
    requires NoMarks(text) && Plain(aliases, text)
    ensures Pieces(aliases, text, 0, at, outs) && Applied(Forms(aliases), text) == Some(Concat(outs))
  {
    hide Trim, Forms, NoMarks, Held, Digits, Pieces, Applied, CleanForms, NoneNumbered, InOrder, Linked, Plain, IsWord;
    var src := FormsAt(aliases);
    PlainForms(aliases, src, text);
    AppliedIffNotNumbered(Forms(aliases), text);
    at, outs := WalkIsPieces(aliases, src, text, 0);
    assert text[0..] == text;
  }
}
