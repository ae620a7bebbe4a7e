/** Member names become wikilinks (`apply_member_wikilinks`,
    shared/wiki/names.py): links already there are shielded by numbered
    placeholders, aliases are replaced, and the placeholders are expanded. */
module Names {
  import opened Options
  import opened Text

  const OPEN := '\U{E000}'
  const CLOSE := '\U{E001}'

  datatype Form = Form(alias: string, title: string)

  // ---------------------------------------------------------------------
  // The forms, longest alias first
  // ---------------------------------------------------------------------

  predicate Usable(alias: (string, string)) { Trim(alias.0) != "" && Trim(alias.1) != "" }

  function Stripped(aliases: seq<(string, string)>): (forms: seq<Form>)
    ensures forall f | f in forms :: f.alias != "" && f.title != ""
  {
    if aliases == [] then []
    else (if Usable(aliases[0]) then [Form(Trim(aliases[0].0), Trim(aliases[0].1))] else []) + Stripped(aliases[1..])
  }

  function Insert(f: Form, forms: seq<Form>): seq<Form> {
    if forms == [] || |forms[0].alias| <= |f.alias| then [f] + forms else [forms[0]] + Insert(f, forms[1..])
  }

  /** `forms.sort(key=…, reverse=True)`, which keeps the order of equal keys. */
  function Sorted(forms: seq<Form>): seq<Form> {
    if forms == [] then [] else Insert(forms[0], Sorted(forms[1..]))
  }

  function Forms(aliases: seq<(string, string)>): seq<Form> { Sorted(Stripped(aliases)) }

  predicate LongestFirst(forms: seq<Form>) {
    forall i, j | 0 <= i < j < |forms| :: |forms[i].alias| >= |forms[j].alias|
  }

  lemma LongestHead(forms: seq<Form>, f: Form, rest: seq<Form>)
    requires LongestFirst(forms) && forms != [] && |forms[0].alias| > |f.alias|
    requires LongestFirst(rest) && multiset(rest) == multiset(forms[1..]) + multiset{f}
    ensures LongestFirst([forms[0]] + rest)
  {
    forall j | 0 <= j < |rest| ensures |forms[0].alias| >= |rest[j].alias| {
      assert rest[j] in multiset(rest);
      assert rest[j] == f || rest[j] in forms[1..];
    }
  }

  lemma {:induction false} InsertKeeps(f: Form, forms: seq<Form>)
    requires LongestFirst(forms)
    ensures LongestFirst(Insert(f, forms)) && multiset(Insert(f, forms)) == multiset(forms) + multiset{f}
  {
    if forms != [] && |forms[0].alias| > |f.alias| {
      InsertKeeps(f, forms[1..]);
      LongestHead(forms, f, Insert(f, forms[1..]));
      assert forms == [forms[0]] + forms[1..];
    }
  }

  lemma {:induction false} SortedKeeps(forms: seq<Form>)
    ensures LongestFirst(Sorted(forms)) && multiset(Sorted(forms)) == multiset(forms)
  {
    if forms != [] {
      SortedKeeps(forms[1..]);
      InsertKeeps(forms[0], Sorted(forms[1..]));
      assert forms == [forms[0]] + forms[1..];
    }
  }

  // ---------------------------------------------------------------------
  // Wikilinks, `\[\[[^\]]+\]\]`
  // ---------------------------------------------------------------------

  function FirstClose(s: string, i: nat): (j: nat)
    requires i <= |s|
    ensures i <= j <= |s| && (j < |s| ==> s[j] == ']')
    decreases |s| - i
  {
    if i == |s| || s[i] == ']' then i else FirstClose(s, i + 1)
  }

  lemma {:induction false} FirstCloseClear(s: string, i: nat)
    requires i <= |s|
    ensures forall k | i <= k < FirstClose(s, i) :: s[k] != ']'
    decreases |s| - i
  {
    if i < |s| && s[i] != ']' { FirstCloseClear(s, i + 1); }
  }

  /** A link opens the text: its inside runs to the first `]`. */
  predicate LinkAt(s: string) {
    && |s| >= 2 && s[0] == '[' && s[1] == '['
    && var j := FirstClose(s, 2);
       2 < j && j + 1 < |s| && s[j + 1] == ']'
  }

  function LinkLen(s: string): (n: nat)
    requires LinkAt(s)
    ensures 5 <= n <= |s|
  {
    FirstClose(s, 2) + 2
  }

  /** Where the first link begins; the length for none. */
  function Gap(s: string): (g: nat)
    ensures g <= |s|
  {
    if s == "" || LinkAt(s) then 0 else 1 + Gap(s[1..])
  }

  lemma {:induction false} GapIs(s: string)
    ensures Gap(s) < |s| ==> LinkAt(s[Gap(s)..])
    ensures forall k {:trigger LinkAt(s[k..])} | 0 <= k < Gap(s) :: !LinkAt(s[k..])
  {
    assert s[0..] == s;
    if s != "" && !LinkAt(s) {
      GapIs(s[1..]);
      assert forall k {:trigger s[k..]} | 0 < k <= |s| :: s[k..] == s[1..][k - 1..];
    }
  }

  /** What is held back, in order. */
  function Held(s: string): seq<string>
    decreases |s|
  {
    if s == "" then []
    else if LinkAt(s) then [s[..LinkLen(s)]] + Held(s[LinkLen(s)..])
    else Held(s[1..])
  }

  function Mark(n: nat): string { [OPEN] + Digits(n) + [CLOSE] }

  /** The text with its links replaced by placeholders, numbered from `n`. */
  function Shield(s: string, n: nat): string
    decreases |s|
  {
    if s == "" then ""
    else if LinkAt(s) then Mark(n) + Shield(s[LinkLen(s)..], n + 1)
    else [s[0]] + Shield(s[1..], n)
  }

  // ---------------------------------------------------------------------
  // Aliases, `(?<!\w)alias(?!\w)`
  // ---------------------------------------------------------------------

  /** The text starts with `a`, ignoring case. */
  predicate SameText(a: string, s: string) {
    |a| <= |s| && forall k | 0 <= k < |a| :: LowerChar(s[k]) == LowerChar(a[k])
  }

  lemma SameLower(a: string, s: string)
    requires |a| <= |s|
    ensures SameText(a, s) <==> Lower(s[..|a|]) == Lower(a)
  {
    if Lower(s[..|a|]) == Lower(a) {
      forall k | 0 <= k < |a| ensures LowerChar(s[k]) == LowerChar(a[k]) {
        assert Lower(s[..|a|])[k] == Lower(a)[k];
      }
    }
  }

  /** The alias opens the text, ignoring case; `word` says that a word
      character comes before the text. */
  predicate AliasAt(a: string, s: string, word: bool) {
    && a != "" && !word && SameText(a, s)
    && (|a| < |s| ==> !IsWord(s[|a|]))
  }

  /** The first alternative that matches here, or none. */
  function First(forms: seq<Form>, s: string, word: bool): (i: nat)
    ensures i <= |forms| && (i < |forms| ==> 1 <= |forms[i].alias| <= |s|)
  {
    if forms == [] || AliasAt(forms[0].alias, s, word) then 0 else 1 + First(forms[1..], s, word)
  }

  lemma {:induction false} FirstIs(forms: seq<Form>, s: string, word: bool)
    ensures var i := First(forms, s, word);
            && (i < |forms| ==> AliasAt(forms[i].alias, s, word))
            && forall j | 0 <= j < i :: !AliasAt(forms[j].alias, s, word)
  {
    if forms != [] { FirstIs(forms[1..], s, word); }
  }

  /** Texts on which the same aliases match have the same first match. */
  lemma {:induction false} FirstSame(forms: seq<Form>, s: string, t: string, word: bool)
    requires forall j | 0 <= j < |forms| :: AliasAt(forms[j].alias, s, word) == AliasAt(forms[j].alias, t, word)
    ensures First(forms, s, word) == First(forms, t, word)
  {
    if forms != [] { FirstSame(forms[1..], s, t, word); }
  }

  lemma {:induction false} FirstNone(forms: seq<Form>, s: string, word: bool)
    requires forall j | 0 <= j < |forms| :: !AliasAt(forms[j].alias, s, word)
    ensures First(forms, s, word) == |forms|
  {
    if forms != [] { FirstNone(forms[1..], s, word); }
  }

  /** Of the aliases that match at one place, one of the longest is replaced. */
  lemma LongestWins(aliases: seq<(string, string)>, s: string, word: bool, f: Form)
    requires f in Stripped(aliases) && AliasAt(f.alias, s, word)
    ensures var forms := Forms(aliases); var i := First(forms, s, word);
            i < |forms| && forms[i] in Stripped(aliases) && AliasAt(forms[i].alias, s, word)
            && |f.alias| <= |forms[i].alias|
  {
    var forms := Forms(aliases);
    SortedKeeps(Stripped(aliases));
    FirstIs(forms, s, word);
    assert f in multiset(forms);
    var j :| 0 <= j < |forms| && forms[j] == f;
    assert forms[First(forms, s, word)] in multiset(forms);
  }

  function Link(title: string): string { "[[" + title + "]]" }

  /** How much of the text the next step consumes. */
  function Taken(forms: seq<Form>, s: string, word: bool): (n: nat)
    requires s != ""
    ensures 1 <= n <= |s|
  {
    var i := First(forms, s, word);
    if i < |forms| then |forms[i].alias| else 1
  }

  /** Every alias is in the table. */
  predicate Known(forms: seq<Form>, lookup: map<string, string>) {
    forall i | 0 <= i < |forms| :: Lower(forms[i].alias) in lookup
  }

  /** `replace`: a match looked up by its lower case, or the character where
      nothing matches. */
  function LookedUp(forms: seq<Form>, lookup: map<string, string>, s: string, word: bool): string
    requires s != "" && Known(forms, lookup)
  {
    var i := First(forms, s, word);
    if i < |forms| then
      FirstIs(forms, s, word);
      SameLower(forms[i].alias, s);
      Link(lookup[Lower(s[..|forms[i].alias|])])
    else [s[0]]
  }

  /** `pattern.sub(replace, s)`. */
  function Substituted(forms: seq<Form>, lookup: map<string, string>, s: string, word: bool): string
    requires Known(forms, lookup)
    decreases |s|
  {
    if s == "" then ""
    else
      var n := Taken(forms, s, word);
      LookedUp(forms, lookup, s, word) + Substituted(forms, lookup, s[n..], IsWord(s[n - 1]))
  }

  // ---------------------------------------------------------------------
  // Expanding, `\ue000(\d+)\ue001`
  // ---------------------------------------------------------------------

  function DigitRun(s: string, i: nat): (j: nat)
    requires i <= |s|
    ensures i <= j <= |s| && (forall k | i <= k < j :: IsDigit(s[k])) && (j < |s| ==> !IsDigit(s[j]))
    decreases |s| - i
  {
    if i == |s| || !IsDigit(s[i]) then i else DigitRun(s, i + 1)
  }

  predicate MarkAt(s: string) {
    && s != "" && s[0] == OPEN
    && var e := DigitRun(s, 1);
       1 < e < |s| && s[e] == CLOSE
  }

  function Prepend(p: string, o: Option<string>): Option<string> {
    match o case None => None case Some(v) => Some(p + v)
  }

  /** None where the source's list index is out of range. */
  function Expanded(s: string, held: seq<string>): Option<string>
    decreases |s|
  {
    if s == "" then Some("")
    else if MarkAt(s) then
      var e := DigitRun(s, 1);
      var n := Value(s[1..e]);
      if n < |held| then Prepend(held[n], Expanded(s[e + 1..], held)) else None
    else Prepend([s[0]], Expanded(s[1..], held))
  }

  // ---------------------------------------------------------------------
  // The pass, and what it means
  // ---------------------------------------------------------------------

  /** What the next step writes: a link to the form that matches, or the
      character itself. */
  function Written(forms: seq<Form>, s: string, word: bool): string
    requires s != ""
  {
    var i := First(forms, s, word);
    if i < |forms| then Link(forms[i].title) else [s[0]]
  }

  /** The replacement with each match given the title of its own form. */
  function Replaced(forms: seq<Form>, s: string, word: bool): string
    decreases |s|
  {
    if s == "" then ""
    else
      var n := Taken(forms, s, word);
      Written(forms, s, word) + Replaced(forms, s[n..], IsWord(s[n - 1]))
  }

  function Applied(forms: seq<Form>, text: string): Option<string> {
    if text == "" || forms == [] then Some(text)
    else Expanded(Replaced(forms, Shield(text, 0), false), Held(text))
  }

  /** The next step outside links, where nothing is seen past the next link. */
  function Step(forms: seq<Form>, s: string, word: bool): (m: nat)
    requires s != "" && !LinkAt(s)
    ensures 1 <= m <= Gap(s)
  {
    Taken(forms, s[..Gap(s)], word)
  }

  function StepText(forms: seq<Form>, s: string, word: bool): string
    requires s != "" && !LinkAt(s)
  {
    Written(forms, s[..Gap(s)], word)
  }

  /** The meaning, without placeholders: one walk over the text that copies each
      link whole, and links an alias where one stands free and outside links. */
  function Linked(forms: seq<Form>, s: string, word: bool): string
    decreases |s|
  {
    if s == "" then ""
    else if LinkAt(s) then s[..LinkLen(s)] + Linked(forms, s[LinkLen(s)..], false)
    else
      var n := Step(forms, s, word);
      StepText(forms, s, word) + Linked(forms, s[n..], IsWord(s[n - 1]))
  }

  function SetDefault(lookup: map<string, string>, key: string, value: string): map<string, string> {
    if key in lookup then lookup else lookup[key := value]
  }

  /** The table the loop over the forms fills. */
  function Lookup(forms: seq<Form>): map<string, string> {
    if forms == [] then map[]
    else
      var f := forms[|forms| - 1];
      SetDefault(Lookup(forms[..|forms| - 1]), Lower(f.alias), f.title)
  }

  /** The first form of that alias, ignoring case. */
  function FormOf(forms: seq<Form>, key: string): (i: nat)
    ensures i <= |forms| && forall j | 0 <= j < i :: Lower(forms[j].alias) != key
    ensures i < |forms| ==> Lower(forms[i].alias) == key
  {
    if forms == [] || Lower(forms[0].alias) == key then 0 else 1 + FormOf(forms[1..], key)
  }

  /** The earliest form keeps the key. */
  lemma {:induction false} LookupIs(forms: seq<Form>, key: string)
    ensures key in Lookup(forms) <==> FormOf(forms, key) < |forms|
    ensures key in Lookup(forms) ==> Lookup(forms)[key] == forms[FormOf(forms, key)].title
  {
    if forms != [] {
      var n := |forms| - 1;
      LookupIs(forms[..n], key);
      var i := FormOf(forms[..n], key);
      assert forms[..n][..i] == forms[..i];
      assert forall j | 0 <= j < n :: forms[..n][j] == forms[j];
      assert i < n ==> FormOf(forms, key) == i;
    }
  }

  lemma MatchedForm(forms: seq<Form>, s: string, word: bool)
    requires First(forms, s, word) < |forms|
    ensures var i := First(forms, s, word); FormOf(forms, Lower(s[..|forms[i].alias|])) == i
  {
    var i := First(forms, s, word);
    var n := |forms[i].alias|;
    var j := FormOf(forms, Lower(s[..n]));
    FirstIs(forms, s, word);
    SameLower(forms[i].alias, s);
    assert j <= i;
    var b := forms[j].alias;
    assert |Lower(b)| == |b| && |Lower(s[..n])| == n;
    SameLower(b, s);
    assert AliasAt(b, s, word);
  }

  /** Looking a match up by its lower case gives the title of the alternative
      that matched. */
  lemma LookedUpIsWritten(forms: seq<Form>, s: string, word: bool)
    requires s != "" && Known(forms, Lookup(forms))
    ensures LookedUp(forms, Lookup(forms), s, word) == Written(forms, s, word)
  {
    var i := First(forms, s, word);
    if i < |forms| {
      MatchedForm(forms, s, word);
      LookupIs(forms, Lower(s[..|forms[i].alias|]));
    }
  }

  ghost predicate Agrees(forms: seq<Form>, lookup: map<string, string>) {
    && Known(forms, lookup)
    && forall s, word | s != "" :: LookedUp(forms, lookup, s, word) == Written(forms, s, word)
  }

  lemma {:induction false} LookupAgrees(forms: seq<Form>, lookup: map<string, string>, s: string, word: bool)
    requires Agrees(forms, lookup)
    ensures Substituted(forms, lookup, s, word) == Replaced(forms, s, word)
    decreases |s|
  {
    if s != "" {
      var rest := s[Taken(forms, s, word)..];
      LookupAgrees(forms, lookup, rest, IsWord(s[Taken(forms, s, word) - 1]));
      StepAgrees(forms, lookup, s, word, rest);
    }
  }

  lemma StepAgrees(forms: seq<Form>, lookup: map<string, string>, s: string, word: bool, rest: string)
    requires Known(forms, lookup) && s != "" && rest == s[Taken(forms, s, word)..]
    requires LookedUp(forms, lookup, s, word) == Written(forms, s, word)
    requires var after := IsWord(s[Taken(forms, s, word) - 1]);
             Substituted(forms, lookup, rest, after) == Replaced(forms, rest, after)
    ensures Substituted(forms, lookup, s, word) == Replaced(forms, s, word)
  {}

  method TitlesByAlias(forms: seq<Form>) returns (lookup: map<string, string>)
    ensures lookup == Lookup(forms)
  {
    lookup := map[];
    for i := 0 to |forms|
      invariant lookup == Lookup(forms[..i])
    {
      assert forms[..i + 1][..i] == forms[..i];
      lookup := SetDefault(lookup, Lower(forms[i].alias), forms[i].title);
    }
    assert forms[..|forms|] == forms;
  }

  method ApplyMemberWikilinks(text: string, aliases: seq<(string, string)>) returns (r: Option<string>)
    ensures r == Applied(Forms(aliases), text)
  {
    var forms := Forms(aliases);
    if text == "" || forms == [] { return Some(text); }
    var shielded := Shield(text, 0);
    var lookup := TitlesByAlias(forms);
    forall i | 0 <= i < |forms| ensures Lower(forms[i].alias) in lookup { LookupIs(forms, Lower(forms[i].alias)); }
    forall s, word | s != "" ensures LookedUp(forms, lookup, s, word) == Written(forms, s, word) {
      LookedUpIsWritten(forms, s, word);
    }
    LookupAgrees(forms, lookup, shielded, false);
    var linked := Substituted(forms, lookup, shielded, false);
    r := Expanded(linked, Held(text));
  }

  // ---------------------------------------------------------------------
  // Numbers of placeholders
  // ---------------------------------------------------------------------

  predicate NoMarks(s: string) { forall k | 0 <= k < |s| :: s[k] != OPEN && s[k] != CLOSE }

  predicate CleanForms(forms: seq<Form>) {
    forall i | 0 <= i < |forms| :: forms[i].alias != "" && NoMarks(forms[i].alias) && NoMarks(forms[i].title)
  }

  lemma {:induction false} DigitRunIs(s: string, i: nat, j: nat)
    requires i <= j <= |s| && (forall k | i <= k < j :: IsDigit(s[k])) && (j < |s| ==> !IsDigit(s[j]))
    ensures DigitRun(s, i) == j
    decreases j - i
  {
    if i < j { DigitRunIs(s, i + 1, j); }
  }

  /** A form's alias is the number of a placeholder. */
  predicate Numbered(forms: seq<Form>, k: nat) {
    exists i | 0 <= i < |forms| :: forms[i].alias == Digits(k)
  }

  predicate NoneNumbered(forms: seq<Form>, lo: nat, hi: nat) {
    forall k | lo <= k < hi :: !Numbered(forms, k)
  }

  // ---------------------------------------------------------------------
  // Replacing passes placeholders by
  // ---------------------------------------------------------------------

  /** No clean alias starts or ends past a placeholder character. */
  lemma NoAliasOverMark(a: string, s: string, word: bool, k: nat)
    requires NoMarks(a) && AliasAt(a, s, word) && k < |s| && (s[k] == OPEN || s[k] == CLOSE)
    ensures |a| <= k
  {}

  lemma Cons(s: string, t: string)
    requires s != ""
    ensures s + t == [s[0]] + (s[1..] + t)
  {}

  lemma {:induction false} CopiesDigits(forms: seq<Form>, d: string, rest: string)
    requires forall k | 0 <= k < |d| :: IsDigit(d[k])
    ensures Replaced(forms, d + rest, true) == d + Replaced(forms, rest, true)
  {
    if d == "" {
      assert d + rest == rest;
    } else {
      CopiesDigits(forms, d[1..], rest);
      FirstNone(forms, d + rest, true);
      Cons(d, rest);
      CopiesChar(forms, d[0], d[1..] + rest, true);
      Cons(d, Replaced(forms, rest, true));
    }
  }

  lemma CopiesChar(forms: seq<Form>, c: char, rest: string, word: bool)
    requires First(forms, [c] + rest, word) == |forms|
    ensures Replaced(forms, [c] + rest, word) == [c] + Replaced(forms, rest, IsWord(c))
  {
    assert ([c] + rest)[1..] == rest;
  }

  lemma CopiesMarkChar(forms: seq<Form>, c: char, rest: string, word: bool)
    requires CleanForms(forms) && (c == OPEN || c == CLOSE)
    ensures Replaced(forms, [c] + rest, word) == [c] + Replaced(forms, rest, false)
  {
    var s := [c] + rest;
    FirstIs(forms, s, word);
    var i := First(forms, s, word);
    if i < |forms| { NoAliasOverMark(forms[i].alias, s, word, 0); }
    assert s[1..] == rest;
  }

  lemma NumberAlias(forms: seq<Form>, n: nat, rest: string)
    requires CleanForms(forms)
    ensures First(forms, Digits(n) + [CLOSE] + rest, false) < |forms| <==> Numbered(forms, n)
  {
    var d := Digits(n);
    var s := d + [CLOSE] + rest;
    FirstIs(forms, s, false);
    var i := First(forms, s, false);
    if i < |forms| { WholeNumber(forms[i].alias, n, rest); }
    if Numbered(forms, n) {
      var j :| 0 <= j < |forms| && forms[j].alias == d;
      assert AliasAt(d, s, false);
    }
  }

  lemma WholeNumber(a: string, n: nat, rest: string)
    requires NoMarks(a) && AliasAt(a, Digits(n) + [CLOSE] + rest, false)
    ensures a == Digits(n)
  {
    DigitsValue(n);
    var d := Digits(n);
    var s := d + [CLOSE] + rest;
    NoAliasOverMark(a, s, false, |d|);
    assert forall k | 0 <= k < |d| :: s[k] == d[k] && IsDigit(d[k]);
  }

  /** A placeholder passes unless an alias is its number. */
  lemma CopiesMark(forms: seq<Form>, n: nat, rest: string, word: bool)
    requires CleanForms(forms) && !Numbered(forms, n)
    ensures Replaced(forms, Mark(n) + rest, word) == Mark(n) + Replaced(forms, rest, false)
  {
    DigitsValue(n);
    var d := Digits(n);
    var tail := [CLOSE] + rest;
    var s := d[1..] + tail;
    assert Mark(n) + rest == [OPEN] + ([d[0]] + s);
    assert [d[0]] + s == d + [CLOSE] + rest;
    NumberAlias(forms, n, rest);
    CopiesMarkChar(forms, OPEN, [d[0]] + s, word);
    CopiesChar(forms, d[0], s, false);
    CopiesDigits(forms, d[1..], tail);
    CopiesMarkChar(forms, CLOSE, rest, true);
    MarkParts(n, Replaced(forms, rest, false));
  }

  lemma MarkParts(n: nat, after: string)
    ensures var d := Digits(n); [OPEN] + ([d[0]] + (d[1..] + ([CLOSE] + after))) == Mark(n) + after
  {}

  /** One whose number is an alias is broken up. */
  lemma BreaksMark(forms: seq<Form>, n: nat, rest: string, word: bool)
    requires CleanForms(forms) && Numbered(forms, n)
    ensures var r := Replaced(forms, Mark(n) + rest, word);
            |r| >= 2 && r[0] == OPEN && r[1] == '['
  {
    var s := Digits(n) + [CLOSE] + rest;
    assert Mark(n) + rest == [OPEN] + s;
    CopiesMarkChar(forms, OPEN, s, word);
    NumberAlias(forms, n, rest);
  }

  // ---------------------------------------------------------------------
  // Between placeholders the text is the text
  // ---------------------------------------------------------------------

  lemma {:induction false} GapOfRest(s: string, m: nat)
    requires m <= Gap(s)
    ensures Gap(s[m..]) == Gap(s) - m
  {
    if m == 0 {
      assert s[0..] == s;
    } else {
      GapOfRest(s[1..], m - 1);
      assert s[1..][m - 1..] == s[m..];
    }
  }

  lemma {:induction false} ShieldStart(s: string, n: nat)
    ensures var g := Gap(s); var t := Shield(s, n);
            && |t| >= g && t[..g] == s[..g]
            && (if g == |s| then |t| == g else |t| > g && t[g] == OPEN)
    decreases |s|
  {
    assert s[0..] == s;
    if s != "" && !LinkAt(s) {
      var r := s[1..];
      var t := Shield(r, n);
      ShieldStart(r, n);
      GapOfRest(s, 1);
      assert Shield(s, n) == [s[0]] + t;
      assert ([s[0]] + t)[..Gap(s)] == [s[0]] + t[..Gap(r)] == [s[0]] + r[..Gap(r)] == s[..Gap(s)];
    }
  }

  lemma {:induction false} ShieldRest(s: string, n: nat, m: nat)
    requires m <= Gap(s)
    ensures |Shield(s, n)| >= m && Shield(s, n)[m..] == Shield(s[m..], n)
    decreases m
  {
    assert s[0..] == s;
    if m > 0 {
      assert !LinkAt(s);
      GapOfRest(s, 1);
      ShieldRest(s[1..], n, m - 1);
      assert s[1..][m - 1..] == s[m..];
    }
  }

  /** An alias matches in the shielded text where it matches before the next link. */
  lemma ShieldedMatch(forms: seq<Form>, s: string, n: nat, word: bool)
    requires CleanForms(forms)
    ensures First(forms, Shield(s, n), word) == First(forms, s[..Gap(s)], word)
  {
    var t := Shield(s, n);
    var u := s[..Gap(s)];
    ShieldStart(s, n);
    forall j | 0 <= j < |forms| ensures AliasAt(forms[j].alias, t, word) == AliasAt(forms[j].alias, u, word) {
      var a := forms[j].alias;
      if AliasAt(a, t, word) && |u| < |t| { NoAliasOverMark(a, t, word, |u|); }
      assert forall k | 0 <= k < |u| :: t[k] == t[..|u|][k] == u[k];
    }
    FirstSame(forms, t, u, word);
  }

  // ---------------------------------------------------------------------
  // Expanding undoes shielding
  // ---------------------------------------------------------------------

  lemma {:induction false} ExpandedPlain(p: string, rest: string, held: seq<string>)
    requires NoMarks(p)
    ensures Expanded(p + rest, held) == Prepend(p, Expanded(rest, held))
  {
    if p == "" {
      assert p + rest == rest;
      var e := Expanded(rest, held);
      assert e.Some? ==> "" + e.value == e.value;
    } else {
      assert (p + rest)[1..] == p[1..] + rest;
      ExpandedPlain(p[1..], rest, held);
      var e := Expanded(rest, held);
      assert e.Some? ==> [p[0]] + (p[1..] + e.value) == p + e.value;
    }
  }

  lemma MarkIs(n: nat, rest: string)
    ensures var s := Mark(n) + rest; var e := |Digits(n)| + 1;
            MarkAt(s) && DigitRun(s, 1) == e && s[1..e] == Digits(n) && s[e + 1..] == rest
  {
    hide Digits;
    DigitsValue(n);
    var d := Digits(n);
    var s := Mark(n) + rest;
    assert forall k | 1 <= k < |d| + 1 :: s[k] == d[k - 1];
    assert s[|d| + 1] == CLOSE;
    DigitRunIs(s, 1, |d| + 1);
  }

  lemma ExpandedMark(n: nat, rest: string, held: seq<string>)
    requires n < |held|
    ensures Expanded(Mark(n) + rest, held) == Prepend(held[n], Expanded(rest, held))
  {
    hide MarkAt, DigitRun, Value, Mark;
    MarkIs(n, rest);
    DigitsValue(n);
  }

  lemma {:induction false} HeldRest(s: string, m: nat)
    requires m <= Gap(s)
    ensures Held(s[m..]) == Held(s)
    decreases m
  {
    assert s[0..] == s;
    if m > 0 {
      assert !LinkAt(s);
      GapOfRest(s, 1);
      HeldRest(s[1..], m - 1);
      assert s[1..][m - 1..] == s[m..];
    }
  }

  lemma StepTextClean(forms: seq<Form>, s: string, word: bool)
    requires CleanForms(forms) && NoMarks(s) && s != "" && !LinkAt(s)
    ensures NoMarks(StepText(forms, s, word))
  {}

  /** A step that is decided, and takes place, within the start `u` of the text. */
  lemma StepWithin(forms: seq<Form>, t: string, u: string, word: bool, rest: string)
    requires u != "" && |u| <= |t| && t[..|u|] == u && First(forms, t, word) == First(forms, u, word)
    requires t[Taken(forms, u, word)..] == rest
    ensures Replaced(forms, t, word)
            == Written(forms, u, word) + Replaced(forms, rest, IsWord(u[Taken(forms, u, word) - 1]))
  {
    StepSame(forms, t, u, word);
  }

  lemma StepSame(forms: seq<Form>, t: string, u: string, word: bool)
    requires u != "" && |u| <= |t| && t[..|u|] == u && First(forms, t, word) == First(forms, u, word)
    ensures var m := Taken(forms, u, word);
            Taken(forms, t, word) == m && t[m - 1] == u[m - 1] && Written(forms, t, word) == Written(forms, u, word)
  {
    assert forall k | 0 <= k < |u| :: t[k] == t[..|u|][k];
  }

  /** Outside links, replacing takes the same step on the shielded text as the
      walk takes on the text. */
  lemma TextStep(forms: seq<Form>, s: string, n: nat, word: bool)
    requires CleanForms(forms) && s != "" && !LinkAt(s)
    ensures var m := Step(forms, s, word);
            Replaced(forms, Shield(s, n), word)
            == StepText(forms, s, word) + Replaced(forms, Shield(s[m..], n), IsWord(s[m - 1]))
  {
    var u := s[..Gap(s)];
    var m := Step(forms, s, word);
    ShieldedMatch(forms, s, n, word);
    ShieldStart(s, n);
    ShieldRest(s, n, m);
    StepWithin(forms, Shield(s, n), u, word, Shield(s[m..], n));
  }

  /** Expanding, step by step. */
  lemma ExpandedAfter(x: string, p: string, y: string, held: seq<string>, r: string)
    requires x == p + y && NoMarks(p) && Expanded(y, held) == Some(r)
    ensures Expanded(x, held) == Some(p + r)
  {
    ExpandedPlain(p, y, held);
  }

  lemma LinkStep(forms: seq<Form>, s: string, n: nat, word: bool, held: seq<string>)
    requires CleanForms(forms) && LinkAt(s) && n < |held| && !Numbered(forms, n)
    ensures var rest := s[LinkLen(s)..];
            Expanded(Replaced(forms, Shield(s, n), word), held)
            == Prepend(held[n], Expanded(Replaced(forms, Shield(rest, n + 1), false), held))
  {
    var rest := s[LinkLen(s)..];
    CopiesMark(forms, n, Shield(rest, n + 1), word);
    ExpandedMark(n, Replaced(forms, Shield(rest, n + 1), false), held);
  }

  /** Shielding, replacing and expanding is the one walk, if no alias is the
      number of a placeholder. */
  lemma {:induction false} ShieldedWalk(forms: seq<Form>, s: string, word: bool, n: nat, held: seq<string>)
    requires CleanForms(forms) && NoMarks(s) && n <= |held| && held[n..] == Held(s)
    requires NoneNumbered(forms, n, |held|)
    ensures Expanded(Replaced(forms, Shield(s, n), word), held) == Some(Linked(forms, s, word))
    decreases |s|, 1
  {
    if s != "" {
      if LinkAt(s) { WalkAtLink(forms, s, word, n, held); } else { WalkAtText(forms, s, word, n, held); }
    }
  }

  lemma {:induction false} WalkAtLink(forms: seq<Form>, s: string, word: bool, n: nat, held: seq<string>)
    requires CleanForms(forms) && NoMarks(s) && n <= |held| && held[n..] == Held(s)
    requires NoneNumbered(forms, n, |held|) && LinkAt(s)
    ensures Expanded(Replaced(forms, Shield(s, n), word), held) == Some(Linked(forms, s, word))
    decreases |s|, 0
  {
    var rest := s[LinkLen(s)..];
    assert held[n..][0] == held[n] && held[n + 1..] == held[n..][1..];
    ShieldedWalk(forms, rest, false, n + 1, held);
    LinkStep(forms, s, n, word, held);
  }

  lemma {:induction false} WalkAtText(forms: seq<Form>, s: string, word: bool, n: nat, held: seq<string>)
    requires CleanForms(forms) && NoMarks(s) && n <= |held| && held[n..] == Held(s)
    requires NoneNumbered(forms, n, |held|) && s != "" && !LinkAt(s)
    ensures Expanded(Replaced(forms, Shield(s, n), word), held) == Some(Linked(forms, s, word))
    decreases |s|, 0
  {
    var m := Step(forms, s, word);
    var y := Replaced(forms, Shield(s[m..], n), IsWord(s[m - 1]));
    var r := Linked(forms, s[m..], IsWord(s[m - 1]));
    HeldRest(s, m);
    ShieldedWalk(forms, s[m..], IsWord(s[m - 1]), n, held);
    TextStep(forms, s, n, word);
    StepTextClean(forms, s, word);
    ExpandedAfter(Replaced(forms, Shield(s, n), word), StepText(forms, s, word), y, held, r);
  }

  // ---------------------------------------------------------------------
  // When it is not
  // ---------------------------------------------------------------------

  predicate Broken(s: string) { exists i | 0 <= i < |s| - 1 :: s[i] == OPEN && s[i + 1] == '[' }

  lemma BrokenAfter(p: string, s: string)
    requires Broken(s)
    ensures Broken(p + s)
  {
    var i :| 0 <= i < |s| - 1 && s[i] == OPEN && s[i + 1] == '[';
    assert (p + s)[|p| + i] == OPEN && (p + s)[|p| + i + 1] == '[';
  }

  /** An alias that is the number of a placeholder breaks it. */
  lemma {:induction false} Breaks(forms: seq<Form>, s: string, word: bool, n: nat, k: nat)
    requires CleanForms(forms) && n <= k < n + |Held(s)| && Numbered(forms, k)
    ensures Broken(Replaced(forms, Shield(s, n), word))
    decreases |s|, 1
  {
    if LinkAt(s) { BreaksAtLink(forms, s, word, n, k); } else { BreaksAfterText(forms, s, word, n, k); }
  }

  lemma {:induction false} BreaksAtLink(forms: seq<Form>, s: string, word: bool, n: nat, k: nat)
    requires CleanForms(forms) && n <= k < n + |Held(s)| && Numbered(forms, k) && LinkAt(s)
    ensures Broken(Replaced(forms, Shield(s, n), word))
    decreases |s|, 0
  {
    var rest := s[LinkLen(s)..];
    if Numbered(forms, n) {
      BreaksMark(forms, n, Shield(rest, n + 1), word);
    } else {
      Breaks(forms, rest, false, n + 1, k);
      CopiesMark(forms, n, Shield(rest, n + 1), word);
      BrokenAfter(Mark(n), Replaced(forms, Shield(rest, n + 1), false));
    }
  }

  lemma {:induction false} BreaksAfterText(forms: seq<Form>, s: string, word: bool, n: nat, k: nat)
    requires CleanForms(forms) && n <= k < n + |Held(s)| && Numbered(forms, k) && !LinkAt(s)
    ensures Broken(Replaced(forms, Shield(s, n), word))
    decreases |s|, 0
  {
    assert s != "";
    hide Broken, Replaced, Shield, Numbered, StepText, LinkAt, CleanForms, Held, IsWord;
    var m := Step(forms, s, word);
    HeldRest(s, m);
    Breaks(forms, s[m..], IsWord(s[m - 1]), n, k);
    TextStep(forms, s, n, word);
    BrokenAfter(StepText(forms, s, word), Replaced(forms, Shield(s[m..], n), IsWord(s[m - 1])));
  }

  /** A step past a whole placeholder, or past one character, stays before the
      break or meets its first character. */
  lemma BrokenStep(s: string)
    requires Broken(s)
    ensures var n := if MarkAt(s) then DigitRun(s, 1) + 1 else 1;
            n <= |s| && (Broken(s[n..]) || (!MarkAt(s) && s[0] == OPEN))
  {
    var i :| 0 <= i < |s| - 1 && s[i] == OPEN && s[i + 1] == '[';
    var n := if MarkAt(s) then DigitRun(s, 1) + 1 else 1;
    if i >= n { assert s[n..][i - n] == OPEN && s[n..][i - n + 1] == '['; }
  }

  lemma MarkedAfter(p: string, s: string)
    requires !NoMarks(s)
    ensures !NoMarks(p + s)
  {
    var k :| 0 <= k < |s| && (s[k] == OPEN || s[k] == CLOSE);
    assert (p + s)[|p| + k] == s[k];
  }

  /** Nothing expands a broken placeholder, so its character stays. */
  lemma {:induction false} BrokenStays(s: string, held: seq<string>)
    requires Broken(s)
    ensures var e := Expanded(s, held); e.Some? ==> !NoMarks(e.value)
    decreases |s|
  {
    BrokenStep(s);
    var n := if MarkAt(s) then DigitRun(s, 1) + 1 else 1;
    var e := Expanded(s[n..], held);
    if Expanded(s, held).Some? {
      var p := if MarkAt(s) then held[Value(s[1..n - 1])] else [s[0]];
      if Broken(s[n..]) {
        BrokenStays(s[n..], held);
        MarkedAfter(p, e.value);
      } else {
        assert (p + e.value)[0] == OPEN;
      }
    }
  }

  lemma {:induction false} LinkedClean(forms: seq<Form>, s: string, word: bool)
    requires CleanForms(forms) && NoMarks(s)
    ensures NoMarks(Linked(forms, s, word))
    decreases |s|
  {
    if s == "" {
    } else if LinkAt(s) {
      LinkedClean(forms, s[LinkLen(s)..], false);
    } else {
      var m := Step(forms, s, word);
      StepTextClean(forms, s, word);
      LinkedClean(forms, s[m..], IsWord(s[m - 1]));
    }
  }

  lemma {:induction false} LinkedNothing(s: string, word: bool)
    ensures Linked([], s, word) == s
    decreases |s|
  {
    if s == "" {
    } else if LinkAt(s) {
      LinkedNothing(s[LinkLen(s)..], false);
    } else {
      LinkedNothing(s[1..], IsWord(s[0]));
    }
  }

  /** The pass is the walk exactly when no alias is the number of a placeholder:
      a number less than the count of links in the text. */
  lemma AppliedIffNotNumbered(forms: seq<Form>, text: string)
    requires CleanForms(forms) && NoMarks(text)
    ensures Applied(forms, text) == Some(Linked(forms, text, false))
            <==> NoneNumbered(forms, 0, |Held(text)|)
  {
    if text == "" {
    } else if forms == [] {
      LinkedNothing(text, false);
    } else if k :| 0 <= k < |Held(text)| && Numbered(forms, k) {
      Breaks(forms, text, false, 0, k);
      BrokenStays(Replaced(forms, Shield(text, 0), false), Held(text));
      LinkedClean(forms, text, false);
    } else {
      assert Held(text)[0..] == Held(text);
      ShieldedWalk(forms, text, false, 0, Held(text));
    }
  }
}
