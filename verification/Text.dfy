/** Character classes and the handful of string operations the wiki code
    relies on, over text as a sequence of characters. */
module Text {

  const NL := '\n'

  /** Python's whitespace class: what `\s` and `str.strip()` recognise. */
  predicate IsSpace(c: char) {
    || '\U{09}' <= c <= '\U{0D}'
    || '\U{1C}' <= c <= '\U{20}'
    || c == '\U{85}' || c == '\U{A0}' || c == '\U{1680}'
    || '\U{2000}' <= c <= '\U{200A}'
    || c == '\U{2028}' || c == '\U{2029}' || c == '\U{202F}' || c == '\U{205F}' || c == '\U{3000}'
  }

  predicate IsBlank(c: char) { c == ' ' || c == '\t' }

  /** `\w`, restricted to ASCII. */
  predicate IsWord(c: char) {
    'a' <= c <= 'z' || 'A' <= c <= 'Z' || '0' <= c <= '9' || c == '_'
  }

  function LowerChar(c: char): char {
    if 'A' <= c <= 'Z' then (c as int + 32) as char else c
  }

  function Lower(s: string): string {
    seq(|s|, i requires 0 <= i < |s| => LowerChar(s[i]))
  }

  predicate NoNewline(s: string) { forall i | 0 <= i < |s| :: s[i] != NL }

  predicate EndsNL(s: string) { s != "" && s[|s| - 1] == NL }

  /** Text after which a new line may start: nothing, or a complete line. */
  predicate Closed(s: string) { s == "" || EndsNL(s) }

  /** `pat` occurs in `t` at position `i`. */
  predicate HasAt(t: string, i: nat, pat: string) {
    i + |pat| <= |t| && t[i..i + |pat|] == pat
  }

  lemma HasAtChar(t: string, i: nat, pat: string, k: nat)
    requires HasAt(t, i, pat) && k < |pat|
    ensures i + k < |t| && t[i + k] == pat[k]
  {
    assert t[i..i + |pat|][k] == pat[k];
  }

  /** A window that lies inside a shared prefix matches in both texts. */
  lemma HasAtPrefix(t: string, u: string, n: nat, i: nat, pat: string)
    requires n <= |t| && n <= |u| && t[..n] == u[..n] && i + |pat| <= n
    ensures HasAt(t, i, pat) == HasAt(u, i, pat)
  {
    assert t[i..i + |pat|] == t[..n][i..i + |pat|];
    assert u[i..i + |pat|] == u[..n][i..i + |pat|];
  }

  /** First position at or after `i` that is no newline; the length for none. */
  function LeadNL(s: string, i: nat): (j: nat)
    requires i <= |s|
    ensures i <= j <= |s| && (j < |s| ==> s[j] != NL)
    decreases |s| - i
  {
    if i == |s| || s[i] != NL then i else LeadNL(s, i + 1)
  }

  /** Last end at or before `j`, not before `a`, that no newline precedes. */
  function TrailNL(s: string, a: nat, j: nat): (b: nat)
    requires a <= j <= |s|
    ensures a <= b <= j && (a < b ==> s[b - 1] != NL)
    decreases j
  {
    if j == a || s[j - 1] != NL then j else TrailNL(s, a, j - 1)
  }

  /** `str.strip("\n")`. */
  function StripNL(s: string): string {
    var a := LeadNL(s, 0);
    s[a..TrailNL(s, a, |s|)]
  }

  /** `str.rstrip("\n")`. */
  function StripRightNL(s: string): string { s[..TrailNL(s, 0, |s|)] }

  predicate Trimmed(s: string) {
    s != "" ==> !IsSpace(s[0]) && !IsSpace(s[|s| - 1])
  }

  function LeadSpace(s: string, i: nat): (j: nat)
    requires i <= |s|
    ensures i <= j <= |s| && (j < |s| ==> !IsSpace(s[j]))
    decreases |s| - i
  {
    if i == |s| || !IsSpace(s[i]) then i else LeadSpace(s, i + 1)
  }

  function TrailSpace(s: string, a: nat, j: nat): (b: nat)
    requires a <= j <= |s|
    ensures a <= b <= j && (a < b ==> !IsSpace(s[b - 1]))
    decreases j
  {
    if j == a || !IsSpace(s[j - 1]) then j else TrailSpace(s, a, j - 1)
  }

  /** `str.strip()` and `str.rstrip()`. */
  function Trim(s: string): (r: string)
    ensures Trimmed(r)
  {
    var a := LeadSpace(s, 0);
    s[a..TrailSpace(s, a, |s|)]
  }

  function TrimRight(s: string): string { s[..TrailSpace(s, 0, |s|)] }

  /** The parts of a concatenation, by slicing. */
  lemma Slices(a: string, b: string, c: string)
    ensures var t := a + b + c;
            && t[..|a|] == a && t[|a|..|a| + |b|] == b && t[|a| + |b|..] == c && t[|a|..] == b + c
            && t == a + (b + c)
  {}

  lemma Assoc<T>(a: seq<T>, b: seq<T>, c: seq<T>)
    ensures a + (b + c) == a + b + c
  {}

  /** `sep.join(parts)`. */
  function Join(sep: string, parts: seq<string>): string {
    if parts == [] then ""
    else if |parts| == 1 then parts[0]
    else parts[0] + sep + Join(sep, parts[1..])
  }

  /** `str(n)`. */
  function Digits(n: nat): (s: string)
    ensures 1 <= |s| <= (if n == 0 then 1 else n)
  {
    var last := [((n % 10) + '0' as int) as char];
    if n < 10 then last else Digits(n / 10) + last
  }

  predicate IsDigit(c: char) { '0' <= c <= '9' }

  predicate AllDigits(s: string) { s != "" && forall i | 0 <= i < |s| :: IsDigit(s[i]) }

  /** `int(digits)`. */
  function Value(digits: string): nat
    requires digits == "" || AllDigits(digits)
  {
    if digits == "" then 0 else
      assert AllDigits(digits) && IsDigit(digits[|digits| - 1]);
      10 * Value(digits[..|digits| - 1]) + (digits[|digits| - 1] as int - '0' as int)
  }

  lemma {:induction false} DigitsValue(n: nat)
    ensures AllDigits(Digits(n)) && Value(Digits(n)) == n
  {
    var d := Digits(n);
    if n >= 10 {
      DigitsValue(n / 10);
      assert d[..|d| - 1] == Digits(n / 10);
    } else {
      assert d[..0] == "";
    }
  }

  /** `text.split("\n")`: always at least one part. */
  function SplitNL(t: string): (ls: seq<string>)
    ensures |ls| >= 1
    decreases |t|
  {
    var e := LineEnd(t, 0);
    if e == |t| then [t] else [t[..e]] + SplitNL(t[e + 1..])
  }

  /** The first newline at or after `i`, or the end of the text. */
  function LineEnd(t: string, i: nat): (j: nat)
    requires i <= |t|
    ensures i <= j <= |t|
    ensures j < |t| ==> t[j] == NL
    decreases |t| - i
  {
    if i == |t| || t[i] == NL then i else LineEnd(t, i + 1)
  }

  lemma {:induction false} LineEndClear(t: string, i: nat)
    requires i <= |t|
    ensures forall k | i <= k < LineEnd(t, i) :: t[k] != NL
    decreases |t| - i
  {
    if i < |t| && t[i] != NL { LineEndClear(t, i + 1); }
  }

  lemma {:induction false} LineEndIs(t: string, i: nat, j: nat)
    requires i <= j <= |t|
    requires j < |t| ==> t[j] == NL
    requires forall k | i <= k < j :: t[k] != NL
    ensures LineEnd(t, i) == j
    decreases j - i
  {
    if i < j { LineEndIs(t, i + 1, j); }
  }

  /** Splitting at newlines undoes joining with them, both ways round. */
  lemma {:induction false} JoinSplit(t: string)
    ensures Join("\n", SplitNL(t)) == t
    decreases |t|
  {
    var e := LineEnd(t, 0);
    if e < |t| {
      JoinSplit(t[e + 1..]);
      assert SplitNL(t)[1..] == SplitNL(t[e + 1..]);
      assert t == t[..e] + "\n" + t[e + 1..];
    }
  }

  lemma SplitStep(l: string, rest: string)
    requires NoNewline(l)
    ensures SplitNL(l + "\n" + rest) == [l] + SplitNL(rest)
  {
    var t := l + "\n" + rest;
    assert t[..|l|] == l && t[|l| + 1..] == rest;
    LineEndIs(t, 0, |l|);
  }

  lemma SplitLast(l: string)
    requires NoNewline(l)
    ensures SplitNL(l) == [l]
  {
    LineEndIs(l, 0, |l|);
  }

  lemma {:induction false} SplitJoin(ls: seq<string>)
    requires |ls| >= 1 && forall i | 0 <= i < |ls| :: NoNewline(ls[i])
    ensures SplitNL(Join("\n", ls)) == ls
  {
    if |ls| == 1 {
      SplitLast(ls[0]);
    } else {
      SplitJoin(ls[1..]);
      SplitStep(ls[0], Join("\n", ls[1..]));
    }
  }

  /** Stripping is determined by the edges. */
  lemma StripIs(s: string, a: nat, b: nat)
    requires a <= b <= |s|
    requires forall k | 0 <= k < a :: s[k] == NL
    requires forall k | b <= k < |s| :: s[k] == NL
    requires a < b ==> s[a] != NL && s[b - 1] != NL
    ensures StripNL(s) == s[a..b]
  {
    if a < b {
      LeadIs(s, 0, a);
      TrailIs(s, a, |s|, b);
    } else {
      LeadIs(s, 0, |s|);
    }
  }

  lemma {:induction false} LeadIs(s: string, i: nat, j: nat)
    requires i <= j <= |s| && (j < |s| ==> s[j] != NL)
    requires forall k | i <= k < j :: s[k] == NL
    ensures LeadNL(s, i) == j
    decreases j - i
  {
    if i < j { LeadIs(s, i + 1, j); }
  }

  lemma {:induction false} TrailIs(s: string, a: nat, j: nat, b: nat)
    requires a <= b <= j <= |s| && (a < b ==> s[b - 1] != NL)
    requires forall k | b <= k < j :: s[k] == NL
    ensures TrailNL(s, a, j) == b
    decreases j - b
  {
    if b < j { TrailIs(s, a, j - 1, b); }
  }

  lemma {:induction false} LeadAll(s: string, i: nat)
    requires i <= |s|
    ensures forall k | i <= k < LeadNL(s, i) :: s[k] == NL
    decreases |s| - i
  {
    if i < |s| && s[i] == NL { LeadAll(s, i + 1); }
  }

  lemma {:induction false} TrailAll(s: string, a: nat, j: nat)
    requires a <= j <= |s|
    ensures forall k | TrailNL(s, a, j) <= k < j :: s[k] == NL
    decreases j
  {
    if a < j && s[j - 1] == NL { TrailAll(s, a, j - 1); }
  }

  /** Where stripping cuts, and what it cuts off. */
  lemma StripParts(s: string)
    ensures var a := LeadNL(s, 0); var b := TrailNL(s, a, |s|);
            && StripNL(s) == s[a..b]
            && (forall k | 0 <= k < a :: s[k] == NL) && (forall k | b <= k < |s| :: s[k] == NL)
            && (a < b ==> s[a] != NL && s[b - 1] != NL)
  {
    LeadAll(s, 0);
    TrailAll(s, LeadNL(s, 0), |s|);
  }

  lemma StripEdges(s: string)
    ensures StripNL(s) != "" ==> StripNL(s)[0] != NL && StripNL(s)[|StripNL(s)| - 1] != NL
  {
    StripParts(s);
  }

  /** What lies between two characters that are not newlines is kept. */
  lemma StripKeeps(s: string, i: nat, j: nat)
    requires i < j <= |s| && s[i] != NL && s[j - 1] != NL
    ensures |StripNL(s)| >= j - i
  {
    StripParts(s);
  }

  lemma StripNLIdempotent(s: string)
    ensures StripNL(StripNL(s)) == StripNL(s)
  {
    StripEdges(s);
    StripIs(StripNL(s), 0, |StripNL(s)|);
  }

  /** Adding a trailing newline never changes what stripping leaves. */
  lemma StripNLAppend(s: string)
    ensures StripNL(s + "\n") == StripNL(s)
  {
    StripParts(s);
    var a := LeadNL(s, 0);
    var b := TrailNL(s, a, |s|);
    StripIs(s + "\n", a, b);
    assert (s + "\n")[a..b] == s[a..b];
  }
}
