/** Title edits: one frontmatter line and the `# Title` line are replaced, and
    nothing else in either block moves. */
module Frontmatter {
  import opened Options
  import opened Text
  import opened PageFormat
  import opened Neutral
  import opened Editor
  import opened Squeezing
  import opened Tidy

  /** A key whose line cannot look like a delimiter. */
  predicate GoodKey(key: string) { key != "" && key[0] != '-' && NoNewline(key) }

  /** Past its first character, `b` closes a block whatever stands before it. */
  lemma ClosesShift(f: string, g: string, b: string, k: nat)
    requires k > |f| && ClosesBlock(f + b, k)
    ensures ClosesBlock(g + b, k - |f| + |g|)
  {
    var j := k - |f|;
    assert (f + b)[k..k + 3] == b[j..j + 3];
    assert (g + b)[j + |g|..j + |g| + 3] == b[j..j + 3];
  }

  /** Replacing one line keeps a raw block free of closing delimiters. */
  lemma ReplaceLineGoodRaw(raw: string, i: nat, line: string)
    requires GoodRaw(raw) && i < |raw| && LineStart(raw, i)
    requires line != "" && line[0] != '-' && NoNewline(line)
    ensures GoodRaw(raw[..i] + line + raw[LineEnd(raw, i)..])
  {
    var e := LineEnd(raw, i);
    LineEndClear(raw, i);
    var a, b := raw[..i], raw[e..];
    var t := a + line + b;
    Slices(a, line, b);
    assert raw == raw[..e] + b;
    hide ClosesBlock;
    forall k | 1 <= k < |t| ensures !ClosesBlock(t, k) { NoCloserAt(raw, i, e, line, k); }
  }

  lemma NoCloserAt(raw: string, i: nat, e: nat, line: string, k: nat)
    requires GoodRaw(raw) && i <= e < |raw| && LineStart(raw, i) && line != "" && line[0] != '-' && NoNewline(line)
    requires var t := raw[..i] + line + raw[e..]; 1 <= k < |t|
    ensures !ClosesBlock(raw[..i] + line + raw[e..], k)
  {
    var a, b := raw[..i], raw[e..];
    var t := a + line + b;
    Slices(a, line, b);
    assert raw == raw[..e] + b;
    hide ClosesBlock;
    if ClosesBlock(t, k) {
      if k < i {
        ClosesBlockPrefix(t, i, k);
        ClosesBlockPrefix(raw, i, k);
      } else if k <= |a + line| {
        NotInLine(a, line, b, k);
      } else {
        ClosesShift(a + line, raw[..e], b, k);
      }
    }
  }

  lemma NotInLine(a: string, line: string, b: string, k: nat)
    requires |a| <= k <= |a| + |line| && line != "" && line[0] != '-' && NoNewline(line)
    ensures !ClosesBlock(a + line + b, k)
  {
    var t := a + line + b;
    if ClosesBlock(t, k) { HasAtChar(t, k, "---", 0); }
  }

  lemma AppendLineGoodRaw(raw: string, line: string)
    requires GoodRaw(raw) && line != "" && line[0] != '-' && NoNewline(line)
    ensures GoodRaw(StripRightNL(raw) + "\n" + line + "\n")
  {
    var kept := StripRightNL(raw);
    var a := kept + "\n";
    var t := a + line + "\n";
    var n := |a|;
    assert t == kept + "\n" + line + "\n";
    TrailAll(raw, 0, |raw|);
    assert a == raw[..n];
    forall k | 1 <= k < |t| ensures !ClosesBlock(t, k) {
      if ClosesBlock(t, k) {
        HasAtChar(t, k, "---", 0);
        if k < n {
          assert t[..n] == a;
          ClosesBlockPrefix(t, n, k);
          ClosesBlockPrefix(raw, n, k);
        }
      }
    }
  }

  lemma PatchRawGood(raw: string, key: string, line: string)
    requires GoodRaw(raw) && line != "" && line[0] != '-' && NoNewline(line)
    ensures GoodRaw(PatchRaw(raw, key, line))
  {
    var i := KeyLine(raw, key, 0);
    if i < |raw| { ReplaceLineGoodRaw(raw, i, line); } else { AppendLineGoodRaw(raw, line); }
  }

  /** Where the key has a line, that line is replaced and every other byte of
      the block stays. */
  lemma PatchRawMeans(raw: string, key: string, line: string) returns (a: string, was: string, b: string)
    requires NoNewline(key) && KeyLine(raw, key, 0) < |raw|
    ensures raw == a + was + b && PatchRaw(raw, key, line) == a + line + b
    ensures Closed(a) && NoNewline(was) && key + ":" <= was && (b == "" || b[0] == NL)
  {
    var i := KeyLine(raw, key, 0);
    var e := LineEnd(raw, i);
    a, was, b := raw[..i], raw[i..e], raw[e..];
    LineEndClear(raw, i);
    var k := key + ":";
    assert raw[i..i + |k|] == k;
    forall j | 0 <= j < |k| ensures raw[i + j] == k[j] != NL { assert raw[i..i + |k|][j] == k[j]; }
    assert i + |k| <= e;
    assert was[..|k|] == k;
  }

  lemma FieldLine(key: string, value: string)
    requires GoodKey(key) && NoNewline(value)
    ensures var line := TrimRight(key + ": " + value); NoNewline(line) && (line == "" || line[0] != '-')
  {}

  /** A tidy page stays tidy, and what was validated is the block now in it. */
  lemma SetFieldTidy(p: Page, key: string, value: string, loader: Loader)
    requires TidyPage(p) && GoodKey(key) && NoNewline(value) && !IsSpace(key[0])
    ensures match SetField(p, key, value, loader)
            case Ok(q) => TidyPage(q) && loader(q.raw).Some? && q == p.(raw := q.raw)
            case Err(e) => e == InvalidEdit
  {
    var line := TrimRight(key + ": " + value);
    FieldLine(key, value);
    TrimKeepsFirst(key + ": " + value);
    PatchRawGood(p.raw, key, line);
    hide PatchRaw, TrimRight;
    TidyWellFormed(p);
    SplitDump(p.(raw := PatchRaw(p.raw, key, line)));
  }

  lemma TrimKeepsFirst(s: string)
    requires s != "" && !IsSpace(s[0])
    ensures TrimRight(s) != "" && TrimRight(s)[0] == s[0]
  {
    TrailSpaceKeeps(s, |s|);
  }

  lemma {:induction false} TrailSpaceKeeps(s: string, j: nat)
    requires 1 <= j <= |s| && !IsSpace(s[0])
    ensures TrailSpace(s, 0, j) >= 1
    decreases j
  {
    if j > 1 { TrailSpaceKeeps(s, j - 1); }
  }

  // ---------------------------------------------------------------------
  // The `# Title` line
  // ---------------------------------------------------------------------

  lemma ReplaceLineQuiet(t: string, i: nat, line: string)
    requires Quiet(t) && i < |t| && LineStart(t, i)
    requires NoNewline(line) && |line| >= 2 && line[0] == '#' && line[1] == ' '
    ensures Quiet(t[..i] + line + t[LineEnd(t, i)..])
    ensures Closed(t) ==> Closed(t[..i] + line + t[LineEnd(t, i)..])
  {
    var e := LineEnd(t, i);
    LineEndClear(t, i);
    var a, b := t[..i], t[e..];
    QuietPrefix(t, i);
    forall k | 0 < k < |line + b| ensures !HeaderLike(line + b, k) {
      if HeaderLike(line + b, k) { assert HeaderLike(t, k - |line| + e); }
    }
    QuietJoin(a, line + b);
    assert a + line + b == a + (line + b);
  }

  lemma PrependLineQuiet(t: string, line: string)
    requires Quiet(t) && NoNewline(line) && |line| >= 2 && line[0] == '#' && line[1] == ' '
    ensures Quiet(line + "\n" + t)
  {
    var a := line + "\n";
    forall k | 0 <= k < |a| ensures !HeaderLike(a, k) {
      if k > 0 { assert a[k - 1] == line[k - 1]; }
    }
    QuietJoin(a, t);
  }

  lemma PatchH1Quiet(preamble: string, title: string)
    requires Quiet(preamble) && NoNewline(title)
    ensures Quiet(PatchH1(preamble, title))
    ensures Closed(preamble) ==> Closed(PatchH1(preamble, title))
  {
    var i := H1Line(preamble, 0);
    if i < |preamble| {
      ReplaceLineQuiet(preamble, i, "# " + title);
    } else {
      PrependLineQuiet(preamble, "# " + title);
    }
  }

  lemma SetTitleTidy(p: Page, title: string, value: string, loader: Loader)
    requires TidyPage(p) && NoNewline(value)
    ensures match SetTitle(p, title, value, loader)
            case Ok(q) => TidyPage(q) && loader(q.raw).Some? && q.sections == p.sections && q.pageType == p.pageType
            case Err(e) => e == InvalidEdit
  {
    hide TidySections, PatchH1, SetField, OneLine, GoodRaw;
    SetFieldTidy(p, "title", value, loader);
    OneLineNoNewline(title);
    if SetField(p, "title", value, loader).Ok? {
      PatchH1Quiet(SetField(p, "title", value, loader).value.preamble, OneLine(title));
    }
  }

  // ---------------------------------------------------------------------
  // The YAML scalar a title is rendered as
  // ---------------------------------------------------------------------

  /** `_PLAIN_SCALAR_RE` on a single line. */
  predicate PlainScalar(t: string) {
    && t != "" && IsWord(t[0])
    && forall i | 0 <= i < |t| :: IsWord(t[i]) || t[i] in ".:+-"
  }

  function Hex(d: nat): char
    requires d < 16
  {
    "0123456789abcdef"[d]
  }

  /** `json.dumps(text, ensure_ascii=False)`, one character. */
  function JsonChar(c: char): string {
    if c == '"' then "\\\""
    else if c == '\\' then "\\\\"
    else if c == '\n' then "\\n"
    else if c == '\r' then "\\r"
    else if c == '\t' then "\\t"
    else if c == '\U{08}' then "\\b"
    else if c == '\U{0C}' then "\\f"
    else if c < ' ' then "\\u00" + [Hex(c as int / 16), Hex(c as int % 16)]
    else [c]
  }

  function JsonChars(t: string): string {
    if t == "" then "" else JsonChar(t[0]) + JsonChars(t[1..])
  }

  /** `yaml_value` of a string; `readsBack` is whether YAML loads the bare
      text as that same string. */
  function YamlText(t: string, readsBack: bool): string {
    if PlainScalar(t) && readsBack then t else "\"" + JsonChars(t) + "\""
  }

  lemma {:induction false} JsonNoNewline(t: string)
    ensures NoNewline(JsonChars(t))
  {
    hide JsonChar;
    if t != "" {
      JsonCharPlain(t[0]);
      JsonNoNewline(t[1..]);
    }
  }

  lemma JsonCharPlain(c: char)
    ensures NoNewline(JsonChar(c))
  {
    if c < ' ' {
      assert forall d | 0 <= d < 16 :: Hex(d) != NL;
    }
  }

  /** Any title, in any rendering, is a single-line scalar. */
  lemma YamlTextNoNewline(t: string, readsBack: bool)
    ensures NoNewline(YamlText(t, readsBack))
  {
    JsonNoNewline(t);
  }
}
