/** What setting a title writes (`set_title` and `yaml_value`,
    shared/wiki/editor.py): the one line of the frontmatter and the one
    heading, and the text they are read back as. */
module TitleEdits {
  import opened Options
  import opened Text
  import opened PageFormat
  import opened Editor
  import opened Squeezing
  import opened SharedText
  import opened Frontmatter

  // ---------------------------------------------------------------------
  // One line replaced
  // ---------------------------------------------------------------------

  /** A line of `t` from `i` on starts with `key:`. */
  predicate KeyAt(t: string, i: nat, key: string) { LineStart(t, i) && i < |t| && HasAt(t, i, key + ":") }

  /** A line of `t` from `i` on is a heading of the first level. */
  predicate HeadingAt(t: string, i: nat) {
    LineStart(t, i) && i + 1 < |t| && t[i] == '#' && (t[i + 1] == ' ' || t[i + 1] == '\t')
  }

  /** The line that starts at `i` replaced by `line`. */
  predicate LineReplaced(was: string, i: nat, line: string, now: string) {
    exists e: nat :: i <= e <= |was| && (e < |was| ==> was[e] == NL) && (forall k | i <= k < e :: was[k] != NL)
                     && now == was[..i] + line + was[e..]
  }

  lemma LineGone(was: string, i: nat, line: string)
    requires i <= |was|
    ensures LineReplaced(was, i, line, was[..i] + line + was[LineEnd(was, i)..])
  {
    LineEndClear(was, i);
  }

  /** The key's first line replaced, or the line added at the end. */
  ghost predicate KeySet(was: string, key: string, line: string, now: string) {
    || (exists i: nat :: KeyAt(was, i, key) && (forall j: nat | j < i :: !KeyAt(was, j, key))
                         && LineReplaced(was, i, line, now))
    || ((forall i: nat :: !KeyAt(was, i, key)) && exists kept :: Kept(kept, was) && now == kept + "\n" + line + "\n")
  }

  /** The first heading replaced, or one put in front. */
  ghost predicate HeadingSet(was: string, line: string, now: string) {
    || (exists i: nat :: HeadingAt(was, i) && (forall j: nat | j < i :: !HeadingAt(was, j))
                         && LineReplaced(was, i, line, now))
    || ((forall i: nat :: !HeadingAt(was, i)) && now == line + "\n" + was)
  }

  lemma {:induction false} KeyLineFirst(t: string, key: string, i: nat)
    requires i <= |t|
    ensures forall j: nat | i <= j < KeyLine(t, key, i) :: !KeyAt(t, j, key)
    decreases |t| - i
  {
    if i < |t| && !(LineStart(t, i) && HasAt(t, i, key + ":")) { KeyLineFirst(t, key, i + 1); }
  }

  lemma {:induction false} H1LineFirst(t: string, i: nat)
    requires i <= |t|
    ensures forall j: nat | i <= j < H1Line(t, i) :: !HeadingAt(t, j)
    ensures H1Line(t, i) < |t| ==> HeadingAt(t, H1Line(t, i))
    decreases |t| - i
  {
    if i < |t| && !HeadingAt(t, i) { H1LineFirst(t, i + 1); }
  }

  lemma PatchRawSets(raw: string, key: string, line: string)
    ensures KeySet(raw, key, line, PatchRaw(raw, key, line))
  {
    hide LineReplaced;
    var i := KeyLine(raw, key, 0);
    KeyLineFirst(raw, key, 0);
    if i < |raw| { LineGone(raw, i, line); } else {
      StripIsKept(raw);
      forall j: nat ensures !KeyAt(raw, j, key) {}
    }
  }

  lemma PatchH1Sets(preamble: string, title: string)
    ensures HeadingSet(preamble, "# " + title, PatchH1(preamble, title))
  {
    hide LineReplaced;
    var i := H1Line(preamble, 0);
    H1LineFirst(preamble, 0);
    if i < |preamble| { LineGone(preamble, i, "# " + title); } else {
      forall j: nat ensures !HeadingAt(preamble, j) {}
    }
  }

  /** Setting a title writes the words of it, with single spaces: as the `title`
      line of the frontmatter and as the heading, and moves nothing else. */
  lemma TitleSet(p: Page, title: string, value: string, loader: Loader)
    ensures match SetTitle(p, title, value, loader)
            case Err(_) => true
            case Ok(q) =>
              && KeySet(p.raw, "title", TrimRight("title: " + value), q.raw)
              && HeadingSet(p.preamble, "# " + Join(" ", Words(title)), q.preamble)
              && q.sections == p.sections && q.pageType == p.pageType
  {
    hide KeySet, HeadingSet, PatchRaw, PatchH1, ParsePage, DumpPage, OneLine, Words, Join, TrimRight;
    assert "title" + ": " + value == "title: " + value;
    PatchRawSets(p.raw, "title", TrimRight("title: " + value));
    OneLineIs(title);
    PatchH1Sets(p.preamble, OneLine(title));
  }

  // ---------------------------------------------------------------------
  // The scalar read back
  // ---------------------------------------------------------------------

  function HexValue(c: char): int {
    if '0' <= c <= '9' then c as int - '0' as int
    else if 'a' <= c <= 'f' then c as int - 'a' as int + 10
    else if 'A' <= c <= 'F' then c as int - 'A' as int + 10
    else -1
  }

  /** The character an escape of four hexadecimal digits stands for. */
  function FourHex(s: string): Option<char>
    requires |s| >= 4
  {
    var a, b, c, d := HexValue(s[0]), HexValue(s[1]), HexValue(s[2]), HexValue(s[3]);
    var n := ((a * 16 + b) * 16 + c) * 16 + d;
    if a >= 0 && b >= 0 && c >= 0 && d >= 0 && 0 <= n < 0xD800 then Some(n as char) else None
  }

  /** The character a one-letter escape stands for. */
  function Escaped(c: char): Option<char> {
    if c == '"' || c == '\\' || c == '/' then Some(c)
    else if c == 'n' then Some('\n')
    else if c == 'r' then Some('\r')
    else if c == 't' then Some('\t')
    else if c == 'b' then Some('\U{08}')
    else if c == 'f' then Some('\U{0C}')
    else None
  }

  function Then(c: char, rest: Option<string>): Option<string> {
    match rest case Some(t) => Some([c] + t) case None => None
  }

  /** The inside of a double-quoted scalar: none when a quote ends it early. */
  function Unquoted(s: string): Option<string>
    decreases |s|
  {
    if s == "" then Some("")
    else if s[0] == '"' then None
    else if s[0] != '\\' then Then(s[0], Unquoted(s[1..]))
    else if |s| >= 6 && s[1] == 'u' then
      match FourHex(s[2..6]) case Some(c) => Then(c, Unquoted(s[6..])) case None => None
    else if |s| >= 2 && Escaped(s[1]).Some? then Then(Escaped(s[1]).value, Unquoted(s[2..]))
    else None
  }

  /** What a scalar stands for: between quotes its inside, and bare itself. */
  function ScalarText(s: string): Option<string> {
    if s != "" && s[0] == '"' then
      if |s| >= 2 && s[|s| - 1] == '"' then Unquoted(s[1..|s| - 1]) else None
    else Some(s)
  }

  lemma HexRead(d: nat)
    requires d < 16
    ensures HexValue(Hex(d)) == d
  {
    assert Hex(d) == "0123456789abcdef"[d];
  }

  lemma ControlRead(c: char, rest: string)
    requires c < ' '
    ensures Unquoted("\\u00" + [Hex(c as int / 16), Hex(c as int % 16)] + rest) == Then(c, Unquoted(rest))
  {
    hide Unquoted;
    var hi, lo := Hex(c as int / 16), Hex(c as int % 16);
    var s := "\\u00" + [hi, lo] + rest;
    HexRead(c as int / 16);
    HexRead(c as int % 16);
    assert s[2..6] == ['0', '0', hi, lo] && s[6..] == rest && s[0] == '\\' && s[1] == 'u';
    assert FourHex(s[2..6]) == Some(c);
    EscapeOpens(s);
  }

  lemma EscapeOpens(s: string)
    requires |s| >= 6 && s[0] == '\\' && s[1] == 'u'
    ensures Unquoted(s) == match FourHex(s[2..6]) case Some(c) => Then(c, Unquoted(s[6..])) case None => None
  {
    hide FourHex, Then;
  }

  lemma LetterRead(c: char, x: char, rest: string)
    requires x != 'u' && Escaped(x) == Some(c)
    ensures Unquoted("\\" + [x] + rest) == Then(c, Unquoted(rest))
  {
    var s := "\\" + [x] + rest;
    assert s[2..] == rest;
  }

  /** The letter of a one-letter escape. */
  lemma LetterOf(c: char) returns (x: char)
    requires c in "\"\\\n\r\t\U{08}\U{0C}"
    ensures x != 'u' && Escaped(x) == Some(c) && JsonChar(c) == "\\" + [x]
  {
    if c == '"' {
      x := '"';
    } else if c == '\\' {
      x := '\\';
    } else if c == '\n' {
      x := 'n';
    } else if c == '\r' {
      x := 'r';
    } else if c == '\t' {
      x := 't';
    } else if c == '\U{08}' {
      x := 'b';
    } else {
      x := 'f';
    }
    assert JsonChar(c) == "\\" + [x];
  }

  lemma CharRead(c: char, rest: string)
    ensures Unquoted(JsonChar(c) + rest) == Then(c, Unquoted(rest))
  {
    hide Unquoted, FourHex, Hex, Escaped, Then;
    if c in "\"\\\n\r\t\U{08}\U{0C}" {
      var x := LetterOf(c);
      LetterRead(c, x, rest);
    } else if c < ' ' {
      ControlRead(c, rest);
    } else {
      PlainRead(c, rest);
    }
  }

  lemma PlainRead(c: char, rest: string)
    requires c != '"' && c != '\\'
    ensures Unquoted([c] + rest) == Then(c, Unquoted(rest))
  {
    assert ([c] + rest)[1..] == rest;
  }

  lemma {:induction false} CharsRead(t: string)
    ensures Unquoted(JsonChars(t)) == Some(t)
  {
    hide JsonChar, Unquoted;
    if t == "" { NothingRead(); } else {
      CharsRead(t[1..]);
      CharRead(t[0], JsonChars(t[1..]));
      assert [t[0]] + t[1..] == t;
    }
  }

  lemma NothingRead()
    ensures Unquoted("") == Some("")
  {}

  /** Any text is read back from the scalar it is rendered as. */
  lemma YamlTextReadsBack(t: string, readsBack: bool)
    ensures ScalarText(YamlText(t, readsBack)) == Some(t)
  {
    hide Unquoted, JsonChars;
    if !(PlainScalar(t) && readsBack) {
      var s := "\"" + JsonChars(t) + "\"";
      assert s[0] == '"' && s[|s| - 1] == '"' && s[1..|s| - 1] == JsonChars(t);
      CharsRead(t);
    }
  }
}
