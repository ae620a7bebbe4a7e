/** The item line grammar (shared/wiki/items.py):
    `- [ ] text [key:: value] [key2:: value2] ^block-id`. */
module Items {
  import opened Options
  import opened Text
  import opened PageFormat
  import opened Neutral
  import opened Fence

  datatype Field = Field(key: string, value: string)

  datatype Item = Item(text: string, blockId: string, checked: Option<bool>, fields: seq<Field>)

  predicate IsIdChar(c: char) {
    'a' <= c <= 'z' || 'A' <= c <= 'Z' || '0' <= c <= '9' || c == '_' || c == '-'
  }

  predicate IsBracket(c: char) { c == '[' || c == ']' }

  // ---------------------------------------------------------------------
  // Field values: `(?:\[\[.*?\]\]|[^\[\]])*`
  // ---------------------------------------------------------------------

  /** Some way of matching the whole of `v` as a field value. */
  predicate IsValue(v: string)
    decreases |v|
  {
    || v == ""
    || (!IsBracket(v[0]) && IsValue(v[1..]))
    || ("[[" <= v && exists m: nat | 2 <= m <= |v| - 2 :: "]]" <= v[m..] && IsValue(v[m + 2..]))
  }

  /** Length of the value the matcher takes when a `]` must follow: greedy
      repetition, each `[[...]]` closed as early as the rest allows. */
  function ValueLen(s: string): (n: Option<nat>)
    ensures n.Some? ==> n.value < |s| && s[n.value] == ']'
    decreases |s|, 1
  {
    if s == "" then None
    else if "[[" <= s then Shift(CloseLen(s[2..]), 2)
    else if !IsBracket(s[0]) then Shift(ValueLen(s[1..]), 1)
    else if s[0] == ']' then Some(0)
    else None
  }

  function CloseLen(s: string): (n: Option<nat>)
    ensures n.Some? ==> n.value < |s| && s[n.value] == ']'
    decreases |s|, 0
  {
    if s == "" then None
    else if "]]" <= s && ValueLen(s[2..]).Some? then Shift(ValueLen(s[2..]), 2)
    else Shift(CloseLen(s[1..]), 1)
  }

  function Shift(n: Option<nat>, k: nat): Option<nat> {
    match n
    case Some(m) => Some(m + k)
    case None => None
  }

  // ---------------------------------------------------------------------
  // Fields: `\[(\w+)::\s*(VALUE)\]`
  // ---------------------------------------------------------------------

  /** Some way of matching the whole of `f` as one field. */
  predicate IsField(f: string) {
    && f != "" && f[0] == '[' && f[|f| - 1] == ']'
    && var r := WordRun(f, 1);
       && 1 < r && r + 2 <= |f| - 1 && f[r] == ':' && f[r + 1] == ':'
       && IsValue(f[r + 2..|f| - 1])
  }

  function SkipSpaces(s: string): string { s[SpaceRun(s, 0)..] }

  // Some way of matching the whole of `s` as `(?:field\s*)*`.
  predicate IsFields(s: string)
    decreases |s|
  {
    s == "" || exists n: nat | 1 <= n <= |s| :: IsField(s[..n]) && IsFields(SkipSpaces(s[n..]))
  }

  /** The field the matcher finds at the start of `s`, and its length. */
  function FieldFirst(s: string): (r: Option<(Field, nat)>)
    ensures r.Some? ==> 1 <= r.value.1 <= |s|
  {
    if s == "" || s[0] != '[' then None else
      var r := WordRun(s, 1);
      if r == 1 || !("::" <= s[r..]) then None else
        var w := SpaceRun(s, r + 2);
        match ValueLen(s[w..])
        case Some(n) => Some((Field(s[1..r], Trim(s[w..w + n])), w + n + 1))
        case None => None
  }

  /** `_FIELD_RE.finditer`. */
  function ScanFields(s: string): seq<Field> {
    if s == "" then [] else
      match FieldFirst(s)
      case Some((f, n)) => [f] + ScanFields(s[n..])
      case None => ScanFields(s[1..])
  }

  /** A dict built from pairs in order: the last value wins, at the first place. */
  function DictPut(d: seq<Field>, f: Field): seq<Field> {
    if d == [] then [f]
    else if d[0].key == f.key then [f] + d[1..]
    else [d[0]] + DictPut(d[1..], f)
  }

  function DictOf(d: seq<Field>, fs: seq<Field>): seq<Field>
    decreases |fs|
  {
    if fs == [] then d else DictOf(DictPut(d, fs[0]), fs[1..])
  }

  /** `fields.get(key)`. */
  function Get(d: seq<Field>, key: string): Option<string> {
    if d == [] then None else if d[0].key == key then Some(d[0].value) else Get(d[1..], key)
  }

  // ---------------------------------------------------------------------
  // The line
  // ---------------------------------------------------------------------

  /** Position of the last `^`; the length for none. Only a last `^` can start
      the block id: neither ids nor trailing blanks hold one. */
  function LastCaret(l: string): (c: nat)
    ensures c <= |l| && (c < |l| ==> l[c] == '^')
  {
    if l == "" then 0 else
      var c := LastCaret(l[1..]);
      if c < |l| - 1 then c + 1 else if l[0] == '^' then 0 else |l|
  }

  function IdRun(s: string, i: nat): (j: nat)
    requires i <= |s|
    ensures i <= j <= |s|
    decreases |s| - i
  {
    if i == |s| || !IsIdChar(s[i]) then i else IdRun(s, i + 1)
  }

  /** The block id of an item-shaped line. Text can be anything, so the bullet
      and the id alone decide whether a line is an item. */
  function IdOf(l: string): Option<string> {
    var c := LastCaret(l);
    if |l| >= 2 && l[0] == '-' && IsSpace(l[1]) && c < |l| then
      var e := IdRun(l, c + 1);
      if e > c + 1 && SpaceRun(l, e) == |l| then Some(l[c + 1..e]) else None
    else None
  }

  // `\[[ xX]\]\s+` at `i`.
  predicate CheckboxAt(l: string, i: nat) {
    && i + 3 < |l| && l[i] == '[' && l[i + 2] == ']' && IsSpace(l[i + 3])
    && (l[i + 1] == ' ' || l[i + 1] == 'x' || l[i + 1] == 'X')
  }

  /** The lazy `(.*?)`: the shortest text after which only fields remain. */
  function TextLen(t: string): (k: nat)
    ensures k <= |t|
  {
    if t == "" || IsFields(SkipSpaces(t)) then 0 else 1 + TextLen(t[1..])
  }

  lemma {:induction false} SpacesBefore(l: string, i: nat, c: nat)
    requires i <= c < |l| && !IsSpace(l[c])
    ensures SpaceRun(l, i) <= c
    decreases c - i
  {
    if i < c && IsSpace(l[i]) { SpacesBefore(l, i + 1, c); }
  }

  /** `parse_item_line` on a line without newlines. */
  function ParseItemLine(l: string): (r: Option<Item>)
    ensures r.Some? <==> IdOf(l).Some?
    ensures r.Some? ==> r.value.blockId == IdOf(l).value
  {
    match IdOf(l)
    case None => None
    case Some(id) =>
      var c := LastCaret(l);
      SpacesBefore(l, 1, c);
      var p := SpaceRun(l, 1);
      if CheckboxAt(l, p) then
        assert p + 3 <= c;
        SpacesBefore(l, p + 3, c);
        Some(ItemOf(l[SpaceRun(l, p + 3)..c], id, Some(l[p + 1] != ' ')))
      else
        Some(ItemOf(l[p..c], id, None))
  }

  /** The item whose text and fields are spelled by `t`. */
  function ItemOf(t: string, id: string, checked: Option<bool>): Item {
    var k := TextLen(t);
    Item(t[..k], id, checked, DictOf([], ScanFields(SkipSpaces(t[k..]))))
  }

  function FormatFields(fs: seq<Field>): string {
    if fs == [] then "" else " [" + fs[0].key + ":: " + fs[0].value + "]" + FormatFields(fs[1..])
  }

  function Bullet(checked: Option<bool>): string {
    match checked
    case None => "- "
    case Some(b) => if b then "- [x] " else "- [ ] "
  }

  /** `format_item_line`. */
  function FormatItem(it: Item): string {
    Bullet(it.checked) + it.text + FormatFields(it.fields) + " ^" + it.blockId
  }

  // ---------------------------------------------------------------------
  // The block id survives whatever the text
  // ---------------------------------------------------------------------

  predicate IsId(id: string) { id != "" && forall i | 0 <= i < |id| :: IsIdChar(id[i]) }

  lemma {:induction false} LastCaretIs(l: string, c: nat)
    requires c < |l| && l[c] == '^' && forall k | c < k < |l| :: l[k] != '^'
    ensures LastCaret(l) == c
  {
    if c > 0 {
      LastCaretIs(l[1..], c - 1);
    } else {
      NoCaret(l[1..]);
    }
  }

  lemma {:induction false} NoCaret(l: string)
    requires forall k | 0 <= k < |l| :: l[k] != '^'
    ensures LastCaret(l) == |l|
  {
    if l != "" { NoCaret(l[1..]); }
  }

  lemma {:induction false} IdRunIs(s: string, i: nat, j: nat)
    requires i <= j <= |s| && (j < |s| ==> !IsIdChar(s[j]))
    requires forall k | i <= k < j :: IsIdChar(s[k])
    ensures IdRun(s, i) == j
    decreases j - i
  {
    if i < j { IdRunIs(s, i + 1, j); }
  }

  lemma CaretLast(m: string, id: string)
    requires IsId(id)
    ensures var l := m + "^" + id; |m| < |l| && LastCaret(l) == |m| && IdRun(l, |m| + 1) == |l| && l[|m| + 1..] == id
  {
    hide IsIdChar;
    var l := m + "^" + id;
    var c := |m|;
    assert !IsIdChar('^') by { CaretIsNoId(); }
    forall k | c < k < |l| ensures l[k] != '^' && IsIdChar(l[k]) { assert l[k] == id[k - c - 1]; }
    LastCaretIs(l, c);
    IdRunIs(l, c + 1, |l|);
  }

  lemma CaretIsNoId()
    ensures !IsIdChar('^')
  {}

  /** Any line that begins with a bullet and ends with `^id` carries that id. */
  lemma IdOfLine(m: string, id: string)
    requires IsId(id) && |m| >= 2 && m[0] == '-' && IsSpace(m[1])
    ensures IdOf(m + "^" + id) == Some(id) && LastCaret(m + "^" + id) == |m|
  {
    CaretLast(m, id);
    assert id != "";
    hide LastCaret, IdRun, IsSpace, IsIdChar, IsId;
    var l := m + "^" + id;
    assert l[0] == m[0] && l[1] == m[1] && l[|m| + 1..|l|] == id;
  }

  function Front(it: Item): string { Bullet(it.checked) + it.text + FormatFields(it.fields) + " " }

  lemma FormatParts(it: Item)
    ensures FormatItem(it) == Front(it) + "^" + it.blockId
    ensures |Front(it)| >= 2 && Front(it)[0] == '-' && IsSpace(Front(it)[1])
  {
    var b := Bullet(it.checked);
    var rest := it.text + FormatFields(it.fields) + " ";
    assert Front(it) == b + rest;
    assert FormatItem(it) == b + it.text + FormatFields(it.fields) + (" " + "^") + it.blockId;
  }

  /** The id comes back exactly, for any text, any fields, and even after the
      line has been neutralised. */
  lemma BlockIdRecovered(it: Item)
    requires IsId(it.blockId)
    ensures IdOf(FormatItem(it)) == Some(it.blockId)
    ensures IdOf(NeutraliseLine(FormatItem(it))) == Some(it.blockId)
  {
    hide FormatItem, Front, IdOf, NeutraliseLine, IsId;
    FormatParts(it);
    IdOfLine(Front(it), it.blockId);
    NeutralIdLine(Front(it), it.blockId);
  }

  lemma NeutralIdLine(m: string, id: string)
    requires IsId(id) && |m| >= 2 && m[0] == '-' && IsSpace(m[1])
    ensures IdOf(NeutraliseLine(m + "^" + id)) == Some(id)
  {
    hide IdOf, Defang;
    var tail := "^" + id;
    assert m + "^" + id == m + tail;
    BulletIsNoHeading(m + tail);
    DefangIdLine(m, tail);
    var y := DefangFront(m, tail);
    assert y + "^" + id == y + tail;
    IdOfLine(y, id);
  }

  lemma BulletIsNoHeading(l: string)
    requires l != "" && l[0] == '-'
    ensures !IsHeading(l) && EscapeHeading(l) == l
  {}

  /** What defanging makes of the part before a tail without `<`. */
  function DefangFront(m: string, tail: string): string {
    if m == "" then ""
    else if MarkerFirst(m + tail) then "&lt;" + DefangFront(m[1..], tail)
    else [m[0]] + DefangFront(m[1..], tail)
  }

  lemma {:induction false} DefangSplit(m: string, tail: string)
    requires forall i | 0 <= i < |tail| :: tail[i] != '<'
    ensures Defang(m + tail) == DefangFront(m, tail) + tail
  {
    hide MarkerFirst;
    if m == "" {
      assert m + tail == tail;
      DefangPlainTail(tail);
    } else {
      assert (m + tail)[1..] == m[1..] + tail;
      DefangSplit(m[1..], tail);
    }
  }

  lemma {:induction false} DefangPlainTail(t: string)
    requires forall i | 0 <= i < |t| :: t[i] != '<'
    ensures Defang(t) == t
  {
    if t != "" {
      assert "<!--"[0] == '<';
      DefangPlainTail(t[1..]);
    }
  }

  lemma NotMarker(s: string)
    requires s == "" || s[0] != '<'
    ensures !MarkerFirst(s)
  {
    assert "<!--"[0] == '<';
  }

  lemma DefangIdLine(m: string, tail: string)
    requires |m| >= 2 && m[0] == '-' && IsSpace(m[1])
    requires forall i | 0 <= i < |tail| :: tail[i] != '<'
    ensures Defang(m + tail) == DefangFront(m, tail) + tail
    ensures var y := DefangFront(m, tail); |y| >= 2 && y[0] == '-' && IsSpace(y[1])
  {
    DefangSplit(m, tail);
    assert m[1..][0] == m[1];
    NotMarker(m + tail);
    NotMarker(m[1..] + tail);
  }

  // ---------------------------------------------------------------------
  // The round trip
  // ---------------------------------------------------------------------

  function BracketRun(s: string): (n: nat)
    ensures n <= |s| && (n < |s| ==> IsBracket(s[n]))
  {
    if s == "" || IsBracket(s[0]) then 0 else 1 + BracketRun(s[1..])
  }

  /** Plain text and `[[wikilinks]]`. */
  predicate WikiText(v: string) {
    || v == ""
    || (!IsBracket(v[0]) && WikiText(v[1..]))
    || ("[[" <= v && var n := BracketRun(v[2..]); "]]" <= v[2 + n..] && WikiText(v[n + 4..]))
  }

  predicate SafeField(f: Field) {
    OwnerName(f.key) && Trimmed(f.value) && WikiText(f.value) && NoNewline(f.value)
  }

  predicate SafeFields(fs: seq<Field>) {
    fs != [] ==> SafeField(fs[0]) && Get(fs[1..], fs[0].key).None? && SafeFields(fs[1..])
  }

  // `\[\w+::` at the start of `s`.
  predicate OpenerFirst(s: string) {
    s != "" && s[0] == '[' && WordRun(s, 1) > 1 && "::" <= s[WordRun(s, 1)..]
  }

  /** Nothing in `t` opens a field. */
  predicate NoOpener(t: string) { t != "" ==> !OpenerFirst(t) && NoOpener(t[1..]) }

  /** Items the grammar carries whole: one line, trimmed, nothing in the text
      that reads as a field or a checkbox, values of text and wikilinks. */
  predicate SafeItem(it: Item) {
    && IsId(it.blockId) && SafeFields(it.fields)
    && Trimmed(it.text) && NoOpener(it.text) && NoNewline(it.text)
    && (it.checked.None? ==> !CheckboxAt(it.text + " ", 0))
  }

  lemma {:induction false} ValueLenWiki(v: string, z: string)
    requires WikiText(v)
    ensures ValueLen(v + "]" + z) == Some(|v|)
    decreases |v|
  {
    hide ValueLen;
    if v == "" {
      ValueLenEnd(z);
    } else if !IsBracket(v[0]) {
      ValueLenWiki(v[1..], z);
      ValueLenPlain(v[0], v[1..] + "]" + z);
      assert v + "]" + z == [v[0]] + (v[1..] + "]" + z);
    } else {
      var n := BracketRun(v[2..]);
      ValueLenWiki(v[n + 4..], z);
      LinkText(v, n);
      ValueLenLink(v[2..2 + n], v[n + 4..], z);
    }
  }

  lemma ValueLenEnd(z: string)
    ensures ValueLen("" + "]" + z) == Some(0)
  {
    assert "[["[0] == '[' && ("" + "]" + z)[0] == ']';
  }

  lemma ValueLenPlain(c: char, r: string)
    requires !IsBracket(c) && ValueLen(r).Some?
    ensures ValueLen([c] + r) == Some(ValueLen(r).value + 1)
  {
    var s := [c] + r;
    assert s[1..] == r && s[0] == c;
    assert !("[[" <= s) by { assert "[["[0] == '['; }
    hide IsBracket;
  }

  lemma ValueLenLink(link: string, rest: string, z: string)
    requires BracketFree(link) && ValueLen(rest + "]" + z) == Some(|rest|)
    ensures ValueLen("[[" + link + "]]" + rest + "]" + z) == Some(|link| + 4 + |rest|)
  {
    hide CloseLen;
    LinkSlices(link, rest, z);
    CloseLenLink(link, rest + "]" + z);
  }

  lemma LinkSlices(link: string, rest: string, z: string)
    ensures var s := "[[" + link + "]]" + rest + "]" + z;
            "[[" <= s && s[2..] == link + "]]" + (rest + "]" + z)
  {
    assert "[[" + link + "]]" + rest + "]" + z == "[[" + (link + "]]" + (rest + "]" + z));
  }

  lemma LinkText(v: string, n: nat)
    requires "[[" <= v && n == BracketRun(v[2..]) && "]]" <= v[2 + n..]
    ensures v == "[[" + v[2..2 + n] + "]]" + v[n + 4..] && BracketFree(v[2..2 + n])
  {
    BracketRunFree(v[2..]);
    assert v[2..][..n] == v[2..2 + n];
    assert v[2 + n..][2..] == v[n + 4..];
    assert v == v[..2] + v[2..2 + n] + v[2 + n..];
  }

  predicate BracketFree(s: string) { forall i | 0 <= i < |s| :: !IsBracket(s[i]) }

  lemma {:induction false} BracketRunFree(s: string)
    ensures BracketFree(s[..BracketRun(s)])
  {
    if s != "" && !IsBracket(s[0]) {
      BracketRunFree(s[1..]);
      var n := BracketRun(s);
      assert s[..n] == [s[0]] + s[1..][..n - 1];
    }
  }

  lemma {:induction false} CloseLenLink(link: string, after: string)
    requires BracketFree(link) && ValueLen(after).Some?
    ensures CloseLen(link + "]]" + after) == Some(|link| + 2 + ValueLen(after).value)
    decreases |link|
  {
    var s := link + "]]" + after;
    if link == "" {
      assert s[2..] == after;
    } else {
      assert s[0] == link[0] && !IsBracket(link[0]);
      assert s[1..] == link[1..] + "]]" + after;
      CloseLenLink(link[1..], after);
    }
  }

  lemma {:induction false} WikiIsValue(v: string)
    requires WikiText(v)
    ensures IsValue(v)
    decreases |v|
  {
    if v == "" {
    } else if !IsBracket(v[0]) {
      WikiIsValue(v[1..]);
    } else {
      var n := BracketRun(v[2..]);
      WikiIsValue(v[n + 4..]);
      assert "]]" <= v[n + 2..] && IsValue(v[n + 2 + 2..]);
    }
  }

  lemma TrimTrimmed(s: string)
    requires Trimmed(s)
    ensures Trim(s) == s
  {}

  /** One formatted field, followed by anything. */
  function FieldText(f: Field): string { "[" + f.key + ":: " + f.value + "]" }

  lemma ColonIsNoWord()
    ensures !IsWord(':')
  {}

  lemma FieldTextParts(f: Field, z: string)
    requires OwnerName(f.key)
    ensures var s := FieldText(f) + z; var r := 1 + |f.key|; var n := |f.value|;
            && s[0] == '[' && s[1..r] == f.key && WordRun(s, 1) == r && s[r] == s[r + 1] == ':' && s[r + 2] == ' '
            && s[r + 3..] == f.value + "]" + z && s[r + 3..r + 3 + n] == f.value && |FieldText(f)| == r + n + 4
  {
    hide IsWord, WordRun;
    var s, v := FieldText(f) + z, f.value + "]" + z;
    var r := 1 + |f.key|;
    assert s == "[" + f.key + (":: " + v);
    FieldSlices(f.key, v);
    forall k | 1 <= k < r ensures IsWord(s[k]) { assert s[1..r][k - 1] == s[k] == f.key[k - 1]; }
    assert !IsWord(s[r]) by { ColonIsNoWord(); }
    WordRunIs(s, 1, r);
    assert s[r + 3..r + 3 + |f.value|] == v[..|f.value|];
  }

  lemma FieldSlices(key: string, v: string)
    ensures var s := "[" + key + (":: " + v); var r := 1 + |key|;
            s[0] == '[' && s[1..r] == key && s[r] == s[r + 1] == ':' && s[r + 2] == ' ' && s[r + 3..] == v
  {}

  lemma ValueStarts(v: string, z: string)
    requires Trimmed(v)
    ensures !IsSpace((v + "]" + z)[0])
  {}

  lemma FieldFirstFrom(s: string, f: Field, r: nat, n: nat)
    requires s != "" && s[0] == '[' && WordRun(s, 1) == r && 1 < r && r + 3 + n < |s| && s[1..r] == f.key
    requires s[r] == ':' && s[r + 1] == ':' && s[r + 2] == ' ' && !IsSpace(s[r + 3])
    requires ValueLen(s[r + 3..]) == Some(n) && s[r + 3..r + 3 + n] == f.value && Trim(f.value) == f.value
    ensures FieldFirst(s) == Some((f, r + n + 4))
  {
    hide WordRun, ValueLen, Trim, IsSpace, FieldFirst;
    ColonSpace(s, r);
    FieldFirstAt(s, r, r + 3, n);
  }

  lemma ValueFacts(f: Field, z: string)
    requires SafeField(f)
    ensures var v := f.value + "]" + z; !IsSpace(v[0]) && ValueLen(v) == Some(|f.value|) && Trim(f.value) == f.value
    ensures OwnerName(f.key)
  {
    ValueStarts(f.value, z);
    ValueLenWiki(f.value, z);
    TrimTrimmed(f.value);
  }

  lemma FieldFirstIs(f: Field, z: string)
    requires SafeField(f)
    ensures FieldFirst(FieldText(f) + z) == Some((f, |FieldText(f)|))
  {
    hide FieldText, WordRun, ValueLen, Trim, IsSpace, FieldFirst, SafeField;
    var s, v := FieldText(f) + z, f.value + "]" + z;
    var r := 1 + |f.key|;
    ValueFacts(f, z);
    FieldTextParts(f, z);
    assert s[r + 3] == s[r + 3..][0] == v[0];
    FieldFirstFrom(s, f, r, |f.value|);
  }

  lemma FieldFirstAt(s: string, r: nat, w: nat, n: nat)
    requires s != "" && s[0] == '[' && WordRun(s, 1) == r && 1 < r <= |s| && "::" <= s[r..]
    requires r + 2 <= |s| && SpaceRun(s, r + 2) == w && ValueLen(s[w..]) == Some(n)
    ensures w + n < |s| && FieldFirst(s) == Some((Field(s[1..r], Trim(s[w..w + n])), w + n + 1))
  {
    hide WordRun, SpaceRun, ValueLen, Trim;
  }

  lemma ColonSpace(s: string, r: nat)
    requires r + 3 < |s| && s[r] == ':' && s[r + 1] == ':' && s[r + 2] == ' ' && !IsSpace(s[r + 3])
    ensures "::" <= s[r..] && SpaceRun(s, r + 2) == r + 3
  {
    SpaceRunIs(s, r + 2, r + 3);
    assert s[r..][0] == ':' && s[r..][1] == ':';
  }

  lemma FieldTextIsField(f: Field)
    requires SafeField(f)
    ensures IsField(FieldText(f))
  {
    var s := FieldText(f);
    var r := 1 + |f.key|;
    assert forall k | 1 <= k < r :: s[k] == f.key[k - 1];
    WordRunIs(s, 1, r);
    assert s[r + 2..|s| - 1] == " " + f.value;
    assert (" " + f.value)[1..] == f.value;
    WikiIsValue(f.value);
  }

  lemma {:induction false} ScanSkipsSpaces(s: string)
    ensures ScanFields(s) == ScanFields(SkipSpaces(s))
  {
    if s != "" && IsSpace(s[0]) {
      ScanSkipsSpaces(s[1..]);
      SkipStep(s);
    } else {
      assert SkipSpaces(s) == s;
    }
  }

  lemma {:induction false} SpaceRunShift(s: string, i: nat)
    requires 1 <= i <= |s|
    ensures SpaceRun(s, i) == SpaceRun(s[1..], i - 1) + 1
    decreases |s| - i
  {
    if i < |s| && IsSpace(s[i]) { SpaceRunShift(s, i + 1); }
  }

  lemma SkipStep(s: string)
    requires s != "" && IsSpace(s[0])
    ensures SkipSpaces(s) == SkipSpaces(s[1..])
  {
    SpaceRunShift(s, 1);
    assert SpaceRun(s, 0) == SpaceRun(s, 1);
  }

  lemma FieldsStep(f: Field, z: string, rest: seq<Field>)
    requires SafeField(f) && IsFields(SkipSpaces(z)) && ScanFields(SkipSpaces(z)) == rest
    ensures var s := FieldText(f) + z; IsFields(s) && ScanFields(s) == [f] + rest && s[0] == '['
  {
    hide SafeField, IsField, FieldFirst, SkipSpaces, FieldText;
    var t := FieldText(f);
    var s := t + z;
    FieldTextIsField(f);
    FieldFirstIs(f, z);
    FieldBracket(f);
    assert s[..|t|] == t && s[|t|..] == z;
    ScanSkipsSpaces(z);
    assert IsField(s[..|t|]) && IsFields(SkipSpaces(s[|t|..]));
  }

  lemma FieldBracket(f: Field)
    ensures FieldText(f) != "" && FieldText(f)[0] == '['
  {}

  /** The rendered fields are fields, and scanning them gives them back. */
  lemma {:induction false} FieldsRoundTrip(fs: seq<Field>)
    requires SafeFields(fs)
    ensures var s := SkipSpaces(FormatFields(fs) + " "); IsFields(s) && ScanFields(s) == fs
  {
    hide SafeField, IsSpace, IsField, SkipSpaces, FieldFirst;
    if fs == [] {
      FieldsEnd();
    } else {
      var z := FormatFields(fs[1..]) + " ";
      FieldsRoundTrip(fs[1..]);
      FieldsStep(fs[0], z, fs[1..]);
      FormatFieldsCons(fs);
      FieldsFirst(FieldText(fs[0]) + z);
      assert fs == [fs[0]] + fs[1..];
    }
  }

  lemma FormatFieldsCons(fs: seq<Field>)
    requires fs != []
    ensures FormatFields(fs) + " " == " " + (FieldText(fs[0]) + (FormatFields(fs[1..]) + " "))
  {}

  lemma FieldsEnd()
    ensures SkipSpaces("" + " ") == ""
  {
    SpaceRunIs(" ", 0, 1);
  }

  lemma FieldsFirst(s: string)
    requires s != "" && s[0] == '['
    ensures SkipSpaces(" " + s) == s
  {
    SpaceRunIs(" " + s, 0, 1);
  }

  lemma {:induction false} DictOfDistinct(d: seq<Field>, fs: seq<Field>)
    requires SafeFields(fs) && forall i | 0 <= i < |d| :: Get(fs, d[i].key).None?
    ensures DictOf(d, fs) == d + fs
    decreases |fs|
  {
    hide SafeField;
    if fs != [] {
      DictPutNew(d, fs[0]);
      DictOfDistinct(d + [fs[0]], fs[1..]);
      assert d + [fs[0]] + fs[1..] == d + fs;
    }
  }

  lemma {:induction false} DictPutNew(d: seq<Field>, f: Field)
    requires forall i | 0 <= i < |d| :: d[i].key != f.key
    ensures DictPut(d, f) == d + [f]
  {
    if d != [] {
      DictPutNew(d[1..], f);
      assert d == [d[0]] + d[1..];
    }
  }

  lemma {:induction false} GetPut(d: seq<Field>, f: Field, key: string)
    ensures Get(DictPut(d, f), key) == if key == f.key then Some(f.value) else Get(d, key)
  {
    if d != [] && d[0].key != f.key {
      GetPut(d[1..], f, key);
      assert DictPut(d, f)[1..] == DictPut(d[1..], f);
    } else if d != [] {
      assert DictPut(d, f)[1..] == d[1..];
    }
  }

  /** Text that opens no field is not cut short. */
  lemma {:induction false} TextLenSafe(text: string, rest: string)
    requires NoOpener(text) && (text != "" ==> !IsSpace(text[|text| - 1]))
    requires rest != "" && rest[0] == ' ' && IsFields(SkipSpaces(rest))
    ensures TextLen(text + rest) == |text|
  {
    hide IsFields;
    if text == "" {
      assert text + rest == rest;
    } else {
      TextIsNotFields(text, rest);
      assert (text + rest)[1..] == text[1..] + rest;
      TextLenSafe(text[1..], rest);
    }
  }

  lemma {:induction false} NoOpenerSuffix(t: string, i: nat)
    requires NoOpener(t) && i <= |t|
    ensures NoOpener(t[i..])
  {
    hide OpenerFirst;
    if i > 0 {
      NoOpenerSuffix(t[1..], i - 1);
      DropDrop(t, 1, i);
    } else {
      assert t[0..] == t;
    }
  }

  lemma {:induction false} WordRunShared(a: string, b: string, i: nat)
    requires i <= |a| && (b == "" || !IsWord(b[0]))
    ensures WordRun(a + b, i) == WordRun(a, i)
    decreases |a| - i
  {
    if i < |a| && IsWord(a[i]) { WordRunShared(a, b, i + 1); }
  }

  /** Text before a blank opens a field only by itself. */
  lemma OpenerShared(u: string, rest: string)
    requires u != "" && rest != "" && rest[0] == ' ' && OpenerFirst(u + rest)
    ensures OpenerFirst(u)
  {
    WordRunShared(u, rest, 1);
    var r := WordRun(u, 1);
    var t := u + rest;
    assert "::"[0] == "::"[1] == ':';
    assert t[r..][0] == t[r] && t[r..][1] == t[r + 1];
    assert u[r..] == t[r..|u|];
  }

  lemma {:induction false} WordRunPrefix(s: string, n: nat, i: nat)
    requires i <= n <= |s| && WordRun(s[..n], i) < n
    ensures WordRun(s, i) == WordRun(s[..n], i)
    decreases n - i
  {
    if IsWord(s[i]) { WordRunPrefix(s, n, i + 1); }
  }

  lemma FieldOpens(s: string, n: nat)
    requires 1 <= n <= |s| && IsField(s[..n])
    ensures OpenerFirst(s)
  {
    var f := s[..n];
    var r := WordRun(f, 1);
    hide IsValue;
    WordRunPrefix(s, n, 1);
    assert s[r] == f[r] && s[r + 1] == f[r + 1] && s[0] == f[0];
    assert s[r..][0] == s[r] && s[r..][1] == s[r + 1];
  }

  lemma TextIsNotFields(text: string, rest: string)
    requires NoOpener(text) && text != "" && !IsSpace(text[|text| - 1]) && rest != "" && rest[0] == ' '
    ensures !IsFields(SkipSpaces(text + rest))
  {
    hide OpenerFirst, IsField, NoOpener;
    var t := text + rest;
    var i := SpaceRun(t, 0);
    assert t[|text| - 1] == text[|text| - 1];
    SpacesBefore(t, 0, |text| - 1);
    var s := SkipSpaces(t);
    var u := text[i..];
    assert s == u + rest;
    NoOpenerSuffix(text, i);
    NoOpenerNow(u);
    forall n: nat | 1 <= n <= |s| ensures !IsField(s[..n]) {
      if IsField(s[..n]) {
        FieldOpens(s, n);
        OpenerShared(u, rest);
      }
    }
  }

  lemma NoOpenerNow(u: string)
    requires NoOpener(u) && u != ""
    ensures !OpenerFirst(u)
  {}

  lemma SkipIdempotent(s: string)
    ensures SkipSpaces(SkipSpaces(s)) == SkipSpaces(s)
  {}

  /** Text and fields come back from their spelling, blanks before it or not. */
  lemma ItemOfIs(it: Item)
    requires SafeItem(it)
    ensures ItemOf(SkipSpaces(it.text + (FormatFields(it.fields) + " ")), it.blockId, it.checked) == it
  {
    hide FormatFields, IsFields, ScanFields, SkipSpaces, NoOpener, SafeFields, CheckboxAt;
    var rest := FormatFields(it.fields) + " ";
    FieldsRoundTrip(it.fields);
    RestStarts(it.fields);
    DictOfDistinct([], it.fields);
    assert [] + it.fields == it.fields;
    SkipIdempotent(rest);
    if it.text == "" {
      assert "" + rest == rest;
      EmptyText(SkipSpaces(rest));
    } else {
      TextLenSafe(it.text, rest);
      assert (it.text + rest)[..|it.text|] == it.text && (it.text + rest)[|it.text|..] == rest;
      SkipNothing(it.text, rest);
    }
  }

  lemma EmptyText(s: string)
    requires IsFields(SkipSpaces(s))
    ensures TextLen(s) == 0 && s[..0] == "" && s[0..] == s
  {
    hide IsFields;
  }

  lemma SkipNothing(text: string, rest: string)
    requires text != "" && Trimmed(text)
    ensures SkipSpaces(text + rest) == text + rest
  {}

  lemma RestStarts(fs: seq<Field>)
    ensures (FormatFields(fs) + " ")[0] == ' '
  {}

  // ---------------------------------------------------------------------
  // A formatted item parses back to itself
  // ---------------------------------------------------------------------

  lemma SpacesInside(b: string, t: string, tail: string, i: nat)
    requires i <= |b| && (forall k | i <= k < |b| :: IsSpace(b[k])) && tail != "" && !IsSpace(tail[0])
    ensures var l := b + t + tail; var n := SpaceRun(t, 0);
            SpaceRun(l, i) == |b| + n && l[|b| + n..|b + t|] == SkipSpaces(t) && l[|b|..] == t + tail
  {
    var l := b + t + tail;
    var n := SpaceRun(t, 0);
    SpaceRunAll(t, 0);
    assert forall k | |b| <= k < |b| + n :: l[k] == t[k - |b|];
    SpaceRunIs(l, i, |b| + n);
  }

  lemma ParseChecked(l: string, id: string, c: nat, p: nat, q: nat)
    requires IdOf(l) == Some(id) && LastCaret(l) == c && p <= |l| && SpaceRun(l, 1) == p
    requires CheckboxAt(l, p) && SpaceRun(l, p + 3) == q <= c <= |l|
    ensures ParseItemLine(l) == Some(ItemOf(l[q..c], id, Some(l[p + 1] != ' ')))
  {
    hide IdOf, ItemOf, LastCaret, SpaceRun;
  }

  lemma ParsePlain(l: string, id: string, c: nat, p: nat)
    requires IdOf(l) == Some(id) && LastCaret(l) == c && p <= c <= |l| && SpaceRun(l, 1) == p
    requires !CheckboxAt(l, p)
    ensures ParseItemLine(l) == Some(ItemOf(l[p..c], id, None))
  {
    hide IdOf, ItemOf, LastCaret, SpaceRun, CheckboxAt;
  }

  /** The line is the bullet, then `t`, then the id. */
  lemma ParseParts(b: string, t: string, id: string, checked: Option<bool>)
    requires IsId(id) && b == Bullet(checked)
    requires checked.None? ==> !CheckboxAt(t + ("^" + id), SpaceRun(t, 0))
    ensures ParseItemLine(b + t + ("^" + id)) == Some(ItemOf(SkipSpaces(t), id, checked))
  {
    hide ItemOf, IdOf, SkipSpaces, IsId, ParseItemLine, CheckboxAt;
    var tail := "^" + id;
    var l := b + t + tail;
    var n := SpaceRun(t, 0);
    IdOfLine(b + t, id);
    Slices(b + t, "^", id);
    SpacesInside(b, t, tail, if checked.Some? then 5 else 1);
    if checked.Some? {
      BoxInBullet(b, l, checked);
      ParseChecked(l, id, |b + t|, 2, 6 + n);
    } else {
      ShiftCheckbox(l, 2, n);
      ParsePlain(l, id, |b + t|, 2 + n);
    }
  }

  lemma BoxInBullet(b: string, l: string, checked: Option<bool>)
    requires checked.Some? && b == Bullet(checked) && b <= l
    ensures CheckboxAt(l, 2) && (l[3] != ' ') == checked.value && SpaceRun(l, 1) == 2
  {
    assert l[1] == b[1] && l[2] == b[2] && l[3] == b[3] && l[4] == b[4] && l[5] == b[5];
    SpaceRunIs(l, 1, 2);
  }

  lemma ShiftCheckbox(l: string, k: nat, n: nat)
    requires k <= |l|
    ensures CheckboxAt(l, k + n) == CheckboxAt(l[k..], n)
  {}

  lemma NotACheckbox(it: Item)
    requires SafeItem(it) && it.checked.None?
    ensures var t := it.text + (FormatFields(it.fields) + " ");
            !CheckboxAt(t + ("^" + it.blockId), SpaceRun(t, 0))
  {
    var rest := FormatFields(it.fields) + " ";
    var t := it.text + rest;
    if it.text == "" {
      SpaceRunIs(t, 0, 1);
      if it.fields != [] {
        assert t[1] == '[' && t[2] == it.fields[0].key[0];
        assert t[3] == if |it.fields[0].key| > 1 then it.fields[0].key[1] else ':';
      }
    } else {
      assert t[0] == it.text[0];
      SpaceRunIs(t, 0, 0);
      RestStarts(it.fields);
      assert forall k | 0 <= k <= |it.text| :: t[k] == (it.text + " ")[k];
    }
  }

  /** Format then parse is the identity on safe items. */
  lemma ItemRoundTrip(it: Item)
    requires SafeItem(it)
    ensures ParseItemLine(FormatItem(it)) == Some(it)
  {
    hide ParseItemLine, ItemOf, SafeFields, NoOpener, CheckboxAt, FormatFields, SkipSpaces, IsId;
    var t := it.text + (FormatFields(it.fields) + " ");
    if it.checked.None? { NotACheckbox(it); }
    ParseParts(Bullet(it.checked), t, it.blockId, it.checked);
    ItemOfIs(it);
    FormatShape(it);
  }

  lemma FormatShape(it: Item)
    ensures FormatItem(it) == Bullet(it.checked) + (it.text + (FormatFields(it.fields) + " ")) + ("^" + it.blockId)
  {
    var b, f, x, id := Bullet(it.checked), FormatFields(it.fields), it.text, it.blockId;
    assert b + x + f + " ^" + id == b + (x + (f + " ")) + ("^" + id);
  }
}
