/** What the fields of a written item read back as, whatever its text
    (shared/wiki/items.py). A field the text opens may run over the text's end,
    into the fields written after it. */
module FieldReads {
  import opened Options
  import opened Text
  import opened Neutral
  import opened Fence
  import opened Items
  import opened ItemText
  import opened ItemEdits
  import opened CleanItems

  // ---------------------------------------------------------------------
  // Scanning text and what follows it
  // ---------------------------------------------------------------------

  /** The fields scanning `x + rest` finds that start in `x`. */
  function InText(x: string, rest: string): seq<Field>
    decreases |x|
  {
    if x == "" then [] else
      match FieldFirst(x + rest)
      case Some((f, n)) => [f] + if n <= |x| then InText(x[n..], rest) else []
      case None => InText(x[1..], rest)
  }

  /** How far the last of them runs into `rest`. */
  function Over(x: string, rest: string): (o: nat)
    ensures o <= |rest|
    decreases |x|
  {
    if x == "" then 0 else
      match FieldFirst(x + rest)
      case Some((f, n)) => if n <= |x| then Over(x[n..], rest) else n - |x|
      case None => Over(x[1..], rest)
  }

  lemma {:induction false} ScanSplit(x: string, rest: string)
    ensures ScanFields(x + rest) == InText(x, rest) + ScanFields(rest[Over(x, rest)..])
    decreases |x|
  {
    hide FieldFirst;
    if x == "" {
      assert x + rest == rest && rest[0..] == rest;
    } else {
      match FieldFirst(x + rest)
      case Some((f, n)) =>
        if n <= |x| {
          assert (x + rest)[n..] == x[n..] + rest;
          ScanSplit(x[n..], rest);
        } else {
          assert (x + rest)[n..] == rest[n - |x|..];
        }
      case None =>
        assert (x + rest)[1..] == x[1..] + rest;
        ScanSplit(x[1..], rest);
    }
  }

  // ---------------------------------------------------------------------
  // Where an open link closes
  // ---------------------------------------------------------------------

  /** The first field whose value holds a link; their number for none. */
  function FirstLink(fs: seq<Field>): (j: nat)
    ensures j <= |fs| && forall i | 0 <= i < j :: BracketFree(fs[i].value)
  {
    if fs == [] || !BracketFree(fs[0].value) then 0 else 1 + FirstLink(fs[1..])
  }

  /** The fields as they are written before the id. */
  function FieldsText(fs: seq<Field>): string { FormatFields(fs) + " " }

  lemma {:induction false} CloseSkip(p: string, s: string)
    requires forall i | 0 <= i < |p| :: p[i] != ']' || (i + 1 == |p| && (s == "" || s[0] != ']'))
    ensures CloseLen(p + s) == Shift(CloseLen(s), |p|)
  {
    hide ValueLen;
    if p == "" {
      assert p + s == s;
    } else {
      assert (p + s)[1..] == p[1..] + s;
      assert !("]]" <= p + s) by { assert "]]"[0] == ']' && "]]"[1] == ']'; }
      CloseSkip(p[1..], s);
    }
  }

  /** Where the first link of a value opens and closes. */
  predicate LinkBetween(v: string, i: nat, j: nat) {
    && i + 2 <= j && j + 2 <= |v| && "[[" <= v[i..] && "]]" <= v[j..]
    && BracketFree(v[..i]) && BracketFree(v[i + 2..j]) && WikiText(v[j + 2..])
  }

  lemma {:induction false} FindLink(v: string) returns (i: nat, j: nat)
    requires WikiText(v) && !BracketFree(v)
    ensures LinkBetween(v, i, j)
    decreases |v|
  {
    hide WikiText;
    if IsBracket(v[0]) {
      OpenStep(v);
      i, j := 0, 2 + BracketRun(v[2..]);
      BracketRunFree(v[2..]);
      assert v[2..][..j - 2] == v[2..j] && v[0..] == v;
    } else {
      PlainStep(v);
      i, j := FindLink(v[1..]);
      LinkShift(v, i, j);
      i, j := i + 1, j + 1;
    }
  }

  lemma LinkShift(v: string, i: nat, j: nat)
    requires v != "" && !IsBracket(v[0]) && LinkBetween(v[1..], i, j)
    ensures LinkBetween(v, i + 1, j + 1)
  {
    hide WikiText;
    var u := v[1..];
    assert u[i..] == v[i + 1..] && u[j..] == v[j + 1..] && u[j + 2..] == v[j + 3..] && u[i + 2..j] == v[i + 3..j + 1];
    forall k | 0 <= k < i + 1 ensures !IsBracket(v[k]) { if k > 0 { assert u[..i][k - 1] == v[k]; } }
  }

  lemma OpenStep(v: string)
    requires WikiText(v) && v != "" && IsBracket(v[0])
    ensures "[[" <= v && var n := BracketRun(v[2..]); n + 4 <= |v| && "]]" <= v[2 + n..] && WikiText(v[n + 4..])
  {}

  lemma PlainStep(v: string)
    requires WikiText(v) && !BracketFree(v) && !IsBracket(v[0])
    ensures WikiText(v[1..]) && !BracketFree(v[1..])
  {
    assert "[["[0] == '[';
    if BracketFree(v[1..]) {
      forall i | 0 <= i < |v| ensures !IsBracket(v[i]) { if i > 0 { assert v[i] == v[1..][i - 1]; } }
    }
  }

  lemma {:induction false} PlainWiki(v: string)
    requires BracketFree(v)
    ensures WikiText(v)
  {
    if v != "" { PlainWiki(v[1..]); }
  }

  /** The first `]]` of written fields that can close a link ends the first value
      with a link, and the field with it. */
  lemma {:induction false} CloseFields(fs: seq<Field>)
    requires SafeFields(fs)
    ensures var j := FirstLink(fs);
            CloseLen(FieldsText(fs)) == if j == |fs| then None else Some(|FormatFields(fs[..j + 1])| - 1)
  {
    hide CloseLen, SafeField, OwnerName, Trimmed, FieldText, WikiText, FormatFields;
    if fs == [] {
      NothingCloses();
    } else {
      var f := fs[0];
      var more := FieldsText(fs[1..]);
      BlankFirst(fs[1..]);
      FormatFieldsCons(fs);
      KeyPlain(f);
      OneField(f);
      if BracketFree(f.value) {
        CloseFields(fs[1..]);
        ClosePast(f, more);
        var j := FirstLink(fs[1..]);
        if j < |fs[1..]| {
          assert fs[..j + 2][..1] == [f] && fs[..j + 2][1..] == fs[1..][..j + 1];
          FormatSplit(fs[..j + 2], 1);
        }
      } else {
        FirstCloses(f, more);
        assert fs[..1] == [f];
      }
    }
  }

  lemma ClosePast(f: Field, more: string)
    requires BracketFree(f.value) && (forall i | 0 <= i < |f.key| :: f.key[i] != ']') && more != "" && more[0] == ' '
    ensures CloseLen(" " + (FieldText(f) + more)) == Shift(CloseLen(more), |FieldText(f)| + 1)
  {
    var p := " " + FieldText(f);
    assert " " + (FieldText(f) + more) == p + more;
    assert forall i | 0 <= i < |f.value| :: f.value[i] != ']';
    assert p == " [" + f.key + ":: " + f.value + "]";
    CloseSkip(p, more);
  }

  lemma NothingCloses()
    ensures CloseLen(FieldsText([])) == None
  {
    assert FieldsText([]) == " " && " "[1..] == "";
  }

  lemma OneField(f: Field)
    ensures FormatFields([f]) == " " + FieldText(f)
  {
    assert [f][1..] == [] && FormatFields([]) == "";
  }

  lemma KeyPlain(f: Field)
    requires SafeField(f)
    ensures forall i | 0 <= i < |f.key| :: f.key[i] != ']'
    ensures WikiText(f.value)
  {
    forall i | 0 <= i < |f.key| ensures f.key[i] != ']' { assert IsWord(f.key[i]); }
  }

  lemma FirstCloses(f: Field, more: string)
    requires WikiText(f.value) && !BracketFree(f.value) && forall i | 0 <= i < |f.key| :: f.key[i] != ']'
    ensures CloseLen(" " + (FieldText(f) + more)) == Some(|FieldText(f)|)
  {
    hide CloseLen, ValueLen, WikiText;
    var v := f.value;
    var i, j := FindLink(v);
    var link, rest := v[i + 2..j], v[j + 2..];
    var p := " [" + f.key + ":: " + v[..i] + "[[";
    var after := rest + "]" + more;
    ValueLenWiki(rest, more);
    CloseLenLink(link, after);
    LinkPieces(v, i, j);
    FieldPieces(f, more, i, j);
    CloseSkip(p, link + "]]" + after);
  }

  lemma FieldPieces(f: Field, more: string, i: nat, j: nat)
    requires LinkBetween(f.value, i, j)
    ensures var v := f.value;
            " " + (FieldText(f) + more)
            == " [" + f.key + ":: " + v[..i] + "[[" + (v[i + 2..j] + "]]" + (v[j + 2..] + "]" + more))
  {
    LinkPieces(f.value, i, j);
  }

  lemma LinkPieces(v: string, i: nat, j: nat)
    requires LinkBetween(v, i, j)
    ensures v == v[..i] + "[[" + v[i + 2..j] + "]]" + v[j + 2..]
    ensures forall k | 0 <= k < i :: v[..i][k] != ']'
  {
    assert v[i..][..2] == "[[" && v[j..][..2] == "]]";
    assert v[i..i + 2] == v[i..][..2] && v[j..j + 2] == v[j..][..2];
  }

  // ---------------------------------------------------------------------
  // Where a value that starts in the text ends
  // ---------------------------------------------------------------------

  /** A value that starts in the text and ends past it ends where the first field
      with a link ends. */
  lemma {:induction false} ValueLands(v: string, fs: seq<Field>)
    requires SafeFields(fs)
    ensures var n := ValueLen(v + FieldsText(fs));
            n.Some? && n.value >= |v| ==>
              FirstLink(fs) < |fs| && n.value == |v| + |FormatFields(fs[..FirstLink(fs) + 1])| - 1
    decreases |v|, 1
  {
    hide ValueLen, CloseLen, SafeFields;
    var s := v + FieldsText(fs);
    if v == "" {
      assert s == FieldsText(fs);
      NoValue(fs);
    } else if "[[" <= v {
      assert s[2..] == v[2..] + FieldsText(fs) && "[[" <= s;
      LinkLands(v[2..], fs);
      ValueOfLink(s);
    } else if v[0] == '[' {
      SingleBracket(v, fs);
    } else if v[0] == ']' {
      ValueEnds(s);
    } else {
      assert s[1..] == v[1..] + FieldsText(fs);
      ValueLands(v[1..], fs);
      ValueOfPlain(s);
    }
  }

  lemma {:induction false} LinkLands(v: string, fs: seq<Field>)
    requires SafeFields(fs)
    ensures var n := CloseLen(v + FieldsText(fs));
            n.Some? && n.value >= |v| ==>
              FirstLink(fs) < |fs| && n.value == |v| + |FormatFields(fs[..FirstLink(fs) + 1])| - 1
    decreases |v|, 0
  {
    hide ValueLen, SafeFields;
    var s := v + FieldsText(fs);
    if v == "" {
      assert s == FieldsText(fs);
      CloseFields(fs);
    } else {
      assert s[1..] == v[1..] + FieldsText(fs);
      if "]]" <= s {
        BlankFirst(fs);
        assert s[1] == ']' && |v| >= 2;
        assert s[2..] == v[2..] + FieldsText(fs);
        ValueLands(v[2..], fs);
      }
      LinkLands(v[1..], fs);
    }
  }

  lemma BlankFirst(fs: seq<Field>)
    ensures FieldsText(fs)[0] == ' '
  {
    RestStarts(fs);
  }

  lemma ValueOfLink(s: string)
    requires "[[" <= s
    ensures ValueLen(s) == Shift(CloseLen(s[2..]), 2)
  {}

  lemma ValueOfPlain(s: string)
    requires s != "" && !IsBracket(s[0])
    ensures ValueLen(s) == Shift(ValueLen(s[1..]), 1)
  {
    assert !("[[" <= s) by { assert "[["[0] == '['; }
  }

  lemma ValueEnds(s: string)
    requires s != "" && s[0] == ']'
    ensures ValueLen(s) == Some(0)
  {
    assert !("[[" <= s) by { assert "[["[0] == '['; }
  }

  /** No value starts in the fields: a single bracket stops it. */
  lemma NoValue(fs: seq<Field>)
    requires SafeFields(fs)
    ensures ValueLen(FieldsText(fs)) == None && (|FieldsText(fs)| > 1 ==> ValueLen(FieldsText(fs)[1..]) == None)
    ensures |FieldsText(fs)| > 1 ==> !IsSpace(FieldsText(fs)[1])
  {
    hide ValueLen;
    var s := FieldsText(fs);
    BlankFirst(fs);
    ValueOfPlain(s);
    if fs == [] {
      assert s == " " && s[1..] == "" && ValueLen("") == None by { EmptyValue(); }
    } else {
      FormatFieldsCons(fs);
      KeyWord(fs);
      var t := FieldText(fs[0]) + FieldsText(fs[1..]);
      assert s[1..] == t && t[0] == '[' && t[1] == fs[0].key[0];
      Alone(t);
    }
  }

  lemma EmptyValue()
    ensures ValueLen("") == None
  {}

  lemma KeyWord(fs: seq<Field>)
    requires SafeFields(fs) && fs != []
    ensures fs[0].key != "" && !IsBracket(fs[0].key[0])
  {
    assert IsWord(fs[0].key[0]);
  }

  lemma Alone(t: string)
    requires |t| >= 2 && t[0] == '[' && t[1] != '['
    ensures ValueLen(t) == None
  {
    assert !("[[" <= t) by { assert "[["[1] == '['; }
  }

  lemma SingleBracket(v: string, fs: seq<Field>)
    requires v != "" && v[0] == '[' && !("[[" <= v)
    ensures ValueLen(v + FieldsText(fs)) == None
  {
    hide ValueLen;
    var s := v + FieldsText(fs);
    BlankFirst(fs);
    assert |v| > 1 ==> s[1] == v[1] && v[1] != '[';
    Alone(s);
  }

  // ---------------------------------------------------------------------
  // Where a field that starts in the text ends
  // ---------------------------------------------------------------------

  lemma FieldLands(x: string, fs: seq<Field>)
    requires SafeFields(fs) && x != ""
    ensures var r := FieldFirst(x + FieldsText(fs));
            r.Some? && r.value.1 > |x| ==>
              FirstLink(fs) < |fs| && r.value.1 == |x| + |FormatFields(fs[..FirstLink(fs) + 1])|
  {
    hide ValueLen, SafeFields, WordRun, SpaceRun, Trim;
    var s := x + FieldsText(fs);
    if FieldFirst(s).Some? {
      BlankFirst(fs);
      var r := WordRun(s, 1);
      WordStops(x, FieldsText(fs));
      assert s[r..][0] == ':' && s[r..][1] == ':' by { assert "::"[0] == ':' && "::"[1] == ':'; }
      assert r + 2 <= |x|;
      SpaceStops(x, fs, r + 2);
      var w := SpaceRun(s, r + 2);
      if w <= |x| {
        assert s[w..] == x[w..] + FieldsText(fs);
        ValueLands(x[w..], fs);
      } else {
        assert s[w..] == FieldsText(fs)[1..];
        if |FieldsText(fs)| == 1 { EmptyValue(); }
        NoValue(fs);
      }
    }
  }

  lemma WordStops(x: string, rest: string)
    requires x != "" && rest != "" && rest[0] == ' '
    ensures WordRun(x + rest, 1) <= |x|
  {
    var s := x + rest;
    WordStop(s, 1, |x|);
  }

  lemma {:induction false} WordStop(s: string, i: nat, k: nat)
    requires i <= k < |s| && !IsWord(s[k])
    ensures WordRun(s, i) <= k
    decreases k - i
  {
    if i < k && IsWord(s[i]) { WordStop(s, i + 1, k); }
  }

  lemma SpaceStops(x: string, fs: seq<Field>, i: nat)
    requires SafeFields(fs) && i <= |x|
    ensures var s := x + FieldsText(fs); var w := SpaceRun(s, i); w <= |x| + 1
  {
    hide ValueLen, SafeFields;
    var s := x + FieldsText(fs);
    NoValue(fs);
    if |FieldsText(fs)| > 1 {
      SpacesBefore(s, i, |x| + 1);
    }
  }

  /** Scanning runs over the text's end not at all, or up to the end of the first
      field with a link. */
  lemma {:induction false} OverLands(x: string, fs: seq<Field>)
    requires SafeFields(fs)
    ensures var o := Over(x, FieldsText(fs));
            o > 0 ==> FirstLink(fs) < |fs| && o == |FormatFields(fs[..FirstLink(fs) + 1])|
    decreases |x|
  {
    hide FieldFirst, SafeFields;
    if x != "" {
      FieldLands(x, fs);
      match FieldFirst(x + FieldsText(fs))
      case Some((f, n)) => if n <= |x| { OverLands(x[n..], fs); }
      case None => OverLands(x[1..], fs);
    }
  }

  /** How many of the fields are swallowed. */
  function Swallowed(x: string, fs: seq<Field>): (n: nat)
    requires SafeFields(fs)
    ensures n <= |fs|
  {
    OverLands(x, fs);
    if Over(x, FieldsText(fs)) == 0 then 0 else FirstLink(fs) + 1
  }

  lemma FieldsCons(f: Field, rest: seq<Field>)
    ensures FormatFields([f] + rest) == " " + FieldText(f) + FormatFields(rest)
  {
    assert ([f] + rest)[1..] == rest;
  }

  lemma {:induction false} FormatSplit(fs: seq<Field>, n: nat)
    requires n <= |fs|
    ensures FormatFields(fs) == FormatFields(fs[..n]) + FormatFields(fs[n..])
  {
    if n == 0 {
      assert fs[0..] == fs && fs[..0] == [];
    } else {
      hide FormatFields, FieldText;
      var f, rest := fs[0], fs[1..];
      FormatSplit(rest, n - 1);
      FieldsCons(f, rest);
      FieldsCons(f, rest[..n - 1]);
      assert fs == [f] + rest && fs[..n] == [f] + rest[..n - 1] && rest[n - 1..] == fs[n..];
      Assoc(" " + FieldText(f), FormatFields(rest[..n - 1]), FormatFields(rest[n - 1..]));
    }
  }

  lemma {:induction false} SafeRest(fs: seq<Field>, n: nat)
    requires SafeFields(fs) && n <= |fs|
    ensures SafeFields(fs[n..])
  {
    hide SafeField;
    if n > 0 {
      SafeRest(fs[1..], n - 1);
      assert fs[1..][n - 1..] == fs[n..];
    } else {
      assert fs[0..] == fs;
    }
  }

  /** Scanning text and fields finds the fields the text spells, and then the ones
      it does not swallow. */
  lemma ScanReads(x: string, fs: seq<Field>)
    requires SafeFields(fs)
    ensures ScanFields(x + FieldsText(fs)) == InText(x, FieldsText(fs)) + fs[Swallowed(x, fs)..]
  {
    hide SafeFields, ScanFields, Over, InText, SkipSpaces, IsFields;
    var n := Swallowed(x, fs);
    var o := Over(x, FieldsText(fs));
    OverLands(x, fs);
    ScanSplit(x, FieldsText(fs));
    FormatSplit(fs, n);
    SafeRest(fs, n);
    if n == 0 { assert fs[..0] == [] && FormatFields([]) == ""; }
    assert FieldsText(fs)[o..] == FieldsText(fs[n..]);
    FieldsRoundTrip(fs[n..]);
    ScanSkipsSpaces(FieldsText(fs[n..]));
  }

  // ---------------------------------------------------------------------
  // An item
  // ---------------------------------------------------------------------

  /** The part of the text that the grammar takes for fields. */
  function FieldPart(text: string, fs: seq<Field>): string {
    var u := SkipSpaces(text);
    var k := TextLen(SkipSpaces(text + FieldsText(fs)));
    if k <= |u| then u[k..] else ""
  }

  /** The fields the text itself spells, with one it leaves open. */
  function OwnFields(text: string, fs: seq<Field>): seq<Field> { InText(FieldPart(text, fs), FieldsText(fs)) }

  /** How many of the fields written after it the text swallows. */
  function Lost(text: string, fs: seq<Field>): (n: nat)
    requires SafeFields(fs)
    ensures n <= |fs|
  {
    Swallowed(FieldPart(text, fs), fs)
  }

  lemma TextLenWithin(u: string, rest: string)
    requires IsFields(SkipSpaces(rest))
    ensures TextLen(u + rest) <= |u|
  {
    TextLenAt(u, rest);
  }

  lemma {:induction false} TextLenAt(u: string, rest: string)
    requires IsFields(SkipSpaces(rest))
    ensures TextLen(u + rest) <= |u|
  {
    hide IsFields;
    if u == "" {
      assert u + rest == rest;
    } else {
      assert (u + rest)[1..] == u[1..] + rest;
      TextLenAt(u[1..], rest);
    }
  }

  /** The fields read back are those the text spells and those it does not
      swallow, the last value of a key winning. */
  lemma ItemFields(text: string, fs: seq<Field>, id: string, checked: Option<bool>)
    requires SafeFields(fs)
    ensures ItemOf(SkipSpaces(text + FieldsText(fs)), id, checked).fields
            == DictOf([], OwnFields(text, fs) + fs[Lost(text, fs)..])
  {
    hide SafeFields, ScanFields, IsFields, InText, Over, TextLen, DictOf, FormatFields, SkipSpaces, Swallowed;
    var t := SkipSpaces(text + FieldsText(fs));
    if SkipSpaces(text) == "" { NoTextFields(text, fs); } else { TextFields(text, fs); }
    ScanSkipsSpaces(t[TextLen(t)..]);
  }

  lemma NoTextFields(text: string, fs: seq<Field>)
    requires SafeFields(fs) && SkipSpaces(text) == ""
    ensures var t := SkipSpaces(text + FieldsText(fs));
            ScanFields(t[TextLen(t)..]) == OwnFields(text, fs) + fs[Lost(text, fs)..]
  {
    hide SafeFields, ScanFields, IsFields, InText, Over, TextLen, FormatFields, SkipSpaces;
    var rest := FieldsText(fs);
    var t := SkipSpaces(text + rest);
    FieldsRoundTrip(fs);
    AllSpaces(text, rest);
    BlankCut(t);
    assert t[0..] == t && FieldPart(text, fs) == "";
    ScanSkipsSpaces(rest);
    ScanReads("", fs);
    assert "" + rest == rest;
  }

  lemma TextFields(text: string, fs: seq<Field>)
    requires SafeFields(fs) && SkipSpaces(text) != ""
    ensures var t := SkipSpaces(text + FieldsText(fs));
            ScanFields(t[TextLen(t)..]) == OwnFields(text, fs) + fs[Lost(text, fs)..]
  {
    hide SafeFields, ScanFields, IsFields, InText, Over, TextLen, FormatFields, SkipSpaces, Swallowed;
    var rest, u := FieldsText(fs), SkipSpaces(text);
    var t := SkipSpaces(text + rest);
    FieldsRoundTrip(fs);
    SkipInside(text, rest);
    TextLenWithin(u, rest);
    assert t[TextLen(t)..] == u[TextLen(t)..] + rest;
    ScanReads(u[TextLen(t)..], fs);
  }

  lemma BlankCut(t: string)
    requires IsFields(SkipSpaces(t)) || t == ""
    ensures TextLen(t) == 0
  {
    hide IsFields;
  }

  lemma AllSpaces(text: string, rest: string)
    requires SkipSpaces(text) == ""
    ensures SkipSpaces(text + rest) == SkipSpaces(rest) && SkipSpaces(SkipSpaces(rest)) == SkipSpaces(rest)
  {
    var s := text + rest;
    SpaceRunAll(text, 0);
    SpaceRunAll(rest, 0);
    var n := |text| + SpaceRun(rest, 0);
    forall k | 0 <= k < n ensures IsSpace(s[k]) {
      if k < |text| { assert s[k] == text[k]; } else { assert s[k] == rest[k - |text|]; }
    }
    SpaceRunIs(s, 0, n);
    assert s[n..] == rest[SpaceRun(rest, 0)..];
  }

  lemma SkipInside(text: string, rest: string)
    requires SkipSpaces(text) != ""
    ensures SkipSpaces(text + rest) == SkipSpaces(text) + rest
  {
    var s := text + rest;
    var n := SpaceRun(text, 0);
    SpaceRunAll(text, 0);
    assert forall k | 0 <= k <= n :: s[k] == text[k];
    SpaceRunIs(s, 0, n);
  }

  /** A box is written, or the text does not start with one. */
  predicate Boxed(it: Item) {
    it.checked.None? ==> !CheckboxAt(it.text + FieldsText(it.fields) + ("^" + it.blockId),
        SpaceRun(it.text + FieldsText(it.fields), 0))
  }

  /** An item whose text starts with a box: the box is read as one. */
  function Unboxed(it: Item): Item
    requires SpaceRun(it.text, 0) + 3 <= |it.text|
  {
    var p := SpaceRun(it.text, 0);
    Item(it.text[p + 3..], it.blockId, Some(it.text[p + 1] != ' '), it.fields)
  }

  /** A box that is read without being written is one the text starts with. */
  lemma BoxInText(it: Item)
    requires SafeFields(it.fields) && !Boxed(it)
    ensures var p := SpaceRun(it.text, 0);
            p + 3 <= |it.text| && SpaceRun(it.text + FieldsText(it.fields), 0) == p && it.checked.None?
  {
    hide SafeFields, FormatFields;
    var rest := FieldsText(it.fields);
    var t := it.text + rest;
    var l := t + ("^" + it.blockId);
    var n := SpaceRun(t, 0);
    SpaceRunAll(t, 0);
    BlankFirst(it.fields);
    if SkipSpaces(it.text) == "" {
      AllSpaces(it.text, rest);
      SpaceRunAll(it.text, 0);
      BoxAfterText(it, n);
    } else {
      var p := SpaceRun(it.text, 0);
      SpaceRunAll(it.text, 0);
      assert forall k | 0 <= k <= p :: t[k] == it.text[k];
      SpaceRunIs(t, 0, p);
      if p + 3 > |it.text| { BoxAcross(it, p); }
    }
  }

  /** Fields and ids start no box. */
  lemma BoxAfterText(it: Item, n: nat)
    requires SafeFields(it.fields) && n == SpaceRun(it.text + FieldsText(it.fields), 0) && |it.text| <= n
    ensures !CheckboxAt(it.text + FieldsText(it.fields) + ("^" + it.blockId), n)
  {
    hide SafeFields, FormatFields;
    var rest := FieldsText(it.fields);
    var t := it.text + rest;
    var l := t + ("^" + it.blockId);
    var k := |it.text|;
    SpaceRunAll(t, 0);
    if it.fields == [] {
      NoFields();
      assert l[|t|] == '^';
    } else {
      FieldHead(it.fields);
      assert t[k + 1] == rest[1] && t[k + 2] == rest[2] && t[k + 3] == rest[3];
      assert l[k + 3] == t[k + 3];
    }
  }

  lemma NoFields()
    ensures FieldsText([]) == " "
  {}

  lemma FieldHead(fs: seq<Field>)
    requires SafeFields(fs) && fs != []
    ensures |FieldsText(fs)| >= 4 && FieldsText(fs)[0] == ' ' && FieldsText(fs)[1] == '[' && FieldsText(fs)[3] != ']'
  {
    hide WikiText, Trimmed, FormatFields;
    var key := fs[0].key;
    assert IsWord(key[0]) && (|key| > 1 ==> IsWord(key[1]));
    FormatFieldsCons(fs);
    var t := FieldsText(fs);
    assert t == " [" + (key + (":: " + (fs[0].value + "]" + FieldsText(fs[1..]))));
    assert t[3] == (key + (":: " + (fs[0].value + "]" + FieldsText(fs[1..]))))[1];
  }

  lemma BoxAcross(it: Item, p: nat)
    requires SafeFields(it.fields) && p < |it.text| < p + 3
    ensures !CheckboxAt(it.text + FieldsText(it.fields) + ("^" + it.blockId), p)
  {
    hide SafeFields, FormatFields;
    var rest := FieldsText(it.fields);
    var l := it.text + rest + ("^" + it.blockId);
    var k := |it.text|;
    BlankFirst(it.fields);
    assert l[k] == rest[0];
    if it.fields == [] {
      NoFields();
      assert l[k + 1] == '^';
    } else {
      FieldHead(it.fields);
      assert l[k + 1] == rest[1];
    }
  }

  /** What reading the line takes the item for. */
  function Rebox(it: Item): Item
    requires SafeFields(it.fields)
  {
    if Boxed(it) then it else
      BoxInText(it);
      Unboxed(it)
  }

  lemma UnboxedReads(it: Item)
    requires IsId(it.blockId) && SafeFields(it.fields) && !Boxed(it)
    ensures Rebox(it).checked.Some? && Rebox(it).blockId == it.blockId && Rebox(it).fields == it.fields
    ensures ParseItemLine(FormatItem(it)) == ParseItemLine(FormatItem(Rebox(it)))
  {
    hide ParseItemLine, ItemOf, SafeFields, IsId, FormatFields, CheckboxAt, SkipSpaces;
    BoxInText(it);
    var u := Unboxed(it);
    var p := SpaceRun(it.text, 0);
    var rest := u.text + FieldsText(it.fields);
    FormatShape(it);
    FormatShape(u);
    ParseParts(Bullet(u.checked), rest, u.blockId, u.checked);
    var box := it.text[..p + 3];
    assert it.text == box + u.text && box[p + 1] == it.text[p + 1];
    BoxedPieces(box, u.text, FieldsText(it.fields), "^" + it.blockId);
    BoxedParses(box, rest, it.blockId, p);
  }

  lemma BoxedPieces(box: string, text: string, rest: string, tail: string)
    ensures "- " + (box + text + rest) + tail == "- " + box + (text + rest) + tail
    ensures box + text + rest == box + (text + rest)
  {}

  lemma BoxedParses(box: string, rest: string, id: string, p: nat)
    requires IsId(id) && |box| == p + 3 && SpaceRun(box + rest, 0) == p && CheckboxAt(box + rest + ("^" + id), p)
    ensures ParseItemLine("- " + box + rest + ("^" + id)) == Some(ItemOf(SkipSpaces(rest), id, Some(box[p + 1] != ' ')))
  {
    hide ParseItemLine, ItemOf, IsId, CheckboxAt, SkipSpaces, IdOf, LastCaret;
    var b, t, tail := "- " + box, box + rest, "^" + id;
    var l := b + rest + tail;
    assert l == "- " + t + tail && b + rest + "^" + id == l;
    IdOfLine(b + rest, id);
    Slices(b + rest, "^", id);
    SpacesInside("- ", t, tail, 1);
    assert l[2..] == t + tail;
    ShiftCheckbox(l, 2, p);
    SpacesInside(b, rest, tail, |b|);
    assert l[2 + p + 1] == box[p + 1];
    ParseChecked(l, id, |b + rest|, 2 + p, SpaceRun(l, |b|));
  }

  /** What a written item reads back as, whatever its text. */
  lemma ReadsAs(it: Item)
    requires IsId(it.blockId) && SafeFields(it.fields)
    ensures var r := ParseItemLine(FormatItem(it)); var text := Rebox(it).text;
            && r.Some? && r.value.blockId == it.blockId && r.value.checked == Rebox(it).checked
            && r.value.fields == DictOf([], OwnFields(text, it.fields) + it.fields[Lost(text, it.fields)..])
  {
    hide ParseItemLine, ItemOf, SafeFields, CheckboxAt, SkipSpaces, IsId, OwnFields, Lost, DictOf, FormatFields,
         Unboxed;
    if !Boxed(it) { UnboxedReads(it); }
    var u := Rebox(it);
    var t := u.text + FieldsText(u.fields);
    ParseParts(Bullet(u.checked), t, u.blockId, u.checked);
    ItemFields(u.text, u.fields, u.blockId, u.checked);
    FormatShape(u);
    ItemHas(SkipSpaces(t), u.blockId, u.checked);
  }

  lemma ItemHas(t: string, id: string, checked: Option<bool>)
    ensures ItemOf(t, id, checked).blockId == id && ItemOf(t, id, checked).checked == checked
  {}

  // ---------------------------------------------------------------------
  // Which items read back whole
  // ---------------------------------------------------------------------

  /** No part of the text, with what is written after it, reads as fields only. */
  predicate TextWhole(text: string, fs: seq<Field>) {
    (text != "" ==> !IsSpace(text[0])) && forall i | 0 <= i < |text| ::
        !IsFields(SkipSpaces(text[i..] + FieldsText(fs)))
  }

  lemma {:induction false} TextLenIff(text: string, rest: string)
    requires IsFields(SkipSpaces(rest))
    ensures TextLen(text + rest) == |text| <==> forall i | 0 <= i < |text| :: !IsFields(SkipSpaces(text[i..] + rest))
  {
    hide IsFields;
    if text == "" {
      TextLenAt(text, rest);
    } else {
      assert text[0..] == text && (text + rest)[1..] == text[1..] + rest;
      assert forall i | 1 <= i < |text| :: text[i..] == text[1..][i - 1..];
      TextLenIff(text[1..], rest);
    }
  }

  /** Formatting and parsing an item of safe fields gives it back exactly if its
      box is as it reads and its text is whole. */
  lemma RoundTripIff(it: Item)
    requires IsId(it.blockId) && SafeFields(it.fields)
    ensures ParseItemLine(FormatItem(it)) == Some(it) <==> Boxed(it) && TextWhole(it.text, it.fields)
  {
    hide ParseItemLine, SafeFields, CheckboxAt, IsId, FormatFields, ItemOf, IsFields, SkipSpaces;
    var t := it.text + FieldsText(it.fields);
    FormatShape(it);
    if Boxed(it) {
      ParseParts(Bullet(it.checked), t, it.blockId, it.checked);
      WholeItem(it);
    } else {
      BoxReads(it);
    }
  }

  lemma WholeItem(it: Item)
    requires SafeFields(it.fields)
    ensures ItemOf(SkipSpaces(it.text + FieldsText(it.fields)), it.blockId, it.checked) == it
            <==> TextWhole(it.text, it.fields)
  {
    hide SafeFields, FormatFields, IsFields, ScanFields, TextLen;
    var rest := FieldsText(it.fields);
    var t := it.text + rest;
    FieldsRoundTrip(it.fields);
    DictOfDistinct([], it.fields);
    assert [] + it.fields == it.fields;
    if it.text == "" {
      assert t == rest;
      AllSpaces("", rest);
      BlankCut(SkipSpaces(rest));
    } else if IsSpace(it.text[0]) {
      Unspaced(t);
    } else {
      SpaceRunIs(t, 0, 0);
      assert SkipSpaces(t) == t;
      TextLenIff(it.text, rest);
      TextLenAt(it.text, rest);
      assert t[..|it.text|] == it.text && t[|it.text|..] == rest;
    }
  }

  lemma Unspaced(t: string)
    ensures SkipSpaces(t) != "" ==> !IsSpace(SkipSpaces(t)[0])
  {}

  /** An item without a box whose line reads as one with a box. */
  lemma BoxReads(it: Item)
    requires IsId(it.blockId) && SafeFields(it.fields) && !Boxed(it)
    ensures ParseItemLine(FormatItem(it)) != Some(it)
  {
    hide IsId, SafeFields, ParseItemLine, FormatItem, CheckboxAt, Lost, OwnFields;
    UnboxedReads(it);
    ReadsAs(it);
  }

  // ---------------------------------------------------------------------
  // One field
  // ---------------------------------------------------------------------

  lemma {:induction false} GetDict(d: seq<Field>, fs: seq<Field>, key: string)
    requires SafeFields(fs)
    ensures Get(DictOf(d, fs), key) == if Get(fs, key).Some? then Get(fs, key) else Get(d, key)
    decreases |fs|
  {
    hide SafeField;
    if fs != [] {
      GetPut(d, fs[0], key);
      GetDict(DictPut(d, fs[0]), fs[1..], key);
    }
  }

  lemma {:induction false} DictConcat(d: seq<Field>, a: seq<Field>, b: seq<Field>)
    ensures DictOf(d, a + b) == DictOf(DictOf(d, a), b)
    decreases |a|
  {
    if a == [] {
      assert a + b == b;
    } else {
      assert (a + b)[1..] == a[1..] + b;
      DictConcat(DictPut(d, a[0]), a[1..], b);
    }
  }

  /** The value a field is read back with: as written if it is not swallowed, or
      else as the text spells it last. */
  function ReadValue(text: string, fs: seq<Field>, key: string): Option<string>
    requires SafeFields(fs)
  {
    var kept := Get(fs[Lost(text, fs)..], key);
    if kept.Some? then kept else Get(DictOf([], OwnFields(text, fs)), key)
  }

  lemma FieldReadsAs(it: Item, key: string)
    requires IsId(it.blockId) && SafeFields(it.fields)
    ensures var r := ParseItemLine(FormatItem(it));
            r.Some? && Get(r.value.fields, key) == ReadValue(Rebox(it).text, it.fields, key)
  {
    hide ParseItemLine, FormatItem, SafeFields, OwnFields, Lost, DictOf, IsId, Boxed, Get, Rebox;
    var text := Rebox(it).text;
    var n := Lost(text, it.fields);
    ReadsAs(it);
    SafeRest(it.fields, n);
    DictConcat([], OwnFields(text, it.fields), it.fields[n..]);
    GetDict(DictOf([], OwnFields(text, it.fields)), it.fields[n..], key);
  }

  lemma {:induction false} GetRest(fs: seq<Field>, n: nat, key: string)
    requires SafeFields(fs) && n <= |fs|
    ensures Get(fs[n..], key).Some? ==> Get(fs[n..], key) == Get(fs, key)
  {
    hide SafeField;
    if n == 0 {
      assert fs[0..] == fs;
    } else {
      assert fs[1..][n - 1..] == fs[n..];
      GetRest(fs[1..], n - 1, key);
    }
  }

  // ---------------------------------------------------------------------
  // The line as it is written
  // ---------------------------------------------------------------------

  lemma {:induction false} WatcherGrows(a: string, b: string)
    requires WatcherFirst(a)
    ensures WatcherFirst(a + b)
  {
    if a != "" && !("watcher" <= a) && !("/watcher" <= a) {
      assert (a + b)[1..] == a[1..] + b;
      WatcherGrows(a[1..], b);
    }
  }

  lemma MarkerGrows(a: string, b: string)
    requires MarkerFirst(a)
    ensures MarkerFirst(a + b)
  {
    WatcherGrows(a[4..], b);
    assert (a + b)[4..] == a[4..] + b;
  }

  /** Where no marker can reach from the one into the other. */
  lemma {:induction false} DefangJoin(a: string, b: string)
    requires b != "" && (Stops(b[0]) || b == " ")
    ensures Defang(a + b) == Defang(a) + Defang(b)
  {
    hide MarkerFirst;
    if a == "" {
      assert a + b == b;
    } else {
      assert (a + b)[1..] == a[1..] + b && (a + b)[0] == a[0];
      DefangJoin(a[1..], b);
      if MarkerFirst(a) { MarkerGrows(a, b); }
      if MarkerFirst(a + b) { if b == " " { MarkerBlank(a); } else { MarkerStops(a, b); } }
    }
  }

  lemma {:induction false} DefangAfter(a: string, b: string)
    requires NoLt(a)
    ensures Defang(a + b) == a + Defang(b)
  {
    hide MarkerFirst;
    if a == "" {
      assert a + b == b;
    } else {
      assert (a + b)[1..] == a[1..] + b;
      DefangAfter(a[1..], b);
      NotMarker(a + b);
    }
  }

  predicate WordKeys(fs: seq<Field>) { forall i | 0 <= i < |fs| :: OwnerName(fs[i].key) }

  function DefangFields(fs: seq<Field>): (r: seq<Field>)
    ensures |r| == |fs|
  {
    if fs == [] then [] else [Field(fs[0].key, Defang(fs[0].value))] + DefangFields(fs[1..])
  }

  function Defanged(it: Item): Item { Item(Defang(it.text), it.blockId, it.checked, DefangFields(it.fields)) }

  lemma {:induction false} DefangTail(fs: seq<Field>, id: string)
    requires WordKeys(fs) && IsId(id)
    ensures Defang(Tail(fs, id)) == Tail(DefangFields(fs), id) && Tail(fs, id) != "" && Stops(Tail(fs, id)[0])
  {
    hide MarkerFree, IsId, NoLt, OwnerName, Defang;
    if fs == [] {
      PlainId(id);
      DefangAfter("^" + id, "");
      assert "^" + id + "" == "^" + id && Defang("") == "" by { DefangNothing(); }
    } else {
      var f, rest := fs[0], Tail(fs[1..], id);
      assert WordKeys(fs[1..]) by {
        forall i | 0 <= i < |fs| - 1 ensures OwnerName(fs[1..][i].key) { assert fs[i + 1] == fs[1..][i]; }
      }
      DefangTail(fs[1..], id);
      BlankLt();
      DefangAfter("] ", rest);
      DefangJoin(f.value, "] " + rest);
      PlainName(f.key);
      DefangAfter("[" + f.key + ":: ", f.value + ("] " + rest));
      assert Tail(fs, id) == "[" + f.key + ":: " + (f.value + ("] " + rest));
      TailCons(Field(f.key, Defang(f.value)), DefangFields(fs[1..]), id);
    }
  }

  lemma DefangNothing()
    ensures Defang("") == ""
  {}

  lemma TailCons(f: Field, rest: seq<Field>, id: string)
    ensures Tail([f] + rest, id) == "[" + f.key + ":: " + (f.value + ("] " + Tail(rest, id)))
  {
    assert ([f] + rest)[1..] == rest;
  }

  lemma {:induction false} SafeKeys(fs: seq<Field>)
    requires SafeFields(fs)
    ensures WordKeys(fs)
  {
    hide OwnerName, WikiText, Trimmed;
    if fs != [] {
      SafeKeys(fs[1..]);
      forall i | 0 <= i < |fs| ensures OwnerName(fs[i].key) { if i > 0 { assert fs[i] == fs[1..][i - 1]; } }
    }
  }

  lemma {:induction false} DefangClean(fs: seq<Field>)
    requires CleanFields(fs)
    ensures DefangFields(fs) == fs
  {
    hide SafeField, MarkerFree, Defang;
    if fs != [] {
      DefangKeepsMarkerFree(fs[0].value);
      DefangClean(fs[1..]);
      assert fs == [fs[0]] + fs[1..];
    }
  }

  lemma {:induction false} DefangWiki(v: string)
    requires WikiText(v)
    ensures WikiText(Defang(v))
    decreases |v|
  {
    hide MarkerFirst;
    if v == "" {
    } else if IsBracket(v[0]) {
      LinkDefang(v);
    } else {
      DefangWiki(v[1..]);
      var d := Defang(v[1..]);
      if MarkerFirst(v) { EscapedWiki(d); } else { assert Defang(v)[1..] == d; }
    }
  }

  lemma EscapedWiki(d: string)
    requires WikiText(d)
    ensures WikiText("&lt;" + d)
  {
    var t := "&lt;" + d;
    assert t[1..] == "lt;" + d && t[1..][1..] == "t;" + d && t[1..][1..][1..] == ";" + d && (";" + d)[1..] == d;
    assert WikiText(";" + d);
    assert WikiText("t;" + d);
    assert WikiText("lt;" + d);
  }

  lemma LinkDefang(v: string)
    requires WikiText(v) && v != "" && IsBracket(v[0])
    ensures WikiText(Defang(v))
    decreases |v|, 0
  {
    hide WikiText, Defang, MarkerFirst, BracketFree;
    var link, rest := LinkFirst(v);
    DefangWiki(rest);
    assert NoLt("[[") && NoLt("]]");
    DefangAfter("[[", link + ("]]" + rest));
    DefangJoin(link, "]]" + rest);
    DefangAfter("]]", rest);
    DefangFree(link);
    LinkThenWiki(Defang(link), Defang(rest));
  }

  /** A value that starts with a link. */
  lemma LinkFirst(v: string) returns (link: string, rest: string)
    requires WikiText(v) && v != "" && IsBracket(v[0])
    ensures v == "[[" + (link + ("]]" + rest)) && BracketFree(link) && WikiText(rest) && |rest| < |v|
  {
    hide WikiText, BracketRun;
    OpenStep(v);
    var u := v[2..];
    var n := BracketRun(u);
    BracketRunFree(u);
    link, rest := u[..n], v[n + 4..];
    Starts(v, "[[");
    Starts(v[2 + n..], "]]");
    assert v[2 + n..] == u[n..] && v[2 + n..][2..] == rest;
    assert u == u[..n] + u[n..];
  }

  lemma Starts(s: string, p: string)
    requires p <= s
    ensures s == p + s[|p|..]
  {}

  lemma {:induction false} DefangFree(v: string)
    requires BracketFree(v)
    ensures BracketFree(Defang(v))
  {
    hide MarkerFirst;
    if v != "" {
      DefangFree(v[1..]);
      var d := Defang(v[1..]);
      assert forall i | 0 <= i < 4 :: !IsBracket("&lt;"[i]);
      forall i | 0 <= i < |Defang(v)| ensures !IsBracket(Defang(v)[i]) {
        if MarkerFirst(v) {
          if i >= 4 { assert Defang(v)[i] == d[i - 4]; }
        } else if i >= 1 {
          assert Defang(v)[i] == d[i - 1];
        }
      }
    }
  }

  lemma LinkThenWiki(link: string, rest: string)
    requires BracketFree(link) && WikiText(rest)
    ensures WikiText("[[" + (link + ("]]" + rest)))
  {
    var v := "[[" + (link + ("]]" + rest));
    BracketRunAll(link, "]]" + rest);
    assert v[2..] == link + ("]]" + rest) && v[2 + |link|..] == "]]" + rest && v[|link| + 4..] == rest;
  }

  lemma {:induction false} DefangEnds(v: string)
    requires v != ""
    ensures Defang(v) != "" && (Defang(v)[0] == v[0] || (v[0] == '<' && Defang(v)[0] == '&'))
    ensures Defang(v)[|Defang(v)| - 1] == v[|v| - 1] || Defang(v)[|Defang(v)| - 1] == ';'
  {
    hide MarkerFirst;
    if v[0] != '<' { NotMarker(v); }
    if |v| > 1 { DefangEnds(v[1..]); } else { assert v[1..] == ""; }
  }

  lemma DefangTrimmed(v: string)
    requires Trimmed(v)
    ensures Trimmed(Defang(v))
  {
    if v != "" { DefangEnds(v); }
  }

  lemma {:induction false} DefangGet(fs: seq<Field>, key: string)
    ensures Get(DefangFields(fs), key) == match Get(fs, key) case Some(v) => Some(Defang(v)) case None => None
  {
    hide Defang;
    if fs != [] { DefangGet(fs[1..], key); }
  }

  /** Values of text and wikilinks stay such. */
  lemma {:induction false} DefangSafe(fs: seq<Field>)
    requires SafeFields(fs)
    ensures SafeFields(DefangFields(fs))
  {
    hide OwnerName, WikiText, Trimmed, NoNewline, Defang;
    if fs != [] {
      DefangSafe(fs[1..]);
      DefangWiki(fs[0].value);
      DefangTrimmed(fs[0].value);
      DefangNoNewline(fs[0].value);
      DefangGet(fs[1..], fs[0].key);
    }
  }

  /** Writing an item neutralises its text and values and nothing else. */
  lemma WrittenIs(it: Item)
    requires IsId(it.blockId) && WordKeys(it.fields)
    ensures NeutraliseLine(FormatItem(it)) == FormatItem(Defanged(it))
  {
    hide MarkerFree, IsId, NoLt, FormatFields, Tail, MarkerFirst, Defang, WordKeys;
    var tail, b := Tail(it.fields, it.blockId), Bullet(it.checked);
    DefangTail(it.fields, it.blockId);
    FormatTail(it.fields, it.blockId);
    FormatTail(DefangFields(it.fields), it.blockId);
    BlankLt();
    FreePlainBlank();
    DefangKeepsMarkerFree(" ");
    LineIs(it, tail);
    LineIs(Defanged(it), Tail(DefangFields(it.fields), it.blockId));
    BulletIsNoHeading(FormatItem(it));
    DefangAfter(b, it.text + " " + tail);
    DefangJoin(it.text + " ", tail);
    DefangJoin(it.text, " ");
  }

  lemma FreePlainBlank()
    ensures MarkerFree(" ")
  {
    PlainLt(" ");
  }

  lemma LineIs(it: Item, tail: string)
    requires FormatFields(it.fields) + " ^" + it.blockId == " " + tail
    ensures FormatItem(it) == Bullet(it.checked) + (it.text + " " + tail)
  {
    assert FormatItem(it) == Bullet(it.checked) + it.text + (FormatFields(it.fields) + " ^" + it.blockId);
  }

  /** What a written item shows as text once read as one: neutralised, and without
      the box it may start with. */
  function ShownText(it: Item): string
    requires SafeFields(it.fields)
  {
    DefangSafe(it.fields);
    Rebox(Defanged(it)).text
  }

  /** A field of a written item, read back from its line. */
  lemma WrittenReads(it: Item, key: string)
    requires IsId(it.blockId) && SafeFields(it.fields)
    ensures SafeFields(DefangFields(it.fields)) && ReadBack(it).Some? && ReadBack(it).value.blockId == it.blockId
    ensures ReadBack(it).value.checked == Rebox(Defanged(it)).checked
    ensures Get(ReadBack(it).value.fields, key) == ReadValue(ShownText(it), DefangFields(it.fields), key)
  {
    hide ParseItemLine, FormatItem, NeutraliseLine, SafeFields, OwnFields, Lost, DictOf, IsId, Boxed, Get, Rebox,
         DefangFields, WordKeys;
    SafeKeys(it.fields);
    DefangSafe(it.fields);
    WrittenIs(it);
    FieldReadsAs(Defanged(it), key);
    ReadsAs(Defanged(it));
  }

  /** A field of a written item is there exactly if the text does not swallow it,
      or spells it itself. */
  lemma WrittenFieldIff(it: Item, key: string)
    requires IsId(it.blockId) && SafeFields(it.fields) && Get(it.fields, key).Some?
    ensures SafeFields(DefangFields(it.fields)) && ReadBack(it).Some?
    ensures var text, fs := ShownText(it), DefangFields(it.fields);
            Get(ReadBack(it).value.fields, key) == Get(fs, key)
            <==> Get(fs[Lost(text, fs)..], key).Some? || Get(DictOf([], OwnFields(text, fs)), key) == Get(fs, key)
  {
    hide ParseItemLine, FormatItem, NeutraliseLine, SafeFields, OwnFields, Lost, DictOf, IsId, Get, DefangFields,
         ShownText;
    WrittenReads(it, key);
    GetRest(DefangFields(it.fields), Lost(ShownText(it), DefangFields(it.fields)), key);
  }

  // ---------------------------------------------------------------------
  // An owner that is lost
  // ---------------------------------------------------------------------

  const OWNER := Field("owner", "[[Z]]")

  lemma OwnerIsClean()
    ensures CleanFields([OWNER]) && SafeFields([OWNER]) && FirstLink([OWNER]) == 0
    ensures FieldsText([OWNER]) == " [owner:: [[Z]]] "
  {
    hide SafeField, MarkerFree, FormatFields, FieldText;
    OwnerSafe();
    OwnerLine();
    OneField(OWNER);
    assert [OWNER][1..] == [] && CleanFields([]) && SafeFields([]);
    assert OWNER.value[0] == '[';
  }

  lemma OwnerLine()
    ensures " " + FieldText(OWNER) + " " == " [owner:: [[Z]]] " && MarkerFree(OWNER.value)
  {
    hide MarkerFree;
    PlainLt(OWNER.value);
  }

  lemma OwnerSafe()
    ensures SafeField(OWNER)
  {
    hide WikiText;
    assert "[[" + "Z" + "]]" == OWNER.value;
    LinkIsWiki("Z");
    assert OwnerName(OWNER.key);
  }

  lemma LinkIsWiki(link: string)
    requires BracketFree(link)
    ensures WikiText("[[" + link + "]]")
  {
    var v := "[[" + link + "]]";
    BracketRunAll(link, "]]");
    assert v[2..] == link + "]]" && v[2 + |link|..] == "]]" && v[|link| + 4..] == "";
  }

  lemma {:induction false} BracketRunAll(a: string, b: string)
    requires BracketFree(a) && b != "" && IsBracket(b[0])
    ensures BracketRun(a + b) == |a|
  {
    if a != "" {
      assert (a + b)[1..] == a[1..] + b;
      BracketRunAll(a[1..], b);
    } else {
      assert a + b == b;
    }
  }

  lemma PlainLt(v: string)
    requires NoLt(v)
    ensures MarkerFree(v)
  {
    NothingFree();
    FreePlain(v, "");
    assert v + "" == v;
  }

  /** The open field takes in the owner. */
  lemma OpenFieldTakes(x: string, rest: string)
    requires x == "[k:: " + "[[b" && rest == FieldsText([OWNER])
    ensures FieldFirst(x + rest).Some? && FieldFirst(x + rest).value.0.key == "k"
    ensures FieldFirst(x + rest).value.1 == |x| + |rest| - 1
  {
    hide ValueLen, FormatFields, FieldFirst;
    var s := x + rest;
    OpenValue(rest);
    assert s[5..] == "[[b" + rest;
    OpenKey(s, "[[b" + rest);
    FieldFirstAt(s, 2, 5, 1 + |rest|);
  }

  lemma OpenKey(s: string, v: string)
    requires s == "[k:: " + v && v != "" && v[0] == '['
    ensures s[0] == '[' && s[1..2] == "k" && WordRun(s, 1) == 2 && SpaceRun(s, 4) == 5 && "::" <= s[2..]
  {
    WordRunIs(s, 1, 2);
    SpaceRunIs(s, 4, 5);
    assert s[2..][..2] == "::";
  }

  lemma OpenValue(rest: string)
    requires rest == FieldsText([OWNER])
    ensures ValueLen("[[b" + rest) == Some(1 + |rest|)
  {
    hide ValueLen, CloseLen, FormatFields, CleanFields, SafeFields;
    OwnerIsClean();
    CloseFields([OWNER]);
    assert [OWNER][..1] == [OWNER];
    CloseSkip("b", rest);
    var s := "[[b" + rest;
    assert s[2..] == "b" + rest;
    ValueOfLink(s);
  }

  lemma OpenFieldIsField(x: string, rest: string)
    requires x == "[k:: " + "[[b" && rest == " [owner:: [[Z]]] "
    ensures IsFields(x + rest) && SkipSpaces(" " + (x + rest)) == x + rest
  {
    var s := x + rest;
    var w := "[[" + "b [owner:: [[Z" + "]]";
    var f := "[k:: " + (w + "]");
    assert s == f + " ";
    assert s[..|f|] == f && s[|f|..] == " ";
    OpenIsField(f, w);
    hide IsField;
    FieldsEnd();
    assert "" + " " == " ";
    FieldsFirst(s);
    assert IsField(s[..|f|]) && IsFields("") && SkipSpaces(s[|f|..]) == "";
  }

  lemma OpenIsField(f: string, w: string)
    requires f == "[k:: " + (w + "]") && |w| >= 4 && "[[" <= w && "]]" <= w[|w| - 2..]
    ensures IsField(f)
  {
    OpenKey(f, w + "]");
    var v := " " + w;
    assert f[4..|f| - 1] == v && v[1..] == w && w[|w| - 2 + 2..] == "";
    assert IsValue("");
    assert IsValue(w);
  }

  /** Text that opens a link in a field it does not close: the link closes at the
      owner's, and the owner is part of the other field's value. */
  lemma OwnerSwallowed()
    ensures var it := Item("a [k:: [[b", "x", None, [OWNER]);
            var r := ParseItemLine(FormatItem(it));
            IsId(it.blockId) && CleanFields(it.fields) && Boxed(it) && r.Some? && Get(r.value.fields, "owner") == None
  {
    hide ParseItemLine, FormatItem, FieldFirst, IsFields, SkipSpaces, CleanFields, SafeFields, FormatFields;
    var it := Item("a [k:: [[b", "x", None, [OWNER]);
    var x, rest := "[k:: " + "[[b", FieldsText([OWNER]);
    OwnerIsClean();
    OpenFieldTakes(x, rest);
    OpenPart(it.text, x, rest);
    assert InText(x, rest) == [FieldFirst(x + rest).value.0] && Over(x, rest) > 0;
    assert Lost(it.text, it.fields) == 1;
    ReadsAs(it);
    OneDict(FieldFirst(x + rest).value.0, [OWNER][1..]);
  }

  lemma OneDict(f: Field, none: seq<Field>)
    requires f.key == "k" && none == []
    ensures Get(DictOf([], [f] + none), "owner") == None
  {
    assert ([f] + none)[1..] == [];
    assert DictPut([], f) == [f] && "k" != "owner";
  }

  /** The grammar takes the text from the open field on for fields. */
  lemma OpenPart(text: string, x: string, rest: string)
    requires text == "a [k:: [[b" && x == "[k:: " + "[[b" && rest == FieldsText([OWNER]) == " [owner:: [[Z]]] "
    ensures FieldPart(text, [OWNER]) == " " + x && InText(" " + x, rest) == InText(x, rest)
    ensures Over(" " + x, rest) == Over(x, rest)
  {
    hide IsFields, FormatFields, InText, Over;
    OpenFieldIsField(x, rest);
    var t := text + rest;
    assert text == "a" + (" " + x) && t == "a" + (" " + (x + rest));
    Unblanked(text);
    Unblanked(t);
    CutAtOne(t, " " + (x + rest));
    assert text[1..] == " " + x;
    OneBlank(x, rest);
  }

  lemma Unblanked(t: string)
    requires t != "" && t[0] == 'a'
    ensures SkipSpaces(t) == t
  {
    SpaceRunIs(t, 0, 0);
  }

  lemma CutAtOne(t: string, u: string)
    requires t == "a" + u && IsFields(SkipSpaces(u))
    ensures TextLen(t) == 1
  {
    hide IsFields, SkipSpaces;
    Unblanked(t);
    NoFieldsFirst(t);
    assert t[1..] == u;
    BlankCut(u);
  }

  lemma NoFieldsFirst(t: string)
    requires t != "" && t[0] == 'a'
    ensures !IsFields(t)
  {
    forall n: nat | 1 <= n <= |t| ensures !IsField(t[..n]) { assert t[..n][0] == 'a'; }
  }

  lemma OneBlank(x: string, rest: string)
    ensures InText(" " + x, rest) == InText(x, rest) && Over(" " + x, rest) == Over(x, rest)
  {
    var s := " " + x;
    assert FieldFirst(s + rest) == None by { assert (s + rest)[0] == ' '; }
    assert s[1..] == x;
  }
}
