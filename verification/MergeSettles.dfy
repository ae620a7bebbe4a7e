/** When merging a thread's task into the line it was written as leaves the line
    alone (agents/project_agent/agent.py): told from its text and fields. */
module MergeSettles {
  import opened Options
  import opened Text
  import opened Neutral
  import opened Fence
  import opened Items
  import opened ItemText
  import opened ItemEdits
  import opened Upserts
  import opened UpsertTwice
  import opened CleanItems
  import opened FieldReads
  import opened Transfer

  // ---------------------------------------------------------------------
  // Values as they are read
  // ---------------------------------------------------------------------

  predicate AllSpace(s: string) { forall i | 0 <= i < |s| :: IsSpace(s[i]) }

  /** A value the matcher takes somewhere, without the blanks at its end. */
  ghost predicate Tame(v: string) {
    exists tail: string, z: string :: AllSpace(tail) && TakenBefore(v, tail, z)
  }

  predicate TakenBefore(v: string, tail: string, z: string) { ValueLen(v + tail + "]" + z) == Some(|v| + |tail|) }

  lemma WikiIsTame(v: string)
    requires WikiText(v)
    ensures Tame(v)
  {
    hide ValueLen;
    ValueLenWiki(v, "");
    assert v + "" + "]" + "" == v + "]" + "";
    assert AllSpace("") && TakenBefore(v, "", "");
  }

  /** Where a link closes there is a bracket. */
  lemma {:induction false} CloseHas(s: string) returns (j: nat)
    requires CloseLen(s).Some?
    ensures j + 1 < CloseLen(s).value && s[j] == s[j + 1] == ']'
  {
    hide ValueLen;
    if "]]" <= s && ValueLen(s[2..]).Some? {
      j := 0;
    } else {
      j := CloseHas(s[1..]);
      j := j + 1;
    }
  }

  /** A last bracket of a value closes a link, so one comes before it. */
  lemma {:induction false} LastOfValue(s: string, i: nat)
    requires ValueLen(s).Some? && i < ValueLen(s).value && s[i] == ']'
    requires forall k | i < k < ValueLen(s).value :: s[k] != ']'
    ensures i >= 1 && s[i - 1] == ']'
    decreases |s|, 1
  {
    hide CloseLen;
    if "[[" <= s {
      var j := CloseHas(s[2..]);
      assert s[2..][j + 1] == s[j + 3];
      LastOfClose(s[2..], i - 2);
    } else {
      LastOfValue(s[1..], i - 1);
    }
  }

  lemma {:induction false} LastOfClose(s: string, i: nat)
    requires CloseLen(s).Some? && i < CloseLen(s).value && s[i] == ']'
    requires forall k | i < k < CloseLen(s).value :: s[k] != ']'
    ensures i >= 1 && s[i - 1] == ']'
    decreases |s|, 0
  {
    hide ValueLen;
    if "]]" <= s && ValueLen(s[2..]).Some? {
      assert s[1] == ']';
      if i >= 2 { LastOfValue(s[2..], i - 2); }
    } else {
      var j := CloseHas(s[1..]);
      assert s[1..][j + 1] == s[j + 2];
      LastOfClose(s[1..], i - 1);
    }
  }

  /** In text and wikilinks brackets close in twos. */
  lemma {:induction false} WikiPair(v: string, i: nat)
    requires WikiText(v) && i < |v| && v[i] == ']' && (i + 1 < |v| ==> v[i + 1] != ']')
    ensures i >= 2 && v[i - 1] == ']' && v[i - 2] != ']'
    decreases |v|
  {
    if !IsBracket(v[0]) {
      WikiPair(v[1..], i - 1);
    } else {
      OpenStep(v);
      var n := BracketRun(v[2..]);
      BracketRunFree(v[2..]);
      assert v[2..][..n] == v[2..n + 2] && v[n + 2] == v[2 + n..][0] == ']' && v[n + 3] == v[2 + n..][1] == ']';
      LinkPair(v, n, i);
      if i > n + 3 { WikiPair(v[n + 4..], i - n - 4); }
    }
  }

  lemma LinkPair(v: string, n: nat, i: nat)
    requires n + 4 <= |v| && "[[" <= v && BracketFree(v[2..n + 2]) && v[n + 2] == v[n + 3] == ']'
    requires i < |v| && v[i] == ']' && (i + 1 < |v| ==> v[i + 1] != ']')
    ensures i >= n + 3 && (i == n + 3 ==> v[i - 2] != ']')
  {
    assert v[0] == '[' && v[1] == '[';
    assert forall k | 2 <= k < n + 2 :: v[k] == v[2..n + 2][k - 2];
  }

  /** A value of text and wikilinks and a value as read, each closed and followed
      by a blank or nothing, are one value if the texts are. */
  lemma ValueSame(v: string, w: string, a: string, b: string)
    requires WikiText(v) && Tame(w) && v + "]" + a == w + "]" + b
    requires (a != "" ==> a[0] == ' ') && (b != "" ==> b[0] == ' ')
    ensures v == w && a == b
  {
    hide ValueLen, WikiText;
    var s := v + "]" + a;
    if |v| < |w| {
      LongerValue(v, w, a, b);
    } else if |w| < |v| {
      ShorterValue(v, w, a, b);
    } else {
      assert s[..|v|] == v && s[..|w|] == w && s[|v| + 1..] == a && s[|w| + 1..] == b;
    }
  }

  lemma LongerValue(v: string, w: string, a: string, b: string)
    requires WikiText(v) && Tame(w) && |v| < |w|
    ensures v + "]" + a != w + "]" + b
  {
    hide WikiText, Tame;
    NoShorterStart(v, w);
    var t, u := v + "]" + a, w + "]" + b;
    assert t[..|v|] == v && u[..|v|] == w[..|v|] && t[|v|] == ']' && u[|v|] == w[|v|];
  }

  lemma NoShorterStart(v: string, w: string)
    requires WikiText(v) && Tame(w) && |v| < |w|
    ensures w[..|v|] != v || w[|v|] != ']'
  {
    hide ValueLen, WikiText;
    var tail, z :| AllSpace(tail) && TakenBefore(w, tail, z);
    if w[..|v|] == v && w[|v|] == ']' {
      var s := w + tail + "]" + z;
      var rest := w[|v| + 1..] + tail + "]" + z;
      assert w == v + "]" + w[|v| + 1..];
      assert s == v + "]" + rest;
      ValueLenWiki(v, rest);
    }
  }

  /** A value as read does not end in a single bracket. */
  lemma NoLoneEnd(w: string)
    requires Tame(w) && |w| >= 2
    ensures w[|w| - 1] == ']' ==> w[|w| - 2] == ']'
  {
    hide ValueLen;
    var tail, z :| AllSpace(tail) && TakenBefore(w, tail, z);
    if w[|w| - 1] == ']' {
      var s, n := w + tail + "]" + z, |w|;
      forall k | n - 1 < k < n + |tail| ensures s[k] != ']' { assert s[k] == tail[k - n]; }
      LastOfValue(s, n - 1);
    }
  }

  lemma ShorterValue(v: string, w: string, a: string, b: string)
    requires WikiText(v) && Tame(w) && |w| < |v| && (b != "" ==> b[0] == ' ')
    ensures v + "]" + a != w + "]" + b
  {
    hide WikiText, Tame, IsSpace;
    var n := |w|;
    var t, u := v + "]" + a, w + "]" + b;
    ClosedChars(v, a, t);
    ClosedChars(w, b, u);
    if t == u {
      assert v[n] == ']';
      assert n + 1 < |v| ==> v[n + 1] == t[n + 1] == ' ';
      WikiPair(v, n);
      NoLoneEnd(w);
    }
  }

  lemma ClosedChars(v: string, a: string, t: string)
    requires t == v + "]" + a
    ensures |t| == |v| + 1 + |a| && (forall i | 0 <= i < |v| :: t[i] == v[i]) && t[|v|] == ']'
    ensures a != "" ==> t[|v| + 1] == a[0]
  {}

  // ---------------------------------------------------------------------
  // Written fields are told apart
  // ---------------------------------------------------------------------

  ghost predicate TameFields(fs: seq<Field>) {
    forall i | 0 <= i < |fs| :: OwnerName(fs[i].key) && Tame(fs[i].value)
  }

  lemma KeySame(k: string, m: string, a: string, b: string)
    requires OwnerName(k) && OwnerName(m) && k + ":" + a == m + ":" + b
    ensures k == m && a == b
  {
    var s := k + ":" + a;
    WordRunIs(s, 0, |k|);
    WordRunIs(m + ":" + b, 0, |m|);
    assert s[..|k|] == k && s[..|m|] == m && s[|k| + 1..] == a && s[|m| + 1..] == b;
  }

  lemma FieldsBlank(fs: seq<Field>)
    ensures FormatFields(fs) != "" ==> FormatFields(fs)[0] == ' '
    ensures FormatFields(fs) == "" <==> fs == []
  {}

  /** Fields that are written alike are the same fields. */
  lemma {:induction false} FieldsSame(fs: seq<Field>, gs: seq<Field>)
    requires SafeFields(fs) && TameFields(gs) && FormatFields(fs) == FormatFields(gs)
    ensures fs == gs
  {
    hide WikiText, Tame, OwnerName, Trimmed, FormatFields;
    FieldsBlank(fs);
    FieldsBlank(gs);
    if fs != [] {
      var f, g := fs[0], gs[0];
      var a, b := FormatFields(fs[1..]), FormatFields(gs[1..]);
      FieldsBlank(fs[1..]);
      FieldsBlank(gs[1..]);
      FieldPut(fs);
      FieldPut(gs);
      var t := " [" + (f.key + ":" + (": " + (f.value + "]" + a)));
      assert t[2..] == f.key + ":" + (": " + (f.value + "]" + a));
      var u := " [" + (g.key + ":" + (": " + (g.value + "]" + b)));
      assert u[2..] == g.key + ":" + (": " + (g.value + "]" + b));
      KeySame(f.key, g.key, ": " + (f.value + "]" + a), ": " + (g.value + "]" + b));
      assert (": " + (f.value + "]" + a))[2..] == f.value + "]" + a;
      assert (": " + (g.value + "]" + b))[2..] == g.value + "]" + b;
      ValueSame(f.value, g.value, a, b);
      forall i | 0 <= i < |gs[1..]| ensures OwnerName(gs[1..][i].key) && Tame(gs[1..][i].value) {
        assert gs[1..][i] == gs[i + 1];
      }
      FieldsSame(fs[1..], gs[1..]);
      assert fs == [f] + fs[1..] && gs == [g] + gs[1..];
    }
  }

  lemma FieldPut(fs: seq<Field>)
    requires fs != []
    ensures FormatFields(fs) == " [" + (fs[0].key + ":" + (": " + (fs[0].value + "]" + FormatFields(fs[1..]))))
  {}

  // ---------------------------------------------------------------------
  // A line that gains a box
  // ---------------------------------------------------------------------

  /** Nothing, or a field's start. */
  predicate FieldsStart(f: string) { f == "" || (|f| >= 4 && f[0] == ' ' && f[1] == '[' && f[3] != ']') }

  /** Text written behind one more box is another line, whatever follows. */
  lemma {:induction false} NoShift(text: string, f: string, g: string)
    requires FieldsStart(f)
    ensures text + f != "[x] " + text + g
    decreases |text|
  {
    var t, u := text + f, "[x] " + text + g;
    if |text| >= 4 {
      var rest := text[4..];
      NoShift(rest, f, g);
      assert t == text[..4] + (rest + f) && u == "[x] " + (text + g);
      if text[..4] == "[x] " { assert text + g == "[x] " + rest + g; }
      assert t[..4] == text[..4] && u[..4] == "[x] " && t[4..] == rest + f && u[4..] == text + g;
    } else if |t| == |u| {
      var n := |text|;
      assert t[n] == f[0] && u[n] == "[x] "[n];
      assert n == 3 ==> t[4] == f[1] && t[6] == f[3] && u[6] == text[2] && t[2] == text[2] && u[2] == ']';
    }
  }

  lemma FieldsStartIs(fs: seq<Field>)
    requires SafeFields(fs)
    ensures FieldsStart(FormatFields(fs))
  {
    hide SafeFields, FormatFields;
    FieldsBlank(fs);
    if fs != [] {
      FieldHead(fs);
      FieldPut(fs);
      var t := FormatFields(fs);
      KeyThere(fs);
      assert forall i | 0 <= i < |t| :: FieldsText(fs)[i] == t[i];
    }
  }

  lemma KeyThere(fs: seq<Field>)
    requires SafeFields(fs) && fs != []
    ensures fs[0].key != ""
  {}

  lemma SameLine(c1: Option<bool>, c2: Option<bool>, text: string, f: string, g: string, id: string)
    requires c1 == c2 || (c1 == None && c2 == Some(true))
    requires FieldsStart(f)
    ensures Bullet(c1) + text + f + " ^" + id == Bullet(c2) + text + g + " ^" + id
            <==> Bullet(c1) == Bullet(c2) && f == g
  {
    var tail := " ^" + id;
    var t, u := Bullet(c1) + text + f + " ^" + id, Bullet(c2) + text + g + " ^" + id;
    assert t == Bullet(c1) + (text + f) + tail && u == Bullet(c2) + (text + g) + tail;
    if t == u {
      if Bullet(c1) == Bullet(c2) {
        SameMiddle(Bullet(c1), text + f, text + g, tail);
        assert (text + f)[|text|..] == f && (text + g)[|text|..] == g;
      } else {
        NoShift(text, f, g);
        assert Bullet(c2) + (text + g) == "- " + ("[x] " + text + g);
        SameMiddle("- ", text + f, "[x] " + text + g, tail);
      }
    }
  }

  // ---------------------------------------------------------------------
  // Values read from neutral lines
  // ---------------------------------------------------------------------

  lemma {:induction false} FreeSuffix(s: string, k: nat)
    requires MarkerFree(s) && k <= |s|
    ensures MarkerFree(s[k..])
  {
    hide MarkerFirst;
    if k > 0 {
      FreeSuffix(s[1..], k - 1);
      assert s[1..][k - 1..] == s[k..];
    } else {
      assert s[0..] == s;
    }
  }

  lemma {:induction false} FreePrefix(s: string, k: nat)
    requires MarkerFree(s) && k <= |s|
    ensures MarkerFree(s[..k])
  {
    hide MarkerFirst;
    if k > 0 {
      FreePrefix(s[1..], k - 1);
      assert s[..k][1..] == s[1..][..k - 1];
      assert s[..k] + s[k..] == s;
      if MarkerFirst(s[..k]) { MarkerGrows(s[..k], s[k..]); }
    }
  }

  lemma FreeSlice(s: string, a: nat, b: nat)
    requires MarkerFree(s) && a <= b <= |s|
    ensures MarkerFree(s[a..b])
  {
    FreePrefix(s, b);
    FreeSuffix(s[..b], a);
    assert s[..b][a..] == s[a..b];
  }

  ghost predicate ReadFields(fs: seq<Field>) {
    forall i | 0 <= i < |fs| :: Tame(fs[i].value) && MarkerFree(fs[i].value)
  }

  lemma TrimLead(raw: string) returns (b: nat)
    requires raw != "" ==> !IsSpace(raw[0])
    ensures b <= |raw| && Trim(raw) == raw[..b] && AllSpace(raw[b..])
  {
    TrailSpaces(raw, 0, |raw|);
    b := TrailSpace(raw, 0, |raw|);
    assert LeadSpace(raw, 0) == 0;
  }

  lemma ValueRead(u: string, n: nat) returns (b: nat)
    requires ValueLen(u) == Some(n) && (n > 0 ==> !IsSpace(u[0]))
    ensures b <= n <= |u| && Trim(u[..n]) == u[..b] && Tame(u[..b])
  {
    hide ValueLen, IsSpace, Trim;
    var raw, z := u[..n], u[n + 1..];
    b := TrimLead(raw);
    assert raw[..b] == u[..b];
    assert u == u[..b] + raw[b..] + "]" + z;
    assert TakenBefore(u[..b], raw[b..], z);
  }

  lemma FirstRead(s: string)
    requires MarkerFree(s) && FieldFirst(s).Some?
    ensures Tame(FieldFirst(s).value.0.value) && MarkerFree(FieldFirst(s).value.0.value)
  {
    hide ValueLen, MarkerFree, IsSpace, Trim, Tame;
    var r := WordRun(s, 1);
    var w := SpaceRun(s, r + 2);
    var n := ValueLen(s[w..]).value;
    SpaceStopsAt(s, r + 2);
    var b := ValueRead(s[w..], n);
    assert s[w..][..n] == s[w..w + n] && s[w..][..b] == s[w..w + b];
    FreeSlice(s, w, w + b);
  }

  lemma {:induction false} SpaceStopsAt(s: string, i: nat)
    requires i <= |s|
    ensures SpaceRun(s, i) < |s| ==> !IsSpace(s[SpaceRun(s, i)])
    decreases |s| - i
  {
    if i < |s| && IsSpace(s[i]) { SpaceStopsAt(s, i + 1); }
  }

  lemma {:induction false} ScanRead(s: string)
    requires MarkerFree(s)
    ensures ReadFields(ScanFields(s))
    decreases |s|
  {
    hide FieldFirst, Tame, MarkerFirst;
    if s != "" {
      match FieldFirst(s)
      case None => ScanRead(s[1..]);
      case Some((f, n)) =>
        FirstRead(s);
        FreeSuffix(s, n);
        ScanRead(s[n..]);
    }
  }

  lemma {:induction false} PutRead(d: seq<Field>, f: Field)
    requires ReadFields(d) && Tame(f.value) && MarkerFree(f.value)
    ensures ReadFields(DictPut(d, f))
  {
    hide Tame, MarkerFree;
    if d != [] && d[0].key != f.key {
      assert ReadFields(d[1..]);
      PutRead(d[1..], f);
    }
  }

  lemma {:induction false} DictRead(d: seq<Field>, fs: seq<Field>)
    requires ReadFields(d) && ReadFields(fs)
    ensures ReadFields(DictOf(d, fs))
    decreases |fs|
  {
    hide Tame, MarkerFree;
    if fs != [] {
      PutRead(d, fs[0]);
      assert ReadFields(fs[1..]);
      DictRead(DictPut(d, fs[0]), fs[1..]);
    }
  }

  lemma {:induction false} GetRead(fs: seq<Field>, key: string)
    requires ReadFields(fs) && Get(fs, key).Some?
    ensures Tame(Get(fs, key).value) && MarkerFree(Get(fs, key).value)
  {
    hide Tame, MarkerFree;
    if fs[0].key != key {
      assert ReadFields(fs[1..]);
      GetRead(fs[1..], key);
    }
  }

  lemma ItemRead(t: string, id: string, checked: Option<bool>)
    requires MarkerFree(t)
    ensures ReadFields(ItemOf(t, id, checked).fields)
  {
    hide TextLen, DictOf, ScanFields, MarkerFree, Tame;
    var k := TextLen(t);
    FreeSuffix(t, k);
    FreeSuffix(t[k..], SpaceRun(t[k..], 0));
    ScanRead(SkipSpaces(t[k..]));
    DictRead([], ScanFields(SkipSpaces(t[k..])));
  }

  lemma LineRead(l: string)
    requires MarkerFree(l) && ParseItemLine(l).Some?
    ensures ReadFields(ParseItemLine(l).value.fields)
  {
    hide ItemOf, MarkerFree, Tame, IdOf, CheckboxAt, ReadFields;
    var c := LastCaret(l);
    ParsedFrom(l, c);
    var p := SpaceRun(l, 1);
    if CheckboxAt(l, p) {
      FreeSlice(l, SpaceRun(l, p + 3), c);
      ItemRead(l[SpaceRun(l, p + 3)..c], IdOf(l).value, Some(l[p + 1] != ' '));
    } else {
      FreeSlice(l, p, c);
      ItemRead(l[p..c], IdOf(l).value, None);
    }
  }

  lemma ParsedFrom(l: string, c: nat)
    requires IdOf(l).Some? && c == LastCaret(l)
    ensures 1 <= c < |l| && SpaceRun(l, 1) <= c
    ensures var p := SpaceRun(l, 1); CheckboxAt(l, p) ==> p + 3 <= c && SpaceRun(l, p + 3) <= c
  {
    SpacesBefore(l, 1, c);
    var p := SpaceRun(l, 1);
    if CheckboxAt(l, p) { SpacesBefore(l, p + 3, c); }
  }

  // ---------------------------------------------------------------------
  // Filling in what the page held
  // ---------------------------------------------------------------------

  lemma {:induction false} DefangPut(d: seq<Field>, f: Field)
    ensures DefangFields(DictPut(d, f)) == DictPut(DefangFields(d), Field(f.key, Defang(f.value)))
  {
    hide Defang;
    if d != [] {
      var e := DefangFields(d);
      assert e[1..] == DefangFields(d[1..]);
      if d[0].key == f.key {
        assert ([f] + d[1..])[1..] == d[1..];
      } else {
        DefangPut(d[1..], f);
        assert ([d[0]] + DictPut(d[1..], f))[1..] == DictPut(d[1..], f);
      }
    }
  }

  lemma DefangKeep(d: seq<Field>, key: string, was: seq<Field>)
    ensures DefangFields(KeepField(d, key, was)) == KeepField(DefangFields(d), key, DefangFields(was))
  {
    hide Defang, DefangFields;
    DefangGet(was, key);
    if Get(was, key).Some? { DefangPut(d, Field(key, Get(was, key).value)); }
  }

  /** The fields of a merged line. */
  function Filled(d: seq<Field>, was: seq<Field>): seq<Field> { KeepField(KeepField(d, "due", was), "owner", was) }

  lemma DefangFilled(d: seq<Field>, was: seq<Field>)
    ensures DefangFields(Filled(d, was)) == Filled(DefangFields(d), DefangFields(was))
  {
    hide KeepField, DefangFields;
    DefangKeep(d, "due", was);
    DefangKeep(KeepField(d, "due", was), "owner", was);
  }

  lemma FilledGets(d: seq<Field>, was: seq<Field>, key: string)
    requires key == "due" || key == "owner"
    ensures Get(Filled(d, was), key) == if Get(was, key).Some? then Get(was, key) else Get(d, key)
  {
    hide KeepField, Get;
    assert "due" != "owner";
    KeepGets(d, "due", was, key);
    KeepGets(KeepField(d, "due", was), "owner", was, key);
  }

  lemma KeepSame(d: seq<Field>, key: string, a: seq<Field>, b: seq<Field>)
    requires Get(KeepField(d, key, a), key) == Get(KeepField(d, key, b), key)
    ensures KeepField(d, key, a) == KeepField(d, key, b)
  {
    KeepGets(d, key, a, key);
    KeepGets(d, key, b, key);
    if Get(a, key).Some? && Get(b, key).None? { PutSame(d, Field(key, Get(a, key).value)); }
    if Get(b, key).Some? && Get(a, key).None? { PutSame(d, Field(key, Get(b, key).value)); }
  }

  lemma FilledSame(d: seq<Field>, a: seq<Field>, b: seq<Field>)
    ensures Filled(d, a) == Filled(d, b)
            <==> Get(Filled(d, a), "due") == Get(Filled(d, b), "due")
                 && Get(Filled(d, a), "owner") == Get(Filled(d, b), "owner")
  {
    hide KeepField, Get;
    FilledGets(d, a, "due");
    FilledGets(d, b, "due");
    KeepGets(d, "due", a, "due");
    KeepGets(d, "due", b, "due");
    if Get(Filled(d, a), "due") == Get(Filled(d, b), "due") {
      KeepSame(d, "due", a, b);
      var e := KeepField(d, "due", a);
      if Get(Filled(d, a), "owner") == Get(Filled(d, b), "owner") { KeepSame(e, "owner", a, b); }
    }
  }

  lemma {:induction false} PutTame(d: seq<Field>, f: Field)
    requires TameFields(d) && OwnerName(f.key) && Tame(f.value)
    ensures TameFields(DictPut(d, f))
  {
    hide Tame, OwnerName;
    if d != [] && d[0].key != f.key {
      assert TameFields(d[1..]);
      PutTame(d[1..], f);
    }
  }

  lemma KeepTame(d: seq<Field>, key: string, was: seq<Field>)
    requires TameFields(d) && OwnerName(key) && (Get(was, key).Some? ==> Tame(Get(was, key).value))
    ensures TameFields(KeepField(d, key, was))
  {
    hide TameFields;
    if Get(was, key).Some? { PutTame(d, Field(key, Get(was, key).value)); }
  }

  lemma {:induction false} SafeIsTame(fs: seq<Field>)
    requires SafeFields(fs)
    ensures TameFields(fs)
  {
    hide WikiText, Tame, OwnerName, Trimmed;
    if fs != [] {
      SafeIsTame(fs[1..]);
      WikiIsTame(fs[0].value);
      forall i | 0 <= i < |fs| ensures OwnerName(fs[i].key) && Tame(fs[i].value) {
        if i > 0 { assert fs[i] == fs[1..][i - 1]; }
      }
    }
  }

  lemma FilledTame(d: seq<Field>, was: seq<Field>)
    requires SafeFields(d) && ReadFields(was)
    ensures TameFields(Filled(d, was)) && WordKeys(Filled(d, was))
  {
    hide SafeFields, Tame, KeepField;
    SafeIsTame(d);
    if Get(was, "due").Some? { GetRead(was, "due"); }
    if Get(was, "owner").Some? { GetRead(was, "owner"); }
    KeepTame(d, "due", was);
    KeepTame(KeepField(d, "due", was), "owner", was);
  }

  // ---------------------------------------------------------------------
  // A merged line that stays
  // ---------------------------------------------------------------------

  /** The text does not start with a ticked box that is not the item's own. */
  predicate BoxStays(it: Item)
    requires SafeFields(it.fields)
  {
    DefangSafe(it.fields);
    Rebox(Defanged(it)).checked == Some(true) ==> it.checked == Some(true)
  }

  /** The field is not swallowed; or the text spells that very value; or nothing
      is read back, and what was written is what the thread gives. */
  predicate KeyStays(now: Item, it: Item, key: string)
    requires SafeFields(it.fields)
  {
    DefangSafe(it.fields);
    var text, fs := ShownText(it), DefangFields(it.fields);
    || Get(fs[Lost(text, fs)..], key).Some?
    || match Get(DictOf([], OwnFields(text, fs)), key)
       case Some(v) => Get(fs, key) == Some(v)
       case None => Get(fs, key) == Get(DefangFields(now.fields), key)
  }

  /** Merging the same task into its own line again leaves the line exactly if its
      text forms no ticked box, and takes or spells no owner and no due date. */
  lemma MergeSettlesIff(was: Item, now: Item)
    requires IsId(now.blockId) && was.blockId == now.blockId && SafeFields(now.fields)
             && SafeFields(MergeItem(was, now).fields)
    ensures var it := MergeItem(was, now);
            Settles(MergeItem, it, now) <==> BoxStays(it) && KeyStays(now, it, "due") && KeyStays(now, it, "owner")
  {
    hide ParseItemLine, NeutraliseLine, FormatItem, SafeFields, IsId, Rebox, Get, DefangFields, KeepField, ShownText,
         Lost, OwnFields, DictOf, ReadFields, TameFields, Defang, WordKeys, ReadValue;
    var it := MergeItem(was, now);
    WrittenReads(it, "due");
    WrittenReads(it, "owner");
    var r := ReadBack(it).value;
    var it2 := MergeItem(r, now);
    var d, f, w := DefangFields(now.fields), DefangFields(it.fields), DefangFields(r.fields);
    NeutralRead(it);
    DefangSafe(now.fields);
    DefangSafe(it.fields);
    FilledTame(now.fields, r.fields);
    FilledTame(d, w) by { ReadDefangs(r.fields); }
    DefangFilled(now.fields, was.fields);
    DefangFilled(now.fields, r.fields);
    LinesDiffer(it, it2, Rebox(Defanged(it)).checked, was, now);
    FilledSame(d, DefangFields(was.fields), w);
    StaysIff(now, it, was, r, "due");
    StaysIff(now, it, was, r, "owner");
  }

  /** What is read from a written line is neutral. */
  lemma NeutralRead(it: Item)
    requires ReadBack(it).Some?
    ensures ReadFields(ReadBack(it).value.fields)
  {
    hide FormatItem, ReadFields, EscapeHeading, ParseItemLine;
    DefangMarkerFree(EscapeHeading(FormatItem(it)));
    LineRead(NeutraliseLine(FormatItem(it)));
  }

  lemma {:induction false} ReadDefangs(fs: seq<Field>)
    requires ReadFields(fs)
    ensures DefangFields(fs) == fs
  {
    hide Tame, MarkerFree, Defang;
    if fs != [] {
      DefangKeepsMarkerFree(fs[0].value);
      assert ReadFields(fs[1..]);
      ReadDefangs(fs[1..]);
      assert fs == [fs[0]] + fs[1..];
    }
  }

  lemma StaysIff(now: Item, it: Item, was: Item, r: Item, key: string)
    requires (key == "due" || key == "owner") && it == MergeItem(was, now) && SafeFields(it.fields)
    requires SafeFields(DefangFields(it.fields)) && ReadFields(r.fields)
    requires DefangFields(it.fields) == Filled(DefangFields(now.fields), DefangFields(was.fields))
    requires Get(r.fields, key) == ReadValue(ShownText(it), DefangFields(it.fields), key)
    ensures Get(DefangFields(it.fields), key) == Get(Filled(DefangFields(now.fields), DefangFields(r.fields)), key)
            <==> KeyStays(now, it, key)
  {
    hide Get, DefangFields, Lost, OwnFields, DictOf, SafeFields, ShownText, KeepField, ReadFields;
    var f := DefangFields(it.fields);
    FilledGets(DefangFields(now.fields), DefangFields(r.fields), key);
    ReadDefangs(r.fields);
    GetRest(f, Lost(ShownText(it), f), key);
  }

  /** Two merged lines are one exactly if their boxes and fields are. */
  lemma LinesDiffer(it: Item, it2: Item, read: Option<bool>, was: Item, now: Item)
    requires it == MergeItem(was, now) && it2.text == it.text && it2.blockId == it.blockId && IsId(it.blockId)
    requires SafeFields(it.fields) && SafeFields(DefangFields(it.fields)) && WordKeys(it2.fields)
             && TameFields(DefangFields(it2.fields))
    requires read == Rebox(Defanged(it)).checked && it2.checked == if read == Some(true) then read else now.checked
    ensures Written(it2) == Written(it) <==> BoxStays(it) && DefangFields(it2.fields) == DefangFields(it.fields)
  {
    hide FormatFields, SafeFields, IsId, DefangFields, TameFields, WordKeys, Defang, CheckboxAt, KeepField,
         NeutraliseLine;
    SafeKeys(it.fields);
    WrittenIs(it);
    WrittenIs(it2);
    var f, g := FormatFields(DefangFields(it.fields)), FormatFields(DefangFields(it2.fields));
    FieldsStartIs(DefangFields(it.fields));
    SameLine(it.checked, it2.checked, Defang(it.text), f, g, it.blockId);
    if f == g { FieldsSame(DefangFields(it.fields), DefangFields(it2.fields)); }
  }

  // ---------------------------------------------------------------------
  // All the tasks of a thread
  // ---------------------------------------------------------------------

  /** What `now` gives the line of `it` does not change it. */
  predicate Stays(it: Item, now: Item) {
    SafeFields(it.fields) && BoxStays(it) && KeyStays(now, it, "due") && KeyStays(now, it, "owner")
  }

  /** The first line of each incoming id stays, once merged. */
  predicate HitsStay(ls: seq<string>, items: seq<Item>, done: set<string>) {
    ls == [] ||
      match Hit(ls[0], items, done)
      case None => HitsStay(ls[1..], items, done)
      case Some((was, now)) => Stays(MergeItem(was, now), now) && HitsStay(ls[1..], items, done + {was.blockId})
  }

  /** Values of text and wikilinks, in the items and where they are merged. */
  predicate SafeMerge(l: string, items: seq<Item>) {
    match ParseItemLine(l)
    case None => true
    case Some(was) =>
      match Lookup(items, was.blockId)
      case None => true
      case Some(now) => SafeFields(MergeItem(was, now).fields)
  }

  predicate SafeTasks(ls: seq<string>, items: seq<Item>) {
    (forall it | it in items :: IsId(it.blockId) && SafeFields(it.fields)) && forall l | l in ls :: SafeMerge(l, items)
  }

  lemma StaysIsSettles(was: Item, now: Item)
    requires IsId(now.blockId) && was.blockId == now.blockId && SafeFields(now.fields)
             && SafeFields(MergeItem(was, now).fields)
    ensures Settles(MergeItem, MergeItem(was, now), now) == Stays(MergeItem(was, now), now)
  {
    hide Settles, BoxStays, KeyStays, SafeFields, MergeItem, IsId;
    MergeSettlesIff(was, now);
  }

  lemma {:induction false} HitsStayIff(ls: seq<string>, items: seq<Item>, done: set<string>)
    requires SafeTasks(ls, items)
    ensures HitsSettle(ls, items, MergeItem, done) == HitsStay(ls, items, done)
  {
    hide ParseItemLine, MergeItem, Settles, Hit, Lookup, Stays, SafeFields, IsId;
    if ls != [] {
      assert ls[0] in ls && SafeMerge(ls[0], items) && forall l | l in ls[1..] :: l in ls;
      HitIs(ls[0], items, done);
      match Hit(ls[0], items, done)
      case None => HitsStayIff(ls[1..], items, done);
      case Some((was, now)) =>
        StaysIsSettles(was, now);
        HitsStayIff(ls[1..], items, done + {was.blockId});
    }
  }

  /** The items added stay, as they are added. */
  predicate NewsStay(rest: seq<Item>, done: set<string>) {
    forall it | it in rest && it.blockId !in done :: Stays(it, it)
  }

  lemma DistinctTail(rest: seq<Item>)
    requires rest != [] && DistinctIds(rest)
    ensures DistinctIds(rest[1..]) && forall x | x in rest[1..] :: x.blockId != rest[0].blockId
  {
    var t := rest[1..];
    forall i, j | 0 <= i < j < |t| ensures t[i].blockId != t[j].blockId {
      assert rest[i + 1].blockId != rest[j + 1].blockId;
    }
    forall i | 0 <= i < |t| ensures t[i].blockId != rest[0].blockId { assert rest[0].blockId != rest[i + 1].blockId; }
  }

  lemma NewsStayCons(it: Item, rest: seq<Item>, done: set<string>)
    requires forall x | x in rest :: x.blockId != it.blockId
    ensures NewsStay([it] + rest, done)
            == if it.blockId in done then NewsStay(rest, done) else Stays(it, it) && NewsStay(rest, done + {it.blockId})
  {
    hide Stays;
    assert forall x :: x in [it] + rest <==> x == it || x in rest;
  }

  lemma {:induction false} NewsStayIff(rest: seq<Item>, items: seq<Item>, done: set<string>)
    requires DistinctIds(items) && DistinctIds(rest)
    requires forall it | it in rest :: it in items && IsId(it.blockId) && SafeFields(it.fields)
    ensures NewsSettle(rest, items, MergeItem, done) == NewsStay(rest, done)
  {
    hide MergeItem, Settles, Lookup, Stays, SafeFields, IsId, NewsStay, DistinctIds;
    if rest == [] {
      NoneStay(done);
    } else {
      var it := rest[0];
      assert it in rest && (forall x | x in rest[1..] :: x in rest) && rest == [it] + rest[1..];
      DistinctTail(rest);
      NewsStayCons(it, rest[1..], done);
      LookupOwn(items, it);
      MergeSelf(it);
      StaysIsSettles(it, it);
      NewsStayIff(rest[1..], items, if it.blockId in done then done else done + {it.blockId});
    }
  }

  lemma NoneStay(done: set<string>)
    ensures NewsStay([], done)
  {}

  /** Tasks of different ids all settle exactly if, in each line merged or added,
      the text forms no ticked box and takes or spells no owner and no due date. */
  lemma TasksSettleIff(ls: seq<string>, items: seq<Item>)
    requires DistinctIds(items) && SafeTasks(ls, items)
    ensures AllSettle(ls, items, MergeItem)
            <==> HitsStay(ls, items, {}) && NewsStay(items, Replaced(ls, items, {}))
  {
    hide Stays, MergeItem, Replaced, HitsSettle, NewsSettle, HitsStay;
    HitsStayIff(ls, items, {});
    NewsStayIff(items, items, Replaced(ls, items, {}));
  }

  // ---------------------------------------------------------------------
  // Two inputs that do not settle
  // ---------------------------------------------------------------------

  const HELD := Item("a", "x", None, [OWNER])

  const OPENING := Item("a [k:: [[b", "x", None, [])

  lemma OwnerMerged(was: Item, now: Item)
    requires was.fields == [OWNER] && was.checked == None && now.fields == []
    ensures MergeItem(was, now) == Item(now.text, now.blockId, now.checked, [OWNER])
    ensures Get(was.fields, "owner").Some?
  {
    assert [OWNER][1..] == [] && "owner" != "due";
    assert Get([OWNER], "due") == None && DictPut([], OWNER) == [OWNER];
  }

  /** Text that opens a field, and a link in it, takes the owner set on the page. */
  lemma OwnerIsLost()
    ensures var it := MergeItem(HELD, OPENING);
            Get(HELD.fields, "owner").Some? && ReadBack(it).Some? && Get(ReadBack(it).value.fields, "owner") == None
  {
    hide ParseItemLine, FormatItem, NeutraliseLine, CleanFields, Boxed, SafeFields, Get, DefangFields, Defang,
         WordKeys, MergeItem;
    OwnerMerged(HELD, OPENING);
    OwnerSwallowed();
    OwnerIsClean();
    SafeKeys([OWNER]);
    DefangClean([OWNER]);
    OpeningPlain();
    SmallId();
    WrittenIs(MergeItem(HELD, OPENING));
  }

  lemma OpeningPlain()
    ensures Defang(OPENING.text) == OPENING.text
  {
    hide MarkerFree;
    PlainLt(OPENING.text);
    DefangKeepsMarkerFree(OPENING.text);
  }

  /** So the first application writes the owner into the line, and the second
      deletes it. */
  lemma OwnerGoesSecond()
    ensures var it := MergeItem(HELD, OPENING);
            ReadBack(it).Some? && Written(MergeItem(ReadBack(it).value, OPENING)) != Written(it)
    ensures !AllSettle([FormatItem(HELD)], [OPENING], MergeItem)
  {
    hide ParseItemLine, FormatItem, NeutraliseLine, CleanFields, Boxed, ShownText, Lost, OwnFields, DictOf,
         DefangFields, Settles, IsId, Get, SafeFields, MarkerFree;
    var it := MergeItem(HELD, OPENING);
    OwnerMerged(HELD, OPENING);
    OwnerIsLost();
    OwnerIsClean();
    NoneSafe();
    SmallId();
    MergeSettlesIff(HELD, OPENING);
    WrittenReads(it, "owner");
    DefangGet(it.fields, "owner");
    DefangGet([], "owner");
    assert Get([], "owner") == None && Get([OWNER], "owner").Some? by { OwnerThere(); }
    GetRest(DefangFields(it.fields), Lost(ShownText(it), DefangFields(it.fields)), "owner");
    assert !Settles(MergeItem, it, OPENING);
    SettlesIs(it, OPENING);
    HeldHit();
    assert HitsSettle([FormatItem(HELD)], [OPENING], MergeItem, {}) ==> Settles(MergeItem, it, OPENING);
  }

  lemma SettlesIs(it: Item, now: Item)
    ensures Settles(MergeItem, it, now)
            <==> ReadBack(it).Some? && Written(MergeItem(ReadBack(it).value, now)) == Written(it)
  {}

  lemma NoneSafe()
    ensures SafeFields([])
  {}

  lemma SmallId()
    ensures IsId("x")
  {}

  lemma OwnerThere()
    ensures Get([], "owner") == None && Get([OWNER], "owner").Some?
  {}

  lemma HeldHit()
    ensures Hit(FormatItem(HELD), [OPENING], {}) == Some((HELD, OPENING))
  {
    hide ParseItemLine, FormatItem, SafeFields;
    OwnerIsClean();
    assert SafeItem(HELD) by {
      SmallId();
      assert NoOpener("a") && NoOpener("a"[1..]);
    }
    ItemRoundTrip(HELD);
    HitIs(FormatItem(HELD), [OPENING], {});
    assert Lookup([OPENING][1..], "x") == None;
  }

  const ONE := Item("a", "x", None, [])

  const OTHER := Item("b", "x", None, [])

  lemma OneAfterOther(a: Item, b: Item)
    requires a.blockId == b.blockId
    ensures var items := [a, b];
            Lookup(items, a.blockId) == Some(b) && Missing(items, {}) == [FormatItem(a), FormatItem(b)]
            && Missing(items, {a.blockId}) == []
  {
    hide FormatItem;
    var items := [a, b];
    assert items[1..] == [b] && [b][1..] == [];
    assert Lookup([b], a.blockId) == Some(b);
    assert Missing([], {}) == [] && Missing([], {a.blockId}) == [];
    assert Missing([b], {}) == [FormatItem(b)] && Missing([b], {a.blockId}) == [];
    assert [FormatItem(a)] + [FormatItem(b)] == [FormatItem(a), FormatItem(b)];
  }

  lemma StepHit(l: string, rest: seq<string>, items: seq<Item>, was: Item, now: Item, done: set<string>)
    requires Hit(l, items, done) == Some((was, now))
    ensures Replace([l] + rest, items, MergeItem, done)
            == [FormatItem(MergeItem(was, now))] + Replace(rest, items, MergeItem, done + {was.blockId})
    ensures Replaced([l] + rest, items, done) == Replaced(rest, items, done + {was.blockId})
  {
    hide Hit, FormatItem, MergeItem;
    assert ([l] + rest)[1..] == rest;
  }

  lemma StepKept(l: string, items: seq<Item>, done: set<string>)
    requires Hit(l, items, done) == None
    ensures Replace([l], items, MergeItem, done) == [l] && Replaced([l], items, done) == done
  {
    hide Hit, FormatItem, MergeItem;
    assert [l][1..] == [];
  }

  lemma SecondPass(a: Item, b: Item, la: string, lb: string)
    requires a.blockId == b.blockId && MergeItem(a, b) == b && FormatItem(b) == lb
    requires ParseItemLine(la) == Some(a) && ParseItemLine(lb) == Some(b)
    ensures Replace([la, lb], [a, b], MergeItem, {}) == [lb, lb] && Replaced([la, lb], [a, b], {}) == {a.blockId}
  {
    hide ParseItemLine, FormatItem, MergeItem, Lookup, Replace, Replaced;
    var items, none: set<string> := [a, b], {};
    OneAfterOther(a, b);
    HitIs(la, items, none);
    HitIs(lb, items, none + {a.blockId});
    hide Hit;
    StepHit(la, [lb], items, a, b, none);
    StepKept(lb, items, none + {a.blockId});
    assert [la] + [lb] == [la, lb] && none + {a.blockId} == {a.blockId};
  }

  /** Two new items of one id are both added, and the next call writes the second
      one into the first line. */
  lemma TwoOfOne(a: Item, b: Item, la: string, lb: string)
    requires a.blockId == b.blockId && la != lb && ReadBack(a) == Some(a) && MergeItem(a, b) == b
    requires FormatItem(a) == Written(a) == la && FormatItem(b) == Written(b) == lb
    requires ParseItemLine(la) == Some(a) && ParseItemLine(lb) == Some(b)
    ensures OutLines([], [a, b], MergeItem) == [la, lb] && OutLines([la, lb], [a, b], MergeItem) == [lb, lb]
    ensures !AllSettle([], [a, b], MergeItem)
  {
    hide ParseItemLine, ReadBack, FormatItem, MergeItem, NeutraliseLine, Lookup, Missing;
    OneAfterOther(a, b);
    SecondPass(a, b, la, lb);
    assert Replace([], [a, b], MergeItem, {}) == [] && Replaced([], [a, b], {}) == {};
    hide Replace, Replaced, Hit;
    assert [] + [la, lb] == [la, lb] && [lb, lb] + [] == [lb, lb];
    assert !NewsSettle([a, b], [a, b], MergeItem, {});
  }

  lemma SecondWins()
    ensures OutLines([], [ONE, OTHER], MergeItem) == [FormatItem(ONE), FormatItem(OTHER)]
    ensures OutLines([FormatItem(ONE), FormatItem(OTHER)], [ONE, OTHER], MergeItem)
            == [FormatItem(OTHER), FormatItem(OTHER)]
    ensures !AllSettle([], [ONE, OTHER], MergeItem)
  {
    hide ParseItemLine, ReadBack, FormatItem, Replace, Missing, NeutraliseLine, AllSettle, OutLines;
    PlainLine(ONE);
    PlainLine(OTHER);
    assert FormatItem(ONE)[2] == 'a' && FormatItem(OTHER)[2] == 'b';
    TwoOfOne(ONE, OTHER, FormatItem(ONE), FormatItem(OTHER));
  }

  lemma PlainLine(it: Item)
    requires it.blockId == "x" && it.checked == None && it.fields == [] && (it.text == "a" || it.text == "b")
    ensures FormatItem(it) == "- " + it.text + " ^x" && Written(it) == FormatItem(it)
    ensures ParseItemLine(FormatItem(it)) == Some(it) && ReadBack(it) == Some(it)
  {
    hide ParseItemLine, NeutraliseLine, FormatItem, NeutralLine;
    assert Clean(it) by {
      SmallId();
      PlainLt(it.text);
      assert NoOpener(it.text) && NoOpener(it.text[1..]);
    }
    CleanReads(it);
    assert Readable(it);
    ReadableReads(it);
    PlainFormat(it);
  }

  lemma PlainFormat(it: Item)
    requires it.blockId == "x" && it.checked == None && it.fields == []
    ensures FormatItem(it) == "- " + it.text + " ^x"
  {
    assert "- " + it.text + "" + " ^" + "x" == "- " + it.text + " ^x";
  }
}
