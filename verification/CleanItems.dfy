/** Items that survive being written: neutralising leaves their line alone and
    parsing gives them back whole. */
module CleanItems {
  import opened Options
  import opened Text
  import opened PageFormat
  import opened Neutral
  import opened Schema
  import opened Fence
  import opened Editor
  import opened Squeezing
  import opened Sections
  import opened Items
  import opened ItemText
  import opened ItemEdits

  predicate NoLt(s: string) { forall i | 0 <= i < |s| :: s[i] != '<' }

  /** A character no marker holds. */
  predicate Stops(c: char) { c == '[' || c == ']' || c == '^' || c == ':' }

  lemma {:induction false} WatcherStops(a: string, b: string)
    requires b != "" && Stops(b[0]) && WatcherFirst(a + b)
    ensures WatcherFirst(a)
  {
    var t := a + b;
    assert t[|a|] == b[0];
    if "watcher" <= t {
      WordInside(a, t, "watcher");
    } else if "/watcher" <= t {
      WordInside(a, t, "/watcher");
    } else {
      assert a != "" && t[1..] == a[1..] + b;
      WatcherStops(a[1..], b);
    }
  }

  lemma WordInside(a: string, t: string, w: string)
    requires a <= t && w <= t && |a| < |t| && t[|a|] !in w
    ensures w <= a
  {}

  lemma MarkerStops(a: string, b: string)
    requires a != "" && b != "" && Stops(b[0]) && MarkerFirst(a + b)
    ensures MarkerFirst(a)
  {
    var t := a + b;
    assert t[|a|] == b[0];
    WordInside(a, t, "<!--");
    assert t[4..] == a[4..] + b;
    WatcherStops(a[4..], b);
  }

  /** Marker-free texts join to one when no marker can reach into the second. */
  lemma {:induction false} FreeJoin(a: string, b: string)
    requires MarkerFree(a) && MarkerFree(b) && b != "" && Stops(b[0])
    ensures MarkerFree(a + b)
  {
    hide MarkerFirst;
    if a == "" {
      assert a + b == b;
    } else {
      assert (a + b)[1..] == a[1..] + b;
      FreeJoin(a[1..], b);
      if MarkerFirst(a + b) { MarkerStops(a, b); }
    }
  }

  lemma {:induction false} WatcherBlank(a: string)
    requires WatcherFirst(a + " ")
    ensures WatcherFirst(a)
  {
    var t := a + " ";
    assert t[|a|] == ' ';
    if "watcher" <= t {
      WordInside(a, t, "watcher");
    } else if "/watcher" <= t {
      WordInside(a, t, "/watcher");
    } else if a != "" {
      assert t[1..] == a[1..] + " ";
      WatcherBlank(a[1..]);
    }
  }

  lemma MarkerBlank(a: string)
    requires a != "" && MarkerFirst(a + " ")
    ensures MarkerFirst(a)
  {
    var t := a + " ";
    assert t[|a|] == ' ';
    WordInside(a, t, "<!--");
    assert t[4..] == a[4..] + " ";
    WatcherBlank(a[4..]);
  }

  lemma {:induction false} FreeBlank(a: string)
    requires MarkerFree(a)
    ensures MarkerFree(a + " ")
  {
    hide MarkerFirst;
    if a == "" {
      NotMarker(" ");
      assert a + " " == " " && " "[1..] == "" && MarkerFree("");
    } else {
      assert (a + " ")[1..] == a[1..] + " ";
      FreeBlank(a[1..]);
      if MarkerFirst(a + " ") { MarkerBlank(a); }
    }
  }

  lemma {:induction false} FreePlain(a: string, b: string)
    requires NoLt(a) && MarkerFree(b)
    ensures MarkerFree(a + b)
  {
    hide MarkerFirst;
    if a == "" {
      assert a + b == b;
    } else {
      assert (a + b)[1..] == a[1..] + b;
      FreePlain(a[1..], b);
      NotMarker(a + b);
    }
  }

  // ---------------------------------------------------------------------
  // Clean items
  // ---------------------------------------------------------------------

  predicate CleanField(f: Field) { SafeField(f) && MarkerFree(f.value) }

  predicate CleanFields(fs: seq<Field>) {
    fs != [] ==> CleanField(fs[0]) && Get(fs[1..], fs[0].key).None? && CleanFields(fs[1..])
  }

  /** One line, trimmed, nothing in the text that reads as a field, a checkbox
      or a fence marker, and values of text and wikilinks. */
  predicate Clean(it: Item) {
    && IsId(it.blockId) && CleanFields(it.fields)
    && Trimmed(it.text) && NoOpener(it.text) && NoNewline(it.text) && MarkerFree(it.text)
    && (it.checked.None? ==> !CheckboxAt(it.text + " ", 0))
  }

  lemma {:induction false} CleanIsSafe(fs: seq<Field>)
    requires CleanFields(fs)
    ensures SafeFields(fs)
  {
    hide SafeField, MarkerFree;
    if fs != [] { CleanIsSafe(fs[1..]); }
  }

  /** The line from its first field, or its id, on. */
  function Tail(fs: seq<Field>, id: string): string {
    if fs == [] then "^" + id else "[" + fs[0].key + ":: " + fs[0].value + "] " + Tail(fs[1..], id)
  }

  lemma {:induction false} FormatTail(fs: seq<Field>, id: string)
    ensures FormatFields(fs) + " ^" + id == " " + Tail(fs, id)
  {
    if fs == [] {
      assert "" + " ^" + id == " " + ("^" + id);
    } else {
      FormatTail(fs[1..], id);
      Regrouped(fs[0].key, fs[0].value, FormatFields(fs[1..]), " ^" + id, Tail(fs[1..], id));
    }
  }

  lemma Regrouped(key: string, value: string, rest: string, end: string, tail: string)
    requires rest + end == " " + tail
    ensures " [" + key + ":: " + value + "]" + rest + end == " " + ("[" + key + ":: " + value + "] " + tail)
  {
    var head := " [" + key + ":: " + value + "]";
    assert head + rest + end == head + (rest + end);
    assert head + (" " + tail) == " " + ("[" + key + ":: " + value + "] " + tail);
  }

  predicate IsLineText(s: string) { NoNewline(s) && MarkerFree(s) }

  lemma PlainName(w: string)
    requires OwnerName(w)
    ensures NoLt("[" + w + ":: ") && NoNewline("[" + w + ":: ")
  {
    assert forall i | 0 <= i < |w| :: IsWord(w[i]) && w[i] != '<' && w[i] != NL;
  }

  lemma PlainId(id: string)
    requires IsId(id)
    ensures NoLt("^" + id) && NoNewline("^" + id)
  {
    assert forall i | 0 <= i < |id| :: IsIdChar(id[i]) && id[i] != '<' && id[i] != NL;
  }

  lemma {:induction false} TailFree(fs: seq<Field>, id: string)
    requires CleanFields(fs) && IsId(id)
    ensures IsLineText(Tail(fs, id)) && Tail(fs, id) != "" && Stops(Tail(fs, id)[0])
  {
    hide MarkerFree, IsId, NoLt, WikiText, Trimmed, OwnerName;
    if fs == [] {
      PlainId(id);
      NothingFree();
      FreePlain("^" + id, "");
      assert "^" + id + "" == "^" + id;
    } else {
      var rest := Tail(fs[1..], id);
      TailFree(fs[1..], id);
      BlankLt();
      FreePlain("] ", rest);
      FreeJoin(fs[0].value, "] " + rest);
      PlainName(fs[0].key);
      FreePlain("[" + fs[0].key + ":: ", fs[0].value + ("] " + rest));
      assert Tail(fs, id) == "[" + fs[0].key + ":: " + (fs[0].value + ("] " + rest));
    }
  }

  lemma NothingFree()
    ensures MarkerFree("") && NoNewline("")
  {}

  lemma BlankLt()
    ensures NoLt("] ") && NoLt("- ") && NoLt("- [x] ") && NoLt("- [ ] ")
  {}

  lemma CleanLine(it: Item)
    requires Clean(it)
    ensures NeutralLine(FormatItem(it))
  {
    hide MarkerFree, IsId, NoLt, Trimmed, NoOpener, CheckboxAt, CleanFields, FormatFields, Tail, MarkerFirst;
    var tail := Tail(it.fields, it.blockId);
    TailFree(it.fields, it.blockId);
    FormatTail(it.fields, it.blockId);
    FreeBlank(it.text);
    FreeJoin(it.text + " ", tail);
    BlankLt();
    FreePlain(Bullet(it.checked), it.text + " " + tail);
    assert FormatItem(it) == Bullet(it.checked) + it.text + (FormatFields(it.fields) + " ^" + it.blockId);
    assert FormatItem(it) == Bullet(it.checked) + (it.text + " " + tail);
    BulletIsNoHeading(FormatItem(it));
  }

  /** Clean items are written as they are and read back whole. */
  lemma CleanReads(it: Item)
    requires Clean(it)
    ensures Readable(it) && ReadBack(it) == Some(it) && OneLineItem(it) && TextReads(it)
    ensures NeutraliseLine(FormatItem(it)) == FormatItem(it)
  {
    hide FormatItem, NeutraliseLine, ReadBack, TextReads, OneLineItem, NeutralLine, CleanFields, SafeFields,
         NoOpener, MarkerFree;
    CleanIsSafe(it.fields);
    CleanLine(it);
    ReadableReads(it);
  }

  // ---------------------------------------------------------------------
  // Text that does not read back
  // ---------------------------------------------------------------------

  /** The item whose text spells out the fields of `it`. */
  function Spelled(it: Item): Item { Item(it.text + FormatFields(it.fields), it.blockId, it.checked, []) }

  /** Two new items of one text that spells fields: the first call writes one of
      them, and the second call, not finding the text, writes the other. */
  lemma SwallowedTwiceChanges(p: Page, title: string, it: Item, id: string)
    requires Clean(it) && it.fields != [] && id != it.blockId && Norm(Spelled(it).text) != Norm(it.text)
    requires Require(p, title, {Append}).Ok? && OwnLines(AppendBody(p, title)) && Present(p, title) == []
    ensures var one, other := Spelled(it), Spelled(it).(blockId := id);
            var r := AppendItems(p, title, [one, other]);
            r.Ok? && Fresh(p, title, [one, other]) == [one] && Fresh(r.value, title, [one, other]) == [other]
  {
    hide OwnLines, Norm, Canonical, Rewrite, SectionOf, FormatItem, ParseItems, OwnerOf, AppendLines, Clean, Spelled,
         ReadAll, OneLineItem, Addition, FormatAll, NewItems;
    var one, other := Spelled(it), Spelled(it).(blockId := id);
    SpelledReads(it);
    SpelledHas(it);
    OneOfTwo(one, other);
    assert IdSet([]) == {} && TextSet([]) == {};
    AppendedItems(p, title, [one]);
    var q := AppendItems(p, title, [one, other]).value;
    assert IdSet(Present(q, title)) == {it.blockId} && TextSet(Present(q, title)) == {Norm(it.text)};
    OtherOfTwo(one, other, IdSet(Present(q, title)), TextSet(Present(q, title)));
  }

  lemma SpelledHas(it: Item)
    ensures Spelled(it).blockId == it.blockId
  {}

  lemma OneOfTwo(one: Item, other: Item)
    requires one.text == other.text
    ensures NewItems([one, other], {}, {}) == [one]
  {
    hide Norm;
    var ids, texts := {one.blockId}, {Norm(one.text)};
    assert [one, other][1..] == [other] && [other][1..] == [];
    assert {} + {one.blockId} == ids && {} + {Norm(one.text)} == texts;
    assert NewItems([other], ids, texts) == [];
  }

  lemma OtherOfTwo(one: Item, other: Item, ids: set<string>, texts: set<string>)
    requires one.blockId in ids && other.blockId !in ids && Norm(other.text) !in texts
    ensures NewItems([one, other], ids, texts) == [other]
  {
    hide Norm;
    assert [one, other][1..] == [other] && [other][1..] == [];
    assert NewItems([other], ids, texts) == [other]
           + NewItems([other][1..], ids + {other.blockId}, texts + {Norm(other.text)});
  }

  lemma SpelledReads(it: Item)
    requires Clean(it) && it.fields != []
    ensures ReadAll([Spelled(it)]) == [it] && OneLineItems([Spelled(it)])
  {
    hide Clean, Readable, FormatItem, ParseItemLine, NeutraliseLine, IsId, FormatFields;
    var one := Spelled(it);
    CleanReads(it);
    FieldsSwallowed(it);
    SpelledLine(it);
    ReadCons([one]);
    ReadNone();
    assert [one][1..] == [];
  }

  lemma SpelledLine(it: Item)
    ensures FormatItem(Spelled(it)) == FormatItem(it)
  {
    var b, f, id := Bullet(it.checked), FormatFields(it.fields), " ^" + it.blockId;
    assert FormatFields([]) == "";
    assert b + (it.text + f) + "" + " ^" + it.blockId == b + it.text + f + " ^" + it.blockId;
  }

  /** Such an item. */
  lemma SwallowedHappens()
    ensures var it := Item("a", "x", None, [Field("k", "v")]);
            Clean(it) && Spelled(it).text == "a [k:: v]" && Norm(Spelled(it).text) != Norm(it.text)
  {
    hide FormatFields, Norm, CleanField, NoOpener, MarkerFree, CheckboxAt, IsId;
    var it := Item("a", "x", None, [Field("k", "v")]);
    assert it.fields[1..] == [];
    SmallFields();
    SpelledNorm();
    SmallField(it.fields[0]);
    SmallText();
  }

  lemma SmallFields()
    ensures FormatFields([Field("k", "v")]) == " [k:: v]" && "a" + " [k:: v]" == "a [k:: v]"
  {
    var fs := [Field("k", "v")];
    assert fs[1..] == [] && FormatFields([]) == "";
  }

  lemma SmallField(f: Field)
    requires f == Field("k", "v")
    ensures CleanField(f)
  {
    FreePlain("v", "");
    NothingFree();
    assert "v" + "" == "v" && WikiText("v"[1..]);
  }

  lemma SmallText()
    ensures NoOpener("a") && MarkerFree("a") && !CheckboxAt("a" + " ", 0) && IsId("x")
  {
    NothingFree();
    FreePlain("a", "");
    assert "a" + "" == "a" && NoOpener("a"[1..]);
  }

  lemma SpelledNorm()
    ensures |Norm("a [k:: v]")| > |Norm("a")|
  {
    hide OneLine;
    OneLineKept("a [k:: v]");
    OneLineKept("a");
  }
}
