/** Inbox items and their lines (shared/inbox/interface.py). */
module InboxLines {
  import opened Options
  import opened Text
  import opened PageFormat
  import opened Neutral
  import opened Fence
  import opened Editor
  import opened Squeezing
  import opened Items
  import opened ItemText
  import opened ItemEdits
  import opened Upserts
  import opened UpsertTwice
  import opened CleanItems
  import opened FieldReads

  /** An item still to do; `posted` is a time in ISO form. */
  datatype InboxItem = InboxItem(id: string, kind: string, text: string, trigger: bool, channel: Option<string>,
    slug: Option<string>, link: Option<string>, since: Option<string>, posted: Option<string>)

  /** What hashing a seed gives, and which texts read as ISO times. */
  datatype Env = Env(mint: string -> string, isIso: string -> bool)

  function Unbracket(s: string): (r: string)
    ensures |r| == |s| && forall i | 0 <= i < |s| :: r[i] == if s[i] == '[' then '(' else if s[i] == ']' then ')'
            else s[i]
  {
    if s == "" then "" else [if s[0] == '[' then '(' else if s[0] == ']' then ')' else s[0]] + Unbracket(s[1..])
  }

  /** `_plain`. */
  function Plain(text: string): string { Trim(Unbracket(Squeeze(text))) }

  /** A field for a value that is there and not empty. */
  function Opt(key: string, value: Option<string>): seq<Field> {
    if value.Some? && value.value != "" then [Field(key, value.value)] else []
  }

  function Linked(link: Option<string>): Option<string> {
    if link.Some? && link.value != "" then Some("[[" + link.value + "]]") else None
  }

  function LineFields(it: InboxItem, done: Option<string>): seq<Field> {
    [Field("kind", it.kind)]
    + (Opt("channel", it.channel)
    + (Opt("slug", it.slug)
    + (Opt("since", it.since)
    + (Opt("thread", Linked(it.link))
    + (Opt("trigger", if it.trigger then Some("now") else None)
    + (Opt("posted", it.posted)
    + Opt("done", done)))))))
  }

  function ToItem(it: InboxItem, done: Option<string>): Item {
    Item(Plain(it.text), it.id, Some(done.Some?), LineFields(it, done))
  }

  /** `_to_line`. */
  function ToLine(it: InboxItem, done: Option<string>): string { FormatItem(ToItem(it, done)) }

  predicate EdgeBracket(c: char) { c == '[' || c == ']' }

  function StripBrackets(s: string): string
    decreases |s|
  {
    if s == "" then ""
    else if EdgeBracket(s[0]) then StripBrackets(s[1..])
    else if EdgeBracket(s[|s| - 1]) then StripBrackets(s[..|s| - 1])
    else s
  }

  /** The line without its bullet and box: `^-\s+(?:\[[ xX]\]\s+)?`. */
  function Unbulleted(l: string): string {
    if |l| < 2 || l[0] != '-' || !IsSpace(l[1]) then l else
      var p := SpaceRun(l, 1);
      if CheckboxAt(l, p) then l[SpaceRun(l, p + 3)..] else l[p..]
  }

  function OrElse(v: Option<string>, default: string): string { match v case Some(x) => x case None => default }

  function FromItem(it: Item, env: Env): InboxItem {
    var f := it.fields;
    var thread := OrElse(Get(f, "thread"), "");
    var posted := OrElse(Get(f, "posted"), "");
    InboxItem(it.blockId, OrElse(Get(f, "kind"), "request"), it.text, Get(f, "trigger") == Some("now"),
      Get(f, "channel"), Get(f, "slug"), if thread == "" then None else Some(StripBrackets(thread)),
      Get(f, "since"), if posted != "" && env.isIso(posted) then Some(posted) else None)
  }

  /** `_from_line`: a line with a bullet is an item, typed by a person if it has
      no id. */
  function FromLine(line: string, env: Env): Option<InboxItem> {
    var l := Trim(line);
    if !("- " <= l) then None else
      match ParseItemLine(l)
      case Some(it) => Some(FromItem(it, env))
      case None =>
        var text := Unbulleted(l);
        if text == "" then None
        else Some(InboxItem(env.mint(text), "request", text, false, None, None, None, None, None))
  }

  // ---------------------------------------------------------------------
  // The round trip
  // ---------------------------------------------------------------------

  predicate CleanValue(v: string) { Trimmed(v) && WikiText(v) && NoNewline(v) && MarkerFree(v) }

  predicate CleanOption(v: Option<string>) { v.Some? ==> CleanValue(v.value) }

  predicate CleanLink(v: Option<string>) {
    v.Some? ==> BracketFree(v.value) && NoNewline(v.value) && MarkerFree(v.value)
  }

  /** Any text at all, and ids, names and links of plain text. */
  predicate Writable(it: InboxItem, env: Env) {
    && IsId(it.id) && CleanValue(it.kind) && CleanOption(it.channel) && CleanOption(it.slug) && CleanOption(it.since)
    && CleanLink(it.link) && CleanOption(it.posted)
    && (it.posted.Some? ==> it.posted.value != "" && env.isIso(it.posted.value))
  }

  lemma OptGet(key: string, v: Option<string>, rest: seq<Field>, k: string)
    ensures Get(Opt(key, v) + rest, k) == if k == key && Opt(key, v) != [] then v else Get(rest, k)
    ensures Opt(key, v) != [] <==> v.Some? && v.value != ""
  {
    if Opt(key, v) != [] {
      assert (Opt(key, v) + rest)[1..] == rest;
    } else {
      assert Opt(key, v) + rest == rest;
    }
  }

  lemma OptClean(key: string, v: Option<string>, rest: seq<Field>)
    requires OwnerName(key) && CleanOption(v) && CleanFields(rest) && Get(rest, key).None?
    ensures CleanFields(Opt(key, v) + rest)
  {
    hide WikiText, MarkerFree, Trimmed, NoNewline, OwnerName;
    if Opt(key, v) != [] {
      assert (Opt(key, v) + rest)[1..] == rest;
    } else {
      assert Opt(key, v) + rest == rest;
    }
  }

  lemma PlainWords()
    ensures OwnerName("kind") && OwnerName("channel") && OwnerName("slug") && OwnerName("since")
    ensures OwnerName("thread") && OwnerName("trigger") && OwnerName("posted") && OwnerName("done")
    ensures CleanOption(Some("now"))
  {
    var w := "now";
    assert w[1..] == "ow" && w[1..][1..] == "w" && w[1..][1..][1..] == "";
    assert WikiText(w[1..][1..]) && WikiText(w[1..]);
    FreePlain(w, "");
    assert w + "" == w;
  }

  lemma LinkClean(link: Option<string>)
    requires CleanLink(link)
    ensures CleanOption(Linked(link))
  {
    hide WikiText, MarkerFree, NoNewline, BracketFree, Trimmed;
    if Linked(link).Some? {
      var x := link.value;
      LinkIsWiki(x);
      NoNewlineJoin(x);
      LinkFree(x);
      LinkTrimmed(x);
    }
  }

  lemma LinkFree(x: string)
    requires MarkerFree(x)
    ensures MarkerFree("[[" + x + "]]")
  {
    hide MarkerFree;
    assert NoLt("[[") && NoLt("]]");
    PlainLt("]]");
    FreeJoin(x, "]]");
    FreePlain("[[", x + "]]");
    assert "[[" + (x + "]]") == "[[" + x + "]]";
  }

  lemma LinkTrimmed(x: string)
    ensures Trimmed("[[" + x + "]]")
  {
    var v := "[[" + x + "]]";
    assert v[0] == '[' && v[|v| - 1] == ']';
  }

  lemma NoNewlineJoin(x: string)
    requires NoNewline(x)
    ensures NoNewline("[[" + x + "]]")
  {}

  lemma FieldsClean(it: InboxItem, env: Env)
    requires Writable(it, env)
    ensures CleanFields(LineFields(it, None))
  {
    hide CleanValue, WikiText, MarkerFree, Trimmed, NoNewline, OwnerName, Get, CleanFields, Linked, Opt, IsId, Plain;
    PlainWords();
    LinkClean(it.link);
    NoneClean();
    var r7 := Opt("posted", it.posted) + Opt("done", None);
    var r6 := Opt("trigger", if it.trigger then Some("now") else None) + r7;
    var r5 := Opt("thread", Linked(it.link)) + r6;
    var r4 := Opt("since", it.since) + r5;
    var r3 := Opt("slug", it.slug) + r4;
    var r2 := Opt("channel", it.channel) + r3;
    Tail7(it, "posted");
    OptClean("posted", it.posted, Opt("done", None));
    Tail7(it, "trigger");
    OptClean("trigger", if it.trigger then Some("now") else None, r7);
    Tail7(it, "thread");
    OptClean("thread", Linked(it.link), r6);
    Tail7(it, "since");
    OptClean("since", it.since, r5);
    Tail7(it, "slug");
    OptClean("slug", it.slug, r4);
    Tail7(it, "channel");
    OptClean("channel", it.channel, r3);
    Tail7(it, "kind");
    KindClean(it.kind, r2);
  }

  lemma NoneClean()
    ensures CleanFields(Opt("done", None)) && CleanOption(None)
  {}

  lemma KindClean(kind: string, rest: seq<Field>)
    requires OwnerName("kind") && CleanValue(kind) && CleanFields(rest) && Get(rest, "kind").None?
    ensures CleanFields([Field("kind", kind)] + rest)
  {
    hide WikiText, MarkerFree, Trimmed, NoNewline, OwnerName;
    assert ([Field("kind", kind)] + rest)[1..] == rest;
  }

  /** Where a key is found in the tails of the field list. */
  lemma Tail7(it: InboxItem, k: string)
    ensures var r7 := Opt("posted", it.posted) + Opt("done", None);
            var r6 := Opt("trigger", if it.trigger then Some("now") else None) + r7;
            var r5 := Opt("thread", Linked(it.link)) + r6;
            var r4 := Opt("since", it.since) + r5;
            var r3 := Opt("slug", it.slug) + r4;
            var r2 := Opt("channel", it.channel) + r3;
            && (k != "posted" ==> Get(r7, k).None?)
            && (k != "trigger" ==> Get(r6, k) == Get(r7, k)) && (k != "thread" ==> Get(r5, k) == Get(r6, k))
            && (k != "since" ==> Get(r4, k) == Get(r5, k)) && (k != "slug" ==> Get(r3, k) == Get(r4, k))
            && (k != "channel" ==> Get(r2, k) == Get(r3, k))
            && Get(Opt("done", None), k).None?
  {
    hide Get, Opt, Linked;
    var r8 := Opt("done", None);
    NoneIsEmpty(k);
    OptGet("posted", it.posted, r8, k);
    var r7 := Opt("posted", it.posted) + r8;
    OptGet("trigger", if it.trigger then Some("now") else None, r7, k);
    var r6 := Opt("trigger", if it.trigger then Some("now") else None) + r7;
    OptGet("thread", Linked(it.link), r6, k);
    var r5 := Opt("thread", Linked(it.link)) + r6;
    OptGet("since", it.since, r5, k);
    var r4 := Opt("since", it.since) + r5;
    OptGet("slug", it.slug, r4, k);
    var r3 := Opt("slug", it.slug) + r4;
    OptGet("channel", it.channel, r3, k);
  }

  lemma NoneIsEmpty(k: string)
    ensures Opt("done", None) == [] && Get(Opt("done", None), k).None?
  {}

  /** What reading the fields gives. */
  lemma FieldsRead(it: InboxItem)
    ensures var f := LineFields(it, None);
            && Get(f, "kind") == Some(it.kind)
            && Get(f, "channel") == (if Opt("channel", it.channel) != [] then it.channel else None)
            && Get(f, "slug") == (if Opt("slug", it.slug) != [] then it.slug else None)
            && Get(f, "since") == (if Opt("since", it.since) != [] then it.since else None)
            && Get(f, "thread") == Linked(it.link)
            && Get(f, "trigger") == (if it.trigger then Some("now") else None)
            && Get(f, "posted") == (if Opt("posted", it.posted) != [] then it.posted else None)
  {
    hide Get, Opt, Linked;
    KindFirst(it, "kind");
    OneKey(it, "channel");
    OneKey(it, "slug");
    OneKey(it, "since");
    OneKey(it, "thread");
    OneKey(it, "trigger");
    OneKey(it, "posted");
    LinkedOpt(it.link);
    TriggerOpt(it.trigger);
  }

  lemma LinkedOpt(link: Option<string>)
    ensures Opt("thread", Linked(link)) == [] <==> Linked(link).None?
  {}

  lemma TriggerOpt(trigger: bool)
    ensures Opt("trigger", if trigger then Some("now") else None) == [] <==> !trigger
  {}

  lemma KindFirst(it: InboxItem, k: string)
    ensures var r2 := Opt("channel", it.channel) + (Opt("slug", it.slug) + (Opt("since", it.since)
              + (Opt("thread", Linked(it.link)) + (Opt("trigger", if it.trigger then Some("now") else None)
              + (Opt("posted", it.posted) + Opt("done", None))))));
            Get(LineFields(it, None), k) == if k == "kind" then Some(it.kind) else Get(r2, k)
  {
    hide Opt, Linked;
    var r2 := Opt("channel", it.channel) + (Opt("slug", it.slug) + (Opt("since", it.since)
              + (Opt("thread", Linked(it.link)) + (Opt("trigger", if it.trigger then Some("now") else None)
              + (Opt("posted", it.posted) + Opt("done", None))))));
    assert ([Field("kind", it.kind)] + r2)[1..] == r2;
  }

  /** The value a key was given. */
  function Given(it: InboxItem, k: string): Option<string> {
    if k == "channel" then it.channel
    else if k == "slug" then it.slug
    else if k == "since" then it.since
    else if k == "thread" then Linked(it.link)
    else if k == "trigger" then (if it.trigger then Some("now") else None)
    else if k == "posted" then it.posted
    else None
  }

  lemma OneKey(it: InboxItem, k: string)
    requires k in {"channel", "slug", "since", "thread", "trigger", "posted", "done"}
    ensures Get(LineFields(it, None), k) == if Opt(k, Given(it, k)) != [] then Given(it, k) else None
  {
    hide Get, Opt, Linked;
    KindFirst(it, k);
    var r8 := Opt("done", None);
    NoneIsEmpty(k);
    OptGet("posted", it.posted, r8, k);
    var r7 := Opt("posted", it.posted) + r8;
    OptGet("trigger", if it.trigger then Some("now") else None, r7, k);
    var r6 := Opt("trigger", if it.trigger then Some("now") else None) + r7;
    OptGet("thread", Linked(it.link), r6, k);
    var r5 := Opt("thread", Linked(it.link)) + r6;
    OptGet("since", it.since, r5, k);
    var r4 := Opt("since", it.since) + r5;
    OptGet("slug", it.slug, r4, k);
    var r3 := Opt("slug", it.slug) + r4;
    OptGet("channel", it.channel, r3, k);
  }

  lemma PlainIs(text: string)
    ensures var t := Plain(text); Trimmed(t) && NoNewline(t) && BracketFree(t)
  {
    SqueezeNoNewline(text);
    hide Squeeze;
  }

  lemma {:induction false} NoBracketsNoOpener(t: string)
    requires BracketFree(t)
    ensures NoOpener(t)
  {
    if t != "" { NoBracketsNoOpener(t[1..]); }
  }

  /** The item its line shows: neutral text, and the fields as they are. */
  function ShownItem(it: InboxItem): Item { ToItem(it, None).(text := Defang(Plain(it.text))) }

  lemma {:induction false} DefangOneLine(s: string)
    requires NoNewline(s) && Trimmed(s) && BracketFree(s)
    ensures var d := Defang(s); NoNewline(d) && Trimmed(d) && BracketFree(d) && MarkerFree(d)
  {
    DefangNoNewline(s);
    DefangTrimmed(s);
    DefangFree(s);
    DefangMarkerFree(s);
  }

  lemma ShownClean(it: InboxItem, env: Env)
    requires Writable(it, env)
    ensures Clean(ShownItem(it)) && NeutraliseLine(ToLine(it, None)) == FormatItem(ShownItem(it))
  {
    hide Plain, LineFields, CleanFields, MarkerFree, NoOpener, Trimmed, NoNewline, CheckboxAt, IsId, CleanValue,
         FormatItem, NeutraliseLine, BracketFree, Defang, DefangFields, WordKeys;
    FieldsClean(it, env);
    PlainIs(it.text);
    DefangOneLine(Plain(it.text));
    NoBracketsNoOpener(Defang(Plain(it.text)));
    CleanIsSafe(LineFields(it, None));
    SafeKeys(LineFields(it, None));
    DefangClean(LineFields(it, None));
    WrittenIs(ToItem(it, None));
  }

  lemma {:induction false} StripPlain(s: string)
    requires BracketFree(s)
    ensures StripBrackets(s) == s
  {}

  lemma StripLinked(x: string)
    requires x != "" && BracketFree(x)
    ensures StripBrackets("[[" + x + "]]") == x
  {
    var v := "[[" + x + "]]";
    var v1, v2, v3 := v[1..], x + "]]", x + "]";
    assert v1 == "[" + x + "]]" && v1[1..] == v2 && v2[..|v2| - 1] == v3 && v3[..|v3| - 1] == x;
    assert !EdgeBracket(x[0]) && v2[0] == x[0] && v3[0] == x[0];
    StripPlain(x);
    assert StripBrackets(v3) == x;
    assert StripBrackets(v2) == x;
    assert StripBrackets(v1) == x;
  }

  function NonEmpty(v: Option<string>): Option<string> { if v == Some("") then None else v }

  /** The item as the page shows it: its text plain and neutral, and no value that
      is empty. */
  function Normal(it: InboxItem): InboxItem {
    it.(text := Defang(Plain(it.text)), channel := NonEmpty(it.channel), slug := NonEmpty(it.slug),
        link := NonEmpty(it.link),
      since := NonEmpty(it.since))
  }

  lemma FromShown(it: InboxItem, env: Env)
    requires Writable(it, env)
    ensures FromItem(ShownItem(it), env) == Normal(it)
  {
    hide Plain, LineFields, MarkerFree, Trimmed, NoNewline, IsId, CleanValue, Get, StripBrackets, Defang;
    FieldsRead(it);
    if it.link.Some? && it.link.value != "" { StripLinked(it.link.value); }
  }

  lemma LineShape(item: Item)
    requires IsId(item.blockId) && item.checked.Some?
    ensures var l := FormatItem(item);
            |l| >= 2 && l[0] == '-' && l[1] == ' ' && "- " <= l && Trim(l) == l && IdOf(l) == Some(item.blockId)
  {
    hide FormatFields, IdOf, Front, FormatItem;
    FormatParts(item);
    IdOfLine(Front(item), item.blockId);
    var l := FormatItem(item);
    FrontStarts(item);
    assert l[|l| - 1] == item.blockId[|item.blockId| - 1];
    IdIsNoSpace(l[|l| - 1]);
    TrimTrimmed(l);
  }

  lemma FrontStarts(item: Item)
    requires item.checked.Some?
    ensures |Front(item)| >= 2 && Front(item)[0] == '-' && Front(item)[1] == ' '
  {
    var rest := item.text + FormatFields(item.fields) + " ";
    assert Front(item) == Bullet(item.checked) + rest;
  }

  /** A written line reads back as its item: the text on one line, without
      brackets and neutral, and every value but the empty ones exactly. */
  lemma LineRoundTrip(it: InboxItem, env: Env)
    requires Writable(it, env)
    ensures var l := NeutraliseLine(ToLine(it, None));
            FromLine(l, env) == Some(Normal(it)) && NeutralLine(l) && l != "" && NoNewline(ToLine(it, None))
                && ToLine(it, None) != ""
  {
    hide Clean, ToItem, FromItem, ParseItemLine, FormatItem, Trim, IdOf, NeutralLine, ReadBack, NeutraliseLine,
         Plain, Normal, NoNewline;
    ShownClean(it, env);
    ShownIs(it);
    CleanReads(ShownItem(it));
    CleanLine(ShownItem(it));
    FromShown(it, env);
    LineShape(ShownItem(it));
    ReadsShown(ShownItem(it));
    OneLineWritten(it, env);
  }

  lemma ShownIs(it: InboxItem)
    ensures ShownItem(it).checked.Some? && ShownItem(it).blockId == it.id
  {}

  lemma ReadsShown(it: Item)
    requires ReadBack(it) == Some(it) && NeutraliseLine(FormatItem(it)) == FormatItem(it)
    ensures ParseItemLine(FormatItem(it)) == Some(it)
  {}

  lemma OneLineWritten(it: InboxItem, env: Env)
    requires Writable(it, env) && NeutralLine(NeutraliseLine(ToLine(it, None)))
    ensures NoNewline(ToLine(it, None)) && ToLine(it, None) != ""
  {
    hide Plain, LineFields, MarkerFree, IsHeading, Defang, EscapeHeading, IsId;
    var l := ToLine(it, None);
    NewlineStays(EscapeHeading(l));
    EscapeNewline(l);
    FormatParts(ToItem(it, None));
  }
}
