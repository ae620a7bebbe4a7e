/** Section owners per page type (shared/wiki/schema.py). */
module Schema {
  import opened Options
  import opened Text
  import opened PageFormat

  datatype Owner = Human | Shared | Managed | Append | Derived

  function OwnerText(o: Owner): string {
    match o
    case Human => "human"
    case Shared => "shared"
    case Managed => "managed"
    case Append => "append"
    case Derived => "derived"
  }

  datatype Entry = Entry(title: string, owner: Owner)

  /** `SECTION_OWNERS`: the sections of a page type in schema order. */
  function SectionOwners(pageType: string): seq<Entry> {
    if pageType == "member" then
      [Entry("About", Human), Entry("Projects", Derived), Entry("Past projects", Derived),
       Entry("Open tasks", Derived), Entry("Notes", Shared)]
    else if pageType == "project" then
      [Entry("Brief", Human), Entry("Status", Managed), Entry("Open tasks", Managed), Entry("Decisions", Append),
       Entry("Log", Append), Entry("Resources", Append), Entry("Threads", Derived), Entry("Notes", Shared)]
    else if pageType == "event" then
      [Entry("Brief", Human), Entry("Status", Managed), Entry("Logistics", Managed), Entry("Decisions", Append),
       Entry("Log", Append), Entry("Resources", Append), Entry("Threads", Derived), Entry("Outcome", Human),
       Entry("Notes", Shared)]
    else if pageType == "channel" then
      [Entry("Active threads", Derived), Entry("Stale threads", Derived), Entry("Archived threads", Derived),
       Entry("Notes", Shared)]
    else if pageType == "thread" then
      [Entry("Summary", Managed), Entry("Items", Managed), Entry("Timeline", Append), Entry("Notes", Shared)]
    else if pageType == "resource" then
      [Entry("Summary", Managed), Entry("Notes", Human)]
    else if pageType == "idea" then
      [Entry("Statement", Managed), Entry("Why now", Managed), Entry("Evidence", Managed),
       Entry("Existing leverage", Managed), Entry("Skill match", Managed), Entry("Risks", Managed),
       Entry("Notes", Shared)]
    else if pageType == "inbox" then
      [Entry("Pending", Managed), Entry("Done", Managed), Entry("Notes", Shared)]
    else []
  }

  /** `SECTION_ALIASES`. */
  function AliasTarget(lower: string): string {
    if lower == "tasks" || lower == "to do" || lower == "todo" then "Open tasks" else ""
  }

  /** Position of the first entry whose title equals `title` but for case. */
  function FindTitle(es: seq<Entry>, title: string): (i: nat)
    ensures i <= |es|
    ensures i < |es| ==> Lower(es[i].title) == Lower(title)
  {
    if es == [] || Lower(es[0].title) == Lower(title) then 0 else 1 + FindTitle(es[1..], title)
  }

  /** `order.index(canonical)`: position of the entry with exactly this title. */
  function IndexOf(es: seq<Entry>, title: string): (i: nat)
    ensures i <= |es|
    ensures i < |es| ==> es[i].title == title
  {
    if es == [] || es[0].title == title then 0 else 1 + IndexOf(es[1..], title)
  }

  /** `canonical_section_title`. */
  function Canonical(pageType: string, title: string): string {
    var es := SectionOwners(pageType);
    var i := FindTitle(es, title);
    var target := AliasTarget(Lower(title));
    if i < |es| then es[i].title
    else if target != "" && IndexOf(es, target) < |es| then target
    else title
  }

  /** A canonical title's place in schema order; the table's length if none. */
  function Rank(pageType: string, title: string): nat {
    IndexOf(SectionOwners(pageType), Canonical(pageType, title))
  }

  /** `owner_of`. */
  function OwnerOf(pageType: string, title: string): Option<Owner> {
    var es := SectionOwners(pageType);
    var i := Rank(pageType, title);
    if i < |es| then Some(es[i].owner) else None
  }

  // ---------------------------------------------------------------------
  // The tables
  // ---------------------------------------------------------------------

  /** A title a header line carries unchanged. */
  predicate PlainTitle(t: string) {
    t != "" && NoNewline(t) && !IsBlank(t[0]) && !IsBlank(t[|t| - 1]) && t[|t| - 1] != '\r'
  }

  predicate GoodTable(es: seq<Entry>) {
    && (forall i | 0 <= i < |es| :: PlainTitle(es[i].title))
    && (forall i, j | 0 <= i < j < |es| :: Lower(es[i].title) != Lower(es[j].title))
  }

  /** Within a table, length and first letter already tell titles apart. */
  predicate SameKey(a: string, b: string) {
    a != "" && b != "" && |a| == |b| && LowerChar(a[0]) == LowerChar(b[0])
  }

  lemma LowerKey(a: string, b: string)
    requires a != "" && Lower(a) == Lower(b)
    ensures SameKey(a, b)
  {
    assert |Lower(a)| == |a| && |Lower(b)| == |b|;
    assert Lower(a)[0] == LowerChar(a[0]) && Lower(b)[0] == LowerChar(b[0]);
  }

  lemma PlainTitles0()
    ensures PlainTitle("About")
    ensures PlainTitle("Projects")
    ensures PlainTitle("Past projects")
    ensures PlainTitle("Open tasks")
    ensures PlainTitle("Notes")
    ensures PlainTitle("Brief")
    ensures PlainTitle("Status")
  {}

  lemma PlainTitles1()
    ensures PlainTitle("Decisions")
    ensures PlainTitle("Log")
    ensures PlainTitle("Resources")
    ensures PlainTitle("Threads")
    ensures PlainTitle("Logistics")
    ensures PlainTitle("Outcome")
    ensures PlainTitle("Active threads")
  {}

  lemma PlainTitles2()
    ensures PlainTitle("Stale threads")
    ensures PlainTitle("Archived threads")
    ensures PlainTitle("Summary")
    ensures PlainTitle("Items")
    ensures PlainTitle("Timeline")
    ensures PlainTitle("Statement")
    ensures PlainTitle("Why now")
  {}

  lemma PlainTitles3()
    ensures PlainTitle("Evidence")
    ensures PlainTitle("Existing leverage")
    ensures PlainTitle("Skill match")
    ensures PlainTitle("Risks")
    ensures PlainTitle("Pending")
    ensures PlainTitle("Done")
  {}

  lemma EntryIsPlain(pageType: string, i: nat)
    requires i < |SectionOwners(pageType)|
    ensures PlainTitle(SectionOwners(pageType)[i].title)
  {
    hide PlainTitle;
    PlainTitles0();
    PlainTitles1();
    PlainTitles2();
    PlainTitles3();
  }

  lemma EntriesDiffer(pageType: string, i: nat, j: nat)
    requires i < j < |SectionOwners(pageType)|
    ensures !SameKey(SectionOwners(pageType)[i].title, SectionOwners(pageType)[j].title)
  {
    hide SectionOwners, SameKey;
    if pageType == "event" {
      EventEntriesDiffer(i, j);
    } else if pageType == "project" {
      ProjectEntriesDiffer(i, j);
    } else {
      OtherEntriesDiffer(pageType, i, j);
    }
  }

  lemma EventEntriesDiffer(i: nat, j: nat)
    requires i < j < |SectionOwners("event")|
    ensures !SameKey(SectionOwners("event")[i].title, SectionOwners("event")[j].title)
  {}

  lemma ProjectEntriesDiffer(i: nat, j: nat)
    requires i < j < |SectionOwners("project")|
    ensures !SameKey(SectionOwners("project")[i].title, SectionOwners("project")[j].title)
  {}

  lemma OtherEntriesDiffer(pageType: string, i: nat, j: nat)
    requires pageType != "event" && pageType != "project"
    requires i < j < |SectionOwners(pageType)|
    ensures !SameKey(SectionOwners(pageType)[i].title, SectionOwners(pageType)[j].title)
  {}

  lemma TablesAreGood(pageType: string)
    ensures GoodTable(SectionOwners(pageType))
  {
    hide SectionOwners, PlainTitle, SameKey, Lower;
    var es := SectionOwners(pageType);
    forall i | 0 <= i < |es| ensures PlainTitle(es[i].title) { EntryIsPlain(pageType, i); }
    forall i, j | 0 <= i < j < |es| ensures Lower(es[i].title) != Lower(es[j].title) {
      EntryIsPlain(pageType, i);
      EntriesDiffer(pageType, i, j);
      if Lower(es[i].title) == Lower(es[j].title) { KeysClash(es[i].title, es[j].title); }
    }
  }

  lemma KeysClash(a: string, b: string)
    requires PlainTitle(a) && Lower(a) == Lower(b)
    ensures SameKey(a, b)
  {
    LowerKey(a, b);
  }

  // ---------------------------------------------------------------------
  // Canonical titles
  // ---------------------------------------------------------------------

  lemma {:induction false} FindTitleFirst(es: seq<Entry>, title: string, k: nat)
    requires k < |es| && Lower(es[k].title) == Lower(title)
    ensures FindTitle(es, title) <= k
  {
    hide Lower;
    if k > 0 && Lower(es[0].title) != Lower(title) { FindTitleFirst(es[1..], title, k - 1); }
  }

  lemma {:induction false} IndexOfFirst(es: seq<Entry>, title: string, k: nat)
    requires k < |es| && es[k].title == title
    ensures IndexOf(es, title) <= k
  {
    if k > 0 && es[0].title != title { IndexOfFirst(es[1..], title, k - 1); }
  }

  /** A title of the table is found at its own place. */
  lemma OwnPlace(pageType: string, k: nat)
    requires k < |SectionOwners(pageType)|
    ensures var t := SectionOwners(pageType)[k].title;
            FindTitle(SectionOwners(pageType), t) == k && IndexOf(SectionOwners(pageType), t) == k
  {
    hide SectionOwners, Lower, PlainTitle, FindTitle, IndexOf;
    var es := SectionOwners(pageType);
    TablesAreGood(pageType);
    FindTitleFirst(es, es[k].title, k);
    IndexOfFirst(es, es[k].title, k);
  }

  /** Canonicalising twice is canonicalising once. */
  lemma CanonicalIdempotent(pageType: string, title: string)
    ensures Canonical(pageType, Canonical(pageType, title)) == Canonical(pageType, title)
  {
    hide SectionOwners, Lower, AliasTarget;
    var es := SectionOwners(pageType);
    var i := FindTitle(es, title);
    var target := AliasTarget(Lower(title));
    if i < |es| {
      OwnPlace(pageType, i);
    } else if target != "" && IndexOf(es, target) < |es| {
      OwnPlace(pageType, IndexOf(es, target));
    }
  }

  /** A section with an owner has a canonical title a header can carry. */
  lemma OwnedTitle(pageType: string, title: string)
    requires OwnerOf(pageType, title).Some?
    ensures PlainTitle(Canonical(pageType, title))
  {
    hide SectionOwners, PlainTitle, Canonical;
    EntryIsPlain(pageType, Rank(pageType, title));
  }

  // ---------------------------------------------------------------------
  // What the lookups find
  // ---------------------------------------------------------------------

  /** A title of the schema in any case stands for that title, the words for tasks
      for the open tasks where there are any, and every other for itself. */
  lemma CanonicalMeans(pageType: string, title: string)
    ensures var es, c := SectionOwners(pageType), Canonical(pageType, title);
            && (forall k | 0 <= k < |es| && Lower(es[k].title) == Lower(title) :: c == es[k].title)
            && ((forall k | 0 <= k < |es| :: Lower(es[k].title) != Lower(title)) ==>
                  c == if Lower(title) in {"tasks", "to do", "todo"}
                          && exists k :: 0 <= k < |es| && es[k].title == "Open tasks"
                       then "Open tasks" else title)
  {
    hide SectionOwners, Lower, FindTitle, IndexOf;
    var es := SectionOwners(pageType);
    TablesAreGood(pageType);
    forall k: nat | k < |es| && Lower(es[k].title) == Lower(title) ensures Canonical(pageType, title) == es[k].title {
      FindTitleFirst(es, title, k);
      assert FindTitle(es, title) == k;
    }
    forall k: nat | k < |es| && es[k].title == "Open tasks" ensures IndexOf(es, "Open tasks") < |es| {
      IndexOfFirst(es, "Open tasks", k);
    }
    assert "Open tasks" != "";
  }

  /** The owner of a section is the one its title has in the schema. */
  lemma OwnerMeans(pageType: string, title: string)
    ensures var es, c := SectionOwners(pageType), Canonical(pageType, title);
            && (forall k | 0 <= k < |es| && es[k].title == c :: OwnerOf(pageType, title) == Some(es[k].owner))
            && ((forall k | 0 <= k < |es| :: es[k].title != c) ==> OwnerOf(pageType, title) == None)
  {
    hide SectionOwners, Lower, Canonical, IndexOf;
    var es, c := SectionOwners(pageType), Canonical(pageType, title);
    TablesAreGood(pageType);
    forall k: nat | k < |es| && es[k].title == c ensures OwnerOf(pageType, title) == Some(es[k].owner) {
      IndexOfFirst(es, c, k);
      assert IndexOf(es, c) == k;
    }
  }
}
