/** The page editor (shared/wiki/editor.py): the only way agent code changes a
    page, under Section Owner and Fence rules. */
module Editor {
  import opened Options
  import opened Text
  import opened PageFormat
  import opened Schema
  import opened Neutral
  import opened Fence

  datatype EditError = NotOwned | InvalidEdit

  datatype Result<+T> = Ok(value: T) | Err(error: EditError)

  // ---------------------------------------------------------------------
  // Sections
  // ---------------------------------------------------------------------

  predicate FencedOwner(o: Owner) { o == Managed || o == Append || o == Derived }

  /** `_skeleton_body`. */
  function SkeletonBody(o: Owner, content: string, last: bool): string {
    if FencedOwner(o) then
      FenceOpen(OwnerText(o)) + "\n" + (if content == "" then "" else content + "\n") + (FENCE_CLOSE + "\n")
    else if content != "" then (if last then content + "\n" else content + "\n\n")
    else if last then "" else "\n"
  }

  /** First section from `i` on with this canonical title; the count if none. */
  function SectionIndex(pageType: string, ss: seq<Section>, canonical: string, i: nat): (j: nat)
    requires i <= |ss|
    ensures i <= j <= |ss|
    ensures j < |ss| ==> Canonical(pageType, ss[j].title) == canonical
    decreases |ss| - i
  {
    if i == |ss| || Canonical(pageType, ss[i].title) == canonical then i
    else SectionIndex(pageType, ss, canonical, i + 1)
  }

  /** First section from `i` on that the schema puts after rank `r`. */
  function LaterIndex(pageType: string, ss: seq<Section>, r: nat, i: nat): (j: nat)
    requires i <= |ss|
    ensures i <= j <= |ss|
    decreases |ss| - i
  {
    if i == |ss| || r < Rank(pageType, ss[i].title) < |SectionOwners(pageType)| then i
    else LaterIndex(pageType, ss, r, i + 1)
  }

  function FreshSection(canonical: string, o: Owner): Section {
    Section(canonical, "## " + canonical + "\n", SkeletonBody(o, "", false))
  }

  /** What comes before an inserted section, made to end its last line. */
  function CloseLine(t: string): string { if EndsNL(t) then t else t + "\n" }

  function InsertSection(p: Page, at: nat, s: Section): Page
    requires at <= |p.sections|
  {
    if at == 0 then
      p.(preamble := if p.preamble == "" then "" else CloseLine(p.preamble), sections := [s] + p.sections)
    else
      var prev := p.sections[at - 1];
      p.(sections := p.sections[..at - 1] + [prev.(body := CloseLine(prev.body)), s] + p.sections[at..])
  }

  /** `_with_section`: the page with the section present, and its index. */
  function WithSection(p: Page, title: string, o: Owner): (r: (Page, nat))
    ensures r.1 < |r.0.sections|
  {
    var canonical := Canonical(p.pageType, title);
    var i := SectionIndex(p.pageType, p.sections, canonical, 0);
    if i < |p.sections| then (p, i) else
      var at := LaterIndex(p.pageType, p.sections, Rank(p.pageType, title), 0);
      (InsertSection(p, at, FreshSection(canonical, o)), at)
  }

  function SetBody(p: Page, i: nat, body: string): Page
    requires i < |p.sections|
  {
    p.(sections := p.sections[i := p.sections[i].(body := body)])
  }

  /** `Page.section`. */
  function SectionOf(p: Page, title: string): Option<Section> {
    var i := SectionIndex(p.pageType, p.sections, Canonical(p.pageType, title), 0);
    if i < |p.sections| then Some(p.sections[i]) else None
  }

  /** `fenced_content`. */
  function FencedContent(p: Page, title: string): string {
    match SectionOf(p, title)
    case Some(s) => FencedText(s.body)
    case None => ""
  }

  // ---------------------------------------------------------------------
  // The edits
  // ---------------------------------------------------------------------

  /** `_require`: the section's owner, when it is one of `allowed`. */
  function Require(p: Page, title: string, allowed: set<Owner>): Result<Owner> {
    match OwnerOf(p.pageType, title)
    case Some(o) => if o in allowed then Ok(o) else Err(NotOwned)
    case None => Err(NotOwned)
  }

  /** The section's fenced region rewritten with `text`, neutralised. */
  function PutSection(p: Page, title: string, o: Owner, text: string): Page {
    var (q, i) := WithSection(p, title, o);
    SetBody(q, i, PutFenced(q.sections[i].body, OwnerText(o), Neutralise(text)))
  }

  /** `set_fenced`. */
  function SetFenced(p: Page, title: string, text: string): Result<Page> {
    match Require(p, title, {Managed, Derived})
    case Err(e) => Err(e)
    case Ok(o) => Ok(PutSection(p, title, o, text))
  }

  /** A `shared` or `human` body with `addition` at its end. */
  function SharedBody(body: string, addition: string, last: bool): string {
    var kept := StripRightNL(body);
    var grown := (if kept == "" then "" else kept + "\n") + addition + "\n";
    if last then grown else grown + "\n"
  }

  function StripLines(lines: seq<string>): (r: seq<string>)
    ensures |r| == |lines|
  {
    if lines == [] then [] else [StripRightNL(lines[0])] + StripLines(lines[1..])
  }

  function GrowSection(p: Page, title: string, o: Owner, addition: string): Page {
    var (q, i) := WithSection(p, title, o);
    var body := q.sections[i].body;
    SetBody(q, i, if o == Append then GrowFenced(body, OwnerText(o), addition)
                  else SharedBody(body, addition, i == |q.sections| - 1))
  }

  /** `append_lines`. */
  function AppendLines(p: Page, title: string, lines: seq<string>, allowHuman: bool): Result<Page> {
    match Require(p, title, if allowHuman then {Append, Shared, Human} else {Append, Shared})
    case Err(e) => Err(e)
    case Ok(o) =>
      if lines == [] then Ok(p)
      else Ok(GrowSection(p, title, o, Neutralise(Join("\n", StripLines(lines)))))
  }

  // ---------------------------------------------------------------------
  // Frontmatter and title
  // ---------------------------------------------------------------------

  /** First line start from `i` on where `key:` stands; the length if none. */
  function KeyLine(raw: string, key: string, i: nat): (j: nat)
    requires i <= |raw|
    ensures i <= j <= |raw|
    ensures j < |raw| ==> LineStart(raw, j) && HasAt(raw, j, key + ":")
    decreases |raw| - i
  {
    if i == |raw| || (LineStart(raw, i) && HasAt(raw, i, key + ":")) then i else KeyLine(raw, key, i + 1)
  }

  /** The raw block with `line` in place of the key's line, or at its end. */
  function PatchRaw(raw: string, key: string, line: string): string {
    var i := KeyLine(raw, key, 0);
    if i < |raw| then raw[..i] + line + raw[LineEnd(raw, i)..]
    else StripRightNL(raw) + "\n" + line + "\n"
  }

  /** `set_field` with the value already rendered as a YAML scalar. */
  function SetField(p: Page, key: string, value: string, loader: Loader): Result<Page> {
    var candidate := p.(raw := PatchRaw(p.raw, key, TrimRight(key + ": " + value)));
    match ParsePage(DumpPage(candidate), loader)
    case BadPage => Err(InvalidEdit)
    case Parsed(_) => Ok(candidate)
  }

  /** First line start from `i` on of the form `#` and a blank. */
  function H1Line(t: string, i: nat): (j: nat)
    requires i <= |t|
    ensures i <= j <= |t|
    ensures j < |t| ==> LineStart(t, j)
    decreases |t| - i
  {
    if i == |t| || (LineStart(t, i) && t[i] == '#' && i + 1 < |t| && IsBlank(t[i + 1])) then i else H1Line(t, i + 1)
  }

  function PatchH1(preamble: string, title: string): string {
    var i := H1Line(preamble, 0);
    if i < |preamble| then preamble[..i] + ("# " + title) + preamble[LineEnd(preamble, i)..]
    else "# " + title + "\n" + preamble
  }

  /** `set_title`; `value` is the collapsed title as a YAML scalar. */
  function SetTitle(p: Page, title: string, value: string, loader: Loader): Result<Page> {
    match SetField(p, "title", value, loader)
    case Err(e) => Err(e)
    case Ok(q) => Ok(q.(preamble := PatchH1(q.preamble, OneLine(title))))
  }

  // `re.sub(r"\s+", " ", text).strip()`.
  function OneLine(text: string): string { Trim(Squeeze(text)) }

  function Squeeze(text: string): string {
    if text == "" then ""
    else if IsSpace(text[0]) then
      (if |text| > 1 && IsSpace(text[1]) then "" else " ") + Squeeze(text[1..])
    else [text[0]] + Squeeze(text[1..])
  }
}
