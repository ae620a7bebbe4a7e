/** Reading a long page in pieces (`LapisClient.read`, shared/wiki/lapis_client.py)
    from a server on which the page may change between any two calls. */
module PagedRead {
  import opened Text
  import opened TokenBudget

  const READ_PAGE_LINES := 2000

  /** The page as the server holds it at one call. */
  datatype Version = Version(lines: seq<string>, revision: string)

  /** What one call returns. */
  datatype Reply = Reply(text: string, revision: string, truncated: bool, endLine: nat)

  /** What every call sees: a revision stands for one content, lines hold no
      newline, and an empty page has no lines. */
  ghost predicate Server(serve: nat -> Version) {
    && (forall j, k :: serve(j).revision == serve(k).revision ==> serve(j) == serve(k))
    && (forall k :: serve(k).revision != "" && forall i | 0 <= i < |serve(k).lines| :: NoNewline(serve(k).lines[i]))
  }

  function Numbered(lines: seq<string>, from: nat): (r: seq<string>)
    ensures |r| == |lines| && forall i | 0 <= i < |r| :: r[i] == Digits(from + i) + "|" + lines[i]
  {
    seq(|lines|, i requires 0 <= i < |lines| => Digits(from + i) + "|" + lines[i])
  }

  /** The read tool: up to a page of numbered lines from `offset` on. */
  function Answer(v: Version, offset: nat): Reply
    requires offset >= 1
  {
    var a := if offset - 1 <= |v.lines| then offset - 1 else |v.lines|;
    var b := if a + READ_PAGE_LINES <= |v.lines| then a + READ_PAGE_LINES else |v.lines|;
    Reply(Join("\n", Numbered(v.lines[a..b], offset)), v.revision, b < |v.lines|, b)
  }

  function Bar(s: string): (i: nat)
    ensures i <= |s|
  {
    if s == "" || s[0] == '|' then 0 else 1 + Bar(s[1..])
  }

  /** `line.split("|", 1)[1] if "|" in line else line`. */
  function Unnumbered(line: string): string { if Bar(line) < |line| then line[Bar(line) + 1..] else line }

  function UnnumberedAll(ls: seq<string>): (r: seq<string>)
    ensures |r| == |ls| && forall i | 0 <= i < |r| :: r[i] == Unnumbered(ls[i])
  {
    seq(|ls|, i requires 0 <= i < |ls| => Unnumbered(ls[i]))
  }

  lemma {:induction false} DigitsPlain(n: nat)
    ensures forall i | 0 <= i < |Digits(n)| :: '0' <= Digits(n)[i] <= '9'
  {
    if n >= 10 { DigitsPlain(n / 10); }
  }

  lemma {:induction false} BarAfter(d: string, l: string)
    requires forall i | 0 <= i < |d| :: d[i] != '|'
    ensures Bar(d + "|" + l) == |d|
  {
    if d == "" {
      assert (d + "|" + l)[0] == '|';
    } else {
      assert (d + "|" + l)[1..] == d[1..] + "|" + l;
      BarAfter(d[1..], l);
    }
  }

  lemma UnnumberedIs(n: nat, l: string)
    ensures Unnumbered(Digits(n) + "|" + l) == l
    ensures NoNewline(l) ==> NoNewline(Digits(n) + "|" + l)
  {
    DigitsPlain(n);
    BarAfter(Digits(n), l);
  }

  /** The lines a reply carries are the page's lines, unchanged. */
  lemma ReplyLines(lines: seq<string>, from: nat)
    requires forall i | 0 <= i < |lines| :: NoNewline(lines[i])
    ensures var text := Join("\n", Numbered(lines, from));
            UnnumberedAll(if text != "" then SplitNL(text) else []) == lines
  {
    hide Digits, Unnumbered, NoNewline;
    var ns := Numbered(lines, from);
    forall i | 0 <= i < |lines| ensures Unnumbered(ns[i]) == lines[i] && NoNewline(ns[i]) {
      UnnumberedIs(from + i, lines[i]);
    }
    if lines == [] {
      assert Join("\n", ns) == "";
    } else {
      SplitJoin(ns);
      BarIn(lines[0], from);
      JoinStarts(ns);
    }
  }

  lemma BarIn(l: string, n: nat)
    ensures Digits(n) + "|" + l != ""
  {}

  lemma JoinStarts(ls: seq<string>)
    requires ls != [] && ls[0] != ""
    ensures Join("\n", ls) != ""
  {}

  /** The lines of a reply, as the client takes them apart. */
  function Parsed(reply: Reply): seq<string> { UnnumberedAll(if reply.text != "" then SplitNL(reply.text) else []) }

  lemma TakesNext(v: Version, offset: nat)
    requires 1 <= offset <= |v.lines| + 1 && forall i | 0 <= i < |v.lines| :: NoNewline(v.lines[i])
    ensures var r := Answer(v, offset);
            && r.revision == v.revision && offset - 1 <= r.endLine <= |v.lines|
                && r.truncated == (r.endLine < |v.lines|)
            && (r.truncated ==> r.endLine >= offset)
            && v.lines[..offset - 1] + Parsed(r) == v.lines[..r.endLine]
  {
    hide NoNewline, Join, SplitNL, UnnumberedAll, Numbered;
    var r := Answer(v, offset);
    var part := v.lines[offset - 1..r.endLine];
    ReplyLines(part, offset);
    assert v.lines[..r.endLine] == v.lines[..offset - 1] + part;
  }

  /** If it returns, the content is the whole page, at the one revision returned,
      as it was at the last call made, whatever was written between the calls; and
      it returns once writing stops (`quiet` is a call after which the page no
      longer changes). */
  method Read(serve: nat -> Version, ghost quiet: nat) returns (content: string, revision: string, call: nat)
    requires Server(serve) && forall k | k >= quiet :: serve(k) == serve(quiet)
    ensures call >= 1 && revision == serve(call - 1).revision && content == Join("\n", serve(call - 1).lines)
  {
    hide Join, NoNewline, Answer, Parsed;
    var lines: seq<string>, offset := [], 1;
    revision := "";
    call := 0;
    ghost var seen := 0;
    while true
      invariant offset >= 1 && (revision == "" ==> offset == 1 && lines == [])
      invariant revision != "" ==> serve(seen).revision == revision
      invariant revision != "" ==> offset - 1 < |serve(seen).lines| && lines == serve(seen).lines[..offset - 1]
      decreases if call < quiet then quiet - call else 0,
                if revision != "" && revision != serve(quiet).revision then 1 else 0,
                |serve(quiet).lines| + 1 - offset
    {
      var v := serve(call);
      if revision != "" && v.revision == revision { assert v == serve(seen); }
      var reply := Answer(v, offset);
      assert reply.revision == v.revision by { AnswersAs(v, offset); }
      call := call + 1;
      if revision != "" && reply.revision != revision {
        offset, lines, revision := 1, [], "";
        continue;
      }
      TakesNext(v, offset);
      assert lines == v.lines[..offset - 1];
      revision := reply.revision;
      seen := call - 1;
      lines := lines + Parsed(reply);
      if !reply.truncated {
        assert v.lines[..|v.lines|] == v.lines;
        break;
      }
      offset := reply.endLine + 1;
    }
    content := Join("\n", lines);
  }

  lemma AnswersAs(v: Version, offset: nat)
    requires offset >= 1
    ensures Answer(v, offset).revision == v.revision
  {}
}
