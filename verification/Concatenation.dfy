/** Joining a sender's consecutive messages (agents/wa_agent/ingestion.py),
    which gives placement a batch it can rely on. */
module Concatenation {
  import opened Options
  import opened Text
  import opened Placement

  /** A buffered message; times are in minutes. */
  datatype Raw = Raw(id: string, sender: string, at: int, replyTo: Option<string>, text: string, srcIds: seq<string>)

  function Sources(ms: seq<Raw>): seq<string> {
    if ms == [] then [] else Sources(ms[..|ms| - 1]) + ms[|ms| - 1].srcIds
  }

  /** Joined to the last message of a run that ends at time `at`. */
  predicate Joins(last: Raw, at: int, m: Raw, window: int) {
    m.sender == last.sender && m.replyTo.None? && m.at - at <= window
  }

  function Join2(last: Raw, m: Raw): Raw { last.(text := last.text + "\n" + m.text, srcIds := last.srcIds + m.srcIds) }

  function Joined(ms: seq<Raw>, window: int): (r: seq<Raw>)
    ensures ms != [] ==> r != []
  {
    if ms == [] then [] else
      var n := |ms| - 1;
      var rest := Joined(ms[..n], window);
      if n > 0 && Joins(rest[|rest| - 1], ms[n - 1].at, ms[n], window)
      then rest[..|rest| - 1] + [Join2(rest[|rest| - 1], ms[n])]
      else rest + [ms[n]]
  }

  /** `concatenate_same_sender`. */
  method Concatenate(ms: seq<Raw>, window: int) returns (merged: seq<Raw>)
    ensures merged == Joined(ms, window)
  {
    merged := [];
    var last: Option<int> := None;
    for i := 0 to |ms|
      invariant merged == Joined(ms[..i], window)
      invariant last == if i == 0 then None else Some(ms[i - 1].at)
    {
      var m := ms[i];
      assert ms[..i + 1][..i] == ms[..i];
      if merged != [] && last.Some? && Joins(merged[|merged| - 1], last.value, m, window) {
        merged := merged[..|merged| - 1] + [Join2(merged[|merged| - 1], m)];
      } else {
        merged := merged + [m];
      }
      last := Some(m.at);
    }
    assert ms[..|ms|] == ms;
  }

  predicate OwnIds(ms: seq<Raw>) { forall i | 0 <= i < |ms| :: ms[i].id in ms[i].srcIds }

  lemma JoinLast(rest: seq<Raw>, m: Raw)
    requires rest != []
    ensures var r := rest[..|rest| - 1] + [Join2(rest[|rest| - 1], m)];
            Sources(r) == Sources(rest) + m.srcIds && (OwnIds(rest) ==> OwnIds(r))
  {
    var init, last := rest[..|rest| - 1], rest[|rest| - 1];
    SourcesLast(init, Join2(last, m));
    assert init + [last] == rest;
    SourcesLast(init, last);
    assert Sources(init) + (last.srcIds + m.srcIds) == Sources(init) + last.srcIds + m.srcIds;
    hide Sources;
    assert OwnIds(rest) ==> last.id in Join2(last, m).srcIds;
  }

  /** No raw id is lost, repeated or reordered. */
  lemma {:induction false} JoinedKeeps(ms: seq<Raw>, window: int)
    ensures Sources(Joined(ms, window)) == Sources(ms)
    ensures OwnIds(ms) ==> OwnIds(Joined(ms, window))
  {
    hide Joins, Join2;
    if ms != [] {
      var n := |ms| - 1;
      var rest := Joined(ms[..n], window);
      JoinedKeeps(ms[..n], window);
      SourcesLast(rest, ms[n]);
      if n > 0 { JoinLast(rest, ms[n]); }
    }
  }

  lemma SourcesLast(ms: seq<Raw>, m: Raw)
    ensures Sources(ms + [m]) == Sources(ms) + m.srcIds
  {
    assert (ms + [m])[..|ms|] == ms;
  }

  /** A reply always stays a message of its own, so it can be routed. */
  lemma {:induction false} RepliesStand(ms: seq<Raw>, window: int, i: nat)
    requires i < |ms| && ms[i].replyTo.Some?
    ensures exists k :: 0 <= k < |Joined(ms, window)| && Joined(ms, window)[k].id == ms[i].id
                        && Joined(ms, window)[k].replyTo == ms[i].replyTo
  {
    var n := |ms| - 1;
    var r := Joined(ms, window);
    if i == n {
      assert r[|r| - 1] == ms[n];
    } else {
      var rest := Joined(ms[..n], window);
      RepliesStand(ms[..n], window, i);
      var k :| 0 <= k < |rest| && rest[k].id == ms[i].id && rest[k].replyTo == ms[i].replyTo;
      assert r[k].id == rest[k].id && r[k].replyTo == rest[k].replyTo;
    }
  }

  // ---------------------------------------------------------------------
  // The runs
  // ---------------------------------------------------------------------

  /** Of one sender, no reply, and within the window of the message before. */
  predicate Follows(before: Raw, m: Raw, window: int) {
    m.sender == before.sender && m.replyTo.None? && m.at - before.at <= window
  }

  function Texts(ms: seq<Raw>): (r: seq<string>)
    ensures |r| == |ms| && forall i | 0 <= i < |ms| :: r[i] == ms[i].text
  {
    seq(|ms|, i requires 0 <= i < |ms| => ms[i].text)
  }

  /** The message a run becomes: the first one, with all texts on lines of their
      own and all raw ids. */
  predicate RunIs(run: seq<Raw>, m: Raw) {
    && run != [] && (forall i | 0 <= i < |run| :: run[i].sender == m.sender)
    && m.id == run[0].id && m.at == run[0].at && m.replyTo == run[0].replyTo
    && m.text == Join("\n", Texts(run)) && m.srcIds == Sources(run)
  }

  function EndOf(at: seq<nat>, k: nat, n: nat): nat { if k + 1 < |at| then at[k + 1] else n }

  /** A new message begins exactly where one does not follow the one before, and
      each is its whole run. */
  ghost predicate Runs(ms: seq<Raw>, window: int, at: seq<nat>, merged: seq<Raw>) {
    && |at| == |merged| && (forall k | 0 <= k < |at| :: at[k] < EndOf(at, k, |ms|) <= |ms|)
    && (ms != [] ==> 0 in at) && (forall i: nat | 0 < i < |ms| :: i in at <==> !Follows(ms[i - 1], ms[i], window))
    && forall k | 0 <= k < |at| :: RunIs(ms[at[k]..EndOf(at, k, |ms|)], merged[k])
  }

  lemma {:induction false} JoinSnoc(sep: string, parts: seq<string>, s: string)
    requires parts != []
    ensures Join(sep, parts + [s]) == Join(sep, parts) + sep + s
  {
    if |parts| > 1 {
      assert (parts + [s])[1..] == parts[1..] + [s];
      JoinSnoc(sep, parts[1..], s);
    } else {
      assert (parts + [s])[1..] == [s];
    }
  }

  lemma RunGrows(run: seq<Raw>, last: Raw, m: Raw)
    requires RunIs(run, last) && m.sender == last.sender
    ensures RunIs(run + [m], Join2(last, m))
  {
    hide Join;
    assert Texts(run + [m]) == Texts(run) + [m.text];
    JoinSnoc("\n", Texts(run), m.text);
    SourcesLast(run, m);
  }

  lemma RunStarts(m: Raw)
    ensures RunIs([m], m)
  {
    assert Texts([m]) == [m.text];
    SourcesLast([], m);
    assert [] + [m] == [m];
  }

  /** What the messages become, told by where the runs begin. */
  lemma {:induction false} JoinedMeans(ms: seq<Raw>, window: int) returns (at: seq<nat>)
    ensures Runs(ms, window, at, Joined(ms, window))
  {
    hide RunIs, Join2;
    at := [];
    if ms != [] {
      var n := |ms| - 1;
      var rest := Joined(ms[..n], window);
      at := JoinedMeans(ms[..n], window);
      if n == 0 {
        at := [0];
        RunStarts(ms[0]);
        assert ms[0..1] == [ms[0]];
      } else {
        at := OneMore(ms, window, at, rest);
      }
    }
  }

  /** The last message joins the run before it, or begins one. */
  lemma OneMore(ms: seq<Raw>, window: int, at: seq<nat>, rest: seq<Raw>) returns (more: seq<nat>)
    requires |ms| > 1 && Runs(ms[..|ms| - 1], window, at, rest) && rest != []
    ensures var n := |ms| - 1; var last := rest[|rest| - 1];
            Runs(ms, window, more, if Joins(last, ms[n - 1].at, ms[n], window)
                                   then rest[..|rest| - 1] + [Join2(last, ms[n])] else rest + [ms[n]])
  {
    hide RunIs, Join2, Runs, Before;
    var n := |ms| - 1;
    var last, l := rest[|rest| - 1], |at| - 1;
    RunsBefore(ms, window, at, rest);
    LastBefore(ms, window, at, rest);
    var run := ms[at[l]..n];
    RunSender(run, last);
    assert run[|run| - 1] == ms[n - 1];
    if Joins(last, ms[n - 1].at, ms[n], window) {
      more := at;
      RunGrows(run, last, ms[n]);
      assert run + [ms[n]] == ms[at[l]..n + 1];
      LastGrows(ms, window, at, rest, Join2(last, ms[n]));
    } else {
      more := at + [n];
      RunStarts(ms[n]);
      assert ms[n..n + 1] == [ms[n]];
      LastBegins(ms, window, at, rest, ms[n]);
    }
  }

  /** The runs of all messages but the last, as parts of all of them. */
  ghost predicate Before(ms: seq<Raw>, window: int, at: seq<nat>, rest: seq<Raw>)
    requires ms != []
  {
    var n := |ms| - 1;
    && |at| == |rest| && (forall k | 0 <= k < |at| :: at[k] < EndOf(at, k, n) <= n)
    && (n > 0 ==> 0 in at) && (forall i: nat | 0 < i < n :: i in at <==> !Follows(ms[i - 1], ms[i], window))
    && forall k | 0 <= k < |at| :: RunIs(ms[at[k]..EndOf(at, k, n)], rest[k])
  }

  lemma LastBefore(ms: seq<Raw>, window: int, at: seq<nat>, rest: seq<Raw>)
    requires ms != [] && rest != [] && Before(ms, window, at, rest)
    ensures |at| == |rest| && at[|at| - 1] < |ms| - 1
    ensures RunIs(ms[at[|at| - 1]..|ms| - 1], rest[|rest| - 1])
  {
    hide RunIs, Follows;
    assert EndOf(at, |at| - 1, |ms| - 1) == |ms| - 1;
  }

  lemma LastGrows(ms: seq<Raw>, window: int, at: seq<nat>, rest: seq<Raw>, now: Raw)
    requires |ms| > 1 && rest != [] && Before(ms, window, at, rest) && Follows(ms[|ms| - 2], ms[|ms| - 1], window)
    requires RunIs(ms[at[|at| - 1]..|ms|], now)
    ensures Runs(ms, window, at, rest[..|rest| - 1] + [now])
  {
    hide RunIs, Follows;
    var n, l := |ms| - 1, |at| - 1;
    assert n !in at;
    forall k | 0 <= k < l ensures EndOf(at, k, n + 1) == EndOf(at, k, n) {}
  }

  lemma LastBegins(ms: seq<Raw>, window: int, at: seq<nat>, rest: seq<Raw>, now: Raw)
    requires |ms| > 1 && rest != [] && Before(ms, window, at, rest) && !Follows(ms[|ms| - 2], ms[|ms| - 1], window)
    requires RunIs(ms[|ms| - 1..|ms|], now)
    ensures Runs(ms, window, at + [|ms| - 1], rest + [now])
  {
    hide RunIs, Follows;
    var n, more := |ms| - 1, at + [|ms| - 1];
    assert n !in at;
    forall k | 0 <= k < |at| ensures EndOf(more, k, n + 1) == EndOf(at, k, n) {}
  }

  lemma RunsBefore(ms: seq<Raw>, window: int, at: seq<nat>, rest: seq<Raw>)
    requires |ms| > 1 && Runs(ms[..|ms| - 1], window, at, rest) && rest != []
    ensures Before(ms, window, at, rest)
  {
    hide RunIs;
    var n := |ms| - 1;
    forall k | 0 <= k < |at| ensures RunIs(ms[at[k]..EndOf(at, k, n)], rest[k]) {
      assert ms[..n][at[k]..EndOf(at, k, n)] == ms[at[k]..EndOf(at, k, n)];
    }
    forall i: nat | 0 < i < n ensures i in at <==> !Follows(ms[i - 1], ms[i], window) {
      assert ms[..n][i - 1] == ms[i - 1] && ms[..n][i] == ms[i];
    }
  }

  lemma RunSender(run: seq<Raw>, m: Raw)
    requires RunIs(run, m)
    ensures run != [] && run[|run| - 1].sender == m.sender
  {}

  // ---------------------------------------------------------------------
  // The batch placement relies on
  // ---------------------------------------------------------------------

  function ToMessage(m: Raw, line: Raw -> string): Message {
    Message(m.id, m.srcIds, match m.replyTo case Some(t) => t case None => "", line(m))
  }

  function ToBatch(ms: seq<Raw>, line: Raw -> string): (b: seq<Message>)
    ensures |b| == |ms| && forall i | 0 <= i < |ms| :: b[i] == ToMessage(ms[i], line)
  {
    seq(|ms|, i requires 0 <= i < |ms| => ToMessage(ms[i], line))
  }

  lemma {:induction false} SourceAt(ms: seq<Raw>, i: nat, a: nat) returns (k: nat)
    requires i < |ms| && a < |ms[i].srcIds|
    ensures k < |Sources(ms)| && Sources(ms)[k] == ms[i].srcIds[a] && k == Offset(ms, i) + a
  {
    var rest := ms[..|ms| - 1];
    if i == |ms| - 1 {
      k := |Sources(rest)| + a;
      OffsetEnd(ms);
    } else {
      k := SourceAt(rest, i, a);
      OffsetPrefix(ms, i);
    }
  }

  function Offset(ms: seq<Raw>, i: nat): nat
    requires i <= |ms|
  {
    |Sources(ms[..i])|
  }

  lemma OffsetEnd(ms: seq<Raw>)
    requires ms != []
    ensures Offset(ms, |ms| - 1) == |Sources(ms[..|ms| - 1])|
  {}

  lemma OffsetPrefix(ms: seq<Raw>, i: nat)
    requires i < |ms| - 1
    ensures Offset(ms[..|ms| - 1], i) == Offset(ms, i)
  {
    assert ms[..|ms| - 1][..i] == ms[..i];
  }

  lemma {:induction false} OffsetStep(ms: seq<Raw>, i: nat, j: nat)
    requires i < j <= |ms|
    ensures Offset(ms, i) + |ms[i].srcIds| <= Offset(ms, j)
    decreases j
  {
    assert ms[..j][..j - 1] == ms[..j - 1];
    if i < j - 1 { OffsetStep(ms, i, j - 1); }
  }

  /** Equal raw ids are one raw id. */
  lemma OnePlace(ms: seq<Raw>, i: nat, x: nat, j: nat, y: nat)
    requires NoDup(Sources(ms)) && i < |ms| && x < |ms[i].srcIds| && j < |ms| && y < |ms[j].srcIds|
    requires ms[i].srcIds[x] == ms[j].srcIds[y]
    ensures i == j && x == y
  {
    var k := SourceAt(ms, i, x);
    var l := SourceAt(ms, j, y);
    assert k == l;
    if i != j { OffsetStep(ms, if i < j then i else j, if i < j then j else i); }
  }

  /** From messages with distinct raw ids, concatenation makes a batch where
      every raw id has its one place. */
  lemma ConcatenatedIsGood(ms: seq<Raw>, window: int, line: Raw -> string)
    requires NoDup(Sources(ms)) && OwnIds(ms)
    ensures GoodBatch(ToBatch(Joined(ms, window), line))
  {
    JoinedKeeps(ms, window);
    var r := Joined(ms, window);
    var b := ToBatch(r, line);
    forall i, x, j, y | 0 <= i < |b| && 0 <= x < |b[i].srcIds| && 0 <= j < |b| && 0 <= y < |b[j].srcIds|
        && b[i].srcIds[x] == b[j].srcIds[y]
      ensures i == j && x == y
    {
      OnePlace(r, i, x, j, y);
    }
  }
}
