/** What fits in one assignment prompt (agents/wa_agent/assign.py): squeezing
    the thread context, and the bound on the finished prompt. */
module TokenBudget {
  import opened Parts
  import opened Text
  import opened Batches
  import opened Placement

  const MAX_SHRINK := 3

  // ---------------------------------------------------------------------
  // The prompt, by its lengths
  // ---------------------------------------------------------------------

  /** The prompt of a chunk: `head` up to the count of ids, `middle` up to the
      message lines. */
  function Prompt(head: string, middle: string, lines: seq<string>): string {
    head + Digits(|lines|) + middle + Join("\n", lines)
  }

  /** `_context_overhead`. */
  function Overhead(system: string, head: string, middle: string): nat {
    EstimateTokens(system + Prompt(head, middle, []))
  }

  /** What `chunk_messages` counts for the lines. */
  function LineCosts(lines: seq<string>): nat {
    if lines == [] then 0 else EstimateTokens(lines[0]) + 1 + LineCosts(lines[1..])
  }

  lemma EstimateIs(text: string)
    ensures 3 * EstimateTokens(text) >= |text| && 3 * EstimateTokens(text) <= |text| + 2
  {}

  lemma EstimateBy(text: string, n: nat)
    requires |text| <= 3 * n
    ensures EstimateTokens(text) <= n
  {}

  /** The joined lines: each costs a token more than its characters, which
      pays for its newline and two spare characters. */
  lemma {:induction false} LinesLength(lines: seq<string>)
    ensures |Join("\n", lines)| + 2 * |lines| <= 3 * LineCosts(lines)
    ensures lines != [] ==> |Join("\n", lines)| + 2 * |lines| + 1 <= 3 * LineCosts(lines)
  {
    if |lines| == 1 {
      EstimateIs(lines[0]);
      assert lines[1..] == [];
    } else if |lines| > 1 {
      EstimateIs(lines[0]);
      LinesLength(lines[1..]);
    }
  }

  /** A prompt costs no more than its overhead and its lines, counting the
      newlines, every rounding up and the digits of the message count. */
  lemma PromptCosts(system: string, head: string, middle: string, lines: seq<string>)
    ensures EstimateTokens(system + Prompt(head, middle, lines)) <= Overhead(system, head, middle) + LineCosts(lines)
  {
    LinesLength(lines);
    EstimateIs(system + Prompt(head, middle, []));
    assert Join("\n", []) == "";
    assert |system + Prompt(head, middle, [])| == |system| + |head| + 1 + |middle| by { assert |Digits(0)| == 1; }
    EstimateBy(system + Prompt(head, middle, lines), Overhead(system, head, middle) + LineCosts(lines));
  }

  /** The budget the messages of a chunk get: what the context leaves, and two
      fifths of the total at least. */
  function MessageBudget(total: nat, overhead: nat): (r: int)
    ensures r >= total - overhead && r >= 2 * total / 5 && (r == total - overhead || r == 2 * total / 5)
  {
    if total - overhead >= 2 * total / 5 then total - overhead else 2 * total / 5
  }

  /** When the squeezed context keeps to its share and the chunk to its budget,
      the first prompt keeps to the total. */
  lemma PromptWithinTotal(system: string, head: string, middle: string, lines: seq<string>, total: nat)
    requires 5 * Overhead(system, head, middle) <= 3 * total
    requires LineCosts(lines) <= MessageBudget(total, Overhead(system, head, middle))
    ensures EstimateTokens(system + Prompt(head, middle, lines)) <= total
  {
    PromptCosts(system, head, middle, lines);
  }

  // ---------------------------------------------------------------------
  // Squeezing the context
  // ---------------------------------------------------------------------

  /** A thread shown to the model; one minted in this batch has no page yet. */
  datatype Shown = Shown(slug: string, persisted: bool, stale: bool)

  predicate Minted(t: Shown) { !t.persisted }

  predicate Stale(t: Shown) { t.persisted && t.stale }

  /** The first thread from `i` on that is on a page, and stale if `stale`. */
  function FirstPage(ts: seq<Shown>, stale: bool, i: nat): (j: nat)
    requires i <= |ts|
    ensures i <= j <= |ts| && (j < |ts| ==> ts[j].persisted && (stale ==> ts[j].stale))
    ensures forall k | i <= k < j :: !(ts[k].persisted && (stale ==> ts[k].stale))
    decreases |ts| - i
  {
    if i == |ts| || (ts[i].persisted && (stale ==> ts[i].stale)) then i else FirstPage(ts, stale, i + 1)
  }

  /** `_drop_one_thread`. */
  function DropOne(ts: seq<Shown>): seq<Shown> {
    var stale, any := FirstPage(ts, true, 0), FirstPage(ts, false, 0);
    if stale < |ts| then ts[..stale] + ts[stale + 1..]
    else if any < |ts| then ts[..any] + ts[any + 1..]
    else ts
  }

  function Keep(ts: seq<Shown>, which: Shown -> bool): seq<Shown> {
    if ts == [] then [] else (if which(ts[0]) then [ts[0]] else []) + Keep(ts[1..], which)
  }

  lemma {:induction false} KeepWithout(ts: seq<Shown>, which: Shown -> bool, i: nat)
    requires i < |ts| && !which(ts[i])
    ensures Keep(ts[..i] + ts[i + 1..], which) == Keep(ts, which)
  {
    var r := ts[..i] + ts[i + 1..];
    if i == 0 {
      assert r == ts[1..];
    } else {
      assert r[0] == ts[0] && r[1..] == ts[1..][..i - 1] + ts[1..][i..];
      KeepWithout(ts[1..], which, i - 1);
    }
  }

  lemma {:induction false} KeepFirst(ts: seq<Shown>, which: Shown -> bool, i: nat)
    requires i < |ts| && which(ts[i]) && forall k | 0 <= k < i :: !which(ts[k])
    ensures Keep(ts, which) == [ts[i]] + Keep(ts[..i] + ts[i + 1..], which)
  {
    var r := ts[..i] + ts[i + 1..];
    if i == 0 {
      assert r == ts[1..];
    } else {
      assert r[0] == ts[0] && r[1..] == ts[1..][..i - 1] + ts[1..][i..];
      KeepFirst(ts[1..], which, i - 1);
    }
  }

  predicate Active(t: Shown) { t.persisted && !t.stale }

  /** What is left of a list when its first elements go. */
  predicate EndOf<T(==)>(left: seq<T>, all: seq<T>) { |left| <= |all| && left == all[|all| - |left|..] }

  /** Of what was shown, what is still shown, in order: every thread minted in this
      batch; of the stale ones, and of the active ones, the latest; and no
      active one is gone while a stale one is left. */
  ghost predicate FairlyDropped(all: seq<Shown>, shown: seq<Shown>) {
    && (exists at :: PartOf(shown, all, at))
    && Keep(shown, Minted) == Keep(all, Minted)
    && EndOf(Keep(shown, Stale), Keep(all, Stale)) && EndOf(Keep(shown, Active), Keep(all, Active))
    && ((exists t :: t in shown && Stale(t)) ==> Keep(shown, Active) == Keep(all, Active))
  }

  lemma EndShrinks<T>(first: T, left: seq<T>, all: seq<T>)
    requires EndOf([first] + left, all)
    ensures EndOf(left, all)
  {
    assert ([first] + left)[1..] == left;
    assert all[|all| - |left|..] == all[|all| - |left| - 1..][1..];
  }

  lemma EndSame<T>(all: seq<T>)
    ensures EndOf(all, all)
  {}

  lemma PartShrinks(all: seq<Shown>, shown: seq<Shown>, at: seq<nat>, i: nat, left: seq<Shown>) returns (now: seq<nat>)
    requires PartOf(shown, all, at) && i < |shown| && left == shown[..i] + shown[i + 1..]
    ensures PartOf(left, all, now)
  {
    now := at[..i] + at[i + 1..];
  }

  /** The thread dropped is the first stale one, and the first active one when no
      stale one is left; those minted in the batch are never dropped. */
  lemma DropFair(all: seq<Shown>, shown: seq<Shown>)
    requires FairlyDropped(all, shown)
    ensures FairlyDropped(all, DropOne(shown))
    ensures DropOne(shown) != shown ==> |DropOne(shown)| == |shown| - 1
    ensures DropOne(shown) == shown <==> forall t | t in shown :: !t.persisted
  {
    hide PartOf, Keep, EndOf;
    var stale, any := FirstPage(shown, true, 0), FirstPage(shown, false, 0);
    var at :| PartOf(shown, all, at);
    if stale < |shown| {
      assert shown[stale] in shown && Stale(shown[stale]);
      DropStale(all, shown, at, stale);
    } else if any < |shown| {
      assert shown[any] in shown;
      forall t | t in shown ensures !Stale(t) {}
      DropActive(all, shown, at, any);
    }
  }

  lemma DropStale(all: seq<Shown>, shown: seq<Shown>, at: seq<nat>, i: nat)
    requires FairlyDropped(all, shown) && PartOf(shown, all, at) && i < |shown|
    requires Stale(shown[i]) && shown[i] in shown && forall k | 0 <= k < i :: !Stale(shown[k])
    ensures FairlyDropped(all, shown[..i] + shown[i + 1..])
  {
    hide PartOf, Keep, EndOf;
    var r := shown[..i] + shown[i + 1..];
    KeepWithout(shown, Minted, i);
    KeepWithout(shown, Active, i);
    KeepFirst(shown, Stale, i);
    EndShrinks(shown[i], Keep(r, Stale), Keep(all, Stale));
    var now := PartShrinks(all, shown, at, i, r);
    assert PartOf(r, all, now);
    assert Keep(r, Active) == Keep(all, Active);
    EndSame(Keep(r, Active));
  }

  lemma DropActive(all: seq<Shown>, shown: seq<Shown>, at: seq<nat>, i: nat)
    requires FairlyDropped(all, shown) && PartOf(shown, all, at) && i < |shown|
    requires shown[i].persisted && (forall k | 0 <= k < i :: !shown[k].persisted) && forall t | t in shown :: !Stale(t)
    ensures FairlyDropped(all, shown[..i] + shown[i + 1..])
  {
    hide PartOf, Keep, EndOf;
    var r := shown[..i] + shown[i + 1..];
    assert !Stale(shown[i]) by { assert shown[i] in shown; }
    KeepWithout(shown, Minted, i);
    KeepWithout(shown, Stale, i);
    KeepFirst(shown, Active, i);
    EndShrinks(shown[i], Keep(r, Active), Keep(all, Active));
    var now := PartShrinks(all, shown, at, i, r);
    assert PartOf(r, all, now);
    forall t | t in r ensures t in shown {}
  }

  lemma AllShown(threads: seq<Shown>)
    ensures FairlyDropped(threads, threads)
  {
    var at: seq<nat> := seq(|threads|, i requires 0 <= i < |threads| => i);
    assert PartOf(threads, threads, at);
  }

  /** The two loops that squeeze the context; `overhead` is what the rest of the
      prompt costs when it shows those threads at that level. */
  method Squeeze(threads: seq<Shown>, overhead: (seq<Shown>, nat) -> nat, total: nat)
      returns (shown: seq<Shown>, shrink: nat, cost: nat)
    ensures cost == overhead(shown, shrink) && shrink <= MAX_SHRINK
    ensures 5 * cost <= 3 * total
            || (shrink == MAX_SHRINK && (|shown| <= 1 || forall t | t in shown :: !t.persisted))
    ensures FairlyDropped(threads, shown)
    ensures shown != threads ==> shrink == MAX_SHRINK && 5 * overhead(threads, MAX_SHRINK) > 3 * total
    ensures forall s | 0 <= s < shrink :: 5 * overhead(threads, s) > 3 * total
  {
    shown, shrink := threads, 0;
    cost := overhead(shown, shrink);
    while 5 * cost > 3 * total && shrink < MAX_SHRINK
      invariant cost == overhead(shown, shrink) && shrink <= MAX_SHRINK
      invariant forall s | 0 <= s < shrink :: 5 * overhead(threads, s) > 3 * total
      decreases MAX_SHRINK - shrink
    {
      shrink := shrink + 1;
      cost := overhead(shown, shrink);
    }
    AllShown(threads);
    hide FairlyDropped;
    while 5 * cost > 3 * total && |shown| > 1
      invariant cost == overhead(shown, shrink)
      invariant 5 * cost > 3 * total ==> shrink == MAX_SHRINK
      invariant shown != threads ==> shrink == MAX_SHRINK && 5 * overhead(threads, MAX_SHRINK) > 3 * total
      invariant FairlyDropped(threads, shown)
      decreases |shown|
    {
      DropFair(threads, shown);
      var fewer := DropOne(shown);
      if |fewer| == |shown| { break; }
      shown := fewer;
      cost := overhead(shown, shrink);
    }
  }

  // ---------------------------------------------------------------------
  // The prompts of a batch
  // ---------------------------------------------------------------------

  function LinesIn(ms: seq<Message>, chunk: seq<nat>): (r: seq<string>)
    requires forall k | 0 <= k < |chunk| :: chunk[k] < |ms|
    ensures |r| == |chunk|
  {
    if chunk == [] then [] else [ms[chunk[0]].line] + LinesIn(ms, chunk[1..])
  }

  lemma {:induction false} LinesCost(ms: seq<Message>, chunk: seq<nat>)
    requires forall k | 0 <= k < |chunk| :: chunk[k] < |ms|
    ensures LineCosts(LinesIn(ms, chunk)) == ChunkCost(ms, chunk)
  {
    hide EstimateTokens;
    if chunk != [] {
      LinesCost(ms, chunk[1..]);
      assert LinesIn(ms, chunk)[1..] == LinesIn(ms, chunk[1..]);
    }
  }

  /** The text around the messages in the first prompt of each round: what is left
      of the context once squeezed. */
  datatype Around = Around(head: string, middle: string)

  /** Squeezing stopped at a fit, or with nothing left to drop. */
  predicate SqueezedTo(a: Around, system: string, total: nat, smallest: bool) {
    5 * Overhead(system, a.head, a.middle) <= 3 * total || smallest
  }

  /** In a batch whose chunks get what squeezing leaves them, the first prompt of
      each round keeps to the total, unless the smallest context there is takes
      more than its share, or one message alone more than its chunk may. */
  lemma BatchPromptsFit(ms: seq<Message>, rounds: seq<Round>, budget: nat -> int, most: int, system: string,
      around: nat -> Around, smallest: nat -> bool, total: nat)
    requires InBatch(ms, rounds) && RoundsFit(ms, rounds, budget, most)
    requires forall n | 0 <= n < |rounds| ::
               && SqueezedTo(around(n), system, total, smallest(n))
               && budget(n) == MessageBudget(total, Overhead(system, around(n).head, around(n).middle))
    ensures forall n | 0 <= n < |rounds| ::
              (rounds[n] in rounds)
              && (smallest(n) || (|rounds[n].chunk| == 1 && ChunkCost(ms, rounds[n].chunk) > budget(n))
                  || EstimateTokens(system + Prompt(around(n).head, around(n).middle, LinesIn(ms, rounds[n].chunk)))
                     <= total)
  {
    hide EstimateTokens, Overhead, Prompt, MessageBudget;
    forall n | 0 <= n < |rounds|
      ensures rounds[n] in rounds
      ensures smallest(n) || (|rounds[n].chunk| == 1 && ChunkCost(ms, rounds[n].chunk) > budget(n))
              || EstimateTokens(system + Prompt(around(n).head, around(n).middle, LinesIn(ms, rounds[n].chunk)))
                 <= total
    {
      var chunk := rounds[n].chunk;
      assert ChunkFits(ms, chunk, budget(n), most);
      LinesCost(ms, chunk);
      if !smallest(n) && ChunkCost(ms, chunk) <= budget(n) {
        PromptWithinTotal(system, around(n).head, around(n).middle, LinesIn(ms, chunk), total);
      }
    }
  }
}
