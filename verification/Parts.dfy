/** Parts of a sequence, told by the places they stand at. */
module Parts {

  /** `part` is what stands at the places `at` of `whole`, in order. */
  predicate PartOf<T(==)>(part: seq<T>, whole: seq<T>, at: seq<nat>) {
    && |at| == |part|
    && (forall n | 0 <= n < |at| :: at[n] < |whole| && part[n] == whole[at[n]])
    && forall m, n | 0 <= m < n < |at| :: at[m] < at[n]
  }

  function Shifted(at: seq<nat>): seq<nat> { seq(|at|, n requires 0 <= n < |at| => at[n] + 1) }

  lemma PartShifts<T>(x: T, part: seq<T>, whole: seq<T>, at: seq<nat>)
    requires PartOf(part, whole, at)
    ensures PartOf(part, [x] + whole, Shifted(at))
  {}

  lemma PartGrows<T>(x: T, part: seq<T>, whole: seq<T>, at: seq<nat>)
    requires PartOf(part, whole, at)
    ensures PartOf([x] + part, [x] + whole, [0] + Shifted(at))
  {
    PartShifts(x, part, whole, at);
  }

  lemma ShiftedIn(at: seq<nat>, i: nat)
    ensures i in Shifted(at) <==> i > 0 && i - 1 in at
  {
    if i > 0 && i - 1 in at { ShiftedHas(at, i); }
  }

  /** A part of the rest of a list, and one that has the head too. */
  lemma PartOfTail<T>(x: T, part: seq<T>, whole: seq<T>, at: seq<nat>)
    requires PartOf(part, whole, at)
    ensures PartOf(part, [x] + whole, Shifted(at)) && PartOf([x] + part, [x] + whole, [0] + Shifted(at))
    ensures forall i: nat :: (i in Shifted(at) <==> i > 0 && i - 1 in at)
                             && (i in [0] + Shifted(at) <==> i == 0 || i - 1 in at)
  {
    hide PartOf, Shifted;
    PartShifts(x, part, whole, at);
    PartGrows(x, part, whole, at);
    forall i: nat ensures i in Shifted(at) <==> i > 0 && i - 1 in at { ShiftedIn(at, i); }
  }

  lemma ShiftedHas(at: seq<nat>, i: nat)
    requires i > 0 && i - 1 in at
    ensures i in Shifted(at)
  {
    var n :| 0 <= n < |at| && at[n] == i - 1;
    assert Shifted(at)[n] == i;
  }

  /** The places of a part of a part. */
  function Through(outer: seq<nat>, inner: seq<nat>): seq<nat>
    requires forall n | 0 <= n < |inner| :: inner[n] < |outer|
  {
    seq(|inner|, n requires 0 <= n < |inner| => outer[inner[n]])
  }

  /** The places `a` of the rest of a list, and 0 if its head counts. */
  function Places(head: bool, a: seq<nat>): seq<nat> { (if head then [0] else []) + Shifted(a) }

  lemma PlacesAre(head: bool, a: seq<nat>)
    ensures |Places(head, a)| == |a| + (if head then 1 else 0)
    ensures forall n | 0 <= n < |a| :: Places(head, a)[n + if head then 1 else 0] == a[n] + 1
    ensures head ==> Places(head, a)[0] == 0
    ensures forall k: nat :: k in Places(head, a) <==> (k == 0 && head) || (k > 0 && k - 1 in a)
  {
    forall k: nat | k > 0 && k - 1 in a ensures k in Shifted(a) { ShiftedHas(a, k); }
    forall k: nat | k in Shifted(a) ensures k > 0 && k - 1 in a {}
  }

  lemma PlacesGrow(head: bool, a: seq<nat>, m: nat, n: nat)
    requires m < n < |Places(head, a)| && forall j, k | 0 <= j < k < |a| :: a[j] < a[k]
    ensures Places(head, a)[m] < Places(head, a)[n]
  {}
}
