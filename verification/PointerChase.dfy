/**
 The access patterns of the memory latency benchmark: an array of indices is
 filled by Sattolo's shuffle, and the benchmark then follows the indices.
 */
module PointerChase {

  /** `steps` times `current = memory[current]`. */
  function Chase(memory: seq<nat>, start: nat, steps: nat): nat
    decreases steps
  {
    if steps == 0 then start
    else if start < |memory| then Chase(memory, memory[start], steps - 1)
    else start
  }

  /** The cell of element i when elements lie `inc` cells apart. */
  function Cell(i: nat, inc: nat): nat {
    i * inc
  }

  /**
   Following the indices from element `s` touches each of the `n` elements,
   spaced `inc` cells apart, exactly once and then is back at `s`.
   */
  ghost predicate TourFrom(memory: seq<nat>, inc: nat, n: nat, s: nat) {
    && (forall k :: 0 <= k < n ==> OnStride(Chase(memory, Cell(s, inc), k), inc, n))
    && (forall i, j :: 0 <= i < j < n ==> Chase(memory, Cell(s, inc), i) != Chase(memory, Cell(s, inc), j))
    && (forall t :: 0 <= t < n ==> Touches(memory, inc, n, s, t))
    && Chase(memory, Cell(s, inc), n) == Cell(s, inc)
  }

  ghost predicate OnStride(x: nat, inc: nat, n: nat) {
    exists i :: 0 <= i < n && x == Cell(i, inc)
  }

  ghost predicate Touches(memory: seq<nat>, inc: nat, n: nat, s: nat, t: nat) {
    exists k :: 0 <= k < n && Chase(memory, Cell(s, inc), k) == Cell(t, inc)
  }

  /** The same for a plain pattern, whose elements lie next to each other. */
  ghost predicate PlainTour(p: seq<nat>, s: nat) {
    && (forall k :: 0 <= k < |p| ==> Chase(p, s, k) < |p|)
    && (forall i, j :: 0 <= i < j < |p| ==> Chase(p, s, i) != Chase(p, s, j))
    && (forall t :: 0 <= t < |p| ==> Reached(p, s, t))
    && Chase(p, s, |p|) == s
  }

  ghost predicate Reached(p: seq<nat>, s: nat, t: nat) {
    exists k :: 0 <= k < |p| && Chase(p, s, k) == t
  }

  /** The `n` elements form one single cycle. */
  ghost predicate OneCycle(memory: seq<nat>, inc: nat, n: nat) {
    forall s :: 0 <= s < n ==> TourFrom(memory, inc, n, s)
  }

  // ------------------------------------------------------ cycles of a pattern

  function Next(t: nat, len: nat): nat {
    if t + 1 == len then 0 else t + 1
  }

  /** `c` lists a cycle of the pattern `p`. */
  ghost predicate IsCycle(p: seq<nat>, c: seq<nat>) {
    && |c| > 0
    && forall t :: 0 <= t < |c| ==> c[t] < |p| && p[c[t]] == c[Next(t, |c|)]
  }

  /** Where an element sits: the number of its cycle and its place in it. */
  datatype Place = Place(cycle: nat, at: nat)

  /**
   The cycles of `p`: as many as `cs` lists, cycle number k starting at element
   k, each element of the pattern in exactly one place.
   */
  ghost predicate Decomposes(p: seq<nat>, cs: seq<seq<nat>>, place: seq<Place>) {
    && |place| == |p|
    && HasCycles(p, cs)
    && PlacesKnown(cs, place)
    && AllPlaced(cs, place)
  }

  ghost predicate HasCycles(p: seq<nat>, cs: seq<seq<nat>>) {
    forall k :: 0 <= k < |cs| ==> IsCycle(p, cs[k]) && cs[k][0] == k
  }

  ghost predicate PlacesKnown(cs: seq<seq<nat>>, place: seq<Place>) {
    forall k, t :: 0 <= k < |cs| && 0 <= t < |cs[k]| ==> cs[k][t] < |place| && place[cs[k][t]] == Place(k, t)
  }

  ghost predicate AllPlaced(cs: seq<seq<nat>>, place: seq<Place>) {
    forall x :: 0 <= x < |place| ==> Located(cs, place[x], x)
  }

  ghost predicate Located(cs: seq<seq<nat>>, at: Place, x: nat) {
    at.cycle < |cs| && at.at < |cs[at.cycle]| && cs[at.cycle][at.at] == x
  }

  function Identity(n: nat): seq<nat> {
    seq(n, i => i)
  }

  function Singletons(n: nat): seq<seq<nat>> {
    seq(n, (i: nat) => [i])
  }

  function Origins(n: nat): seq<Place> {
    seq(n, (i: nat) => Place(i, 0))
  }

  lemma IdentityDecomposes(n: nat)
    ensures Decomposes(Identity(n), Singletons(n), Origins(n))
  {
  }

  function Merged(a: seq<nat>, b: seq<nat>): seq<nat>
    requires |a| > 0 && |b| > 0
  {
    [b[0]] + a[1..] + [a[0]] + b[1..]
  }

  function Swapped(p: seq<nat>, i: nat, j: nat): seq<nat>
    requires i < |p| && j < |p|
  {
    p[i := p[j]][j := p[i]]
  }

  /** Swapping the successors of two elements on different cycles joins the cycles. */
  lemma MergedIsCycle(p: seq<nat>, a: seq<nat>, b: seq<nat>)
    requires IsCycle(p, a) && IsCycle(p, b)
    requires forall t :: 0 <= t < |a| ==> a[t] !in b
    requires forall s, t :: 0 <= s < t < |a| ==> a[s] != a[t]
    requires forall s, t :: 0 <= s < t < |b| ==> b[s] != b[t]
    ensures IsCycle(Swapped(p, a[0], b[0]), Merged(a, b))
  {
    var q, m := Swapped(p, a[0], b[0]), Merged(a, b);
    assert b[0] in b;
    forall t | 0 <= t < |m|
      ensures m[t] < |q| && q[m[t]] == m[Next(t, |m|)]
    {
      if 0 < t < |a| {
        assert m[t] == a[t];
      } else if t > |a| {
        var s := t - |a|;
        assert m[t] == b[s] && b[s] in b && b[s] != a[0];
      }
    }
  }

  function MovedPlace(w: Place, i: nat, j: nat, aLen: nat): Place {
    if w.cycle == i then Place(j, if w.at == 0 then aLen else w.at)
    else if w.cycle == j then Place(j, if w.at == 0 then 0 else aLen + w.at)
    else w
  }

  function JoinLast(cs: seq<seq<nat>>, j: nat): seq<seq<nat>>
    requires |cs| >= 2 && j < |cs| - 1 && |cs[|cs| - 1]| > 0 && |cs[j]| > 0
  {
    cs[..|cs| - 1][j := Merged(cs[|cs| - 1], cs[j])]
  }

  function MovedPlaces(place: seq<Place>, i: nat, j: nat, aLen: nat): seq<Place> {
    seq(|place|, x requires 0 <= x < |place| => MovedPlace(place[x], i, j, aLen))
  }

  /** One step of the shuffle: the last remaining cycle is joined to an earlier one. */
  lemma SwapMerges(p: seq<nat>, cs: seq<seq<nat>>, place: seq<Place>, j: nat)
    returns (cs': seq<seq<nat>>, place': seq<Place>)
    requires Decomposes(p, cs, place)
    requires |cs| >= 2 && j < |cs| - 1 && |cs| <= |p|
    ensures |cs'| == |cs| - 1
    ensures Decomposes(Swapped(p, |cs| - 1, j), cs', place')
  {
    NonEmpty(p, cs);
    var i := |cs| - 1;
    cs', place' := JoinLast(cs, j), MovedPlaces(place, i, j, |cs[i]|);
    hide HasCycles, PlacesKnown, AllPlaced, MovedPlace;
    MergedCycles(p, cs, place, j);
    MergedKnown(cs, place, j);
    MergedPlaced(cs, place, j);
  }

  lemma NonEmpty(p: seq<nat>, cs: seq<seq<nat>>)
    requires HasCycles(p, cs)
    ensures forall k :: 0 <= k < |cs| ==> |cs[k]| > 0
  {
  }

  lemma MergedKnown(cs: seq<seq<nat>>, place: seq<Place>, j: nat)
    requires |cs| >= 2 && j < |cs| - 1 && |cs[|cs| - 1]| > 0 && |cs[j]| > 0
    requires PlacesKnown(cs, place)
    ensures PlacesKnown(JoinLast(cs, j), MovedPlaces(place, |cs| - 1, j, |cs[|cs| - 1]|))
  {
    var i := |cs| - 1;
    var cs', place' := JoinLast(cs, j), MovedPlaces(place, i, j, |cs[i]|);
    hide Merged;
    forall k, t | 0 <= k < |cs'| && 0 <= t < |cs'[k]|
      ensures cs'[k][t] < |place'| && place'[cs'[k][t]] == Place(k, t)
    {
      if k == j {
        MergedPlaces(cs, place, i, j, t);
      } else {
        assert cs'[k] == cs[k];
        assert place[cs[k][t]] == Place(k, t);
      }
    }
  }

  lemma MergedPlaced(cs: seq<seq<nat>>, place: seq<Place>, j: nat)
    requires |cs| >= 2 && j < |cs| - 1 && |cs[|cs| - 1]| > 0 && |cs[j]| > 0
    requires AllPlaced(cs, place)
    ensures AllPlaced(JoinLast(cs, j), MovedPlaces(place, |cs| - 1, j, |cs[|cs| - 1]|))
  {
    var place' := MovedPlaces(place, |cs| - 1, j, |cs[|cs| - 1]|);
    forall x | 0 <= x < |place'|
      ensures Located(JoinLast(cs, j), place'[x], x)
    {
      hide Located;
      assert Located(cs, place[x], x);
      MovedLocated(cs, place[x], x, j);
    }
  }

  lemma MergedCycles(p: seq<nat>, cs: seq<seq<nat>>, place: seq<Place>, j: nat)
    requires Decomposes(p, cs, place)
    requires |cs| >= 2 && j < |cs| - 1 && |cs| <= |p|
    requires |cs[|cs| - 1]| > 0 && |cs[j]| > 0
    ensures HasCycles(Swapped(p, |cs| - 1, j), JoinLast(cs, j))
  {
    var i := |cs| - 1;
    assert cs[i][0] == i && cs[j][0] == j;
    SeparateCycles(cs, place, i, j);
    MergedIsCycle(p, cs[i], cs[j]);
    var cs' := JoinLast(cs, j);
    forall k | 0 <= k < |cs'|
      ensures IsCycle(Swapped(p, i, j), cs'[k]) && cs'[k][0] == k
    {
      hide IsCycle, Swapped, PlacesKnown, AllPlaced;
      if k != j {
        KeepsCycle(p, cs, place, k, i, j);
      }
    }
  }

  lemma SeparateCycles(cs: seq<seq<nat>>, place: seq<Place>, i: nat, j: nat)
    requires PlacesKnown(cs, place) && i < |cs| && j < |cs| && i != j
    ensures forall t :: 0 <= t < |cs[i]| ==> cs[i][t] !in cs[j]
    ensures forall s, t :: 0 <= s < t < |cs[i]| ==> cs[i][s] != cs[i][t]
    ensures forall s, t :: 0 <= s < t < |cs[j]| ==> cs[j][s] != cs[j][t]
  {
  }

  lemma MovedLocated(cs: seq<seq<nat>>, w: Place, x: nat, j: nat)
    requires |cs| >= 2 && j < |cs| - 1 && |cs[|cs| - 1]| > 0 && |cs[j]| > 0
    requires Located(cs, w, x)
    ensures Located(JoinLast(cs, j), MovedPlace(w, |cs| - 1, j, |cs[|cs| - 1]|), x)
  {
  }

  lemma KeepsCycle(p: seq<nat>, cs: seq<seq<nat>>, place: seq<Place>, k: nat, i: nat, j: nat)
    requires Decomposes(p, cs, place)
    requires k < |cs| && i < |cs| && j < |cs| && k != i && k != j
    ensures i < |p| && j < |p| && IsCycle(Swapped(p, i, j), cs[k])
  {
    assert cs[i][0] == i && cs[j][0] == j;
    forall t | 0 <= t < |cs[k]|
      ensures cs[k][t] != i && cs[k][t] != j
    {
      assert place[cs[k][t]] == Place(k, t);
    }
  }

  lemma MergedPlaces(cs: seq<seq<nat>>, place: seq<Place>, i: nat, j: nat, t: nat)
    requires j < i < |cs| && |cs[i]| > 0 && |cs[j]| > 0
    requires PlacesKnown(cs, place)
    requires t < |Merged(cs[i], cs[j])|
    ensures var x := Merged(cs[i], cs[j])[t];
            x < |place| && MovedPlace(place[x], i, j, |cs[i]|) == Place(j, t)
  {
    var a, b := cs[i], cs[j];
    var x := Merged(a, b)[t];
    if t == 0 {
      assert x == b[0];
    } else if t < |a| {
      assert x == a[t];
    } else if t == |a| {
      assert x == a[0];
    } else {
      assert x == b[t - |a|];
    }
  }

  // --------------------------------------------------------- the last cycle

  lemma {:induction false} ListOfAll(c: seq<nat>, n: nat)
    requires forall t :: 0 <= t < |c| ==> c[t] < n
    requires forall s, t :: 0 <= s < t < |c| ==> c[s] != c[t]
    requires forall x :: 0 <= x < n ==> x in c
    ensures |c| == n
  {
    if n > 0 {
      assert n - 1 in c;
      var t :| 0 <= t < |c| && c[t] == n - 1;
      var d := c[..t] + c[t + 1..];
      forall x | 0 <= x < n - 1
        ensures x in d
      {
        assert x in c;
        var u :| 0 <= u < |c| && c[u] == x;
        assert if u < t then d[u] == x else d[u - 1] == x;
      }
      ListOfAll(d, n - 1);
    }
  }

  /** Walking a cycle from its place t. */
  lemma {:induction false} ChaseOnCycle(p: seq<nat>, c: seq<nat>, t: nat, k: nat)
    requires IsCycle(p, c) && t < |c| && k <= |c|
    ensures Chase(p, c[t], k) == c[Wrap(t + k, |c|)]
    decreases k
  {
    if k > 0 {
      ChaseOnCycle(p, c, Next(t, |c|), k - 1);
    }
  }

  /** Once a single cycle is left, it holds every element. */
  lemma LastCycleHoldsAll(p: seq<nat>, cs: seq<seq<nat>>, place: seq<Place>)
    requires Decomposes(p, cs, place) && |cs| == 1
    ensures |cs[0]| == |p|
    ensures forall x :: 0 <= x < |p| ==> x in cs[0]
    ensures forall s, t :: 0 <= s < t < |cs[0]| ==> cs[0][s] != cs[0][t]
  {
    var c := cs[0];
    forall s, t | 0 <= s < t < |c|
      ensures c[s] != c[t]
    {
      assert place[c[s]] == Place(0, s) && place[c[t]] == Place(0, t);
    }
    forall x | 0 <= x < |p|
      ensures x in c
    {
      assert Located(cs, place[x], x);
    }
    ListOfAll(c, |p|);
  }

  function Wrap(i: nat, n: nat): nat
    requires n > 0
  {
    if i < n then i else i - n
  }

  /** A list of all elements that is a cycle makes every chase a tour. */
  lemma CycleOfAllIsTour(p: seq<nat>, c: seq<nat>, s: nat)
    requires IsCycle(p, c) && |c| == |p|
    requires forall x :: 0 <= x < |p| ==> x in c
    requires forall i, j :: 0 <= i < j < |c| ==> c[i] != c[j]
    requires s < |p|
    ensures PlainTour(p, s)
  {
    var n := |p|;
    assert s in c;
    var t :| 0 <= t < n && c[t] == s;
    assert forall k :: 0 <= k < n ==> c[k] < n;
    hide Chase, IsCycle, Wrap;
    forall k | 0 <= k <= n
      ensures Wrap(t + k, n) < n && Chase(p, s, k) == c[Wrap(t + k, n)]
    {
      ChaseOnCycle(p, c, t, k);
    }
    forall i, j | 0 <= i < j < n
      ensures Chase(p, s, i) != Chase(p, s, j)
    {
      WrapDistinct(t, i, j, n);
    }
    forall u | 0 <= u < n
      ensures Reached(p, s, u)
    {
      assert u in c;
      var v :| 0 <= v < n && c[v] == u;
      var k := WrapReaches(t, v, n);
      assert Chase(p, s, k) == u;
    }
    WrapReturns(t, n);
  }

  lemma WrapDistinct(t: nat, i: nat, j: nat, n: nat)
    requires t < n && i < j < n
    ensures Wrap(t + i, n) != Wrap(t + j, n)
  {
  }

  lemma WrapReaches(t: nat, v: nat, n: nat) returns (k: nat)
    requires t < n && v < n
    ensures k < n && Wrap(t + k, n) == v
  {
    k := if t <= v then v - t else v - t + n;
  }

  lemma WrapReturns(t: nat, n: nat)
    requires t < n
    ensures Wrap(t + n, n) == t
  {
  }

  /** The result of the shuffle on a plain pattern. */
  lemma ShuffledTours(p: seq<nat>, cs: seq<seq<nat>>, place: seq<Place>, s: nat)
    requires Decomposes(p, cs, place) && |cs| == 1
    requires s < |p|
    ensures PlainTour(p, s)
  {
    LastCycleHoldsAll(p, cs, place);
    CycleOfAllIsTour(p, cs[0], s);
  }

  // ---------------------------------------------------------- strided arrays

  lemma StrideDistinct(i: nat, j: nat, inc: nat)
    requires inc > 0 && i != j
    ensures Cell(i, inc) != Cell(j, inc)
  {
  }

  lemma StrideBound(i: nat, n: nat, inc: nat)
    requires i < n
    ensures Cell(i, inc) + inc <= n * inc
  {
    assert (i + 1) * inc <= n * inc;
  }

  /** The memory holds pattern `p` spread `inc` cells apart. */
  ghost predicate Spread(memory: seq<nat>, inc: nat, p: seq<nat>) {
    forall i :: 0 <= i < |p| ==> Cell(i, inc) < |memory| && memory[Cell(i, inc)] == Cell(p[i], inc)
  }

  lemma Stride(i: nat, inc: nat, n: nat)
    requires i < n
    ensures OnStride(Cell(i, inc), inc, n)
  {
  }

  lemma {:induction false} ChaseSpread(memory: seq<nat>, inc: nat, p: seq<nat>, s: nat, k: nat)
    requires Spread(memory, inc, p)
    requires forall i :: 0 <= i < |p| ==> p[i] < |p|
    requires s < |p|
    ensures Chase(p, s, k) < |p|
    ensures Chase(memory, Cell(s, inc), k) == Cell(Chase(p, s, k), inc)
    decreases k
  {
    if k > 0 {
      assert memory[Cell(s, inc)] == Cell(p[s], inc);
      ChaseSpread(memory, inc, p, p[s], k - 1);
    }
  }

  /** Spreading a pattern keeps its tours. */
  lemma SpreadKeepsTour(memory: seq<nat>, inc: nat, p: seq<nat>, s: nat)
    requires inc > 0
    requires Spread(memory, inc, p)
    requires forall i :: 0 <= i < |p| ==> p[i] < |p|
    requires s < |p| && PlainTour(p, s)
    ensures TourFrom(memory, inc, |p|, s)
  {
    hide Chase, Spread, Cell;
    var n := |p|;
    forall k: nat
      ensures Chase(memory, Cell(s, inc), k) == Cell(Chase(p, s, k), inc)
    {
      ChaseSpread(memory, inc, p, s, k);
    }
    forall i, j | 0 <= i < j < n
      ensures Chase(memory, Cell(s, inc), i) != Chase(memory, Cell(s, inc), j)
    {
      StrideDistinct(Chase(p, s, i), Chase(p, s, j), inc);
    }
    forall t | 0 <= t < n
      ensures Touches(memory, inc, n, s, t)
    {
      assert Reached(p, s, t);
      var k :| 0 <= k < n && Chase(p, s, k) == t;
      assert Chase(memory, Cell(s, inc), k) == Cell(t, inc);
    }
    forall k | 0 <= k < n
      ensures OnStride(Chase(memory, Cell(s, inc), k), inc, n)
    {
      Stride(Chase(p, s, k), inc, n);
    }
  }

  /** With stride 1 the two readings of a tour agree. */
  lemma UnitTour(p: seq<nat>, s: nat)
    requires s < |p| && TourFrom(p, 1, |p|, s)
    ensures PlainTour(p, s)
  {
    hide Chase;
    assert Cell(s, 1) == s;
    forall k | 0 <= k < |p|
      ensures Chase(p, s, k) < |p|
    {
      assert OnStride(Chase(p, Cell(s, 1), k), 1, |p|);
    }
    forall i, j | 0 <= i < j < |p|
      ensures Chase(p, s, i) != Chase(p, s, j)
    {
      assert Chase(p, Cell(s, 1), i) != Chase(p, Cell(s, 1), j);
    }
    forall t | 0 <= t < |p|
      ensures Reached(p, s, t)
    {
      assert Touches(p, 1, |p|, s, t);
      var k :| 0 <= k < |p| && Chase(p, Cell(s, 1), k) == Cell(t, 1);
      assert Chase(p, s, k) == t;
    }
  }

  // ------------------------------------------------------------- the shuffle

  lemma SpreadSwap(memory: seq<nat>, inc: nat, p: seq<nat>, i: nat, j: nat)
    requires inc > 0 && Spread(memory, inc, p) && j < i < |p|
    ensures Cell(i, inc) < |memory| && Cell(j, inc) < |memory|
    ensures Spread(memory[Cell(i, inc) := memory[Cell(j, inc)]][Cell(j, inc) := memory[Cell(i, inc)]], inc, Swapped(p, i, j))
  {
    assert memory[Cell(i, inc)] == Cell(p[i], inc) && memory[Cell(j, inc)] == Cell(p[j], inc);
    var q := Swapped(p, i, j);
    var after := memory[Cell(i, inc) := memory[Cell(j, inc)]][Cell(j, inc) := memory[Cell(i, inc)]];
    forall k | 0 <= k < |q|
      ensures Cell(k, inc) < |after| && after[Cell(k, inc)] == Cell(q[k], inc)
    {
      assert memory[Cell(k, inc)] == Cell(p[k], inc);
      if k != i { StrideDistinct(k, i, inc); }
      if k != j { StrideDistinct(k, j, inc); }
    }
  }

  /** Swaps the contents of two elements; nothing off the stride changes. */
  method SwapElements(a: array<nat>, inc: nat, n: nat, i: nat, j: nat, ghost p: seq<nat>)
    requires inc > 0 && j < i < n == |p| && Spread(a[..], inc, p)
    modifies a
    ensures Spread(a[..], inc, Swapped(p, i, j))
    ensures forall x :: 0 <= x < a.Length && !OnStride(x, inc, n) ==> a[x] == old(a[x])
  {
    hide Spread, Swapped, OnStride;
    SpreadSwap(a[..], inc, p, i, j);
    Stride(i, inc, n);
    Stride(j, inc, n);
    var x, y := Cell(i, inc), Cell(j, inc);
    ghost var before := a[..];
    var tmp := a[x];
    a[x] := a[y];
    a[y] := tmp;
    assert a[..] == before[x := before[y]][y := before[x]];
  }

  /** The element drawn for position i: below i - 1, or 0 if there is no choice. */
  function Draw(rand: nat -> nat, calls: nat, i: nat): nat
    requires i > 0
  {
    if i == 1 then 0 else rand(calls) % (i - 1)
  }

  /** The pattern that the draws leave, from position `iter - 1` down. */
  function Drawn(p: seq<nat>, iter: nat, rand: nat -> nat, calls: nat): (q: seq<nat>)
    requires iter <= |p|
    ensures |q| == |p|
    decreases iter
  {
    if iter <= 1 then p
    else Drawn(Swapped(p, iter - 1, Draw(rand, calls, iter - 1)), iter - 1, rand, if iter == 2 then calls else calls + 1)
  }

  /** Positions the shuffle has passed do not change any more. */
  lemma {:induction false} DrawnKeeps(p: seq<nat>, iter: nat, rand: nat -> nat, calls: nat, k: nat)
    requires iter <= k < |p|
    ensures Drawn(p, iter, rand, calls)[k] == p[k]
    decreases iter
  {
    if iter > 1 {
      DrawnKeeps(Swapped(p, iter - 1, Draw(rand, calls, iter - 1)), iter - 1, rand, if iter == 2 then calls else calls + 1, k);
    }
  }

  /** Every draw shows in the result: position iter - 1 ends up with the element drawn for it. */
  lemma DrawShows(p: seq<nat>, iter: nat, rand: nat -> nat, calls: nat)
    requires 2 <= iter <= |p|
    ensures Drawn(p, iter, rand, calls)[iter - 1] == p[if iter == 2 then 0 else rand(calls) % (iter - 2)]
  {
    DrawnKeeps(Swapped(p, iter - 1, Draw(rand, calls, iter - 1)), iter - 1, rand, if iter == 2 then calls else calls + 1, iter - 1);
  }

  /**
   Fills `n` elements, `inc` cells apart, with the identity and shuffles them.
   `rand(c)` is the result of the c-th call of the random generator, so the
   claim holds for every generator. The shuffle draws below `iter - 1`, not
   below `iter` as the textbook does; one cycle results all the same.
   */
  method Shuffle(a: array<nat>, inc: nat, n: nat, rand: nat -> nat)
    requires inc > 0 && n * inc <= a.Length
    modifies a
    ensures OneCycle(a[..], inc, n)
    ensures Spread(a[..], inc, Drawn(Identity(n), n, rand, 0))
    ensures forall x :: 0 <= x < a.Length && !OnStride(x, inc, n) ==> a[x] == old(a[x])
  {
    hide Decomposes, Spread, OneCycle, OnStride, TourFrom, Swapped;
    FillIdentity(a, inc, n);
    ghost var p := Identity(n);
    ghost var cs: seq<seq<nat>> := Singletons(n);
    ghost var place := Origins(n);
    IdentityDecomposes(n);
    var iter := n;
    var calls := 0;
    while iter > 1
      invariant n == 0 || 1 <= iter <= n
      invariant |p| == n && |cs| == iter
      invariant Decomposes(p, cs, place)
      invariant Spread(a[..], inc, p)
      invariant Drawn(p, iter, rand, calls) == Drawn(Identity(n), n, rand, 0)
      invariant forall x :: 0 <= x < a.Length && !OnStride(x, inc, n) ==> a[x] == old(a[x])
    {
      iter := iter - 1;
      var j := 0;
      if iter - 1 != 0 {
        j := rand(calls) % (iter - 1);
        calls := calls + 1;
      }
      SwapElements(a, inc, n, iter, j, p);
      cs, place := SwapMerges(p, cs, place, j);
      p := Swapped(p, iter, j);
    }
    if n > 0 {
      ShuffledIsOneCycle(a[..], inc, p, cs, place);
    } else {
      NothingIsOneCycle(a[..], inc);
    }
  }

  lemma NothingIsOneCycle(memory: seq<nat>, inc: nat)
    ensures OneCycle(memory, inc, 0)
  {
  }

  lemma ShuffledIsOneCycle(memory: seq<nat>, inc: nat, p: seq<nat>, cs: seq<seq<nat>>, place: seq<Place>)
    requires inc > 0
    requires Decomposes(p, cs, place) && |cs| == 1
    requires Spread(memory, inc, p)
    ensures OneCycle(memory, inc, |p|)
  {
    hide Decomposes, Spread, TourFrom;
    DecomposedRange(p, cs, place);
    forall s | 0 <= s < |p|
      ensures TourFrom(memory, inc, |p|, s)
    {
      ShuffledTours(p, cs, place, s);
      SpreadKeepsTour(memory, inc, p, s);
    }
  }

  lemma DecomposedRange(p: seq<nat>, cs: seq<seq<nat>>, place: seq<Place>)
    requires Decomposes(p, cs, place)
    ensures forall x :: 0 <= x < |p| ==> p[x] < |p|
  {
    forall x | 0 <= x < |p|
      ensures p[x] < |p|
    {
      assert Located(cs, place[x], x);
      var c := cs[place[x].cycle];
      assert c[Next(place[x].at, |c|)] < |p|;
    }
  }

  method FillIdentity(a: array<nat>, inc: nat, n: nat)
    requires inc > 0 && n * inc <= a.Length
    modifies a
    ensures Spread(a[..], inc, Identity(n))
    ensures forall x :: 0 <= x < a.Length && !OnStride(x, inc, n) ==> a[x] == old(a[x])
  {
    for i := 0 to n
      invariant forall k :: 0 <= k < i ==> Cell(k, inc) < a.Length && a[Cell(k, inc)] == Cell(k, inc)
      invariant forall x :: 0 <= x < a.Length && !OnStride(x, inc, n) ==> a[x] == old(a[x])
    {
      StrideBound(i, n, inc);
      assert OnStride(Cell(i, inc), inc, n);
      forall k | 0 <= k < i
        ensures Cell(k, inc) != Cell(i, inc)
      {
        StrideDistinct(k, i, inc);
      }
      a[Cell(i, inc)] := Cell(i, inc);
    }
  }

  const TWO_31: nat := 0x8000_0000
  const TWO_32: nat := 0x1_0000_0000

  function Increment(byteIncrement: nat, wordBytes: nat): nat
    requires wordBytes > 0
  {
    byteIncrement / wordBytes % TWO_32
  }

  function ElementCount(listSize: nat, increment: nat): nat
    requires increment > 0
  {
    listSize / increment % TWO_32
  }

  lemma ElementsFit(listSize: nat, increment: nat)
    requires increment > 0
    ensures ElementCount(listSize, increment) * increment <= listSize
    ensures listSize < TWO_32 ==> listSize - ElementCount(listSize, increment) * increment < increment
  {
    assert listSize < TWO_32 ==> listSize / increment < TWO_32;
    var q := listSize / increment;
    assert ElementCount(listSize, increment) <= q;
    assert q * increment <= listSize;
    assert ElementCount(listSize, increment) * increment <= q * increment;
  }

  lemma StrideInBytes(byteIncrement: nat, wordBytes: nat)
    requires wordBytes == 4 || wordBytes == 8
    ensures byteIncrement < TWO_32 && byteIncrement % wordBytes == 0 ==> Increment(byteIncrement, wordBytes) * wordBytes == byteIncrement
  {
  }

  /**
   FillPatternArr (word size 4) and FillPatternArr64 (word size 8). The elements
   lie the requested number of bytes apart, and the tour over them leaves less
   than one stride of the list uncovered. The source
   counts elements in an `int` and computes indices in 32 bits, hence the last
   two preconditions.
   */
  method FillPatternArr(a: array<nat>, listSize: nat, byteIncrement: nat, wordBytes: nat, rand: nat -> nat)
    requires wordBytes == 4 || wordBytes == 8
    requires listSize <= a.Length
    requires Increment(byteIncrement, wordBytes) > 0
    requires ElementCount(listSize, Increment(byteIncrement, wordBytes)) < TWO_31
    requires listSize <= TWO_32
    modifies a
    ensures var inc := Increment(byteIncrement, wordBytes);
            && OneCycle(a[..], inc, ElementCount(listSize, inc))
            && (listSize < TWO_32 ==> listSize - ElementCount(listSize, inc) * inc < inc)
            && (byteIncrement < TWO_32 && byteIncrement % wordBytes == 0 ==> inc * wordBytes == byteIncrement)
  {
    StrideInBytes(byteIncrement, wordBytes);
    hide OneCycle, Spread;
    var increment := byteIncrement / wordBytes % TWO_32;
    var elementCount := listSize / increment % TWO_32;
    ElementsFit(listSize, increment);
    Shuffle(a, increment, elementCount, rand);
  }

  // ---------------------------------------------------------- the TLB variant

  const PAGE_INCREMENT: nat := 1024

  /** One slot per page, each a cache line further into its page. */
  function Slot(i: nat): (r: nat)
    ensures r / PAGE_INCREMENT == i
  {
    i * PAGE_INCREMENT + i * 16 % PAGE_INCREMENT
  }

  /** The cache line of a slot within its page. */
  function CacheLine(cell: nat): nat {
    cell % 1024 / 16
  }

  lemma SlotLine(i: nat)
    ensures Slot(i) == 1024 * i + i % 64 * 16 && CacheLine(Slot(i)) == i % 64
  {
    var q, r := i / 64, i % 64;
    assert i * 16 == 1024 * q + 16 * r;
  }

  /** From page to page the slots move on by one cache line, round the 64 lines of a page. */
  lemma SlotsShift(i: nat)
    ensures Slot(0) == 0 && CacheLine(Slot(i + 1)) == if CacheLine(Slot(i)) == 63 then 0 else CacheLine(Slot(i)) + 1
  {
    SlotLine(0);
    SlotLine(i);
    SlotLine(i + 1);
    hide CacheLine, Slot;
    Next64(i);
  }

  lemma Next64(i: nat)
    ensures (i + 1) % 64 == if i % 64 == 63 then 0 else i % 64 + 1
  {
  }

  /** So 64 pages in a row use 64 different lines. */
  lemma SlotsUseAllLines(i: nat, j: nat)
    requires i < j < i + 64
    ensures CacheLine(Slot(i)) != CacheLine(Slot(j))
  {
    SlotLine(i);
    SlotLine(j);
    hide CacheLine, Slot;
  }

  /** One slot for every whole page of the array. */
  lemma TlbCoversArray(sizeKb: nat)
    requires 4 <= sizeKb < 0x40_0000
    ensures TlbElements(sizeKb) * 1024 <= TlbListSize(sizeKb) < (TlbElements(sizeKb) + 1) * 1024
    ensures TlbListSize(sizeKb) * 4 == sizeKb * 1024
  {
  }

  function TlbElements(sizeKb: nat): nat {
    if sizeKb / 4 == 0 then 1 else sizeKb / 4
  }

  /** Computed in 32 bits by the source. */
  function TlbListSize(sizeKb: nat): nat {
    sizeKb * 1024 % TWO_32 / 4
  }

  /**
   The slots are distinct for every size, but they lie inside the allocated
   array exactly for sizes from 1 KB up to, not including, 4 GB: at 0 KB nothing
   is allocated, and from 4 GB on the size wraps around.
   */
  lemma SlotsInBoundsExactly(sizeKb: nat)
    requires sizeKb < TWO_32
    ensures (forall i :: 0 <= i < TlbElements(sizeKb) ==> Slot(i) < TlbListSize(sizeKb))
            <==> 1 <= sizeKb < 0x40_0000
    ensures forall i: nat, j: nat :: i != j ==> Slot(i) != Slot(j)
  {
    if sizeKb == 0 {
      assert Slot(0) >= TlbListSize(sizeKb);
    } else if sizeKb < 0x40_0000 {
      SlotsFit(sizeKb);
    } else {
      SlotTooFar(sizeKb);
    }
  }

  lemma SlotsFit(sizeKb: nat)
    requires 1 <= sizeKb < 0x40_0000
    ensures forall i :: 0 <= i < TlbElements(sizeKb) ==> Slot(i) < TlbListSize(sizeKb)
  {
    assert TlbListSize(sizeKb) == sizeKb * 256;
  }

  lemma SlotTooFar(sizeKb: nat)
    requires 0x40_0000 <= sizeKb < TWO_32
    ensures 0xF_FFFF < TlbElements(sizeKb) && Slot(0xF_FFFF) >= TlbListSize(sizeKb)
  {
    assert Slot(0xF_FFFF) == 0x3FFF_FFF0;
    assert sizeKb * 1024 % TWO_32 == sizeKb % 0x40_0000 * 1024;
  }

  /** The array mirrors the pattern, slot for element. */
  ghost predicate Mirrors(memory: seq<nat>, p: seq<nat>) {
    forall i :: 0 <= i < |p| ==> Slot(i) < |memory| && memory[Slot(i)] == Slot(p[i])
  }

  lemma {:induction false} ChaseMirrors(memory: seq<nat>, p: seq<nat>, s: nat, k: nat)
    requires Mirrors(memory, p)
    requires forall i :: 0 <= i < |p| ==> p[i] < |p|
    requires s < |p|
    ensures Chase(p, s, k) < |p|
    ensures Chase(memory, Slot(s), k) == Slot(Chase(p, s, k))
    decreases k
  {
    if k > 0 {
      assert memory[Slot(s)] == Slot(p[s]);
      ChaseMirrors(memory, p, p[s], k - 1);
    }
  }

  /** A chase from slot 0 touches one slot on every page before it repeats. */
  ghost predicate PageTour(memory: seq<nat>, pages: nat) {
    && (forall i, j :: 0 <= i < j < pages ==> Chase(memory, 0, i) / PAGE_INCREMENT != Chase(memory, 0, j) / PAGE_INCREMENT)
    && (forall page :: 0 <= page < pages ==> exists k :: 0 <= k < pages && Chase(memory, 0, k) == Slot(page))
    && Chase(memory, 0, pages) == 0
  }

  lemma MirrorIsPageTour(memory: seq<nat>, p: seq<nat>)
    requires |p| > 0 && Mirrors(memory, p)
    requires forall i :: 0 <= i < |p| ==> p[i] < |p|
    requires PlainTour(p, 0)
    ensures PageTour(memory, |p|)
  {
    var n := |p|;
    assert Slot(0) == 0;
    forall k: nat
      ensures Chase(memory, 0, k) == Slot(Chase(p, 0, k))
    {
      ChaseMirrors(memory, p, 0, k);
    }
    hide Chase, Mirrors;
    forall page | 0 <= page < n
      ensures exists k :: 0 <= k < n && Chase(memory, 0, k) == Slot(page)
    {
      assert Reached(p, 0, page);
      var k :| 0 <= k < n && Chase(p, 0, k) == page;
      assert Chase(memory, 0, k) == Slot(page);
    }
  }

  /** The pattern is shuffled first and then spread over the pages. */
  method FillTlbArray(a: array<nat>, sizeKb: nat, rand: nat -> nat)
    requires 1 <= sizeKb < 0x40_0000
    requires a.Length == TlbListSize(sizeKb)
    modifies a
    ensures PageTour(a[..], TlbElements(sizeKb))
  {
    var n := TlbElements(sizeKb);
    var pattern := new nat[n];
    Shuffle(pattern, 1, n, rand);
    ghost var p := pattern[..];
    PatternRange(p);
    SlotsInBoundsExactly(sizeKb);
    for i := 0 to n
      invariant pattern[..] == p
      invariant forall k :: 0 <= k < i ==> a[Slot(k)] == Slot(p[k])
    {
      var target := Slot(pattern[i]);
      a[Slot(i)] := target;
    }
    assert Mirrors(a[..], p);
    assert TourFrom(p, 1, n, 0);
    UnitTour(p, 0);
    MirrorIsPageTour(a[..], p);
  }

  /** A tour never leaves the pattern. */
  lemma PatternRange(p: seq<nat>)
    requires OneCycle(p, 1, |p|)
    ensures forall i :: 0 <= i < |p| ==> p[i] < |p|
  {
    forall i | 0 <= i < |p|
      ensures p[i] < |p|
    {
      assert TourFrom(p, 1, |p|, i);
      UnitTour(p, i);
      assert Chase(p, i, 1) == p[i];
    }
  }
}
