/**
 * `merge_snapshots`: the union of several scroll-sampled snapshots.
 *
 * The reference definition works on positions in the flattened element
 * sequence (the running index the merge loop counts): a table of slots,
 * one per dedupe key in first-seen order, each holding where the key was
 * first seen and where its current best representative sits. The
 * imperative method fills two maps in place like the source does and is
 * proved to produce the same snapshot as the reference definition, whose
 * properties are proved as lemmas.
 */
module SnapshotMerge {
  import opened Wrappers
  import opened Text
  import opened Models
  import opened SnapshotKeys
  import opened MergeOrder

  const EMPTY_MERGE_ERROR := "merge_snapshots requires at least one snapshot"

  /** Every element of every snapshot, in sampling order. */
  function Flatten(snaps: seq<Snapshot>): seq<Element> {
    if snaps == [] then [] else Flatten(snaps[..|snaps| - 1]) + snaps[|snaps| - 1].elements
  }

  /** What the merge reads of an element: its dedupe key and its quality tuple. */
  datatype Sample = Sample(key: DedupeKey, quality: Quality)

  function SampleOf(el: Element): Sample {
    Sample(KeyOf(el), QualityOf(el))
  }

  function Samples(all: seq<Element>): (ps: seq<Sample>)
    ensures |ps| == |all|
    ensures forall i {:trigger ps[i]} :: 0 <= i < |all| ==> ps[i] == SampleOf(all[i])
  {
    seq(|all|, i requires 0 <= i < |all| => SampleOf(all[i]))
  }

  /** Index of the first sample with key `k`, or `|ps|`. */
  function FirstSeen(ps: seq<Sample>, k: DedupeKey): (i: nat)
    ensures i <= |ps|
    ensures i < |ps| ==> ps[i].key == k
    ensures forall i' :: 0 <= i' < i ==> ps[i'].key != k
  {
    FirstSeenFrom(ps, k, 0)
  }

  function FirstSeenFrom(ps: seq<Sample>, k: DedupeKey, from: nat): (i: nat)
    requires from <= |ps|
    ensures from <= i <= |ps|
    ensures i < |ps| ==> ps[i].key == k
    ensures forall i' :: from <= i' < i ==> ps[i'].key != k
    decreases |ps| - from
  {
    if from == |ps| || ps[from].key == k then from else FirstSeenFrom(ps, k, from + 1)
  }

  /** The first occurrence is the only index with the properties `FirstSeen` promises. */
  lemma FirstSeenUnique(ps: seq<Sample>, k: DedupeKey, i: nat)
    requires i <= |ps|
    requires i < |ps| ==> ps[i].key == k
    requires forall i' :: 0 <= i' < i ==> ps[i'].key != k
    ensures FirstSeen(ps, k) == i
  {
  }

  // ---------------------------------------------------------------------------
  // reference definition of the two dictionaries

  /** One dictionary entry: where its key was first seen, where its kept element is. */
  datatype Slot = Slot(seen: nat, pos: nat)

  predicate SlotsIn(ps: seq<Sample>, t: seq<Slot>) {
    forall j :: 0 <= j < |t| ==> t[j].pos < |ps|
  }

  function KeyAt(ps: seq<Sample>, t: seq<Slot>, j: nat): DedupeKey
    requires SlotsIn(ps, t) && j < |t|
  {
    ps[t[j].pos].key
  }

  function QualityAt(ps: seq<Sample>, t: seq<Slot>, j: nat): Quality
    requires SlotsIn(ps, t) && j < |t|
  {
    ps[t[j].pos].quality
  }

  /** Position of the slot for key `k`, or `|t|`. */
  function FindSlot(ps: seq<Sample>, t: seq<Slot>, k: DedupeKey): (j: nat)
    requires SlotsIn(ps, t)
    ensures j <= |t|
    ensures j < |t| ==> KeyAt(ps, t, j) == k
    ensures forall j' :: 0 <= j' < j ==> KeyAt(ps, t, j') != k
  {
    FindSlotFrom(ps, t, k, 0)
  }

  function FindSlotFrom(ps: seq<Sample>, t: seq<Slot>, k: DedupeKey, from: nat): (j: nat)
    requires SlotsIn(ps, t) && from <= |t|
    ensures from <= j <= |t|
    ensures j < |t| ==> KeyAt(ps, t, j) == k
    ensures forall j' :: from <= j' < j ==> KeyAt(ps, t, j') != k
    decreases |t| - from
  {
    if from == |t| || KeyAt(ps, t, from) == k then from else FindSlotFrom(ps, t, k, from + 1)
  }

  /** The loop body for the sample at index `i`. */
  function Absorb(ps: seq<Sample>, t: seq<Slot>, i: nat): (r: seq<Slot>)
    requires SlotsIn(ps, t) && i < |ps|
    ensures SlotsIn(ps, r)
  {
    var j := FindSlot(ps, t, ps[i].key);
    if j == |t| then t + [Slot(i, i)]
    else if Better(ps[i].quality, QualityAt(ps, t, j)) then t[j := Slot(t[j].seen, i)]
    else t
  }

  /** The dictionaries after the loop has seen the first `n` samples. */
  function TableUpTo(ps: seq<Sample>, n: nat): (t: seq<Slot>)
    requires n <= |ps|
    ensures SlotsIn(ps, t)
  {
    if n == 0 then [] else Absorb(ps, TableUpTo(ps, n - 1), n - 1)
  }

  /** The dictionaries after the whole loop. */
  function Table(ps: seq<Sample>): (t: seq<Slot>)
    ensures SlotsIn(ps, t)
  {
    TableUpTo(ps, |ps|)
  }

  // The invariant of the merge loop, one predicate per fact so that each
  // proof step mentions only the facts it needs.

  /** Every slot points at samples already seen, its first sighting no later than its element. */
  predicate Bounded(ps: seq<Sample>, t: seq<Slot>, n: nat) {
    && n <= |ps|
    && (forall j :: 0 <= j < |t| ==> t[j].seen <= t[j].pos < n)
  }

  /** One slot per key. */
  predicate KeysDistinct(ps: seq<Sample>, t: seq<Slot>)
    requires SlotsIn(ps, t)
  {
    forall j1, j2 :: 0 <= j1 < j2 < |t| ==> ps[t[j1].pos].key != ps[t[j2].pos].key
  }

  /** Slots are in first-seen order. */
  predicate SlotsInSeenOrder(t: seq<Slot>) {
    forall j1, j2 :: 0 <= j1 < j2 < |t| ==> t[j1].seen < t[j2].seen
  }

  /** A slot's `seen` is the first index of its key. */
  predicate SeenIsFirst(ps: seq<Sample>, t: seq<Slot>)
    requires SlotsIn(ps, t)
  {
    && (forall j :: 0 <= j < |t| ==> t[j].seen < |ps| && ps[t[j].seen].key == ps[t[j].pos].key)
    && (forall j, i :: 0 <= j < |t| && 0 <= i < t[j].seen ==> ps[i].key != ps[t[j].pos].key)
  }

  /** Every key among the first `n` samples has a slot. */
  predicate Complete(ps: seq<Sample>, t: seq<Slot>, n: nat)
    requires SlotsIn(ps, t) && n <= |ps|
  {
    forall i {:trigger FindSlot(ps, t, ps[i].key)} :: 0 <= i < n ==> FindSlot(ps, t, ps[i].key) < |t|
  }

  /** No sample among the first `n` beats the element kept for its key. */
  predicate Unbeaten(ps: seq<Sample>, t: seq<Slot>, n: nat)
    requires SlotsIn(ps, t) && n <= |ps|
  {
    forall j, i :: 0 <= j < |t| && 0 <= i < n && ps[i].key == ps[t[j].pos].key ==>
      !Better(ps[i].quality, ps[t[j].pos].quality)
  }

  /** The kept element strictly beats every earlier sample with its key. */
  predicate BeatsEarlier(ps: seq<Sample>, t: seq<Slot>)
    requires SlotsIn(ps, t)
  {
    forall j, i :: 0 <= j < |t| && 0 <= i < t[j].pos && ps[i].key == ps[t[j].pos].key ==>
      Better(ps[t[j].pos].quality, ps[i].quality)
  }

  /**
   * What the dictionaries hold after the first `n` samples: one slot per
   * key, slots in first-seen order, each slot's `seen` the first index of
   * its key, and each slot's element at least as good as every element
   * with its key and strictly better than those before it.
   */
  predicate TableInv(ps: seq<Sample>, t: seq<Slot>, n: nat) {
    && SlotsIn(ps, t)
    && Bounded(ps, t, n)
    && KeysDistinct(ps, t)
    && SlotsInSeenOrder(t)
    && SeenIsFirst(ps, t)
    && Complete(ps, t, n)
    && Unbeaten(ps, t, n)
    && BeatsEarlier(ps, t)
  }

  /** A sample whose key has a slot is found by `FindSlot`. */
  lemma FindSlotPresent(ps: seq<Sample>, t: seq<Slot>, j: nat)
    requires SlotsIn(ps, t) && j < |t| && KeysDistinct(ps, t)
    ensures FindSlot(ps, t, ps[t[j].pos].key) == j
  {
    var f := FindSlot(ps, t, ps[t[j].pos].key);
    assert KeyAt(ps, t, j) == ps[t[j].pos].key;
  }

  /** A key with no slot does not occur among the first `n` samples. */
  lemma AbsentKey(ps: seq<Sample>, t: seq<Slot>, n: nat, k: DedupeKey)
    requires SlotsIn(ps, t) && n <= |ps| && Complete(ps, t, n)
    requires FindSlot(ps, t, k) == |t|
    ensures forall i :: 0 <= i < n ==> ps[i].key != k
  {
    forall i | 0 <= i < n ensures ps[i].key != k {
      assert FindSlot(ps, t, ps[i].key) < |t|;
    }
  }

  /** Every slot's key differs from a key that has no slot. */
  lemma NoSlotHasKey(ps: seq<Sample>, t: seq<Slot>, k: DedupeKey)
    requires SlotsIn(ps, t) && FindSlot(ps, t, k) == |t|
    ensures forall j :: 0 <= j < |t| ==> ps[t[j].pos].key != k
  {
    forall j | 0 <= j < |t| ensures ps[t[j].pos].key != k {
      assert KeyAt(ps, t, j) != k;
    }
  }

  /** Slots whose keys agree with `t`'s slot by slot are found in the same places. */
  lemma CompleteSameKeys(ps: seq<Sample>, t: seq<Slot>, r: seq<Slot>, n: nat)
    requires SlotsIn(ps, t) && SlotsIn(ps, r) && n <= |ps| && |r| >= |t|
    requires forall j :: 0 <= j < |t| ==> ps[r[j].pos].key == ps[t[j].pos].key
    requires Complete(ps, t, n)
    ensures forall i :: 0 <= i < n ==> FindSlot(ps, r, ps[i].key) < |r|
  {
    forall i | 0 <= i < n ensures FindSlot(ps, r, ps[i].key) < |r| {
      var j := FindSlot(ps, t, ps[i].key);
      assert KeyAt(ps, r, j) == ps[i].key;
    }
  }

  // --- a sample with a new key opens a slot

  lemma NewKeyFirst(ps: seq<Sample>, t: seq<Slot>, n: nat)
    requires n < |ps| && SlotsIn(ps, t) && SeenIsFirst(ps, t) && Complete(ps, t, n)
    requires FindSlot(ps, t, ps[n].key) == |t|
    ensures SlotsIn(ps, t + [Slot(n, n)]) && SeenIsFirst(ps, t + [Slot(n, n)])
  {
    AbsentKey(ps, t, n, ps[n].key);
    var r := t + [Slot(n, n)];
    assert forall j :: 0 <= j < |t| ==> r[j] == t[j];
  }

  lemma NewKeyComplete(ps: seq<Sample>, t: seq<Slot>, n: nat)
    requires n < |ps| && SlotsIn(ps, t) && KeysDistinct(ps, t) && Complete(ps, t, n)
    requires FindSlot(ps, t, ps[n].key) == |t|
    ensures SlotsIn(ps, t + [Slot(n, n)]) && Complete(ps, t + [Slot(n, n)], n + 1)
  {
    var r := t + [Slot(n, n)];
    CompleteSameKeys(ps, t, r, n);
    assert KeyAt(ps, r, |t|) == ps[n].key;
  }

  lemma NewKeyDistinct(ps: seq<Sample>, t: seq<Slot>, n: nat)
    requires n < |ps| && SlotsIn(ps, t) && KeysDistinct(ps, t)
    requires FindSlot(ps, t, ps[n].key) == |t|
    ensures SlotsIn(ps, t + [Slot(n, n)]) && KeysDistinct(ps, t + [Slot(n, n)])
  {
    NoSlotHasKey(ps, t, ps[n].key);
  }

  lemma NewKeyQuality(ps: seq<Sample>, t: seq<Slot>, n: nat)
    requires n < |ps| && SlotsIn(ps, t) && Bounded(ps, t, n) && Complete(ps, t, n)
    requires Unbeaten(ps, t, n) && BeatsEarlier(ps, t)
    requires FindSlot(ps, t, ps[n].key) == |t|
    ensures SlotsIn(ps, t + [Slot(n, n)])
    ensures Unbeaten(ps, t + [Slot(n, n)], n + 1) && BeatsEarlier(ps, t + [Slot(n, n)])
  {
    var r := t + [Slot(n, n)];
    AbsentKey(ps, t, n, ps[n].key);
    NoSlotHasKey(ps, t, ps[n].key);
    assert forall j :: 0 <= j < |t| ==> r[j] == t[j];
    BetterIsStrictTotalOrder(ps[n].quality, ps[n].quality, ps[n].quality);
  }

  lemma AbsorbNewKey(ps: seq<Sample>, t: seq<Slot>, n: nat)
    requires n < |ps| && TableInv(ps, t, n)
    requires FindSlot(ps, t, ps[n].key) == |t|
    ensures TableInv(ps, t + [Slot(n, n)], n + 1)
  {
    NewKeyFirst(ps, t, n);
    NewKeyComplete(ps, t, n);
    NewKeyDistinct(ps, t, n);
    NewKeyQuality(ps, t, n);
  }

  // --- a strictly better sample replaces the kept element

  lemma BetterQuality(ps: seq<Sample>, t: seq<Slot>, n: nat, j: nat)
    requires n < |ps| && SlotsIn(ps, t) && Bounded(ps, t, n) && KeysDistinct(ps, t)
    requires Unbeaten(ps, t, n) && BeatsEarlier(ps, t)
    requires j < |t| && ps[t[j].pos].key == ps[n].key
    requires Better(ps[n].quality, ps[t[j].pos].quality)
    ensures SlotsIn(ps, t[j := Slot(t[j].seen, n)])
    ensures Unbeaten(ps, t[j := Slot(t[j].seen, n)], n + 1)
    ensures BeatsEarlier(ps, t[j := Slot(t[j].seen, n)])
  {
    var r := t[j := Slot(t[j].seen, n)];
    var q, qn := ps[t[j].pos].quality, ps[n].quality;
    forall j', i | 0 <= j' < |r| && 0 <= i < n + 1 && ps[i].key == ps[r[j'].pos].key
      ensures !Better(ps[i].quality, ps[r[j'].pos].quality)
    {
      if j' == j {
        BetterIsStrictTotalOrder(ps[i].quality, q, qn);
        BetterIsStrictTotalOrder(qn, qn, qn);
      }
    }
    forall j', i | 0 <= j' < |r| && 0 <= i < r[j'].pos && ps[i].key == ps[r[j'].pos].key
      ensures Better(ps[r[j'].pos].quality, ps[i].quality)
    {
      if j' == j {
        BetterIsStrictTotalOrder(qn, q, ps[i].quality);
      }
    }
  }

  lemma BetterShape(ps: seq<Sample>, t: seq<Slot>, n: nat, j: nat)
    requires n < |ps| && SlotsIn(ps, t) && Bounded(ps, t, n) && KeysDistinct(ps, t) && SlotsInSeenOrder(t)
    requires j < |t| && ps[t[j].pos].key == ps[n].key
    ensures SlotsIn(ps, t[j := Slot(t[j].seen, n)])
    ensures Bounded(ps, t[j := Slot(t[j].seen, n)], n + 1)
    ensures KeysDistinct(ps, t[j := Slot(t[j].seen, n)])
    ensures SlotsInSeenOrder(t[j := Slot(t[j].seen, n)])
  {
    var r := t[j := Slot(t[j].seen, n)];
    assert forall j' :: 0 <= j' < |t| ==> ps[r[j'].pos].key == ps[t[j'].pos].key;
  }

  lemma BetterFirstSeen(ps: seq<Sample>, t: seq<Slot>, n: nat, j: nat)
    requires n < |ps| && SlotsIn(ps, t) && Bounded(ps, t, n) && SeenIsFirst(ps, t) && Complete(ps, t, n)
    requires j < |t| && ps[t[j].pos].key == ps[n].key
    ensures SlotsIn(ps, t[j := Slot(t[j].seen, n)])
    ensures SeenIsFirst(ps, t[j := Slot(t[j].seen, n)])
    ensures Complete(ps, t[j := Slot(t[j].seen, n)], n + 1)
  {
    var r := t[j := Slot(t[j].seen, n)];
    assert forall j' :: 0 <= j' < |t| ==> ps[r[j'].pos].key == ps[t[j'].pos].key;
    CompleteSameKeys(ps, t, r, n);
    assert KeyAt(ps, r, j) == ps[n].key;
  }

  lemma AbsorbBetter(ps: seq<Sample>, t: seq<Slot>, n: nat, j: nat)
    requires n < |ps| && TableInv(ps, t, n)
    requires j < |t| && ps[t[j].pos].key == ps[n].key
    requires Better(ps[n].quality, ps[t[j].pos].quality)
    ensures TableInv(ps, t[j := Slot(t[j].seen, n)], n + 1)
  {
    BetterShape(ps, t, n, j);
    BetterFirstSeen(ps, t, n, j);
    BetterQuality(ps, t, n, j);
  }

  // --- a sample that is not strictly better changes nothing

  lemma AbsorbNotBetter(ps: seq<Sample>, t: seq<Slot>, n: nat, j: nat)
    requires n < |ps| && TableInv(ps, t, n)
    requires j < |t| && ps[t[j].pos].key == ps[n].key
    requires !Better(ps[n].quality, ps[t[j].pos].quality)
    ensures TableInv(ps, t, n + 1)
  {
    assert KeyAt(ps, t, j) == ps[n].key;
    assert forall j' :: 0 <= j' < |t| && j' != j ==> ps[t[j'].pos].key != ps[n].key;
  }

  /** One loop iteration keeps the invariant. */
  lemma AbsorbKeepsInv(ps: seq<Sample>, t: seq<Slot>, n: nat)
    requires n < |ps| && TableInv(ps, t, n)
    ensures TableInv(ps, Absorb(ps, t, n), n + 1)
  {
    var j := FindSlot(ps, t, ps[n].key);
    if j == |t| {
      AbsorbNewKey(ps, t, n);
    } else if Better(ps[n].quality, QualityAt(ps, t, j)) {
      AbsorbBetter(ps, t, n, j);
    } else {
      AbsorbNotBetter(ps, t, n, j);
    }
  }

  /** The invariant holds after every prefix, hence after the whole loop. */
  lemma {:induction false} TableInvHolds(ps: seq<Sample>, n: nat)
    requires n <= |ps|
    ensures TableInv(ps, TableUpTo(ps, n), n)
  {
    if n > 0 {
      TableInvHolds(ps, n - 1);
      TableStep(ps, n - 1);
    }
  }

  lemma TableStep(ps: seq<Sample>, n: nat)
    requires n < |ps| && TableInv(ps, TableUpTo(ps, n), n)
    ensures TableInv(ps, TableUpTo(ps, n + 1), n + 1)
  {
    var t := TableUpTo(ps, n);
    AbsorbKeepsInv(ps, t, n);
    InvSameTable(ps, Absorb(ps, t, n), TableUpTo(ps, n + 1), n + 1);
  }

  lemma InvSameTable(ps: seq<Sample>, a: seq<Slot>, b: seq<Slot>, n: nat)
    requires a == b && TableInv(ps, a, n)
    ensures TableInv(ps, b, n)
  {
  }

  // ---------------------------------------------------------------------------
  // the union and the merged snapshot

  /** The best element of every key, with the key's first-seen position, in the order the keys were first seen. */
  function RowsOf(all: seq<Element>, t: seq<Slot>): (rows: seq<Row>)
    requires SlotsIn(Samples(all), t)
    ensures |rows| == |t|
    ensures forall j :: 0 <= j < |t| ==> rows[j] == Row(all[t[j].pos], t[j].seen)
  {
    seq(|t|, j requires 0 <= j < |t| => Row(all[t[j].pos], t[j].seen))
  }

  /** The union of all samples after the sort, before the limit. */
  function UnionRows(all: seq<Element>): seq<Row> {
    SortRows(RowsOf(all, Table(Samples(all))))
  }

  function ElementsOf(rows: seq<Row>): (els: seq<Element>)
    ensures |els| == |rows|
    ensures forall m :: 0 <= m < |rows| ==> els[m] == rows[m].el
  {
    seq(|rows|, m requires 0 <= m < |rows| => rows[m].el)
  }

  function Max(a: int, b: int): int { if a < b then b else a }

  /** `merge_snapshots(snaps, union_limit=...)` */
  function MergeSpec(snaps: seq<Snapshot>, unionLimit: Option<int>): (r: Result<Snapshot, string>)
    ensures snaps == [] <==> r == Failure(EMPTY_MERGE_ERROR)
    ensures r.Success? ==>
      && r.value == snaps[0].(elements := r.value.elements, screenshot := None)
      && r.value.elements <= ElementsOf(UnionRows(Flatten(snaps)))
      && (unionLimit.None? ==> r.value.elements == ElementsOf(UnionRows(Flatten(snaps))))
      && (unionLimit.Some? ==> |r.value.elements| == Min(Max(1, unionLimit.value), |UnionRows(Flatten(snaps))|))
  {
    if snaps == [] then Failure(EMPTY_MERGE_ERROR)
    else Success(snaps[0].(elements := Limit(ElementsOf(UnionRows(Flatten(snaps))), unionLimit), screenshot := None))
  }

  /** The first max(1, limit) merged elements when a limit is given, all of them otherwise. */
  function Limit(merged: seq<Element>, unionLimit: Option<int>): (kept: seq<Element>)
    ensures kept <= merged
    ensures unionLimit.None? ==> kept == merged
    ensures unionLimit.Some? ==> |kept| == Min(Max(1, unionLimit.value), |merged|)
  {
    if unionLimit.Some? then Take(merged, Max(1, unionLimit.value)) else merged
  }

  function Min(a: int, b: int): int { if a < b then a else b }

  /** The merge table satisfies its invariant after the last sample. */
  lemma TableFacts(all: seq<Element>)
    ensures TableInv(Samples(all), Table(Samples(all)), |all|)
  {
    TableInvHolds(Samples(all), |all|);
  }

  predicate RowKeysDistinct(rows: seq<Row>) {
    forall a, b :: 0 <= a < b < |rows| ==> KeyOf(rows[a].el) != KeyOf(rows[b].el)
  }

  /** The rows of the table, before sorting: distinct keys, in first-seen order. */
  lemma TableRows(all: seq<Element>)
    ensures RowKeysDistinct(RowsOf(all, Table(Samples(all))))
    ensures MergeOrder.SeenIncreasing(RowsOf(all, Table(Samples(all))))
  {
    var ps := Samples(all);
    var t := Table(ps);
    TableFacts(all);
    var rows := RowsOf(all, t);
    forall a, b | 0 <= a < b < |rows| ensures KeyOf(rows[a].el) != KeyOf(rows[b].el) {
      assert ps[t[a].pos].key != ps[t[b].pos].key;
    }
    assert SlotsInSeenOrder(t);
  }

  /** Every key of the input has a row in the table. */
  lemma TableRowsCover(all: seq<Element>, i: nat) returns (j: nat)
    requires i < |all|
    ensures j < |RowsOf(all, Table(Samples(all)))|
    ensures KeyOf(RowsOf(all, Table(Samples(all)))[j].el) == KeyOf(all[i])
  {
    var ps := Samples(all);
    var t := Table(ps);
    TableFacts(all);
    j := FindSlot(ps, t, ps[i].key);
    assert j < |t|;
    assert KeyAt(ps, t, j) == ps[i].key;
  }

  /** Every row of the union is the row of one slot of the table. */
  lemma UnionRowSlot(all: seq<Element>, m: nat) returns (j: nat)
    requires m < |UnionRows(all)|
    ensures j < |Table(Samples(all))|
    ensures UnionRows(all)[m] == RowsOf(all, Table(Samples(all)))[j]
  {
    var rows := RowsOf(all, Table(Samples(all)));
    var u := UnionRows(all);
    assert u[m] in multiset(rows);
    j :| 0 <= j < |rows| && rows[j] == u[m];
  }

  /** The union is sorted by `_sort_key`, stably. */
  lemma UnionOrdered(all: seq<Element>)
    ensures Ordered(UnionRows(all))
  {
    TableRows(all);
    SortOrdered(RowsOf(all, Table(Samples(all))));
  }

  /** No two elements of the union share a dedupe key. */
  lemma UnionKeysDistinct(all: seq<Element>)
    ensures RowKeysDistinct(UnionRows(all))
  {
    var u := UnionRows(all);
    TableRows(all);
    UnionOrdered(all);
    forall m1, m2 | 0 <= m1 < m2 < |u| ensures KeyOf(u[m1].el) != KeyOf(u[m2].el) {
      UnionPairKeys(all, m1, m2);
    }
  }

  /** Two positions of the sorted union hold rows of two different slots. */
  lemma UnionPairKeys(all: seq<Element>, m1: nat, m2: nat)
    requires RowKeysDistinct(RowsOf(all, Table(Samples(all))))
    requires Ordered(UnionRows(all)) && m1 < m2 < |UnionRows(all)|
    ensures KeyOf(UnionRows(all)[m1].el) != KeyOf(UnionRows(all)[m2].el)
  {
    var rows := RowsOf(all, Table(Samples(all)));
    var u := UnionRows(all);
    var j1 := UnionRowSlot(all, m1);
    var j2 := UnionRowSlot(all, m2);
    assert RowBefore(u[m1], u[m2]);
    if j1 < j2 {
      assert KeyOf(rows[j1].el) != KeyOf(rows[j2].el);
    } else if j2 < j1 {
      assert KeyOf(rows[j2].el) != KeyOf(rows[j1].el);
    }
  }

  /** Every dedupe key of the input has an element in the union. */
  lemma UnionCoversInput(all: seq<Element>, i: nat) returns (m: nat)
    requires i < |all|
    ensures m < |UnionRows(all)| && KeyOf(UnionRows(all)[m].el) == KeyOf(all[i])
  {
    var rows := RowsOf(all, Table(Samples(all)));
    var u := UnionRows(all);
    var j := TableRowsCover(all, i);
    assert rows[j] in multiset(u);
    m :| 0 <= m < |u| && u[m] == rows[j];
  }

  /** The union invents no element: each is one of the input elements. */
  lemma UnionFromInput(all: seq<Element>)
    ensures forall m :: 0 <= m < |UnionRows(all)| ==> UnionRows(all)[m].el in all
  {
    var u := UnionRows(all);
    forall m | 0 <= m < |u| ensures u[m].el in all {
      var j := UnionRowSlot(all, m);
    }
  }

  /**
   * Each dedupe key of the input occurs in exactly one element of the
   * union, before the limit is applied.
   */
  lemma UnionKeysExactlyOnce(all: seq<Element>)
    ensures forall i :: 0 <= i < |all| ==>
      exists m :: 0 <= m < |UnionRows(all)| && KeyOf(UnionRows(all)[m].el) == KeyOf(all[i])
    ensures RowKeysDistinct(UnionRows(all))
  {
    UnionKeysDistinct(all);
    forall i | 0 <= i < |all|
      ensures exists m :: 0 <= m < |UnionRows(all)| && KeyOf(UnionRows(all)[m].el) == KeyOf(all[i])
    {
      var m := UnionCoversInput(all, i);
    }
  }

  /**
   * The element kept for a key is a maximum of the quality order among
   * the elements with that key, and the earliest such maximum: it strictly
   * beats every element with its key sampled before it. Its `seen` is the
   * index where the key first occurs.
   */
  lemma UnionBest(all: seq<Element>, m: nat) returns (p: nat)
    requires m < |UnionRows(all)|
    ensures p < |all| && all[p] == UnionRows(all)[m].el
    ensures forall i :: 0 <= i < |all| && KeyOf(all[i]) == KeyOf(all[p]) ==> !Better(QualityOf(all[i]), QualityOf(all[p]))
    ensures forall i :: 0 <= i < p && KeyOf(all[i]) == KeyOf(all[p]) ==> Better(QualityOf(all[p]), QualityOf(all[i]))
    ensures UnionRows(all)[m].seen == FirstSeen(Samples(all), KeyOf(all[p]))
  {
    var ps := Samples(all);
    var t := Table(ps);
    TableFacts(all);
    var j := UnionRowSlot(all, m);
    p := t[j].pos;
    assert ps[p] == SampleOf(all[p]);
    forall i | 0 <= i < |all| && KeyOf(all[i]) == KeyOf(all[p]) ensures !Better(QualityOf(all[i]), QualityOf(all[p])) {
      assert ps[i] == SampleOf(all[i]);
    }
    forall i | 0 <= i < p && KeyOf(all[i]) == KeyOf(all[p]) ensures Better(QualityOf(all[p]), QualityOf(all[i])) {
      assert ps[i] == SampleOf(all[i]);
    }
    FirstSeenUnique(ps, KeyOf(all[p]), t[j].seen);
  }

  // ---------------------------------------------------------------------------
  // the merge loop

  /** The elements of the first snapshots come first in the flattened sequence. */
  lemma {:induction false} FlattenPrefix(snaps: seq<Snapshot>, s: nat)
    requires s < |snaps|
    ensures Flatten(snaps[..s + 1]) == Flatten(snaps[..s]) + snaps[s].elements
    ensures Flatten(snaps[..s + 1]) <= Flatten(snaps)
    decreases |snaps| - s
  {
    assert snaps[..s + 1][..s] == snaps[..s];
    if s + 1 < |snaps| {
      FlattenPrefix(snaps, s + 1);
    } else {
      assert snaps[..s + 1] == snaps;
    }
  }

  /**
   * The three dictionaries of the loop hold the table `t`: `order` is the
   * dictionaries' insertion order, `best` and `firstSeen` map each key to
   * the kept element and the first index of the key.
   */
  predicate Mirrors(all: seq<Element>, best: map<DedupeKey, Element>, firstSeen: map<DedupeKey, nat>,
                    order: seq<DedupeKey>, t: seq<Slot>)
  {
    && |order| == |t|
    && (forall j :: 0 <= j < |t| ==> t[j].pos < |all|)
    && (forall j :: 0 <= j < |t| ==>
          && order[j] == KeyOf(all[t[j].pos])
          && order[j] in best && best[order[j]] == all[t[j].pos]
          && order[j] in firstSeen && firstSeen[order[j]] == t[j].seen)
    && (forall k :: k in best ==> k in order)
    && (forall k :: k in firstSeen ==> k in order)
  }

  lemma MirrorsFind(all: seq<Element>, best: map<DedupeKey, Element>, firstSeen: map<DedupeKey, nat>,
                    order: seq<DedupeKey>, t: seq<Slot>, k: DedupeKey)
    requires SlotsIn(Samples(all), t) && Mirrors(all, best, firstSeen, order, t)
    ensures FindSlot(Samples(all), t, k) == |t| <==> k !in firstSeen
    ensures k in firstSeen <==> k in best
    ensures FindSlot(Samples(all), t, k) < |t| ==> order[FindSlot(Samples(all), t, k)] == k
  {
    var ps := Samples(all);
    var f := FindSlot(ps, t, k);
    if f < |t| {
      assert KeyAt(ps, t, f) == k;
      assert ps[t[f].pos] == SampleOf(all[t[f].pos]);
    } else {
      forall j | 0 <= j < |order| ensures order[j] != k {
        assert ps[t[j].pos] == SampleOf(all[t[j].pos]);
        assert KeyAt(ps, t, j) != k;
      }
    }
  }

  /** The slots of every table the loop builds carry distinct keys. */
  lemma TableKeysDistinct(ps: seq<Sample>, n: nat)
    requires n <= |ps|
    ensures KeysDistinct(ps, TableUpTo(ps, n))
  {
    TableInvHolds(ps, n);
  }

  /** A sample with a key not seen before: both dictionaries gain the key, last in order. */
  lemma MirrorsNewKey(all: seq<Element>, best: map<DedupeKey, Element>, firstSeen: map<DedupeKey, nat>,
                      order: seq<DedupeKey>, t: seq<Slot>, idx: nat)
    requires idx < |all| && Mirrors(all, best, firstSeen, order, t)
    requires KeyOf(all[idx]) !in firstSeen && KeyOf(all[idx]) !in best
    ensures Mirrors(all, best[KeyOf(all[idx]) := all[idx]], firstSeen[KeyOf(all[idx]) := idx],
                    order + [KeyOf(all[idx])], t + [Slot(idx, idx)])
  {
    var k := KeyOf(all[idx]);
    forall j | 0 <= j < |t| ensures order[j] != k {
      assert order[j] in firstSeen;
    }
  }

  /** A strictly better sample replaces the kept element; first sightings and order stay. */
  lemma MirrorsReplace(all: seq<Element>, best: map<DedupeKey, Element>, firstSeen: map<DedupeKey, nat>,
                       order: seq<DedupeKey>, t: seq<Slot>, idx: nat, j: nat)
    requires idx < |all| && Mirrors(all, best, firstSeen, order, t)
    requires j < |t| && order[j] == KeyOf(all[idx])
    requires forall j' :: 0 <= j' < |t| && j' != j ==> order[j'] != order[j]
    ensures Mirrors(all, best[KeyOf(all[idx]) := all[idx]], firstSeen, order, t[j := Slot(t[j].seen, idx)])
  {
  }

  /**
   * One iteration of the inner loop moves the dictionaries from one table
   * to the next: a new key enters both dictionaries and the order, a known
   * key has its element replaced exactly when the new one is strictly
   * better, and nothing else changes.
   */
  lemma MirrorsStep(all: seq<Element>, best: map<DedupeKey, Element>, firstSeen: map<DedupeKey, nat>,
                    order: seq<DedupeKey>, idx: nat, el: Element, k: DedupeKey)
    requires idx < |all| && el == all[idx] && k == KeyOf(el)
    requires Mirrors(all, best, firstSeen, order, TableUpTo(Samples(all), idx))
    ensures k in firstSeen <==> k in best
    ensures k !in firstSeen ==>
      Mirrors(all, best[k := el], firstSeen[k := idx], order + [k], TableUpTo(Samples(all), idx + 1))
    ensures k in best && Better(QualityOf(el), QualityOf(best[k])) ==>
      Mirrors(all, best[k := el], firstSeen, order, TableUpTo(Samples(all), idx + 1))
    ensures k in best && !Better(QualityOf(el), QualityOf(best[k])) ==>
      Mirrors(all, best, firstSeen, order, TableUpTo(Samples(all), idx + 1))
  {
    var ps := Samples(all);
    var t := TableUpTo(ps, idx);
    assert ps[idx] == SampleOf(all[idx]);
    MirrorsFind(all, best, firstSeen, order, t, k);
    var j := FindSlot(ps, t, k);
    assert TableUpTo(ps, idx + 1) == Absorb(ps, t, idx);
    if j == |t| {
      MirrorsNewKey(all, best, firstSeen, order, t, idx);
    } else {
      assert ps[t[j].pos] == SampleOf(all[t[j].pos]);
      if Better(QualityOf(el), QualityOf(best[k])) {
        TableKeysDistinct(ps, idx);
        forall j' | 0 <= j' < |t| && j' != j ensures order[j'] != order[j] {
          assert ps[t[j'].pos] == SampleOf(all[t[j'].pos]);
          assert ps[t[j'].pos].key != ps[t[j].pos].key;
        }
        MirrorsReplace(all, best, firstSeen, order, t, idx, j);
      }
    }
  }

  /** The elements of snapshot `s` sit right after those of the snapshots before it. */
  lemma FlattenSlice(snaps: seq<Snapshot>, s: nat)
    requires s < |snaps|
    ensures |Flatten(snaps[..s + 1])| == |Flatten(snaps[..s])| + |snaps[s].elements| <= |Flatten(snaps)|
    ensures forall e :: 0 <= e < |snaps[s].elements| ==>
      Flatten(snaps)[|Flatten(snaps[..s])| + e] == snaps[s].elements[e]
  {
    FlattenPrefix(snaps, s);
    ConcatPrefixAt(Flatten(snaps[..s]), snaps[s].elements, Flatten(snaps));
  }

  /** The elements of `b` sit at `|a|..` in anything `a + b` is a prefix of. */
  lemma ConcatPrefixAt(a: seq<Element>, b: seq<Element>, c: seq<Element>)
    requires a + b <= c
    ensures forall e :: 0 <= e < |b| ==> c[|a| + e] == b[e]
  {
    forall e | 0 <= e < |b| ensures c[|a| + e] == b[e] {
      assert (a + b)[|a| + e] == b[e];
    }
  }

  /** The best element of every key, each paired with its key's first-seen position. */
  function ValuesInOrder(best: map<DedupeKey, Element>, firstSeen: map<DedupeKey, nat>,
                         order: seq<DedupeKey>): (rows: seq<Row>)
    requires forall j :: 0 <= j < |order| ==> order[j] in best && order[j] in firstSeen
    ensures |rows| == |order|
    ensures forall j :: 0 <= j < |order| ==> rows[j] == Row(best[order[j]], firstSeen[order[j]])
  {
    seq(|order|, j requires 0 <= j < |order| => Row(best[order[j]], firstSeen[order[j]]))
  }

  /** After the loop the dictionaries, read in insertion order, are the rows of the table. */
  lemma MirrorsRows(all: seq<Element>, best: map<DedupeKey, Element>, firstSeen: map<DedupeKey, nat>,
                    order: seq<DedupeKey>)
    requires Mirrors(all, best, firstSeen, order, Table(Samples(all)))
    ensures forall j :: 0 <= j < |order| ==> order[j] in best && order[j] in firstSeen
    ensures ValuesInOrder(best, firstSeen, order) == RowsOf(all, Table(Samples(all)))
  {
  }

  /**
   * The body of the inner loop of `merge_snapshots`: record the first
   * sighting of the element's key, and keep the element when its key is
   * new or it is strictly better than the one kept so far.
   */
  method AbsorbElement(ghost all: seq<Element>, best0: map<DedupeKey, Element>, firstSeen0: map<DedupeKey, nat>,
                       order0: seq<DedupeKey>, idx: nat, el: Element)
    returns (best: map<DedupeKey, Element>, firstSeen: map<DedupeKey, nat>, order: seq<DedupeKey>)
    requires idx < |all| && el == all[idx]
    requires Mirrors(all, best0, firstSeen0, order0, TableUpTo(Samples(all), idx))
    ensures Mirrors(all, best, firstSeen, order, TableUpTo(Samples(all), idx + 1))
  {
    var k := KeyOf(el);
    MirrorsStep(all, best0, firstSeen0, order0, idx, el, k);
    best, firstSeen, order := best0, firstSeen0, order0;
    if k !in firstSeen {
      firstSeen := firstSeen[k := idx];
      order := order + [k];
    }
    if k !in best || Better(QualityOf(el), QualityOf(best[k])) {
      best := best[k := el];
    }
  }

  /**
   * The inner loop of `merge_snapshots` over one snapshot's elements,
   * which sit at `idx..` in the flattened sequence.
   */
  method AbsorbElements(ghost all: seq<Element>, els: seq<Element>, best0: map<DedupeKey, Element>,
                        firstSeen0: map<DedupeKey, nat>, order0: seq<DedupeKey>, idx0: nat)
    returns (best: map<DedupeKey, Element>, firstSeen: map<DedupeKey, nat>, order: seq<DedupeKey>, idx: nat)
    requires idx0 + |els| <= |all|
    requires forall e :: 0 <= e < |els| ==> all[idx0 + e] == els[e]
    requires Mirrors(all, best0, firstSeen0, order0, TableUpTo(Samples(all), idx0))
    ensures idx == idx0 + |els|
    ensures Mirrors(all, best, firstSeen, order, TableUpTo(Samples(all), idx))
  {
    best, firstSeen, order, idx := best0, firstSeen0, order0, idx0;
    var e := 0;
    while e < |els|
      invariant 0 <= e <= |els| && idx == idx0 + e
      invariant Mirrors(all, best, firstSeen, order, TableUpTo(Samples(all), idx))
    {
      best, firstSeen, order := AbsorbElement(all, best, firstSeen, order, idx, els[e]);
      idx := idx + 1;
      e := e + 1;
    }
  }

  /**
   * The outer loop of `merge_snapshots`: every element of every snapshot,
   * in order, passes through the dictionaries.
   */
  method CollectBest(snaps: seq<Snapshot>)
    returns (best: map<DedupeKey, Element>, firstSeen: map<DedupeKey, nat>, order: seq<DedupeKey>)
    ensures Mirrors(Flatten(snaps), best, firstSeen, order, Table(Samples(Flatten(snaps))))
  {
    ghost var all := Flatten(snaps);
    best, firstSeen, order := map[], map[], [];
    var idx := 0;
    var s := 0;
    while s < |snaps|
      invariant 0 <= s <= |snaps|
      invariant idx == |Flatten(snaps[..s])| <= |all|
      invariant Mirrors(all, best, firstSeen, order, TableUpTo(Samples(all), idx))
    {
      best, firstSeen, order, idx := AbsorbSnapshot(all, snaps, s, best, firstSeen, order, idx);
      s := s + 1;
    }
    assert snaps[..s] == snaps;
  }

  /** One pass of the outer loop: the elements of snapshot `s`. */
  method AbsorbSnapshot(ghost all: seq<Element>, snaps: seq<Snapshot>, s: nat, best0: map<DedupeKey, Element>,
                        firstSeen0: map<DedupeKey, nat>, order0: seq<DedupeKey>, idx0: nat)
    returns (best: map<DedupeKey, Element>, firstSeen: map<DedupeKey, nat>, order: seq<DedupeKey>, idx: nat)
    requires all == Flatten(snaps)
    requires s < |snaps| && idx0 == |Flatten(snaps[..s])| <= |all|
    requires Mirrors(all, best0, firstSeen0, order0, TableUpTo(Samples(all), idx0))
    ensures idx == |Flatten(snaps[..s + 1])| <= |all|
    ensures Mirrors(all, best, firstSeen, order, TableUpTo(Samples(all), idx))
  {
    FlattenSlice(snaps, s);
    var els := snaps[s].elements;
    assert idx0 + |els| <= |all|;
    assert forall e :: 0 <= e < |els| ==> all[idx0 + e] == els[e];
    best, firstSeen, order, idx := AbsorbElements(all, els, best0, firstSeen0, order0, idx0);
  }

  /** `merge_snapshots`: the dictionaries' values in insertion order, sorted, then cut to the limit. */
  method MergeSnapshots(snaps: seq<Snapshot>, unionLimit: Option<int>) returns (r: Result<Snapshot, string>)
    ensures r == MergeSpec(snaps, unionLimit)
  {
    if |snaps| == 0 {
      return Failure(EMPTY_MERGE_ERROR);
    }
    var best, firstSeen, order := CollectBest(snaps);
    MirrorsRows(Flatten(snaps), best, firstSeen, order);
    var merged := ElementsOf(SortRows(ValuesInOrder(best, firstSeen, order)));
    r := Success(snaps[0].(elements := Limit(merged, unionLimit), screenshot := None));
  }
}
