/**
 * The deterministic ordering `merge_snapshots` applies to its union:
 * `list.sort` with the key `_sort_key`, which is stable. Elements with a
 * document offset come first, by offset and then by descending importance;
 * the others follow in first-seen order. The sort itself is modelled as a stable
 * insertion sort.
 */
module MergeOrder {
  import opened Models

  /** An element of the union together with the index where its key was first seen. */
  datatype Row = Row(el: Element, seen: nat)

  /** `_sort_key(e)`; the constant `inf` of the second group is any value shared by the group. */
  datatype SortKey = SortKey(group: int, y: int, tie: int)

  function SortKeyOf(r: Row): (k: SortKey)
    ensures k.group == 0 <==> r.el.docY.Some?
    ensures r.el.docY.Some? ==> k.y == r.el.docY.value && k.tie == -r.el.importance
    ensures r.el.docY.None? ==> k.group == 1 && k.tie == r.seen
  {
    if r.el.docY.Some? then SortKey(0, r.el.docY.value, -r.el.importance)
    else SortKey(1, 0, r.seen)
  }

  /** Python's tuple `a <= b`. */
  predicate KeyLe(a: SortKey, b: SortKey) {
    || a.group < b.group
    || (a.group == b.group && a.y < b.y)
    || (a.group == b.group && a.y == b.y && a.tie <= b.tie)
  }

  /** The order a stable sort produces from input in first-seen order: by key, then by first sighting. */
  predicate RowBefore(a: Row, b: Row) {
    KeyLe(SortKeyOf(a), SortKeyOf(b)) && (SortKeyOf(a) == SortKeyOf(b) ==> a.seen < b.seen)
  }

  predicate Ordered(s: seq<Row>) {
    forall i, j :: 0 <= i < j < |s| ==> RowBefore(s[i], s[j])
  }

  predicate SeenIncreasing(s: seq<Row>) {
    forall i, j :: 0 <= i < j < |s| ==> s[i].seen < s[j].seen
  }

  /** Place `r` after every row whose key is not greater than its own. */
  function Insert(r: Row, s: seq<Row>): (o: seq<Row>)
    ensures |o| == |s| + 1
    ensures multiset(o) == multiset(s) + multiset{r}
  {
    if s == [] then [r]
    else if KeyLe(SortKeyOf(s[0]), SortKeyOf(r)) then
      assert s == [s[0]] + s[1..];
      [s[0]] + Insert(r, s[1..])
    else [r] + s
  }

  /** `rows.sort(key=SortKeyOf)` */
  function SortRows(rows: seq<Row>): (o: seq<Row>)
    ensures |o| == |rows|
    ensures multiset(o) == multiset(rows)
  {
    if rows == [] then []
    else
      assert rows == rows[..|rows| - 1] + [rows[|rows| - 1]];
      Insert(rows[|rows| - 1], SortRows(rows[..|rows| - 1]))
  }

  lemma KeyLeTotal(a: SortKey, b: SortKey, c: SortKey)
    ensures KeyLe(a, b) || KeyLe(b, a)
    ensures KeyLe(a, b) && KeyLe(b, c) ==> KeyLe(a, c)
    ensures KeyLe(a, b) && KeyLe(b, a) ==> a == b
  {
  }

  /** Inserting a row seen later than all others into an ordered sequence keeps it ordered. */
  lemma {:induction false} InsertOrdered(r: Row, s: seq<Row>)
    requires Ordered(s)
    requires forall i :: 0 <= i < |s| ==> s[i].seen < r.seen
    ensures Ordered(Insert(r, s))
  {
    if s != [] && KeyLe(SortKeyOf(s[0]), SortKeyOf(r)) {
      InsertOrdered(r, s[1..]);
      var o := Insert(r, s);
      var tail := Insert(r, s[1..]);
      forall j | 1 <= j < |o| ensures RowBefore(s[0], o[j]) {
        assert o[j] == tail[j - 1];
        assert o[j] in multiset(tail);
        assert o[j] == r || o[j] in multiset(s[1..]);
        if o[j] != r {
          var k :| 0 <= k < |s[1..]| && s[1..][k] == o[j];
          assert s[k + 1] == o[j];
        }
      }
    } else if s != [] {
      forall j | 0 <= j < |s| ensures RowBefore(r, s[j]) {
        assert RowBefore(s[0], s[j]) || j == 0;
        KeyLeTotal(SortKeyOf(r), SortKeyOf(s[0]), SortKeyOf(s[j]));
      }
    }
  }

  /**
   * Sorting rows given in first-seen order yields them ordered by key,
   * with rows of equal key still in first-seen order: the sort is stable.
   */
  lemma {:induction false} SortOrdered(rows: seq<Row>)
    requires SeenIncreasing(rows)
    ensures Ordered(SortRows(rows))
  {
    if rows != [] {
      var init := rows[..|rows| - 1];
      var last := rows[|rows| - 1];
      SortOrdered(init);
      var s := SortRows(init);
      forall i | 0 <= i < |s| ensures s[i].seen < last.seen {
        assert s[i] in multiset(init);
        var k :| 0 <= k < |init| && init[k] == s[i];
      }
      InsertOrdered(last, s);
    }
  }

  /** The two groups of the ordering: rows with a `doc_y` come before rows without one. */
  lemma OrderedGroups(s: seq<Row>, i: nat, j: nat)
    requires Ordered(s) && i < j < |s|
    ensures s[j].el.docY.Some? ==> s[i].el.docY.Some?
    ensures s[i].el.docY.Some? && s[j].el.docY.Some? ==>
      s[i].el.docY.value < s[j].el.docY.value ||
      (s[i].el.docY.value == s[j].el.docY.value && s[i].el.importance >= s[j].el.importance)
    ensures s[i].el.docY.Some? && s[i].el.docY == s[j].el.docY && s[i].el.importance == s[j].el.importance ==>
      s[i].seen < s[j].seen
    ensures s[i].el.docY.None? ==> s[i].seen < s[j].seen
  {
    assert RowBefore(s[i], s[j]);
  }
}
