/**
 * Keyset paging (`page`): a cursor is the position of the last row returned, so a walk stays
 * sound while rows come and go between its pages. Positions that are list indexes are not such.
 */
module Paging {
  import opened Prelude

  /** A row, by the position it is paged on and the record it shows. */
  datatype Row = Row(position: nat, id: nat)

  /** A cursor names the query it belongs to. */
  datatype Cursor = Cursor(scope: string, after: nat)

  datatype Page = Page(items: seq<Row>, next: Option<Cursor>) | Invalid

  function Beyond(items: seq<Row>, after: Option<nat>): seq<Row> {
    if items == [] then []
    else (if after.None? || items[0].position > after.value then [items[0]] else []) + Beyond(items[1..], after)
  }

  function PageOf(items: seq<Row>, size: int, cursor: Option<Cursor>, scope: string): Page {
    if size < 1 || size > 100 then Invalid
    else if cursor.Some? && cursor.value.scope != scope then Invalid
    else
      var remaining := Beyond(items, if cursor.Some? then Some(cursor.value.after) else None);
      if |remaining| > size then Page(remaining[..size], Some(Cursor(scope, remaining[size - 1].position)))
      else Page(remaining, None)
  }

  ghost predicate Ascending(items: seq<Row>) { forall i, j | 0 <= i < j < |items| :: items[i].position < items[j].position }

  predicate Past(after: Option<nat>, position: nat) { after.None? || position > after.value }

  /** What lies beyond a position: those rows, in order. */
  lemma {:induction false} BeyondIs(items: seq<Row>, after: Option<nat>)
    requires Ascending(items)
    ensures Ascending(Beyond(items, after))
    ensures forall row :: row in Beyond(items, after) <==> row in items && Past(after, row.position)
  {
    if items != [] {
      var rest := items[1..];
      BeyondIs(rest, after);
      var more := Beyond(rest, after);
      assert items == [items[0]] + rest;
      forall i | 0 <= i < |more| ensures items[0].position < more[i].position { assert more[i] in rest; }
      assert Beyond(items, after) == if Past(after, items[0].position) then [items[0]] + more else more;
    }
  }

  // ---- a walk over changing lists ------------------------------------------------------------------

  function After(cursor: Option<Cursor>): Option<nat> { if cursor.Some? then Some(cursor.value.after) else None }

  /** The rows of a walk: its `k`-th page is taken from the list as it then is. */
  function Walk(lists: seq<seq<Row>>, size: int, cursor: Option<Cursor>, scope: string): seq<Row> {
    if lists == [] then []
    else match PageOf(lists[0], size, cursor, scope)
      case Invalid => []
      case Page(items, next) => items + if next.None? then [] else Walk(lists[1..], size, next, scope)
  }

  /** The walk came to a page without a next cursor. */
  predicate Completes(lists: seq<seq<Row>>, size: int, cursor: Option<Cursor>, scope: string) {
    lists != [] && (var p := PageOf(lists[0], size, cursor, scope); p.Page? && (p.next.None? || Completes(lists[1..], size, p.next, scope)))
  }

  ghost predicate Throughout(lists: seq<seq<Row>>, position: nat) {
    forall k | 0 <= k < |lists| :: exists row :: row in lists[k] && row.position == position
  }

  lemma OrderedIndexes(items: seq<Row>, i: nat, j: nat)
    requires Ascending(items) && i < |items| && j < |items| && items[i].position <= items[j].position
    ensures i <= j
  {}

  /** The rows of a page: of its list, in order, all past the cursor and none past the next one. */
  lemma PageRows(items: seq<Row>, size: int, cursor: Option<Cursor>, scope: string)
    requires Ascending(items) && PageOf(items, size, cursor, scope).Page?
    ensures var p := PageOf(items, size, cursor, scope);
      && Ascending(p.items) && (forall row | row in p.items :: row in items && Past(After(cursor), row.position))
      && (p.next.Some? ==> p.next.value.scope == scope && Past(After(cursor), p.next.value.after) && forall row | row in p.items :: row.position <= p.next.value.after)
  {
    var remaining := Beyond(items, After(cursor));
    BeyondIs(items, After(cursor));
    if |remaining| > size { assert remaining[size - 1] in remaining; }
  }

  /** What a page leaves out lies past its next cursor. */
  lemma PageLeavesNothing(items: seq<Row>, size: int, cursor: Option<Cursor>, scope: string, row: Row)
    requires Ascending(items) && PageOf(items, size, cursor, scope).Page? && row in items && Past(After(cursor), row.position)
    ensures var p := PageOf(items, size, cursor, scope); row in p.items || (p.next.Some? && Past(After(p.next), row.position))
  {
    var p := PageOf(items, size, cursor, scope);
    var remaining := Beyond(items, After(cursor));
    BeyondIs(items, After(cursor));
    if p.next.Some? && row.position <= p.next.value.after {
      var i :| 0 <= i < |remaining| && remaining[i] == row;
      OrderedIndexes(remaining, i, size - 1);
      assert p.items[i] == row;
    }
  }

  /** One page: rows of its list, in order, all past the cursor, and nothing between the cursor and the next one left out. */
  lemma PageIsSound(items: seq<Row>, size: int, cursor: Option<Cursor>, scope: string)
    requires Ascending(items) && PageOf(items, size, cursor, scope).Page?
    ensures var p := PageOf(items, size, cursor, scope);
      && Ascending(p.items) && (forall row | row in p.items :: row in items && Past(After(cursor), row.position))
      && (p.next.Some? ==> p.next.value.scope == scope && Past(After(cursor), p.next.value.after) && forall row | row in p.items :: row.position <= p.next.value.after)
      && (forall row | row in items && Past(After(cursor), row.position) && !(p.next.Some? && Past(After(p.next), row.position)) :: row in p.items)
  {
    var p := PageOf(items, size, cursor, scope);
    PageRows(items, size, cursor, scope);
    forall row | row in items && Past(After(cursor), row.position) && !(p.next.Some? && Past(After(p.next), row.position)) ensures row in p.items {
      PageLeavesNothing(items, size, cursor, scope, row);
    }
  }

  /** A walk never returns a position twice: what it returns ascends, beyond its cursor. */
  lemma {:induction false} WalkAscends(lists: seq<seq<Row>>, size: int, cursor: Option<Cursor>, scope: string)
    requires forall k | 0 <= k < |lists| :: Ascending(lists[k])
    ensures Ascending(Walk(lists, size, cursor, scope))
    ensures forall row | row in Walk(lists, size, cursor, scope) :: Past(After(cursor), row.position)
  {
    if lists != [] && PageOf(lists[0], size, cursor, scope).Page? {
      var p := PageOf(lists[0], size, cursor, scope);
      PageIsSound(lists[0], size, cursor, scope);
      if p.next.Some? {
        WalkAscends(lists[1..], size, p.next, scope);
        var rest := Walk(lists[1..], size, p.next, scope);
        forall i, j | 0 <= i < |p.items| && 0 <= j < |rest| ensures p.items[i].position < rest[j].position {
          assert p.items[i] in p.items && rest[j] in rest;
        }
      }
    }
  }

  /** A completed walk returns every position that was there throughout. */
  lemma {:induction false} WalkIsComplete(lists: seq<seq<Row>>, size: int, cursor: Option<Cursor>, scope: string, position: nat)
    requires forall k | 0 <= k < |lists| :: Ascending(lists[k])
    requires Completes(lists, size, cursor, scope) && Throughout(lists, position) && Past(After(cursor), position)
    ensures exists row :: row in Walk(lists, size, cursor, scope) && row.position == position
  {
    var p := PageOf(lists[0], size, cursor, scope);
    PageIsSound(lists[0], size, cursor, scope);
    assert exists row :: row in lists[0] && row.position == position;
    var row :| row in lists[0] && row.position == position;
    if p.next.Some? && Past(After(p.next), position) {
      assert Throughout(lists[1..], position) by {
        forall k | 0 <= k < |lists| - 1 ensures exists r :: r in lists[1..][k] && r.position == position { assert lists[1..][k] == lists[k + 1]; }
      }
      WalkIsComplete(lists[1..], size, p.next, scope, position);
      var later :| later in Walk(lists[1..], size, p.next, scope) && later.position == position;
      assert later in Walk(lists, size, cursor, scope);
    } else {
      assert row in p.items;
      assert row in Walk(lists, size, cursor, scope);
    }
  }

  /**
   * A whole walk over a changing list returns no position twice, in ascending order, and every
   * position that was there throughout exactly once.
   */
  lemma WalkUnderChange(lists: seq<seq<Row>>, size: int, scope: string)
    requires (forall k | 0 <= k < |lists| :: Ascending(lists[k])) && Completes(lists, size, None, scope)
    ensures Ascending(Walk(lists, size, None, scope))
    ensures forall position | Throughout(lists, position) :: exists i :: Returned(Walk(lists, size, None, scope), i, position)
    ensures forall position, i, j | Returned(Walk(lists, size, None, scope), i, position) && Returned(Walk(lists, size, None, scope), j, position) :: i == j
  {
    var walk := Walk(lists, size, None, scope);
    WalkAscends(lists, size, None, scope);
    forall position | Throughout(lists, position) ensures exists i :: Returned(walk, i, position) {
      WalkIsComplete(lists, size, None, scope, position);
      var row :| row in walk && row.position == position;
      var i :| 0 <= i < |walk| && walk[i] == row;
      assert Returned(walk, i, position);
    }
  }

  predicate Returned(walk: seq<Row>, i: int, position: nat) { 0 <= i < |walk| && walk[i].position == position }

  // ---- positions that are indexes --------------------------------------------------------------------

  /** The local inbox numbers its sorted rows afresh for every page. */
  function Indexed(ids: seq<nat>): seq<Row> { seq(|ids|, i requires 0 <= i < |ids| => Row(i + 1, ids[i])) }

  ghost predicate Sorted(ids: seq<nat>) { forall i, j | 0 <= i < j < |ids| :: ids[i] < ids[j] }

  /** The rows before the cursor are not shown again: none of them has moved past it. */
  ghost predicate NotShownAgain(before: seq<nat>, after: seq<nat>, cursor: nat)
    requires cursor <= |before| && cursor <= |after|
  {
    forall i | 0 <= i < cursor :: before[i] !in after[cursor..]
  }

  /**
   * Rows only arrive in the local inbox. Paging it by index shows no row twice exactly when no
   * row arrives among those already shown.
   */
  lemma IndexPagingExact(before: seq<nat>, after: seq<nat>, cursor: nat)
    requires Sorted(before) && Sorted(after) && (forall id | id in before :: id in after) && cursor <= |before| && cursor <= |after|
    ensures NotShownAgain(before, after, cursor) <==> after[..cursor] == before[..cursor]
  {
    if NotShownAgain(before, after, cursor) { StaysInPlace(before, after, cursor); }
    if after[..cursor] == before[..cursor] {
      forall i | 0 <= i < cursor ensures before[i] !in after[cursor..] { assert after[..cursor][i] == before[..cursor][i]; }
    }
  }

  /** The last row shown is found at or before its old place. */
  lemma FoundEarlier(before: seq<nat>, after: seq<nat>, cursor: nat) returns (j: nat)
    requires 0 < cursor <= |before| && cursor <= |after| && before[cursor - 1] in after && before[cursor - 1] !in after[cursor..]
    ensures j < cursor && after[j] == before[cursor - 1]
  {
    forall k | cursor <= k < |after| ensures after[k] in after[cursor..] { assert after[cursor..][k - cursor] == after[k]; }
    j :| 0 <= j < |after| && after[j] == before[cursor - 1];
  }

  lemma {:induction false} StaysInPlace(before: seq<nat>, after: seq<nat>, cursor: nat)
    requires Sorted(before) && Sorted(after) && (forall id | id in before :: id in after) && cursor <= |before| && cursor <= |after|
    requires forall i | 0 <= i < cursor :: before[i] !in after[cursor..]
    ensures after[..cursor] == before[..cursor]
  {
    if cursor > 0 {
      var c := cursor - 1;
      assert before[c] in before;
      var j := FoundEarlier(before, after, cursor);
      forall i | 0 <= i < c ensures before[i] !in after[c..] {
        assert after[c..] == [after[c]] + after[cursor..];
        assert before[i] < before[c] == after[j] <= after[c];
      }
      StaysInPlace(before, after, c);
      forall k | 0 <= k < c ensures after[k] == before[k] { assert after[..c][k] == before[..c][k]; }
      assert after[..cursor] == after[..c] + [after[c]] && before[..cursor] == before[..c] + [before[c]];
    }
  }

  /** One row arriving in front is enough: the walk shows record 2 on both of its first pages. */
  lemma InboxWalkRepeats()
    ensures var walk := Walk([Indexed([2, 3]), Indexed([1, 2, 3])], 1, None, ""); |walk| >= 2 && walk[0].id == 2 && walk[1].id == 2
  {}

  // ---- lists in another order than the one compared -------------------------------------------------

  lemma {:induction false} BeyondPast(items: seq<Row>, after: Option<nat>)
    ensures forall row :: row in Beyond(items, after) <==> row in items && Past(after, row.position)
  {
    if items != [] {
      BeyondPast(items[1..], after);
      assert items == [items[0]] + items[1..];
    }
  }

  lemma {:induction false} BeyondMore(items: seq<Row>, after: Option<nat>, later: nat)
    requires Past(after, later)
    ensures |Beyond(items, Some(later))| <= |Beyond(items, after)|
    ensures (exists row :: row in items && row.position == later) ==> |Beyond(items, Some(later))| < |Beyond(items, after)|
  {
    if items != [] {
      BeyondMore(items[1..], after, later);
      assert items == [items[0]] + items[1..];
    }
  }

  lemma CursorMoves(items: seq<Row>, size: nat, after: Option<nat>)
    requires 1 <= size < |Beyond(items, after)|
    ensures |Beyond(items, Some(Beyond(items, after)[size - 1].position))| < |Beyond(items, after)|
  {
    var last := Beyond(items, after)[size - 1];
    BeyondPast(items, after);
    assert last in items && last.position == last.position;
    BeyondMore(items, after, last.position);
  }

  /** All rows of a walk over a list that does not change. */
  function Steady(items: seq<Row>, size: nat, after: Option<nat>): seq<Row>
    requires 1 <= size
    decreases |Beyond(items, after)|
  {
    var remaining := Beyond(items, after);
    if |remaining| <= size then remaining
    else
      CursorMoves(items, size, after);
      remaining[..size] + Steady(items, size, Some(remaining[size - 1].position))
  }

  /** Enough pages of an unchanging list complete the walk, and show exactly that. */
  lemma {:induction false} SteadyIsWalk(items: seq<Row>, lists: seq<seq<Row>>, size: nat, cursor: Option<Cursor>, scope: string)
    requires 1 <= size <= 100 && (cursor.Some? ==> cursor.value.scope == scope)
    requires (forall k | 0 <= k < |lists| :: lists[k] == items) && |lists| > |Beyond(items, After(cursor))|
    ensures Completes(lists, size, cursor, scope) && Walk(lists, size, cursor, scope) == Steady(items, size, After(cursor))
    decreases |lists|
  {
    var p := PageOf(lists[0], size, cursor, scope);
    assert lists[0] == items;
    if p.next.Some? {
      CursorMoves(items, size, After(cursor));
      SteadyIsWalk(items, lists[1..], size, p.next, scope);
    }
  }

  lemma {:induction false} SinglePagesAscend(items: seq<Row>, after: Option<nat>)
    ensures Ascending(Steady(items, 1, after)) && forall row | row in Steady(items, 1, after) :: Past(after, row.position)
    decreases |Beyond(items, after)|
  {
    var remaining := Beyond(items, after);
    BeyondPast(items, after);
    if |remaining| > 1 {
      CursorMoves(items, 1, after);
      SinglePagesAscend(items, Some(remaining[0].position));
      assert remaining[0] in remaining;
      var rest := Steady(items, 1, Some(remaining[0].position));
      forall j | 0 <= j < |rest| ensures remaining[0].position < rest[j].position { assert rest[j] in rest; }
      assert Steady(items, 1, after) == [remaining[0]] + rest;
    }
  }

  lemma {:induction false} BeyondSuffix(items: seq<Row>, k: nat)
    requires Ascending(items) && 1 <= k <= |items|
    ensures Beyond(items, Some(items[k - 1].position)) == items[k..]
  {
    var after := Some(items[k - 1].position);
    if k == 1 {
      BeyondAll(items[1..], after);
    } else {
      BeyondSuffix(items[1..], k - 1);
    }
  }

  lemma {:induction false} BeyondAll(items: seq<Row>, after: Option<nat>)
    requires forall row | row in items :: Past(after, row.position)
    ensures Beyond(items, after) == items
  {
    if items != [] {
      assert items[0] in items && forall row | row in items[1..] :: row in items;
      BeyondAll(items[1..], after);
    }
  }

  /** The cursor that a walk over `items` holds after `k` rows. */
  function CursorAt(items: seq<Row>, k: nat): Option<nat>
    requires k <= |items|
  {
    if k == 0 then None else Some(items[k - 1].position)
  }

  lemma BeyondCursor(items: seq<Row>, k: nat)
    requires Ascending(items) && k <= |items|
    ensures Beyond(items, CursorAt(items, k)) == items[k..]
  {
    if k == 0 { BeyondAll(items, None); } else { BeyondSuffix(items, k); }
  }

  lemma Rejoin(items: seq<Row>, k: nat, size: nat)
    requires k + size <= |items|
    ensures items[k..][..size] + items[k + size..] == items[k..]
  {}

  /** One page further along an ascending list. */
  lemma SteadyStep(items: seq<Row>, size: nat, k: nat)
    requires Ascending(items) && 1 <= size && k <= |items|
    ensures Steady(items, size, CursorAt(items, k)) ==
      if |items| - k <= size then items[k..] else items[k..][..size] + Steady(items, size, CursorAt(items, k + size))
  {
    BeyondCursor(items, k);
    if |items| - k > size { assert items[k..][size - 1] == items[k + size - 1]; }
  }

  lemma {:induction false} AscendingIsShown(items: seq<Row>, size: nat, k: nat)
    requires Ascending(items) && 1 <= size && k <= |items|
    ensures Steady(items, size, CursorAt(items, k)) == items[k..]
    decreases |items| - k
  {
    SteadyStep(items, size, k);
    if |items| - k > size {
      AscendingIsShown(items, size, k + size);
      Rejoin(items, k, size);
    }
  }

  /**
   * The history page sorts by locale and compares by code unit. A walk over an unchanging list shows
   * exactly its rows, whatever the page size, if and only if the list also ascends in the order that
   * the cursor is compared in.
   */
  lemma ListOrderExact(items: seq<Row>)
    ensures (forall size: nat | 1 <= size <= 100 :: Steady(items, size, None) == items) <==> Ascending(items)
  {
    if Ascending(items) {
      forall size: nat | 1 <= size <= 100 ensures Steady(items, size, None) == items {
        AscendingIsShown(items, size, 0);
        assert CursorAt(items, 0) == None && items[0..] == items;
      }
    } else {
      var one: nat := 1;
      SinglePagesAscend(items, None);
      assert Steady(items, one, None) != items;
    }
  }

  /** "a" sorts before "B" by locale and after it by code unit: the second row is never shown. */
  lemma HistoryWalkDropsRow()
    ensures var list := [Row('a' as nat, 1), Row('B' as nat, 2)];
      Completes([list, list], 1, None, "") && Walk([list, list], 1, None, "") == [list[0]]
  {
    var list := [Row('a' as nat, 1), Row('B' as nat, 2)];
    assert list[1..] == [list[1]] && [list[1]][1..] == [];
    assert Beyond([], Some('a' as nat)) == [];
    assert Beyond([list[1]], None) == [list[1]];
    assert Beyond([list[1]], Some('a' as nat)) == [];
    assert Beyond(list, None) == list;
    assert Beyond(list, Some('a' as nat)) == [];
    var cursor := Some(Cursor("", 'a' as nat));
    assert PageOf(list, 1, None, "") == Page([list[0]], cursor) && PageOf(list, 1, cursor, "") == Page([], None);
    assert [list, list][1..] == [list];
  }
}
