/**
 * The like / favourite toggle: a user's relation row to a target is created
 * when absent and deleted when present, and the target's counter moves by
 * one in the same step. A relation table is a set of (user, target) rows.
 */
module Engagement {
  import opened Models

  /** The rows of a relation table that point at `t`. */
  function RowsFor<K(==,!new)>(rows: set<(UserId, K)>, t: K): set<(UserId, K)> {
    set x | x in rows && x.1 == t
  }

  /** A table after a toggle, and whether the user is now engaged. */
  datatype Toggled<K(==)> = Toggled(rows: set<(UserId, K)>, engaged: bool)

  /** `get_or_create` the row, then delete it if it already existed. */
  function Toggle<K(==,!new)>(rows: set<(UserId, K)>, u: UserId, t: K): (r: Toggled<K>)
    ensures r.engaged <==> (u, t) !in rows
    ensures (u, t) in r.rows <==> r.engaged
    ensures forall x :: x != (u, t) ==> (x in r.rows <==> x in rows)
  {
    if (u, t) in rows then Toggled(rows - {(u, t)}, false) else Toggled(rows + {(u, t)}, true)
  }

  /** The counter update of a toggle: `+= 1` when the row was created, `-= 1` (unclamped) when deleted. */
  function Step(count: int, engaged: bool): int {
    if engaged then count + 1 else count - 1
  }

  /**
   * A counter that equals its target's row count before a toggle still does
   * afterwards, and so is never negative.
   */
  lemma ToggleKeepsCount<K(!new)>(rows: set<(UserId, K)>, count: int, u: UserId, t: K)
    requires count == |RowsFor(rows, t)|
    ensures Step(count, Toggle(rows, u, t).engaged) == |RowsFor(Toggle(rows, u, t).rows, t)|
    ensures Step(count, Toggle(rows, u, t).engaged) >= 0
  {
    var r := Toggle(rows, u, t);
    if (u, t) in rows {
      assert RowsFor(r.rows, t) == RowsFor(rows, t) - {(u, t)};
    } else {
      assert RowsFor(r.rows, t) == RowsFor(rows, t) + {(u, t)};
    }
  }

  /** A toggle leaves the rows of every other target as they were. */
  lemma ToggleLeavesOthers<K(!new)>(rows: set<(UserId, K)>, u: UserId, t: K)
    ensures forall t' :: t' != t ==> RowsFor(Toggle(rows, u, t).rows, t') == RowsFor(rows, t')
  {
    forall t' | t' != t ensures RowsFor(Toggle(rows, u, t).rows, t') == RowsFor(rows, t') {
      var r := Toggle(rows, u, t);
      assert forall x :: x in RowsFor(r.rows, t') <==> x in RowsFor(rows, t');
    }
  }

  /** Toggling twice restores the table, and the two toggles report opposite states. */
  lemma ToggleTwice<K(!new)>(rows: set<(UserId, K)>, u: UserId, t: K)
    ensures Toggle(Toggle(rows, u, t).rows, u, t).rows == rows
    ensures Toggle(Toggle(rows, u, t).rows, u, t).engaged == !Toggle(rows, u, t).engaged
  {
  }

  /** The table after `n` toggles by the same user on the same target. */
  function Toggles<K(==,!new)>(rows: set<(UserId, K)>, u: UserId, t: K, n: nat): set<(UserId, K)> {
    if n == 0 then rows else Toggle(Toggles(rows, u, t, n - 1), u, t).rows
  }

  /**
   * After an even number of toggles the table is as before; after an odd
   * number it is as after one toggle.
   */
  lemma {:induction false} RepeatedToggles<K(!new)>(rows: set<(UserId, K)>, u: UserId, t: K, n: nat)
    ensures Toggles(rows, u, t, n) == if n % 2 == 0 then rows else Toggle(rows, u, t).rows
  {
    if n > 0 {
      RepeatedToggles(rows, u, t, n - 1);
      ToggleTwice(rows, u, t);
    }
  }

  /** The counter after `n` toggles, starting from `count`. */
  function Steps<K(==,!new)>(rows: set<(UserId, K)>, count: int, u: UserId, t: K, n: nat): int {
    if n == 0 then count
    else Step(Steps(rows, count, u, t, n - 1), Toggle(Toggles(rows, u, t, n - 1), u, t).engaged)
  }

  /**
   * Starting from a consistent counter, any number of toggles keeps the
   * counter equal to the row count; an odd number leaves it one away from
   * where it started.
   */
  lemma {:induction false} RepeatedTogglesCount<K(!new)>(rows: set<(UserId, K)>, count: int, u: UserId, t: K, n: nat)
    requires count == |RowsFor(rows, t)|
    ensures Steps(rows, count, u, t, n) == |RowsFor(Toggles(rows, u, t, n), t)| >= 0
    ensures Steps(rows, count, u, t, n) == if n % 2 == 0 then count else Step(count, (u, t) !in rows)
  {
    if n > 0 {
      RepeatedTogglesCount(rows, count, u, t, n - 1);
      ToggleKeepsCount(Toggles(rows, u, t, n - 1), Steps(rows, count, u, t, n - 1), u, t);
      RepeatedToggles(rows, u, t, n - 1);
      RepeatedToggles(rows, u, t, n);
      ToggleKeepsCount(rows, count, u, t);
    }
  }
}
