/**
 * The relational side of the hosted backend, as values: a table is a sequence
 * of rows, every row has an `id` and an owning `user_id`, and a query is a
 * filter optionally followed by an ORDER BY.
 */
module Tables {

  /** One row of a table: its primary key, its owner and the table-specific columns. */
  datatype Row<+D> = Row(id: string, userId: string, data: D)

  /** The rows of `s` that satisfy `p`, in table order (`.eq(...)` filters). */
  function Filter<T>(s: seq<T>, p: T -> bool): (r: seq<T>)
    ensures |r| <= |s|
    ensures forall k :: 0 <= k < |r| ==> p(r[k])
    ensures multiset(r) <= multiset(s)
  {
    if s == [] then []
    else
      assert s == [s[0]] + s[1..];
      if p(s[0]) then [s[0]] + Filter(s[1..], p) else Filter(s[1..], p)
  }

  /** Every row of `s` that satisfies `p` is kept by the filter. */
  lemma {:induction false} FilterComplete<T>(s: seq<T>, p: T -> bool, k: nat)
    requires k < |s| && p(s[k])
    ensures s[k] in Filter(s, p)
  {
    if k > 0 {
      FilterComplete(s[1..], p, k - 1);
    }
  }

  /** Every row the filter keeps is a row of `s`. */
  lemma FilterMember<T>(s: seq<T>, p: T -> bool, k: nat)
    requires k < |Filter(s, p)|
    ensures exists j :: 0 <= j < |s| && s[j] == Filter(s, p)[k]
  {
    assert Filter(s, p)[k] in multiset(Filter(s, p));
    assert Filter(s, p)[k] in multiset(s);
  }

  /** Rows of the table whose owner is `u`. */
  function OwnedBy<D>(u: string): Row<D> -> bool
  {
    (r: Row<D>) => r.userId == u
  }

  /** The `.eq("id", id).eq("user_id", u)` filter. */
  function IdAndOwner<D>(id: string, u: string): Row<D> -> bool
  {
    (r: Row<D>) => r.id == id && r.userId == u
  }

  /** The complement of a filter: what a DELETE with filter `p` leaves behind. */
  function Not<T>(p: T -> bool): T -> bool
  {
    x => !p(x)
  }

  /** Some row of the table has primary key `id`. */
  predicate HasId<D>(rows: seq<Row<D>>, id: string)
  {
    exists k :: 0 <= k < |rows| && rows[k].id == id
  }

  /** An UPDATE: the rows selected by `p` get their columns rewritten by `f`; keys, owners and order stay. */
  function UpdateWhere<D>(rows: seq<Row<D>>, p: Row<D> -> bool, f: D -> D): (r: seq<Row<D>>)
    ensures |r| == |rows|
    ensures forall k :: 0 <= k < |r| ==>
              r[k].id == rows[k].id && r[k].userId == rows[k].userId
              && r[k].data == (if p(rows[k]) then f(rows[k].data) else rows[k].data)
  {
    if rows == [] then []
    else
      var row := rows[0];
      [if p(row) then row.(data := f(row.data)) else row] + UpdateWhere(rows[1..], p, f)
  }

  /**
   * What an owner-scoped `UPDATE ... RETURNING` hands back: each returned row is
   * a matched row of the old table with its columns rewritten by `f`.
   */
  lemma UpdatedRowReturned<D>(rows: seq<Row<D>>, id: string, u: string, f: D -> D, k: nat)
    requires k < |Filter(UpdateWhere(rows, IdAndOwner(id, u), f), IdAndOwner(id, u))|
    ensures var x := Filter(UpdateWhere(rows, IdAndOwner(id, u), f), IdAndOwner(id, u))[k];
            exists j :: 0 <= j < |rows| && rows[j].id == id && rows[j].userId == u
                        && x == Row(id, u, f(rows[j].data))
  {
    var updated := UpdateWhere(rows, IdAndOwner(id, u), f);
    FilterMember(updated, IdAndOwner(id, u), k);
    var j :| 0 <= j < |updated| && updated[j] == Filter(updated, IdAndOwner(id, u))[k];
    assert IdAndOwner(id, u)(updated[j]);
    assert rows[j].id == id && rows[j].userId == u;
  }

  /** Every row that the filter `keep` keeps survives a delete of the rows outside it. */
  lemma {:induction false} FilterKeepsUntouched<T>(s: seq<T>, keep: T -> bool, view: T -> bool)
    requires forall x :: view(x) ==> keep(x)
    ensures Filter(Filter(s, keep), view) == Filter(s, view)
  {
    if s != [] {
      FilterKeepsUntouched(s[1..], keep, view);
      if keep(s[0]) {
        assert Filter(s, keep) == [s[0]] + Filter(s[1..], keep);
        assert Filter(s, keep)[1..] == Filter(s[1..], keep);
      }
    }
  }

  /** Filtering a table with one row appended (an INSERT) filters the old rows and then the new one. */
  lemma {:induction false} FilterOfAppend<T>(s: seq<T>, x: T, p: T -> bool)
    ensures Filter(s + [x], p) == if p(x) then Filter(s, p) + [x] else Filter(s, p)
    decreases |s|
  {
    if s == [] {
      assert [] + [x] == [x];
    } else {
      assert (s + [x])[0] == s[0];
      assert (s + [x])[1..] == s[1..] + [x];
      FilterOfAppend(s[1..], x, p);
    }
  }

  // ---------------------------------------------------------------- ordering

  /** `a` may come before `b` in an ORDER BY on the key, in the given direction. */
  predicate InOrder(a: int, b: int, ascending: bool)
  {
    if ascending then a <= b else a >= b
  }

  predicate SortedOn<T>(s: seq<T>, key: T -> int, ascending: bool)
  {
    forall i, j :: 0 <= i < j < |s| ==> InOrder(key(s[i]), key(s[j]), ascending)
  }

  /** Insert `x` into a sorted sequence, keeping it sorted. */
  function InsertSorted<T>(x: T, s: seq<T>, key: T -> int, ascending: bool): (r: seq<T>)
    requires SortedOn(s, key, ascending)
    ensures SortedOn(r, key, ascending)
    ensures multiset(r) == multiset(s) + multiset{x}
  {
    if s == [] || InOrder(key(x), key(s[0]), ascending) then
      [x] + s
    else
      var tail := InsertSorted(x, s[1..], key, ascending);
      InsertBehindHead(x, s, key, ascending, tail);
      [s[0]] + tail
  }

  /** The head of `s` may precede the insertion of `x` into the rest of `s`. */
  lemma InsertBehindHead<T>(x: T, s: seq<T>, key: T -> int, ascending: bool, tail: seq<T>)
    requires s != [] && SortedOn(s, key, ascending) && !InOrder(key(x), key(s[0]), ascending)
    requires SortedOn(tail, key, ascending) && multiset(tail) == multiset(s[1..]) + multiset{x}
    ensures SortedOn([s[0]] + tail, key, ascending)
    ensures multiset([s[0]] + tail) == multiset(s) + multiset{x}
  {
    assert s == [s[0]] + s[1..];
    forall k | 0 <= k < |tail|
      ensures InOrder(key(s[0]), key(tail[k]), ascending)
    {
      assert tail[k] in multiset(tail);
      if tail[k] != x {
        assert tail[k] in multiset(s[1..]);
        var j :| 0 <= j < |s[1..]| && s[1..][j] == tail[k];
        assert s[j + 1] == tail[k];
      }
    }
    var r := [s[0]] + tail;
    forall i, j | 0 <= i < j < |r|
      ensures InOrder(key(r[i]), key(r[j]), ascending)
    {
      if i > 0 { assert r[i] == tail[i - 1] && r[j] == tail[j - 1]; }
      else { assert r[j] == tail[j - 1]; }
    }
  }

  /**
   * The rows of `s` ordered on the key (`.order(column, { ascending })`). Rows
   * with equal keys may come back in any order from the backend; the model fixes
   * one, and nothing stated about queries depends on which.
   */
  function SortOn<T>(s: seq<T>, key: T -> int, ascending: bool): (r: seq<T>)
    ensures SortedOn(r, key, ascending)
    ensures multiset(r) == multiset(s)
  {
    if s == [] then []
    else
      assert s == [s[0]] + s[1..];
      InsertSorted(s[0], SortOn(s[1..], key, ascending), key, ascending)
  }
}
