/**
 * A Core Data entity table as a sequence of rows in insertion order, and the fetch
 * requests the repositories issue against it: `title == %@` and a sort on the timestamp.
 */
module Table {
  import opened Wrappers
  import opened Books
  import opened StoredBook

  /** The predicate `title == %@`; a row whose title is nil matches no title. */
  predicate HasTitle(row: Row, title: string) {
    row.columns.title == Some(title)
  }

  /** `context.count(for:)` on `title == %@`. */
  function CountTitle(rows: seq<Row>, title: string): (n: nat)
    ensures n <= |rows|
    ensures n == 0 <==> forall i :: 0 <= i < |rows| ==> !HasTitle(rows[i], title)
  {
    if rows == [] then 0
    else CountTitle(rows[..|rows| - 1], title) + (if HasTitle(rows[|rows| - 1], title) then 1 else 0)
  }

  /** The table after deleting every row that matches `title == %@`; the others keep their order. */
  function WithoutTitle(rows: seq<Row>, title: string): (r: seq<Row>)
    ensures |r| == |rows| - CountTitle(rows, title)
    ensures forall i :: 0 <= i < |r| ==> !HasTitle(r[i], title) && r[i] in rows
    ensures forall row :: row in rows && !HasTitle(row, title) ==> row in r
  {
    if rows == [] then []
    else
      var last := rows[|rows| - 1];
      WithoutTitle(rows[..|rows| - 1], title) + (if HasTitle(last, title) then [] else [last])
  }

  /** Timestamps strictly increase in insertion order: the clock that stamps rows only moves forward. */
  predicate StampsIncreasing(rows: seq<Row>) {
    forall i, j :: 0 <= i < j < |rows| ==> rows[i].stamp < rows[j].stamp
  }

  /** `now` is later than every stored stamp. */
  predicate Later(now: Timestamp, rows: seq<Row>) {
    forall i :: 0 <= i < |rows| ==> rows[i].stamp < now
  }

  /** Each title is stored at most once. */
  predicate TitlesDistinct(rows: seq<Row>) {
    forall i, j :: 0 <= i < j < |rows| ==> rows[i].columns.title != rows[j].columns.title
  }

  /** Sorted on the timestamp, newest first. */
  predicate NewestFirstOrder(rows: seq<Row>) {
    forall i, j :: 0 <= i < j < |rows| ==> rows[i].stamp > rows[j].stamp
  }

  /** The rows in reverse insertion order. */
  function NewestFirst(rows: seq<Row>): (r: seq<Row>)
    ensures |r| == |rows|
    ensures forall k :: 0 <= k < |r| ==> r[k] == rows[|rows| - 1 - k]
  {
    if rows == [] then [] else [rows[|rows| - 1]] + NewestFirst(rows[..|rows| - 1])
  }

  /** Under increasing stamps, reverse insertion order is sorted on the timestamp, newest first. */
  lemma NewestFirstIsSorted(rows: seq<Row>)
    requires StampsIncreasing(rows)
    ensures NewestFirstOrder(NewestFirst(rows))
  {
    var r := NewestFirst(rows);
    forall i, j | 0 <= i < j < |r|
      ensures r[i].stamp > r[j].stamp
    {
      assert r[i] == rows[|rows| - 1 - i] && r[j] == rows[|rows| - 1 - j];
    }
  }

  /** Reversing keeps every row, as often as it occurs. */
  lemma {:induction false} NewestFirstIsPermutation(rows: seq<Row>)
    ensures multiset(NewestFirst(rows)) == multiset(rows)
  {
    if rows != [] {
      var init, last := rows[..|rows| - 1], rows[|rows| - 1];
      NewestFirstIsPermutation(init);
      assert rows == init + [last];
      assert NewestFirst(rows) == [last] + NewestFirst(init);
    }
  }

  /**
   * Under increasing stamps, reverse insertion order is the result of the sort descriptor
   * `(stamp, ascending: false)`: a permutation of the table that is sorted newest first.
   * With distinct stamps that sorted permutation is unique.
   */
  lemma NewestFirstIsSortedFetch(rows: seq<Row>)
    requires StampsIncreasing(rows)
    ensures NewestFirstOrder(NewestFirst(rows))
    ensures multiset(NewestFirst(rows)) == multiset(rows)
  {
    NewestFirstIsSorted(rows);
    NewestFirstIsPermutation(rows);
  }

  lemma {:induction false} CountTitleAppend(rows: seq<Row>, row: Row, title: string)
    ensures CountTitle(rows + [row], title) == CountTitle(rows, title) + (if HasTitle(row, title) then 1 else 0)
  {
    assert (rows + [row])[..|rows|] == rows;
  }

  /** After deleting a title, no row has it and every other title keeps its count. */
  lemma {:induction false} CountWithoutTitle(rows: seq<Row>, title: string, other: string)
    ensures CountTitle(WithoutTitle(rows, title), other) == if other == title then 0 else CountTitle(rows, other)
  {
    if rows != [] {
      var init, last := rows[..|rows| - 1], rows[|rows| - 1];
      var w := WithoutTitle(init, title);
      CountWithoutTitle(init, title, other);
      assert CountTitle(rows, other) == CountTitle(init, other) + (if HasTitle(last, other) then 1 else 0);
      if HasTitle(last, title) {
        assert WithoutTitle(rows, title) == w + [];
        assert w + [] == w;
      } else {
        assert WithoutTitle(rows, title) == w + [last];
        CountTitleAppend(w, last, other);
      }
    }
  }

  /** A suffix of rows without the title has no row with it either. */
  lemma NoTitleInSuffix(rows: seq<Row>, from: nat, title: string)
    requires from <= |rows| && CountTitle(rows, title) == 0
    ensures CountTitle(rows[from..], title) == 0
  {
    assert forall i :: 0 <= i < |rows[from..]| ==> rows[from..][i] == rows[from + i];
  }

  /** Deleting a title that no row has leaves the table as it was. */
  lemma {:induction false} WithoutAbsentTitle(rows: seq<Row>, title: string)
    requires CountTitle(rows, title) == 0
    ensures WithoutTitle(rows, title) == rows
  {
    if rows != [] {
      var init := rows[..|rows| - 1];
      assert CountTitle(init, title) == 0;
      WithoutAbsentTitle(init, title);
      assert rows == init + [rows[|rows| - 1]];
    }
  }

  /**
   * The delete loop both repositories run over the rows a `title == %@` fetch returns:
   * `context.delete` on each match, keeping the rest in order.
   */
  method DeleteTitle(rows: seq<Row>, title: string) returns (kept: seq<Row>)
    ensures kept == WithoutTitle(rows, title)
  {
    kept := [];
    var i := 0;
    while i < |rows|
      invariant 0 <= i <= |rows|
      invariant kept == WithoutTitle(rows[..i], title)
    {
      WithoutTitleStep(rows, i, title);
      if !HasTitle(rows[i], title) {
        kept := kept + [rows[i]];
      }
      i := i + 1;
    }
    assert rows[..i] == rows;
  }

  /** One step of the delete loop: the matches among the first `i + 1` rows are deleted. */
  lemma WithoutTitleStep(rows: seq<Row>, i: nat, title: string)
    requires i < |rows|
    ensures WithoutTitle(rows[..i + 1], title)
         == WithoutTitle(rows[..i], title) + (if HasTitle(rows[i], title) then [] else [rows[i]])
  {
    assert rows[..i + 1][..i] == rows[..i];
  }

  /**
   * Deleting a title from a concatenation deletes it from each part, so the rows that stay
   * keep their relative order and their number of copies.
   */
  lemma {:induction false} WithoutTitleAppend(a: seq<Row>, b: seq<Row>, title: string)
    ensures WithoutTitle(a + b, title) == WithoutTitle(a, title) + WithoutTitle(b, title)
    decreases |b|
  {
    if b == [] {
      assert a + b == a;
    } else {
      var init, last := b[..|b| - 1], b[|b| - 1];
      assert (a + b)[..|a + b| - 1] == a + init;
      WithoutTitleAppend(a, init, title);
    }
  }

  /** Deleting rows keeps the remaining ones in their order, so stamps stay increasing. */
  lemma {:induction false} WithoutTitleKeepsStamps(rows: seq<Row>, title: string)
    requires StampsIncreasing(rows)
    ensures StampsIncreasing(WithoutTitle(rows, title))
  {
    if rows != [] {
      var init, last := rows[..|rows| - 1], rows[|rows| - 1];
      WithoutTitleKeepsStamps(init, title);
      var w := WithoutTitle(init, title);
      forall i | 0 <= i < |w|
        ensures w[i].stamp < last.stamp
      {
        var j :| 0 <= j < |init| && init[j] == w[i];
      }
    }
  }

  /** Deleting rows never makes two rows share a title. */
  lemma {:induction false} WithoutTitleKeepsTitlesDistinct(rows: seq<Row>, title: string)
    requires TitlesDistinct(rows)
    ensures TitlesDistinct(WithoutTitle(rows, title))
  {
    if rows != [] {
      var init, last := rows[..|rows| - 1], rows[|rows| - 1];
      WithoutTitleKeepsTitlesDistinct(init, title);
      var w := WithoutTitle(init, title);
      forall i | 0 <= i < |w|
        ensures w[i].columns.title != last.columns.title
      {
        var j :| 0 <= j < |init| && init[j] == w[i];
      }
    }
  }

  /** A time later than every row is later than every row left after a delete. */
  lemma WithoutTitleKeepsLater(rows: seq<Row>, title: string, now: Timestamp)
    requires Later(now, rows)
    ensures Later(now, WithoutTitle(rows, title))
  {
    var w := WithoutTitle(rows, title);
    forall i | 0 <= i < |w|
      ensures w[i].stamp < now
    {
      var j :| 0 <= j < |rows| && rows[j] == w[i];
    }
  }
}
