/** Total-order listings: `ORDER BY column, id LIMIT n OFFSET m` and the count beside it.

    A column's collation is any total preorder; it is given as a rank into the reals. The id
    breaks ties and its direction flips with the column's. */
module Paging {

  datatype Order<!T> = Order(rank: T -> real, id: T -> nat, descending: bool)

  predicate AtMost<T>(o: Order<T>, x: T, y: T) {
    if o.descending then Below(o, y, x) else Below(o, x, y)
  }

  predicate Below<T>(o: Order<T>, x: T, y: T) {
    o.rank(x) < o.rank(y) || (o.rank(x) == o.rank(y) && o.id(x) <= o.id(y))
  }

  ghost predicate DistinctIds<T(!new)>(o: Order<T>, rows: set<T>) {
    forall x, y :: x in rows && y in rows && o.id(x) == o.id(y) ==> x == y
  }

  ghost predicate IsLeast<T(!new)>(o: Order<T>, rows: set<T>, x: T) {
    x in rows && forall y :: y in rows ==> AtMost(o, x, y)
  }

  lemma LeastExists<T(!new)>(o: Order<T>, rows: set<T>)
    requires rows != {}
    ensures exists x :: IsLeast(o, rows, x)
    decreases |rows|
  {
    var x :| x in rows;
    var rest := rows - {x};
    if rest == {} {
      assert rows == {x};
      assert IsLeast(o, rows, x);
    } else {
      LeastExists(o, rest);
      var y :| IsLeast(o, rest, y);
      assert rows == rest + {x};
      assert IsLeast(o, rows, if AtMost(o, x, y) then x else y);
    }
  }

  ghost function Least<T(!new)>(o: Order<T>, rows: set<T>): (x: T)
    requires rows != {}
    ensures IsLeast(o, rows, x)
  {
    LeastExists(o, rows);
    var x :| IsLeast(o, rows, x);
    x
  }

  /** The rows in the order the database returns them. */
  ghost function Sorted<T(!new)>(o: Order<T>, rows: set<T>): (s: seq<T>)
    ensures |s| == |rows|
    decreases |rows|
  {
    if rows == {} then []
    else var x := Least(o, rows); [x] + Sorted(o, rows - {x})
  }

  ghost predicate InOrder<T(!new)>(o: Order<T>, s: seq<T>) {
    forall i, j :: 0 <= i < j < |s| ==> AtMost(o, s[i], s[j])
  }

  ghost predicate Lists<T(!new)>(s: seq<T>, rows: set<T>) {
    |s| == |rows| && forall x :: x in s <==> x in rows
  }

  /** Every matching row is listed exactly once, and in order. */
  lemma {:induction false} SortedListsRows<T(!new)>(o: Order<T>, rows: set<T>)
    ensures Lists(Sorted(o, rows), rows)
    ensures InOrder(o, Sorted(o, rows))
    decreases |rows|
  {
    if rows != {} {
      var x := Least(o, rows);
      var rest := rows - {x};
      SortedListsRows(o, rest);
      var tail := Sorted(o, rest);
      assert Sorted(o, rows) == [x] + tail;
      forall y ensures y in [x] + tail <==> y in rows {
        assert y in [x] + tail <==> y == x || y in tail;
      }
      forall i, j | 0 <= i < j < |tail| + 1
        ensures AtMost(o, ([x] + tail)[i], ([x] + tail)[j])
      {
        assert tail[j - 1] in rows;
      }
    }
  }

  /** With ids that identify rows there is only one way to list them in order. */
  lemma {:induction false} OrderIsUnique<T(!new)>(o: Order<T>, rows: set<T>, s: seq<T>)
    requires DistinctIds(o, rows)
    requires Lists(s, rows) && InOrder(o, s)
    ensures s == Sorted(o, rows)
    decreases |rows|
  {
    if rows == {} {
    } else {
      var x := Least(o, rows);
      assert x in s && s[0] in rows;
      assert AtMost(o, x, s[0]);
      var k :| 0 <= k < |s| && s[k] == x;
      assert k != 0 ==> AtMost(o, s[0], s[k]);
      assert s[0] == x;
      var tail := s[1..];
      TailLists(s, rows);
      assert InOrder(o, tail);
      OrderIsUnique(o, rows - {x}, tail);
      assert s == [x] + tail;
    }
  }

  lemma TailLists<T(!new)>(s: seq<T>, rows: set<T>)
    requires Lists(s, rows) && s != []
    ensures Lists(s[1..], rows - {s[0]})
  {
    var tail := s[1..];
    var members := set y | y in tail;
    assert s == [s[0]] + tail;
    assert s[0] in tail ==> members == rows;
    MembersAtMostLength(tail);
    forall y ensures y in tail <==> y in rows - {s[0]} {
      assert y in s <==> y == s[0] || y in tail;
    }
  }

  /** A list of rows that is as long as the set of rows repeats none of them. */
  lemma {:induction false} NoneTwice<T(!new)>(s: seq<T>, rows: set<T>)
    requires Lists(s, rows)
    ensures forall i, j :: 0 <= i < j < |s| ==> s[i] != s[j]
  {
    if s != [] {
      TailLists(s, rows);
      NoneTwice(s[1..], rows - {s[0]});
      forall i, j | 0 <= i < j < |s| ensures s[i] != s[j] {
        assert s[j] == s[1..][j - 1];
      }
    }
  }

  lemma {:induction false} MembersAtMostLength<T>(s: seq<T>)
    ensures |set y | y in s| <= |s|
  {
    if s != [] {
      MembersAtMostLength(s[1..]);
      assert (set y | y in s) == (set y | y in s[1..]) + {s[0]};
    }
  }

  function Reverse<T>(s: seq<T>): (r: seq<T>)
    ensures |r| == |s|
    ensures forall i :: 0 <= i < |s| ==> r[i] == s[|s| - 1 - i]
  {
    seq(|s|, i requires 0 <= i < |s| => s[|s| - 1 - i])
  }

  lemma ReverseLists<T(!new)>(s: seq<T>, rows: set<T>)
    requires Lists(s, rows)
    ensures Lists(Reverse(s), rows)
  {
    var r := Reverse(s);
    forall x ensures x in r <==> x in rows {
      if x in s {
        var k :| 0 <= k < |s| && s[k] == x;
        assert r[|s| - 1 - k] == x;
      }
    }
  }

  /** The same column and id, the other direction. */
  ghost predicate Flips<T(!new)>(o: Order<T>, flipped: Order<T>) {
    flipped.descending != o.descending && forall x :: flipped.rank(x) == o.rank(x) && flipped.id(x) == o.id(x)
  }

  lemma FlippedAtMost<T(!new)>(o: Order<T>, flipped: Order<T>, x: T, y: T)
    requires Flips(o, flipped)
    ensures AtMost(flipped, x, y) <==> AtMost(o, y, x)
  {
  }

  lemma ReverseInOrder<T(!new)>(o: Order<T>, flipped: Order<T>, s: seq<T>)
    requires Flips(o, flipped) && InOrder(o, s)
    ensures InOrder(flipped, Reverse(s))
  {
    hide Flips, AtMost;
    var r := Reverse(s);
    forall i, j | 0 <= i < j < |r| ensures AtMost(flipped, r[i], r[j]) {
      FlippedAtMost(o, flipped, r[i], r[j]);
    }
  }

  /** Sorting the other way gives exactly the reversed list: the id tie-break flips too. */
  lemma DescendingIsReverse<T(!new)>(o: Order<T>, flipped: Order<T>, rows: set<T>)
    requires DistinctIds(o, rows) && Flips(o, flipped)
    ensures Sorted(flipped, rows) == Reverse(Sorted(o, rows))
  {
    hide Lists, InOrder, Sorted, Reverse, AtMost;
    SortedListsRows(o, rows);
    ReverseLists(Sorted(o, rows), rows);
    ReverseInOrder(o, flipped, Sorted(o, rows));
    OrderIsUnique(flipped, rows, Reverse(Sorted(o, rows)));
  }

  /** `LIMIT limit OFFSET offset`. */
  function Page<T>(s: seq<T>, limit: nat, offset: nat): (page: seq<T>)
    ensures |page| <= limit && |page| <= |s|
  {
    var from := if offset < |s| then offset else |s|;
    var to := if offset + limit < |s| then offset + limit else |s|;
    s[from..to]
  }

  /** The first `n` pages of the given size, one after the other. */
  function Pages<T>(s: seq<T>, limit: nat, n: nat): seq<T> {
    if n == 0 then [] else Pages(s, limit, n - 1) + Page(s, limit, (n - 1) * limit)
  }

  lemma PageExtendsPrefix<T>(s: seq<T>, limit: nat, offset: nat)
    ensures s[..if offset < |s| then offset else |s|] + Page(s, limit, offset)
            == s[..if offset + limit < |s| then offset + limit else |s|]
  {
  }

  lemma {:induction false} PagesArePrefix<T>(s: seq<T>, limit: nat, n: nat)
    ensures Pages(s, limit, n) == s[..if n * limit < |s| then n * limit else |s|]
  {
    if n > 0 {
      var offset := (n - 1) * limit;
      assert offset + limit == n * limit;
      PagesArePrefix(s, limit, n - 1);
      PageExtendsPrefix(s, limit, offset);
    }
  }

  /** Reading page after page returns the whole sorted listing: no row lost, none repeated. */
  lemma PagesPartition<T(!new)>(o: Order<T>, rows: set<T>, limit: nat, n: nat)
    requires n * limit >= |rows|
    ensures Pages(Sorted(o, rows), limit, n) == Sorted(o, rows)
    ensures Lists(Pages(Sorted(o, rows), limit, n), rows)
  {
    PagesArePrefix(Sorted(o, rows), limit, n);
    SortedListsRows(o, rows);
  }

  /** `PaginationMeta.validate_count_bounds` and the field bounds beside it. */
  predicate MetaAccepts(limit: int, offset: int, total: int, count: int) {
    1 <= limit <= 100 && 0 <= offset && 0 <= total && 0 <= count && count <= limit && count <= total
  }
}
