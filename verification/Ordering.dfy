/** ORDER BY: listing the rows of a set in ascending order. */
module Ordering {

  /** Bytewise comparison, as SQLite's BINARY collation compares text. */
  predicate TextLess(a: string, b: string) {
    if b == "" then false
    else if a == "" then true
    else if a[0] != b[0] then a[0] < b[0]
    else TextLess(a[1..], b[1..])
  }

  lemma {:induction false} TextLessIsTotal(a: string, b: string)
    ensures a == b <==> !TextLess(a, b) && !TextLess(b, a)
    ensures !(TextLess(a, b) && TextLess(b, a))
  {
    if a != "" && b != "" {
      TextLessIsTotal(a[1..], b[1..]);
      assert a == [a[0]] + a[1..] && b == [b[0]] + b[1..];
    }
  }

  lemma {:induction false} TextLessIsTransitive(a: string, b: string, c: string)
    requires TextLess(a, b) && TextLess(b, c)
    ensures TextLess(a, c)
  {
    if a != "" && a[0] == b[0] == c[0] {
      TextLessIsTransitive(a[1..], b[1..], c[1..]);
    }
  }

  /** A strict order that tells the members of `rows` apart. */
  ghost predicate Orders<T(!new)>(less: (T, T) -> bool, rows: set<T>) {
    && (forall x :: !less(x, x))
    && (forall x, y, z :: less(x, y) && less(y, z) ==> less(x, z))
    && (forall x, y :: x in rows && y in rows ==> x == y || less(x, y) || less(y, x))
  }

  ghost predicate Ascending<T>(less: (T, T) -> bool, list: seq<T>) {
    forall i, j :: 0 <= i < j < |list| ==> less(list[i], list[j])
  }

  /** `list` holds exactly the members of `rows`, each once, in ascending order. */
  ghost predicate IsListing<T(!new)>(less: (T, T) -> bool, rows: set<T>, list: seq<T>) {
    && Ascending(less, list)
    && (forall x :: x in list <==> x in rows)
  }

  ghost predicate IsLeast<T(!new)>(less: (T, T) -> bool, rows: set<T>, x: T) {
    x in rows && forall y :: y in rows && y != x ==> less(x, y)
  }

  lemma {:induction false} Least<T(!new)>(less: (T, T) -> bool, rows: set<T>) returns (least: T)
    requires Orders(less, rows) && rows != {}
    ensures IsLeast(less, rows, least)
    decreases rows
  {
    var x :| x in rows;
    least := x;
    var rest := rows - {x};
    assert forall y :: y in rows && y != x ==> y in rest;
    if rest != {} {
      assert Orders(less, rest);
      var m := Least(less, rest);
      if !less(x, m) {
        least := m;
      }
      LeastOfMore(less, rows, x, m, least);
    }
  }

  lemma LeastOfMore<T(!new)>(less: (T, T) -> bool, rows: set<T>, x: T, m: T, least: T)
    requires Orders(less, rows) && x in rows && IsLeast(less, rows - {x}, m)
    requires least == if less(x, m) then x else m
    ensures IsLeast(less, rows, least)
  {
    forall y | y in rows && y != least
      ensures less(least, y)
    {
      if y != x && y != m {
        assert less(m, y);
      }
    }
  }

  method List<T(!new,==)>(less: (T, T) -> bool, rows: set<T>) returns (list: seq<T>)
    requires Orders(less, rows)
    ensures IsListing(less, rows, list)
  {
    list := [];
    var rest := rows;
    while rest != {}
      invariant rest <= rows && Ascending(less, list)
      invariant forall x :: x in rows <==> x in list || x in rest
      invariant forall i, x :: 0 <= i < |list| && x in rest ==> less(list[i], x)
      decreases rest
    {
      assert Orders(less, rest);
      ghost var least := Least(less, rest);
      var x :| x in rest && forall y :: y in rest && y != x ==> less(x, y);
      list, rest := list + [x], rest - {x};
    }
  }

  lemma {:induction false} ListingExists<T(!new)>(less: (T, T) -> bool, rows: set<T>) returns (list: seq<T>)
    requires Orders(less, rows)
    ensures IsListing(less, rows, list)
    decreases rows
  {
    if rows == {} {
      list := [];
    } else {
      var x := Least(less, rows);
      var rest := ListingExists(less, rows - {x});
      list := [x] + rest;
      hide Orders, IsLeast, IsListing;
      PrependedIsListing(less, rows, x, rest);
    }
  }

  lemma PrependedIsListing<T(!new)>(less: (T, T) -> bool, rows: set<T>, x: T, rest: seq<T>)
    requires IsLeast(less, rows, x) && IsListing(less, rows - {x}, rest)
    ensures IsListing(less, rows, [x] + rest)
  {
    var list := [x] + rest;
    forall i, j | 0 <= i < j < |list|
      ensures less(list[i], list[j])
    {
      assert rest[j - 1] in rest;
      assert i > 0 ==> less(rest[i - 1], rest[j - 1]);
    }
    forall y
      ensures y in list <==> y in rows
    {
      assert y in list <==> y == x || y in rest;
    }
  }

  /** What a query returns is determined by the rows alone. */
  lemma {:induction false} ListingIsUnique<T(!new)>(less: (T, T) -> bool, rows: set<T>, xs: seq<T>, ys: seq<T>)
    requires Orders(less, rows) && IsListing(less, rows, xs) && IsListing(less, rows, ys)
    ensures xs == ys
    decreases |xs|
  {
    assert xs != [] ==> xs[0] in xs;
    assert ys != [] ==> ys[0] in ys;
    if xs != [] && ys != [] {
      var i :| 0 <= i < |ys| && ys[i] == xs[0];
      var j :| 0 <= j < |xs| && xs[j] == ys[0];
      assert xs[0] == ys[0];
      var rest := rows - {xs[0]};
      TailIsListing(less, rows, xs);
      TailIsListing(less, rows, ys);
      ListingIsUnique(less, rest, xs[1..], ys[1..]);
      assert xs == [xs[0]] + xs[1..] && ys == [ys[0]] + ys[1..];
    }
  }

  lemma TailIsListing<T(!new)>(less: (T, T) -> bool, rows: set<T>, xs: seq<T>)
    requires Orders(less, rows) && IsListing(less, rows, xs) && xs != []
    ensures IsListing(less, rows - {xs[0]}, xs[1..])
  {
    assert forall i :: 0 <= i < |xs| - 1 ==> xs[1..][i] == xs[i + 1];
    forall x
      ensures x in xs[1..] <==> x in rows - {xs[0]}
    {
      assert x in xs <==> x == xs[0] || x in xs[1..];
    }
  }

  ghost function Listing<T(!new)>(less: (T, T) -> bool, rows: set<T>): (list: seq<T>)
    requires Orders(less, rows)
    ensures IsListing(less, rows, list)
  {
    assert exists list :: IsListing(less, rows, list) by {
      var list := ListingExists(less, rows);
    }
    var list :| IsListing(less, rows, list);
    list
  }
}
