/**
 Pages of a list query. The sort column need not tell all rows apart, and each page is a query of
 its own, so the database may order rows with equal keys differently each time. Pages then tile the
 result whatever it does exactly when no two rows of the result have the same sort key.
 */
module Paging {
  import opened Sql

  /** One of the two directions of the column's order. */
  ghost predicate TotalOrder(le: (Value, Value) -> bool) {
    && (forall a, b :: le(a, b) || le(b, a))
    && (forall a, b :: le(a, b) && le(b, a) ==> a == b)
    && (forall a, b, c :: le(a, b) && le(b, c) ==> le(a, c))
  }

  predicate Sorted<R>(rows: seq<R>, key: R -> Value, le: (Value, Value) -> bool) {
    forall i, j :: 0 <= i < j < |rows| ==> le(key(rows[i]), key(rows[j]))
  }

  /** An answer to ORDER BY: the same rows, sorted. */
  predicate Ordering<R(==)>(out: seq<R>, rows: seq<R>, key: R -> Value, le: (Value, Value) -> bool) {
    multiset(out) == multiset(rows) && Sorted(out, key, le)
  }

  predicate Distinct<R(==)>(rows: seq<R>) {
    forall i, j :: 0 <= i < j < |rows| ==> rows[i] != rows[j]
  }

  predicate NoTies<R>(rows: seq<R>, key: R -> Value) {
    forall i, j :: 0 <= i < j < |rows| ==> key(rows[i]) != key(rows[j])
  }

  /** Pages 0, 1, ... of n rows, one after the other, each from its own answer. */
  function Stitch<R>(answers: seq<seq<R>>, n: nat): seq<R> {
    if answers == [] then [] else
      var last := |answers| - 1;
      Stitch(answers[..last], n) + Page(answers[last], n, Start(last, n))
  }

  function Min(a: int, b: int): int { if a < b then a else b }

  /** Where page k of n rows starts. */
  function Start(k: nat, n: nat): nat { k * n }

  lemma StartNext(k: nat, n: nat)
    ensures Start(k + 1, n) == Start(k, n) + n
  {
  }

  /** Pages of the same answer tile it: each row of the first m pages once, in order. */
  lemma {:induction false} PagesTile<R>(answers: seq<seq<R>>, rows: seq<R>, n: nat)
    requires n > 0 && forall i :: 0 <= i < |answers| ==> answers[i] == rows
    ensures Stitch(answers, n) == rows[..Min(Start(|answers|, n), |rows|)]
    decreases |answers|
  {
    if answers == [] {
      assert Start(0, n) == 0;
    } else {
      hide Page, Start;
      var m := |answers| - 1;
      PagesTile(answers[..m], rows, n);
      StartNext(m, n);
      PageAt(rows, n, Start(m, n));
    }
  }

  lemma PageAt<R>(rows: seq<R>, n: nat, at: nat)
    requires n > 0
    ensures rows[..Min(at, |rows|)] + Page(rows, n, at) == rows[..Min(at + n, |rows|)]
  {
    assert at == 0 ==> rows[0..] == rows;
  }

  lemma SameElements<R>(a: seq<R>, b: seq<R>, i: nat) returns (j: nat)
    requires multiset(a) == multiset(b) && i < |a|
    ensures j < |b| && b[j] == a[i]
  {
    assert a[i] in multiset(b);
    j :| 0 <= j < |b| && b[j] == a[i];
  }

  lemma FirstSame<R>(a: seq<R>, b: seq<R>, key: R -> Value, le: (Value, Value) -> bool)
    requires TotalOrder(le) && Sorted(a, key, le) && Sorted(b, key, le) && multiset(a) == multiset(b) && NoTies(a, key)
    requires a != [] && b != []
    ensures a[0] == b[0]
  {
    var j := SameElements(a, b, 0);
    var i := SameElements(b, a, 0);
    assert le(key(a[0]), key(b[0])) && le(key(b[0]), key(a[0]));
    assert key(a[0]) == key(a[i]);
  }

  lemma TailsSame<R>(a: seq<R>, b: seq<R>)
    requires a != [] && b != [] && a[0] == b[0] && multiset(a) == multiset(b)
    ensures multiset(a[1..]) == multiset(b[1..])
  {
    assert a == [a[0]] + a[1..] && b == [b[0]] + b[1..];
    assert multiset(a[1..]) == multiset(a) - multiset{a[0]};
  }

  /** Without ties there is only one answer. */
  lemma {:induction false} SortedUnique<R>(a: seq<R>, b: seq<R>, key: R -> Value, le: (Value, Value) -> bool)
    requires TotalOrder(le) && Sorted(a, key, le) && Sorted(b, key, le) && multiset(a) == multiset(b) && NoTies(a, key)
    ensures a == b
    decreases |a|
  {
    hide TotalOrder;
    assert |a| == |multiset(a)| == |multiset(b)| == |b|;
    if a != [] {
      FirstSame(a, b, key, le);
      TailsSame(a, b);
      SortedUnique(a[1..], b[1..], key, le);
    }
  }

  lemma {:induction false} StitchOnes<R>(answers: seq<seq<R>>, k: nat)
    requires forall i :: 0 <= i < |answers| ==> |answers[i]| >= |answers|
    requires k < |answers|
    ensures |Stitch(answers, 1)| == |answers| && Stitch(answers, 1)[k] == answers[k][k]
    decreases |answers|
  {
    var m := |answers| - 1;
    assert Page(answers[m], 1, m) == [answers[m][m]] by { assert m == 0 ==> answers[m][0..] == answers[m]; }
    assert Start(m, 1) == m;
    if k < m {
      StitchOnes(answers[..m], k);
    } else if m > 0 {
      StitchOnes(answers[..m], 0);
    }
  }

  /** Swapping two rows with equal keys gives another answer. */
  lemma SwapTied<R>(a: seq<R>, p: nat, q: nat, key: R -> Value, le: (Value, Value) -> bool) returns (b: seq<R>)
    requires Sorted(a, key, le) && p < q < |a| && key(a[p]) == key(a[q])
    ensures b == a[p := a[q]][q := a[p]] && Ordering(b, a, key, le)
  {
    b := a[p := a[q]][q := a[p]];
    assert forall i :: 0 <= i < |a| ==> key(b[i]) == key(a[i]);
    SwapMultiset(a, p, q);
    SortedSame(a, b, key, le);
  }

  lemma SwapMultiset<R>(a: seq<R>, p: nat, q: nat)
    requires p < q < |a|
    ensures multiset(a[p := a[q]][q := a[p]]) == multiset(a)
  {
    var c := a[p := a[q]];
    assert multiset(c) == multiset(a) - multiset{a[p]} + multiset{a[q]};
    assert multiset(c[q := a[p]]) == multiset(c) - multiset{c[q]} + multiset{a[p]};
    assert c[q] == a[q] && a[p] in multiset(a);
  }

  lemma SortedSame<R>(a: seq<R>, b: seq<R>, key: R -> Value, le: (Value, Value) -> bool)
    requires Sorted(a, key, le) && |a| == |b| && forall i :: 0 <= i < |a| ==> key(b[i]) == key(a[i])
    ensures Sorted(b, key, le)
  {
  }

  predicate Enough<R(==)>(answers: seq<seq<R>>, n: nat, rows: seq<R>, key: R -> Value, le: (Value, Value) -> bool) {
    n > 0 && Start(|answers|, n) >= |rows| && forall i :: 0 <= i < |answers| ==> Ordering(answers[i], rows, key, le)
  }

  /** Every way to answer enough pages returns each row exactly once. */
  ghost predicate AlwaysTiles<R(!new)>(rows: seq<R>, key: R -> Value, le: (Value, Value) -> bool) {
    forall answers: seq<seq<R>>, n: nat ::
      Enough(answers, n, rows, key, le) ==> multiset(Stitch(answers, n)) == multiset(rows)
  }

  lemma NoTiesTile<R(!new)>(rows: seq<R>, a: seq<R>, key: R -> Value, le: (Value, Value) -> bool,
                            answers: seq<seq<R>>, n: nat)
    requires TotalOrder(le) && Ordering(a, rows, key, le) && NoTies(a, key)
    requires Enough(answers, n, rows, key, le)
    ensures multiset(Stitch(answers, n)) == multiset(rows)
  {
    forall i | 0 <= i < |answers| ensures answers[i] == a { SortedUnique(a, answers[i], key, le); }
    PagesTile(answers, a, n);
    assert |a| == |multiset(a)| == |multiset(rows)| == |rows|;
    assert a[..Min(Start(|answers|, n), |a|)] == a;
  }

  /** With a tie, pages of one row can return a row twice and miss another. */
  lemma TieBreaks<R(!new)>(rows: seq<R>, a: seq<R>, key: R -> Value, le: (Value, Value) -> bool, p: nat, q: nat)
    requires Ordering(a, rows, key, le) && Distinct(a) && p < q < |a| && key(a[p]) == key(a[q])
    ensures !AlwaysTiles(rows, key, le)
  {
    var b := SwapTied(a, p, q, key, le);
    assert |a| == |multiset(a)| == |multiset(rows)| == |rows|;
    var answers := seq(|a|, k requires 0 <= k < |a| => if k == q then b else a);
    hide Sorted, Stitch;
    assert Ordering(b, rows, key, le);
    MissesOne(a, b, answers, p, q);
    assert Enough(answers, 1, rows, key, le);
  }

  lemma MissesOne<R>(a: seq<R>, b: seq<R>, answers: seq<seq<R>>, p: nat, q: nat)
    requires Distinct(a) && p < q < |a| && b == a[p := a[q]][q := a[p]] && |answers| == |a|
    requires forall k :: 0 <= k < |a| ==> answers[k] == if k == q then b else a
    ensures multiset(Stitch(answers, 1)) != multiset(a)
  {
    var all := Stitch(answers, 1);
    forall k | 0 <= k < |a| ensures |all| == |a| && all[k] == if k == q then a[p] else a[k] {
      StitchOnes(answers, k);
      assert answers[k][k] == if k == q then a[p] else a[k];
    }
    hide Stitch;
    assert a[q] !in all;
    assert a[q] in multiset(a) && a[q] !in multiset(all);
  }

  /** Distinct rows: every way to answer the pages tiles the result iff no two rows share a sort key. */
  lemma TilingExact<R(!new)>(rows: seq<R>, a: seq<R>, key: R -> Value, le: (Value, Value) -> bool)
    requires TotalOrder(le) && Ordering(a, rows, key, le) && Distinct(a)
    ensures AlwaysTiles(rows, key, le) <==> NoTies(a, key)
  {
    if NoTies(a, key) {
      forall answers: seq<seq<R>>, n: nat | Enough(answers, n, rows, key, le)
        ensures multiset(Stitch(answers, n)) == multiset(rows)
      {
        NoTiesTile(rows, a, key, le, answers, n);
      }
    } else {
      var p, q :| 0 <= p < q < |a| && key(a[p]) == key(a[q]);
      TieBreaks(rows, a, key, le, p, q);
    }
  }

  // ---------- Answers to a list query ----------

  /** A list as its order, limit and offset vary. */
  type Lister<!R> = (Order<R>, int, int) -> seq<R>

  function KeyOf<R>(cell: (R, string) -> Value, col: string): R -> Value { r => cell(r, col) }

  /** The column's order, or its converse for DESC. */
  function Direction(le: (Value, Value) -> bool, desc: bool): (Value, Value) -> bool {
    if desc then (a, b) => le(b, a) else le
  }

  /** The database orders these rows by this column and direction; how it breaks ties is open. */
  predicate Sorts<R(==)>(order: Order<R>, rows: seq<R>, col: string, desc: bool, cell: (R,
                    string) -> Value, le: (Value, Value) -> bool) {
    Ordering(order(col, desc, rows), rows, KeyOf(cell, col), Direction(le, desc))
  }

  lemma DirectionTotal(le: (Value, Value) -> bool, desc: bool)
    requires TotalOrder(le)
    ensures TotalOrder(Direction(le, desc))
  {
    var to := Direction(le, desc);
    if desc {
      assert forall a, b :: to(a, b) == le(b, a);
    }
  }

  /** A page of sorted rows is sorted and holds none of them twice. */
  lemma PageSorted<R>(rows: seq<R>, out: seq<R>, limit: int, offset: int, key: R -> Value, le: (Value, Value) -> bool)
    requires Ordering(out, rows, key, le)
    ensures Sorted(Page(out, limit, offset), key, le) && multiset(Page(out, limit, offset)) <= multiset(rows)
  {
    PageWithin(out, limit, offset);
  }

  lemma PageWithin<R>(out: seq<R>, limit: int, offset: int)
    ensures multiset(Page(out, limit, offset)) <= multiset(out)
  {
    var rest := if offset <= 0 then out else if offset >= |out| then [] else out[offset..];
    assert multiset(rest) <= multiset(out) by {
      if 0 < offset < |out| { assert out == out[..offset] + out[offset..]; }
    }
    if 0 < limit < |rest| { assert rest == rest[..limit] + rest[limit..]; }
  }

  /** The pages of n rows, page k taken with limit n and offset k*n and ordered by the k-th of the orders. */
  function Pages<R>(list: Lister<R>, orders: seq<Order<R>>, n: nat): seq<R> {
    if orders == [] then [] else
      var last := |orders| - 1;
      Pages(list, orders[..last], n) + list(orders[last], n, Start(last, n))
  }

  function Answers<R>(orders: seq<Order<R>>, col: string, desc: bool, rows: seq<R>): seq<seq<R>> {
    seq(|orders|, k requires 0 <= k < |orders| => orders[k](col, desc, rows))
  }

  /** The list is a page of the ordered rows, for every order, limit and offset. */
  ghost predicate Lists<R(!new)>(list: Lister<R>, rows: seq<R>, col: string, desc: bool) {
    forall order, limit, offset :: list(order, limit, offset) == Page(order(col, desc, rows), limit, offset)
  }

  lemma {:induction false} PagesStitch<R(!new)>(list: Lister<R>, orders: seq<Order<R>>, rows: seq<R>, col: string,
                                                desc: bool, n: nat)
    requires Lists(list, rows, col, desc)
    ensures Pages(list, orders, n) == Stitch(Answers(orders, col, desc, rows), n)
    decreases |orders|
  {
    if orders != [] {
      hide Page, Start;
      var last := |orders| - 1;
      PagesStitch(list, orders[..last], rows, col, desc, n);
      assert Answers(orders, col, desc, rows)[..last] == Answers(orders[..last], col, desc, rows);
    }
  }

  /** However the database orders each page's query, enough pages return every row exactly once. */
  ghost predicate PagesAlwaysTile<R(!new)>(list: Lister<R>, rows: seq<R>, col: string, desc: bool, cell: (R,
                                    string) -> Value, le: (Value, Value) -> bool) {
    forall orders: seq<Order<R>>, n: nat ::
      && n > 0 && Start(|orders|, n) >= |rows|
      && (forall k :: 0 <= k < |orders| ==> Sorts(orders[k], rows, col, desc, cell, le))
      ==> multiset(Pages(list, orders, n)) == multiset(rows)
  }

  // ---------- Every finite table can be ordered ----------

  function Insert<R>(x: R, a: seq<R>, key: R -> Value, le: (Value, Value) -> bool): seq<R> {
    if a == [] then [x] else if le(key(x), key(a[0])) then [x] + a else [a[0]] + Insert(x, a[1..], key, le)
  }

  lemma {:induction false} InsertSorts<R>(x: R, a: seq<R>, key: R -> Value, le: (Value, Value) -> bool)
    requires TotalOrder(le) && Sorted(a, key, le)
    ensures Sorted(Insert(x, a, key, le), key, le) && multiset(Insert(x, a, key, le)) == multiset(a) + multiset{x}
    decreases |a|
  {
    if a != [] {
      assert a == [a[0]] + a[1..];
      if le(key(x), key(a[0])) {
        SortedCons(x, a, key, le);
      } else {
        InsertSorts(x, a[1..], key, le);
        var rest := Insert(x, a[1..], key, le);
        forall y | y in rest ensures le(key(a[0]), key(y)) {
          assert y in multiset(rest);
          assert y == x || y in a[1..];
        }
        SortedFrom(a[0], rest, key, le);
      }
    }
  }

  lemma SortedFrom<R>(x: R, a: seq<R>, key: R -> Value, le: (Value, Value) -> bool)
    requires Sorted(a, key, le) && forall y <- a :: le(key(x), key(y))
    ensures Sorted([x] + a, key, le)
  {
  }

  lemma SortedCons<R>(x: R, a: seq<R>, key: R -> Value, le: (Value, Value) -> bool)
    requires TotalOrder(le) && Sorted(a, key, le) && a != [] && le(key(x), key(a[0]))
    ensures Sorted([x] + a, key, le)
  {
    forall y | y in a ensures le(key(x), key(y)) {
      var i :| 0 <= i < |a| && a[i] == y;
      assert i == 0 || le(key(a[0]), key(a[i]));
    }
    SortedFrom(x, a, key, le);
  }

  lemma {:induction false} SortExists<R>(rows: seq<R>, key: R -> Value, le: (Value, Value) -> bool) returns (a: seq<R>)
    requires TotalOrder(le)
    ensures Ordering(a, rows, key, le)
    decreases |rows|
  {
    hide TotalOrder;
    if rows == [] {
      a := [];
    } else {
      var b := SortExists(rows[1..], key, le);
      a := Insert(rows[0], b, key, le);
      InsertSorts(rows[0], b, key, le);
      assert rows == [rows[0]] + rows[1..];
    }
  }

  lemma {:induction false} DistinctCount<R>(s: seq<R>, x: R)
    requires Distinct(s)
    ensures multiset(s)[x] <= 1
    decreases |s|
  {
    if s != [] {
      var front, last := s[..|s| - 1], s[|s| - 1];
      assert s == front + [last];
      DistinctCount(front, x);
      assert last !in front;
    }
  }

  lemma DistinctSame<R>(a: seq<R>, b: seq<R>)
    requires Distinct(a) && multiset(a) == multiset(b)
    ensures Distinct(b)
  {
    forall i, j | 0 <= i < j < |b| ensures b[i] != b[j] {
      DistinctCount(a, b[i]);
      assert b == b[..j] + b[j..];
      assert b[i] in multiset(b[..j]) by { assert b[..j][i] == b[i]; }
      assert b[j] in multiset(b[j..]) by { assert b[j..][0] == b[j]; }
    }
  }

  lemma NoTiesSame<R>(a: seq<R>, b: seq<R>, key: R -> Value)
    requires Distinct(b) && multiset(a) == multiset(b) && NoTies(a, key)
    ensures NoTies(b, key)
  {
    forall i, j | 0 <= i < j < |b| ensures key(b[i]) != key(b[j]) {
      var p := SameElements(b, a, i);
      var q := SameElements(b, a, j);
      assert p < q || q < p;
    }
  }

  // ---------- Pages of a list query ----------

  lemma AnswersEnough<R(!new)>(list: Lister<R>, rows: seq<R>, col: string, desc: bool, cell: (R,
                        string) -> Value, le: (Value, Value) -> bool, answers: seq<seq<R>>, n: nat)
    requires Lists(list, rows, col, desc) && PagesAlwaysTile(list, rows, col, desc, cell, le)
    requires Enough(answers, n, rows, KeyOf(cell, col), Direction(le, desc))
    ensures multiset(Stitch(answers, n)) == multiset(rows)
  {
    hide Ordering, Direction, KeyOf, Stitch, Lists;
    var orders: seq<Order<R>> := seq(|answers|, k requires 0 <= k < |answers| => (c, d, r) => answers[k]);
    assert Answers(orders, col, desc, rows) == answers;
    PagesStitch(list, orders, rows, col, desc, n);
    assert forall k :: 0 <= k < |orders| ==> Sorts(orders[k], rows, col, desc, cell, le);
  }

  /**
   A list of distinct rows: however the database breaks ties, and differently for each page, the pages
   return every row exactly once, if and only if no two rows have the same value in the sort column.
   */
  lemma PagesTileExact<R(!new)>(list: Lister<R>, rows: seq<R>, col: string, desc: bool, cell: (R,
                         string) -> Value, le: (Value, Value) -> bool)
    requires Lists(list, rows, col, desc) && TotalOrder(le) && Distinct(rows)
    ensures PagesAlwaysTile(list, rows, col, desc, cell, le) <==> NoTies(rows, KeyOf(cell, col))
  {
    var key, to := KeyOf(cell, col), Direction(le, desc);
    DirectionTotal(le, desc);
    var a := SortExists(rows, key, to);
    DistinctSame(rows, a);
    TilingExact(rows, a, key, to);
    hide TotalOrder, Lists, Ordering, KeyOf, Direction, Stitch, Enough, AlwaysTiles, PagesAlwaysTile;
    if NoTies(a, key) { NoTiesSame(a, rows, key); }
    if NoTies(rows, key) { NoTiesSame(rows, a, key); }
    if AlwaysTiles(rows, key, to) { TilesOrders(list, rows, col, desc, cell, le); }
    if PagesAlwaysTile(list, rows, col, desc, cell, le) { TilesAnswers(list, rows, col, desc, cell, le); }
  }

  lemma TilesOrders<R(!new)>(list: Lister<R>, rows: seq<R>, col: string, desc: bool, cell: (R,
                      string) -> Value, le: (Value, Value) -> bool)
    requires Lists(list, rows, col, desc) && AlwaysTiles(rows, KeyOf(cell, col), Direction(le, desc))
    ensures PagesAlwaysTile(list, rows, col, desc, cell, le)
  {
    hide Ordering, KeyOf, Direction, Stitch, Lists, Pages;
    forall orders: seq<Order<R>>, n: nat |
      && n > 0 && Start(|orders|, n) >= |rows|
      && (forall k :: 0 <= k < |orders| ==> Sorts(orders[k], rows, col, desc, cell, le))
      ensures multiset(Pages(list, orders, n)) == multiset(rows)
    {
      PagesStitch(list, orders, rows, col, desc, n);
      assert Enough(Answers(orders, col, desc, rows), n, rows, KeyOf(cell, col), Direction(le, desc));
    }
  }

  lemma TilesAnswers<R(!new)>(list: Lister<R>, rows: seq<R>, col: string, desc: bool, cell: (R,
                       string) -> Value, le: (Value, Value) -> bool)
    requires Lists(list, rows, col, desc) && PagesAlwaysTile(list, rows, col, desc, cell, le)
    ensures AlwaysTiles(rows, KeyOf(cell, col), Direction(le, desc))
  {
    hide Ordering, KeyOf, Direction, Stitch, Lists, PagesAlwaysTile, Enough;
    forall answers: seq<seq<R>>, n: nat | Enough(answers, n, rows, KeyOf(cell, col), Direction(le, desc))
      ensures multiset(Stitch(answers, n)) == multiset(rows)
    {
      AnswersEnough(list, rows, col, desc, cell, le, answers, n);
    }
  }
}
