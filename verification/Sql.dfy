/**
 The SQL text the list queries are made of, and a reader that gives such a text its meaning: which
 rows it keeps, how it orders them and which page it returns. A text is read from its WHERE on.
 */
module Sql {
  import opened Basics
  import opened Text

  datatype Value = Null | Num(n: int) | Txt(s: string)

  datatype Op = Eq | Ge | Le
  {
    function Sign(): string {
      match this case Eq => "=" case Ge => ">=" case Le => "<="
    }

    predicate Holds(a: Value, b: Value) {
      match this
      case Eq => a != Null && a == b
      case Ge => a.Num? && b.Num? && a.n >= b.n
      case Le => a.Num? && b.Num? && a.n <= b.n
    }
  }

  /** A condition with its bound value, or the always-true 1=1. */
  datatype Item = Always | Test(col: string, op: Op, value: Value)

  datatype Query = Query(items: seq<Item>, col: string, desc: bool, limit: Option<int>, offset: Option<int>)

  // ---------- Column names ----------

  function LowerChar(c: char): char { if 'A' <= c <= 'Z' then c - 'A' + 'a' else c }

  /** An unquoted name is folded to lower case. */
  function Lower(s: string): (t: string)
    ensures |t| == |s| && forall i :: 0 <= i < |s| ==> t[i] == LowerChar(s[i])
  {
    seq(|s|, i requires 0 <= i < |s| => LowerChar(s[i]))
  }

  predicate IsWordChar(c: char) { 'a' <= c <= 'z' || 'A' <= c <= 'Z' || '0' <= c <= '9' || c == '_' }

  predicate IsClauseWord(s: string) {
    var w := Lower(s);
    || w == "where" || w == "and" || w == "order" || w == "by" || w == "asc" || w == "desc" || w == "limit" || w == "offset"
  }

  /** An unquoted column name: letters, digits and underscores, no digit first, no word of the query's own. */
  predicate IsColumn(s: string) {
    s != "" && (forall c <- s :: IsWordChar(c)) && !IsDigit(s[0]) && !IsClauseWord(s)
  }

  /** Folding neither makes nor unmakes a column name. */
  lemma ColumnFolds(s: string)
    ensures Lower(Lower(s)) == Lower(s)
    ensures IsColumn(Lower(s)) <==> IsColumn(s)
  {
    var t := Lower(s);
    assert Lower(t) == t;
    hide IsClauseWord;
    assert IsClauseWord(t) <==> IsClauseWord(s) by { ClauseWordFolds(s); }
    if forall c <- s :: IsWordChar(c) {
      forall c | c in t ensures IsWordChar(c) { var i :| 0 <= i < |t| && t[i] == c; assert s[i] in s; }
    }
    if forall c <- t :: IsWordChar(c) {
      forall c | c in s ensures IsWordChar(c) { var i :| 0 <= i < |s| && s[i] == c; assert t[i] in t; }
    }
  }

  lemma ClauseWordFolds(s: string)
    ensures IsClauseWord(Lower(s)) <==> IsClauseWord(s)
  {
    assert Lower(Lower(s)) == Lower(s);
  }

  /** A column name is one word, without a placeholder's sign, and not mistaken for a clause. */
  lemma ColumnPlain(col: string)
    requires IsColumn(col)
    ensures ' ' !in col && '$' !in col && col != "LIMIT" && col != "OFFSET"
  {
    assert Lower("LIMIT") == "limit" && Lower("OFFSET") == "offset";
  }

  // ---------- Reading ----------

  function ReadMark(tok: string): Option<nat> {
    if |tok| >= 2 && tok[0] == '$' && AllDigits(tok[1..]) then Some(Text.Value(tok[1..])) else None
  }

  /** The argument a placeholder $n stands for. */
  function ReadArg(tok: string, args: seq<Value>): Option<Value> {
    match ReadMark(tok)
    case None => None
    case Some(n) => if 1 <= n <= |args| then Some(args[n - 1]) else None
  }

  /** A column followed by an operator. */
  function ReadLeft(s: string): Option<(string, Op)> {
    var n := |s|;
    if n >= 2 && s[n - 2] == '>' && s[n - 1] == '=' then Some((s[..n - 2], Ge))
    else if n >= 2 && s[n - 2] == '<' && s[n - 1] == '=' then Some((s[..n - 2], Le))
    else if n >= 1 && s[n - 1] == '=' then Some((s[..n - 1], Eq))
    else None
  }

  function ReadItem(tok: string, args: seq<Value>): Option<Item> {
    if tok == "1=1" then Some(Always) else
      var i := IndexOf(tok, '$');
      match (ReadLeft(tok[..i]), ReadArg(tok[i..], args))
      case (Some((col, op)), Some(v)) => Some(Test(col, op, v))
      case _ => None
  }

  /** WHERE c AND c ... */
  function ReadWhere(ts: seq<string>, args: seq<Value>): Option<seq<Item>> {
    var n := |ts|;
    if n < 2 then None else
      match ReadItem(ts[n - 1], args)
      case None => None
      case Some(item) =>
        if n == 2 then (if ts[0] == "WHERE" then Some([item]) else None)
        else if ts[n - 2] != "AND" then None
        else match ReadWhere(ts[..n - 2], args) case None => None case Some(items) => Some(items + [item])
  }

  /** A trailing LIMIT or OFFSET clause: what is before it, and its number if it is there. */
  function ReadCount(ts: seq<string>, word: string, args: seq<Value>): Option<(seq<string>, Option<int>)> {
    var n := |ts|;
    if n < 2 || ts[n - 2] != word then Some((ts, None)) else
      match ReadArg(ts[n - 1], args)
      case Some(Num(k)) => Some((ts[..n - 2], Some(k)))
      case _ => None
  }

  function ReadTokens(ts: seq<string>, args: seq<Value>): Option<Query> {
    match ReadCount(ts, "OFFSET", args)
    case None => None
    case Some((ts1, offset)) =>
      match ReadCount(ts1, "LIMIT", args)
      case None => None
      case Some((ts2, limit)) => ReadOrder(ts2, args, limit, offset)
  }

  /** WHERE ... ORDER BY column direction */
  function ReadOrder(ts: seq<string>, args: seq<Value>, limit: Option<int>, offset: Option<int>): Option<Query> {
    var n := |ts|;
    if n < 4 || ts[n - 4] != "ORDER" || ts[n - 3] != "BY" || (ts[n - 1] != "ASC" && ts[n - 1] != "DESC") then None
    else if !IsColumn(ts[n - 2]) then None
    else
      match ReadWhere(ts[..n - 4], args)
      case None => None
      case Some(items) => Some(Query(items, Lower(ts[n - 2]), ts[n - 1] == "DESC", limit, offset))
  }

  function Read(text: string, args: seq<Value>): Option<Query> {
    ReadTokens(Split(text, ' '), args)
  }

  /** The numbers of all placeholders, in the order they are written. */
  function Marks(ts: seq<string>): seq<nat> {
    if ts == [] then [] else Marks(ts[..|ts| - 1]) + MarkIn(ts[|ts| - 1])
  }

  function MarkIn(tok: string): seq<nat> {
    match ReadMark(tok[IndexOf(tok, '$')..]) case Some(n) => [n] case None => []
  }

  /** The operators as SQL writes them, and their order on numbers. */
  lemma OperatorTexts(a: int, b: int, s: string)
    ensures Eq.Sign() == "=" && Ge.Sign() == ">=" && Le.Sign() == "<="
    ensures Eq.Holds(Txt(s), Txt(s)) && !Eq.Holds(Null, Null) && (Eq.Holds(Num(a), Num(b)) <==> a == b)
    ensures (Ge.Holds(Num(a), Num(b)) <==> a >= b) && (Le.Holds(Num(a), Num(b)) <==> a <= b)
  {
  }

  // ---------- Meaning ----------

  predicate Keeps<R>(items: seq<Item>, cell: (R, string) -> Value, r: R) {
    forall x <- items :: x.Always? || x.op.Holds(cell(r, x.col), x.value)
  }

  function Filter<R>(rows: seq<R>, keep: R -> bool): seq<R> {
    if rows == [] then [] else
      Filter(rows[..|rows| - 1], keep) + (if keep(rows[|rows| - 1]) then [rows[|rows| - 1]] else [])
  }

  /** Drop, then take; a number that is not positive means no clause. */
  function Page<R>(rows: seq<R>, limit: int, offset: int): (page: seq<R>)
    ensures |page| <= |rows|
  {
    var rest := if offset <= 0 then rows else if offset >= |rows| then [] else rows[offset..];
    if 0 < limit < |rest| then rest[..limit] else rest
  }

  function Count(n: Option<int>): int { if n.Some? then n.value else 0 }

  /** The database's answer to ORDER BY a column, descending or not. */
  type Order<!R> = (string, bool, seq<R>) -> seq<R>

  /** What a query returns. How it orders rows with equal sort keys is the database's choice. */
  function Evaluate<R>(q: Query, cell: (R, string) -> Value, order: Order<R>, table: seq<R>): seq<R> {
    Page(order(q.col, q.desc, Filter(table, r => Keeps(q.items, cell, r))), Count(q.limit), Count(q.offset))
  }

  // ---------- Writing ----------

  function ItemText(item: Item, n: nat): string {
    match item
    case Always => "1=1"
    case Test(col, op, _) => col + op.Sign() + "$" + Print(n)
  }

  function Args(items: seq<Item>): seq<Value> {
    if items == [] then [] else
      var x := items[|items| - 1];
      Args(items[..|items| - 1]) + (if x.Test? then [x.value] else [])
  }

  /** Each condition has the number of its own argument. */
  function Clause(items: seq<Item>): string
    requires items != []
  {
    var front := items[..|items| - 1];
    var text := ItemText(items[|items| - 1], |Args(front)| + 1);
    if front == [] then "WHERE " + text else Clause(front) + " AND " + text
  }

  /** A query as the repositories write it; a limit or offset that is not positive is not written. */
  datatype Shape = Shape(items: seq<Item>, col: string, desc: bool, limit: int, offset: int)

  function Dir(desc: bool): string { if desc then "DESC" else "ASC" }

  function LimitArgs(x: Shape): seq<Value> { Args(x.items) + (if x.limit > 0 then [Num(x.limit)] else []) }

  function ShapeArgs(x: Shape): seq<Value> { LimitArgs(x) + (if x.offset > 0 then [Num(x.offset)] else []) }

  function OrderText(x: Shape): string
    requires x.items != []
  {
    Clause(x.items) + " ORDER BY " + x.col + " " + Dir(x.desc)
  }

  function LimitText(x: Shape): string
    requires x.items != []
  {
    if x.limit > 0 then OrderText(x) + " LIMIT " + ("$" + Print(|Args(x.items)| + 1)) else OrderText(x)
  }

  function ShapeText(x: Shape): string
    requires x.items != []
  {
    if x.offset > 0 then LimitText(x) + " OFFSET " + ("$" + Print(|LimitArgs(x)| + 1)) else LimitText(x)
  }

  // ---------- Reading back what was written ----------

  predicate ColumnOk(col: string) {
    col != "" && ' ' !in col && '$' !in col && col[|col| - 1] != '<' && col[|col| - 1] != '>'
  }

  predicate ItemOk(x: Item) { x.Test? ==> ColumnOk(x.col) }

  predicate ShapeOk(x: Shape) {
    x.items != [] && (forall i <- x.items :: ItemOk(i)) && IsColumn(x.col)
  }

  function ItemTokens(items: seq<Item>): (ts: seq<string>)
    requires items != []
    ensures |ts| >= 2
  {
    var front := items[..|items| - 1];
    var text := ItemText(items[|items| - 1], |Args(front)| + 1);
    if front == [] then ["WHERE", text] else ItemTokens(front) + ["AND", text]
  }

  function OrderTokens(x: Shape): (ts: seq<string>)
    requires x.items != []
    ensures |ts| >= 2
  {
    ItemTokens(x.items) + ["ORDER", "BY"] + [x.col, Dir(x.desc)]
  }

  function LimitTokens(x: Shape): (ts: seq<string>)
    requires x.items != []
    ensures |ts| >= 2
  {
    if x.limit > 0 then OrderTokens(x) + ["LIMIT", "$" + Print(|Args(x.items)| + 1)] else OrderTokens(x)
  }

  function ShapeTokens(x: Shape): (ts: seq<string>)
    requires x.items != []
    ensures |ts| >= 2
  {
    if x.offset > 0 then LimitTokens(x) + ["OFFSET", "$" + Print(|LimitArgs(x)| + 1)] else LimitTokens(x)
  }

  lemma {:induction false} JoinTwo(ts: seq<string>, a: string, b: string)
    requires ts != []
    ensures Join(ts + [a, b], ' ') == Join(ts, ' ') + [' '] + a + [' '] + b
    decreases |ts|
  {
    if |ts| == 1 {
      assert (ts + [a, b])[1..] == [a, b] && [a, b][1..] == [b];
      assert Join([a, b], ' ') == a + [' '] + b;
      assert Join(ts + [a, b], ' ') == ts[0] + [' '] + (a + [' '] + b);
    } else {
      assert (ts + [a, b])[1..] == ts[1..] + [a, b];
      JoinTwo(ts[1..], a, b);
    }
  }

  lemma AndText(p: string, t: string)
    ensures p + [' '] + "AND" + [' '] + t == p + " AND " + t
  {
    assert [' '] + "AND" + [' '] == " AND ";
    assert p + [' '] + "AND" + [' '] + t == p + ([' '] + "AND" + [' ']) + t;
  }

  lemma OrderByText(p: string, t: string, d: string)
    ensures p + [' '] + "ORDER" + [' '] + "BY" + [' '] + t + [' '] + d == p + " ORDER BY " + t + " " + d
  {
    var word := [' '] + "ORDER" + [' '] + "BY" + [' '];
    assert word == " ORDER BY ";
    assert p + [' '] + "ORDER" + [' '] + "BY" + [' '] + t == p + word + t;
  }

  lemma LimitWordText(p: string, t: string)
    ensures p + [' '] + "LIMIT" + [' '] + t == p + " LIMIT " + t
  {
    assert [' '] + "LIMIT" + [' '] == " LIMIT ";
    assert p + [' '] + "LIMIT" + [' '] + t == p + ([' '] + "LIMIT" + [' ']) + t;
  }

  lemma OffsetWordText(p: string, t: string)
    ensures p + [' '] + "OFFSET" + [' '] + t == p + " OFFSET " + t
  {
    assert [' '] + "OFFSET" + [' '] == " OFFSET ";
    assert p + [' '] + "OFFSET" + [' '] + t == p + ([' '] + "OFFSET" + [' ']) + t;
  }

  lemma DigitsPlain(n: nat)
    ensures ' ' !in Print(n) && '$' !in Print(n)
  {
  }

  lemma ItemTextPlain(x: Item, n: nat)
    requires ItemOk(x)
    ensures Free(ItemText(x, n), ' ')
  {
    DigitsPlain(n);
  }

  ghost predicate Plain(ts: seq<string>) { forall t <- ts :: Free(t, ' ') }

  lemma PlainTwo(ts: seq<string>, a: string, b: string)
    requires Plain(ts) && Free(a, ' ') && Free(b, ' ')
    ensures Plain(ts + [a, b])
  {
  }

  lemma {:induction false} ItemTokensJoin(items: seq<Item>)
    requires items != [] && forall x <- items :: ItemOk(x)
    ensures Join(ItemTokens(items), ' ') == Clause(items) && Plain(ItemTokens(items))
    decreases |items|
  {
    var front := items[..|items| - 1];
    var text := ItemText(items[|items| - 1], |Args(front)| + 1);
    ItemTextPlain(items[|items| - 1], |Args(front)| + 1);
    if front == [] {
      assert ["WHERE", text][1..] == [text];
      assert "WHERE" + [' '] == "WHERE ";
    } else {
      hide ItemText, ItemOk, Join, Plain;
      ItemTokensJoin(front);
      JoinTwo(ItemTokens(front), "AND", text);
      AndText(Clause(front), text);
      PlainTwo(ItemTokens(front), "AND", text);
    }
  }

  lemma OrderTokensJoin(x: Shape)
    requires ShapeOk(x)
    ensures Join(OrderTokens(x), ' ') == OrderText(x) && Plain(OrderTokens(x))
  {
    hide IsColumn;
    ColumnPlain(x.col);
    hide Clause, ItemTokens, Join, ItemOk, Plain;
    ItemTokensJoin(x.items);
    var ts := ItemTokens(x.items);
    JoinTwo(ts, "ORDER", "BY");
    PlainTwo(ts, "ORDER", "BY");
    JoinTwo(ts + ["ORDER", "BY"], x.col, Dir(x.desc));
    PlainTwo(ts + ["ORDER", "BY"], x.col, Dir(x.desc));
    OrderByText(Clause(x.items), x.col, Dir(x.desc));
  }

  lemma MarkPlain(n: nat)
    ensures Free("$" + Print(n), ' ')
  {
    DigitsPlain(n);
  }

  lemma ShapeTokensSplit(x: Shape)
    requires ShapeOk(x)
    ensures Split(ShapeText(x), ' ') == ShapeTokens(x)
  {
    hide OrderText, OrderTokens, Join, ItemOk, Plain, Split, Print, Args, LimitArgs;
    OrderTokensJoin(x);
    if x.limit > 0 {
      var mark := "$" + Print(|Args(x.items)| + 1);
      MarkPlain(|Args(x.items)| + 1);
      JoinTwo(OrderTokens(x), "LIMIT", mark);
      LimitWordText(OrderText(x), mark);
      PlainTwo(OrderTokens(x), "LIMIT", mark);
    }
    assert Join(LimitTokens(x), ' ') == LimitText(x) && Plain(LimitTokens(x));
    if x.offset > 0 {
      var mark := "$" + Print(|LimitArgs(x)| + 1);
      MarkPlain(|LimitArgs(x)| + 1);
      JoinTwo(LimitTokens(x), "OFFSET", mark);
      OffsetWordText(LimitText(x), mark);
      PlainTwo(LimitTokens(x), "OFFSET", mark);
    }
    assert Join(ShapeTokens(x), ' ') == ShapeText(x) && Plain(ShapeTokens(x));
    PlainSplit(ShapeTokens(x));
  }

  lemma PlainSplit(ts: seq<string>)
    requires ts != [] && Plain(ts)
    ensures Split(Join(ts, ' '), ' ') == ts
  {
    SplitJoin(ts, ' ');
  }

  lemma ReadMarkOf(n: nat)
    ensures ReadMark("$" + Print(n)) == Some(n)
  {
    ValueOfPrint(n);
    assert ("$" + Print(n))[1..] == Print(n);
  }

  lemma {:induction false} IndexOfFree(a: string, c: char, b: string)
    requires c !in a && b != [] && b[0] == c
    ensures IndexOf(a + b, c) == |a|
  {
    assert a + b == a + [c] + b[1..];
    IndexOfPrefix(a, c, b[1..]);
  }

  lemma ReadItemOf(x: Item, n: nat, args: seq<Value>)
    requires ItemOk(x) && x.Test? && 1 <= n <= |args| && args[n - 1] == x.value
    ensures ReadItem(ItemText(x, n), args) == Some(x)
  {
    var left, mark := x.col + x.op.Sign(), "$" + Print(n);
    assert ItemText(x, n) == left + mark;
    assert left + mark != "1=1" by { assert (left + mark)[|left|] == '$'; }
    IndexOfFree(left, '$', mark);
    assert (left + mark)[..|left|] == left && (left + mark)[|left|..] == mark;
    ReadMarkOf(n);
    ReadLeftOf(x.col, x.op);
    hide Print, IndexOf, ReadMark, ReadLeft, ItemText, ItemOk;
  }

  lemma ReadLeftOf(col: string, op: Op)
    requires ColumnOk(col)
    ensures ReadLeft(col + op.Sign()) == Some((col, op))
  {
    var s := col + op.Sign();
    assert s[..|col|] == col;
    match op
    case Eq => assert s[|s| - 1] == '=' && s[|s| - 2] == col[|col| - 1];
    case Ge => assert s[|s| - 1] == '=' && s[|s| - 2] == '>';
    case Le => assert s[|s| - 1] == '=' && s[|s| - 2] == '<';
  }

  lemma {:induction false} ReadWhereOf(items: seq<Item>, args: seq<Value>)
    requires items != [] && (forall x <- items :: ItemOk(x)) && Args(items) <= args
    ensures ReadWhere(ItemTokens(items), args) == Some(items)
    decreases |items|
  {
    hide ItemOk, ReadItem, ItemText;
    var front, x := items[..|items| - 1], items[|items| - 1];
    var n := |Args(front)| + 1;
    assert items == front + [x];
    if x.Test? {
      assert Args(items) == Args(front) + [x.value];
      ReadItemOf(x, n, args);
    } else {
      ReadAlways(n, args);
    }
    if front != [] {
      ReadWhereOf(front, args);
      assert ItemTokens(items)[..|ItemTokens(front)|] == ItemTokens(front);
    }
  }

  lemma ReadAlways(n: nat, args: seq<Value>)
    ensures ReadItem(ItemText(Always, n), args) == Some(Always)
  {
  }

  function Positive(n: int): Option<int> { if n > 0 then Some(n) else None }

  lemma ReadCountOf(ts: seq<string>, word: string, n: int, before: seq<Value>, args: seq<Value>)
    requires |ts| >= 2 && ts[|ts| - 2] != word
    requires n > 0 ==> before + [Num(n)] <= args
    ensures ReadCount(if n > 0 then ts + [word, "$" + Print(|before| + 1)] else ts, word, args) == Some((ts, Positive(n)))
  {
    if n > 0 {
      var mark := "$" + Print(|before| + 1);
      ReadMarkOf(|before| + 1);
      assert (ts + [word, mark])[..|ts|] == ts;
      assert args[|before|] == (before + [Num(n)])[|before|];
    }
  }

  /** Reading what was written gives back the conditions with their own values, the order and the page. */
  lemma ReadBack(x: Shape)
    requires ShapeOk(x)
    ensures Read(ShapeText(x), ShapeArgs(x))
            == Some(Query(x.items, Lower(x.col), x.desc, Positive(x.limit), Positive(x.offset)))
  {
    ShapeTokensSplit(x);
    var args := ShapeArgs(x);
    ReadOffsetOf(x);
    ReadLimitOf(x);
    assert Args(x.items) <= args;
    ReadOrderOf(x, args);
    hide ShapeOk, Split, ShapeText, ShapeTokens, LimitTokens, OrderTokens, ShapeArgs, ReadCount, ReadOrder;
  }

  lemma ReadOffsetOf(x: Shape)
    requires ShapeOk(x)
    ensures ReadCount(ShapeTokens(x), "OFFSET", ShapeArgs(x)) == Some((LimitTokens(x), Positive(x.offset)))
  {
    hide IsColumn, ItemOk, Print, LimitTokens, LimitArgs, ReadCount, ReadArg;
    LimitTokensEnd(x);
    ReadCountOf(LimitTokens(x), "OFFSET", x.offset, LimitArgs(x), ShapeArgs(x));
  }

  lemma ReadLimitOf(x: Shape)
    requires ShapeOk(x)
    ensures ReadCount(LimitTokens(x), "LIMIT", ShapeArgs(x)) == Some((OrderTokens(x), Positive(x.limit)))
  {
    hide IsColumn, ItemOk, Print, OrderTokens, Args, ReadCount, ReadArg;
    LimitTokensEnd(x);
    LimitArgsWithin(x);
    hide LimitArgs, ShapeArgs;
    ReadCountOf(OrderTokens(x), "LIMIT", x.limit, Args(x.items), ShapeArgs(x));
  }

  lemma LimitArgsWithin(x: Shape)
    ensures x.limit > 0 ==> Args(x.items) + [Num(x.limit)] <= ShapeArgs(x)
  {
    hide Args;
  }

  lemma ReadOrderOf(x: Shape, args: seq<Value>)
    requires ShapeOk(x) && Args(x.items) <= args
    ensures ReadOrder(OrderTokens(x), args, Positive(x.limit), Positive(x.offset))
            == Some(Query(x.items, Lower(x.col), x.desc, Positive(x.limit), Positive(x.offset)))
  {
    hide ItemOk, ReadWhere, ItemTokens, IsColumn, Lower;
    ReadWhereOf(x.items, args);
    var ts := OrderTokens(x);
    assert ts[..|ts| - 4] == ItemTokens(x.items);
  }

  /** A column name before the direction cannot be taken for a LIMIT or OFFSET clause. */
  lemma LimitTokensEnd(x: Shape)
    requires ShapeOk(x)
    ensures LimitTokens(x)[|LimitTokens(x)| - 2] != "OFFSET"
    ensures OrderTokens(x)[|OrderTokens(x)| - 2] != "LIMIT"
  {
    hide IsColumn;
    ColumnPlain(x.col);
  }

  lemma ReadColumn(text: string, args: seq<Value>)
    ensures Read(text, args).Some? ==> IsColumn(Read(text, args).value.col)
  {
    if Read(text, args).Some? {
      var ts := ReadCount(ReadCount(Split(text, ' '), "OFFSET", args).value.0, "LIMIT", args).value.0;
      ColumnFolds(ts[|ts| - 2]);
    }
    hide ReadWhere, ReadCount, Split, IsColumn, Lower;
  }

  /** Whatever text is given as sort column, the query reads as one by that column exactly if it is a column name. */
  lemma ColumnExact(x: Shape)
    requires x.items != [] && forall i <- x.items :: ItemOk(i)
    ensures var intended := Query(x.items, Lower(x.col), x.desc, Positive(x.limit), Positive(x.offset));
            Read(ShapeText(x), ShapeArgs(x)) == Some(intended) <==> IsColumn(x.col)
  {
    ColumnFolds(x.col);
    ReadColumn(ShapeText(x), ShapeArgs(x));
    hide Read, ShapeText, ShapeArgs, ItemOk, IsColumn, Lower;
    if IsColumn(x.col) { ReadBack(x); }
  }

  /** Two columns are no column name, with or without a blank between them, so such a query does not read as sorted by one. */
  lemma TwoColumns(x: Shape)
    requires x.items != [] && (forall i <- x.items :: ItemOk(i)) && (x.col == "created_at, id" || x.col == "created_at,id")
    ensures Read(ShapeText(x), ShapeArgs(x))
            != Some(Query(x.items, Lower(x.col), x.desc, Positive(x.limit), Positive(x.offset)))
  {
    assert x.col[10] == ',' && x.col[10] in x.col;
    hide Read, ShapeText, ShapeArgs, ItemOk, Lower;
    ColumnExact(x);
  }

  lemma CreatedAt()
    ensures IsColumn("created_at") && Lower("created_at") == "created_at"
  {
    assert Lower("created_at") == "created_at";
  }

  /** The words of a query, one of each clause, in both directions. */
  lemma SampleQuery(words: seq<string>, desc: bool, args: seq<Value>)
    requires |args| == 3 && args[1] == Num(10) && args[2] == Num(20)
    requires words == ["WHERE", "1=1", "AND", "type=$1"] + ["ORDER", "BY", "created_at", if desc then "DESC" else "ASC"]
    ensures ReadTokens(words + ["LIMIT", "$2"] + ["OFFSET", "$3"], args)
            == Some(Query([Always] + [Test("type", Eq, args[0])], "created_at", desc, Some(10), Some(20)))
  {
    hide ReadArg, ReadOrder;
    SampleMarks(args);
    var limited := words + ["LIMIT", "$2"];
    assert (limited + ["OFFSET", "$3"])[..|limited|] == limited && limited[..|words|] == words;
    SampleOrder(words, desc, args);
  }

  lemma SampleOrder(words: seq<string>, desc: bool, args: seq<Value>)
    requires |args| == 3
    requires words == ["WHERE", "1=1", "AND", "type=$1"] + ["ORDER", "BY", "created_at", if desc then "DESC" else "ASC"]
    ensures ReadOrder(words, args, Some(10), Some(20))
            == Some(Query([Always] + [Test("type", Eq, args[0])], "created_at", desc, Some(10), Some(20)))
  {
    hide ReadArg, ReadItem, IsColumn, Lower;
    CreatedAt();
    SampleWhere(args);
    hide ReadWhere;
    assert words[..4] == ["WHERE", "1=1", "AND", "type=$1"];
    assert words[7] == if desc then "DESC" else "ASC";
    assert desc == (words[7] == "DESC") by { assert "ASC"[0] != "DESC"[0]; }
  }

  lemma SampleWhere(args: seq<Value>)
    requires |args| == 3
    ensures ReadWhere(["WHERE", "1=1", "AND", "type=$1"], args) == Some([Always] + [Test("type", Eq, args[0])])
  {
    hide ReadArg, ReadItem;
    SampleMarks(args);
    assert ["WHERE", "1=1", "AND", "type=$1"][..2] == ["WHERE", "1=1"];
    assert ReadWhere(["WHERE", "1=1"], args) == Some([Always]);
  }

  lemma SampleMarks(args: seq<Value>)
    requires |args| == 3
    ensures ReadArg("$2", args) == Some(args[1]) && ReadArg("$3", args) == Some(args[2])
    ensures ReadItem("1=1", args) == Some(Always) && ReadItem("type=$1", args) == Some(Test("type", Eq, args[0]))
  {
    assert Print(1) == "1" && Print(2) == "2" && Print(3) == "3";
    ReadMarkOf(2);
    ReadMarkOf(3);
    assert "$" + "2" == "$2" && "$" + "3" == "$3";
    var x := Test("type", Eq, args[0]);
    ReadItemOf(x, 1, args);
    assert ItemText(x, 1) == "type=$1";
  }

  // ---------- Placeholders ----------

  /** 1, 2, 3, ... */
  function UpTo(n: nat): seq<nat> { if n == 0 then [] else UpTo(n - 1) + [n] }

  lemma MarksTwo(ts: seq<string>, a: string, b: string)
    requires '$' !in a
    ensures Marks(ts + [a, b]) == Marks(ts) + MarkIn(b)
  {
    var all := ts + [a, b];
    assert all[..|ts| + 1] == ts + [a] && (ts + [a])[..|ts|] == ts;
    NoMark(a);
  }

  lemma MarkInOf(left: string, n: nat)
    requires '$' !in left
    ensures MarkIn(left + ("$" + Print(n))) == [n]
  {
    var mark := "$" + Print(n);
    IndexOfFree(left, '$', mark);
    assert (left + mark)[|left|..] == mark;
    ReadMarkOf(n);
  }

  lemma MarkInItem(x: Item, n: nat)
    requires ItemOk(x)
    ensures MarkIn(ItemText(x, n)) == if x.Test? then [n] else []
  {
    hide MarkIn, Print;
    if x.Test? {
      var left := x.col + x.op.Sign();
      assert ItemText(x, n) == left + ("$" + Print(n));
      assert '$' !in x.op.Sign();
      MarkInOf(left, n);
    } else {
      NoMark("1=1");
    }
  }

  lemma {:induction false} MarksOfItems(items: seq<Item>)
    requires items != [] && forall x <- items :: ItemOk(x)
    ensures Marks(ItemTokens(items)) == UpTo(|Args(items)|)
    decreases |items|
  {
    hide ItemOk, ItemText, MarkIn;
    var front, x := items[..|items| - 1], items[|items| - 1];
    var n := |Args(front)| + 1;
    MarkInItem(x, n);
    if front == [] {
      assert ["WHERE", ItemText(x, n)] == [] + ["WHERE", ItemText(x, n)];
      MarksTwo([], "WHERE", ItemText(x, n));
    } else {
      MarksOfItems(front);
      MarksTwo(ItemTokens(front), "AND", ItemText(x, n));
    }
  }

  lemma MarksOfOrder(x: Shape)
    requires x.items != [] && '$' !in x.col
    ensures Marks(OrderTokens(x)) == Marks(ItemTokens(x.items))
  {
    hide MarkIn, Marks, ItemTokens, Dir;
    var ts := ItemTokens(x.items);
    MarksTwo(ts, "ORDER", "BY");
    NoMark("BY");
    MarksTwo(ts + ["ORDER", "BY"], x.col, Dir(x.desc));
    NoMarkInDir(x.desc);
  }

  lemma NoMarkInDir(desc: bool)
    ensures MarkIn(Dir(desc)) == []
  {
    NoMark(Dir(desc));
  }

  lemma MarksOfLimit(x: Shape)
    requires ShapeOk(x)
    ensures Marks(LimitTokens(x)) == UpTo(|LimitArgs(x)|)
  {
    hide IsColumn, ItemOk, MarkIn, Marks, OrderTokens, Args, Print;
    ColumnPlain(x.col);
    MarksOfItems(x.items);
    MarksOfOrder(x);
    if x.limit > 0 {
      var n := |Args(x.items)| + 1;
      MarkAlone(n);
      MarksTwo(OrderTokens(x), "LIMIT", "$" + Print(n));
    }
  }

  /** The placeholders of a written query are numbered 1, 2, ... up to the number of arguments. */
  lemma MarksOfShape(x: Shape)
    requires ShapeOk(x)
    ensures Marks(Split(ShapeText(x), ' ')) == UpTo(|ShapeArgs(x)|)
  {
    hide IsColumn, ItemOk, MarkIn, Marks, Split, ShapeText, LimitTokens, LimitArgs, Print;
    ShapeTokensSplit(x);
    MarksOfLimit(x);
    if x.offset > 0 {
      var n := |LimitArgs(x)| + 1;
      MarkAlone(n);
      MarksTwo(LimitTokens(x), "OFFSET", "$" + Print(n));
    }
  }

  lemma MarkAlone(n: nat)
    ensures MarkIn("$" + Print(n)) == [n]
  {
    assert [] + ("$" + Print(n)) == "$" + Print(n);
    MarkInOf([], n);
  }

  lemma NoMark(s: string)
    requires '$' !in s
    ensures MarkIn(s) == []
  {
    assert IndexOf(s, '$') == |s|;
  }
}
