/**
 The three list queries (internal/identity/postgres). Each grows a text, an argument list and the
 number of the next placeholder as its filter asks; what the text then means is the filter.
 */
module Listings {
  import opened Basics
  import opened Text
  import opened Sql
  import opened Paging

  // ---------- Growing a query ----------

  /** Sprintf(" AND <col><op>$%d", n) */
  function And(col: string, op: Op, n: nat): string {
    " AND " + (col + op.Sign() + "$" + Print(n))
  }

  /** The conditions so far and one more if its filter field is set. */
  function With(items: seq<Item>, col: string, op: Op, v: Option<Value>): seq<Item> {
    if v.Some? then items + [Test(col, op, v.value)] else items
  }

  function Texts(s: Option<string>): Option<Value> { if s.Some? then Some(Txt(s.value)) else None }

  function Nums(n: Option<int>): Option<Value> { if n.Some? then Some(Num(n.value)) else None }

  /** Text, arguments and next number are those of the conditions. */
  ghost predicate Grown(q: string, args: seq<Value>, i: nat, items: seq<Item>) {
    items != [] && q == Clause(items) && args == Args(items) && i == |args| + 1 && forall x <- items :: ItemOk(x)
  }

  lemma Grow(q: string, args: seq<Value>, i: nat, items: seq<Item>, col: string, op: Op, v: Value)
    requires Grown(q, args, i, items) && ColumnOk(col)
    ensures Grown(q + And(col, op, i), args + [v], i + 1, items + [Test(col, op, v)])
  {
    hide ColumnOk, Print, Op.Sign;
    var x := Test(col, op, v);
    var more := items + [x];
    assert more[..|items|] == items && more[|more| - 1] == x;
    assert Clause(more) == Clause(items) + " AND " + ItemText(x, i);
    assert Clause(items) + " AND " + ItemText(x, i) == Clause(items) + (" AND " + ItemText(x, i));
    assert ItemOk(x);
  }

  /** The ends of the three builders: direction, limit and offset. */
  method Finish(q: string, args: seq<Value>, i: nat, col: string, desc: bool, limit: int, offset: int,
                ghost items: seq<Item>)
      returns (text: string, all: seq<Value>)
    requires Grown(q, args, i, items)
    ensures IsColumn(col) ==> Marks(Split(text, ' ')) == UpTo(|all|)
    ensures var intended := Query(items, Lower(col), desc, Positive(limit), Positive(offset));
            Read(text, all) == Some(intended) <==> IsColumn(col)
  {
    hide Clause, Print, Read, Marks, ItemOk, IsColumn, Lower;
    ghost var x := Shape(items, col, desc, limit, offset);
    var dir := if desc then "DESC" else "ASC";
    text := q + " ORDER BY " + col + " " + dir;
    all := args;
    var n := i;
    assert text == OrderText(x);
    if limit > 0 {
      text := text + " LIMIT " + ("$" + Print(n));
      all := all + [Num(limit)];
      n := n + 1;
    }
    assert text == LimitText(x) && all == LimitArgs(x) && n == |all| + 1;
    if offset > 0 {
      text := text + " OFFSET " + ("$" + Print(n));
      all := all + [Num(offset)];
    }
    assert text == ShapeText(x) && all == ShapeArgs(x);
    ColumnExact(x);
    if IsColumn(col) { MarksOfShape(x); }
  }

  /** The database's answer; None is an error: a text it cannot read, or a column the table does not have. */
  function Execute<R>(q: string, args: seq<Value>, known: string -> bool, cell: (R, string) -> Value, order: Order<R>,
                      table: seq<R>): Option<seq<R>> {
    match Read(q, args)
    case None => None
    case Some(query) =>
      if known(query.col) && forall x <- query.items :: x.Test? ==> known(x.col)
      then Some(Evaluate(query, cell, order, table)) else None
  }

  lemma KeepsWith<R>(items: seq<Item>, col: string, op: Op, v: Option<Value>, cell: (R, string) -> Value, r: R)
    ensures Keeps(With(items, col, op, v), cell, r)
            <==> (Keeps(items, cell, r) && (v.Some? ==> op.Holds(cell(r, col), v.value)))
  {
    if v.Some? {
      var x := Test(col, op, v.value);
      assert x in items + [x];
      assert forall y :: y in items + [x] <==> y in items || y == x;
    }
  }

  lemma {:induction false} FilterSame<R>(rows: seq<R>, p: R -> bool, q: R -> bool)
    requires forall r <- rows :: p(r) == q(r)
    ensures Filter(rows, p) == Filter(rows, q)
    decreases |rows|
  {
    if rows != [] {
      FilterSame(rows[..|rows| - 1], p, q);
    }
  }

  // ---------- Identities ----------

  /** A row: the columns a filter can name, and the others by name. */
  datatype IdentityRow =
    IdentityRow(id: string, tenant: string, kind: string, status: string, others: map<string, Value>)

  datatype IdentityFilter =
    IdentityFilter(kind: Option<string>, status: Option<string>, limit: int, offset: int, orderBy: string, desc: bool)

  function IdentityCell(r: IdentityRow, col: string): Value {
    if col == "id" then Txt(r.id)
    else if col == "tenant_id" then Txt(r.tenant)
    else if col == "type" then Txt(r.kind)
    else if col == "status" then Txt(r.status)
    else if col in r.others then r.others[col]
    else Null
  }

  predicate IdentityWanted(r: IdentityRow, tenant: string, f: IdentityFilter) {
    r.tenant == tenant && (f.kind.Some? ==> r.kind == f.kind.value) && (f.status.Some? ==> r.status == f.status.value)
  }

  function IdentityItems(tenant: string, f: IdentityFilter): seq<Item> {
    With(With([Test("tenant_id", Eq, Txt(tenant))], "type", Eq, Texts(f.kind)), "status", Eq, Texts(f.status))
  }

  lemma IdentityItemsKnown(tenant: string, f: IdentityFilter)
    ensures forall x <- IdentityItems(tenant, f) :: x.Test? && IsIdentityColumn(x.col)
  {
  }

  function IdentityQuery(tenant: string, f: IdentityFilter): Query {
    Query(IdentityItems(tenant, f), SortColumn(f), f.desc, Positive(f.limit), Positive(f.offset))
  }

  lemma IdentityMeaning(r: IdentityRow, tenant: string, f: IdentityFilter)
    ensures Keeps(IdentityItems(tenant, f), IdentityCell, r) <==> IdentityWanted(r, tenant, f)
  {
    var base := [Test("tenant_id", Eq, Txt(tenant))];
    assert Keeps(base, IdentityCell, r) <==> r.tenant == tenant by { assert base[0] in base; }
    KeepsWith(base, "type", Eq, Texts(f.kind), IdentityCell, r);
    KeepsWith(With(base, "type", Eq, Texts(f.kind)), "status", Eq, Texts(f.status), IdentityCell, r);
  }

  function WantedIdentities(table: seq<IdentityRow>, tenant: string, f: IdentityFilter): seq<IdentityRow> {
    Filter(table, r => IdentityWanted(r, tenant, f))
  }

  function SortText(f: IdentityFilter): string { if f.orderBy == "" then "created_at" else f.orderBy }

  /** The column a sort text names, if it is a column name. */
  function SortColumn(f: IdentityFilter): string { Lower(SortText(f)) }

  /** The columns of the identities table. */
  predicate IsIdentityColumn(col: string) {
    || col == "id" || col == "tenant_id" || col == "type" || col == "display_name" || col == "handle" || col == "status"
    || col == "primary_key_id" || col == "attributes" || col == "attributes_iv" || col == "created_by"
    || col == "version" || col == "created_at" || col == "updated_at" || col == "deactivated_at"
  }

  /** The filter sorts by a column of the table. */
  predicate SortsByColumn(f: IdentityFilter) { IsColumn(SortText(f)) && IsIdentityColumn(SortColumn(f)) }

  /** What the filter asks for: its rows in its order, the offset dropped and the limit taken. */
  function IdentityList(table: seq<IdentityRow>, order: Order<IdentityRow>, tenant: string,
                        f: IdentityFilter): seq<IdentityRow> {
    Page(order(SortColumn(f), f.desc, WantedIdentities(table, tenant, f)), f.limit, f.offset)
  }

  /**
   For a sort text that is a column name, placeholders are numbered in step with the arguments, and
   the rows are those the filter asks for, or an error if the table has no such column. For no other
   sort text does the query read as the filter's.
   */
  method ListIdentities(table: seq<IdentityRow>, order: Order<IdentityRow>, tenant: string, f: IdentityFilter)
      returns (q: string, args: seq<Value>, rows: Option<seq<IdentityRow>>)
    ensures IsColumn(SortText(f)) ==> Marks(Split(q, ' ')) == UpTo(|args|)
    ensures IsColumn(SortText(f)) ==>
              rows == if IsIdentityColumn(SortColumn(f)) then Some(IdentityList(table, order, tenant, f)) else None
    ensures Read(q, args) == Some(IdentityQuery(tenant, f)) <==> IsColumn(SortText(f))
  {
    ghost var items := [Test("tenant_id", Eq, Txt(tenant))];
    q, args := "WHERE tenant_id=$1", [Txt(tenant)];
    var i := 2;
    TenantStart(tenant);
    hide Grown, Read, Marks, Keeps, Page, Filter, IsColumn, Lower, And, IsIdentityColumn;
    if f.kind.Some? {
      Grow(q, args, i, items, "type", Eq, Txt(f.kind.value));
      q, args, i := q + And("type", Eq, i), args + [Txt(f.kind.value)], i + 1;
      items := items + [Test("type", Eq, Txt(f.kind.value))];
    }
    if f.status.Some? {
      Grow(q, args, i, items, "status", Eq, Txt(f.status.value));
      q, args, i := q + And("status", Eq, i), args + [Txt(f.status.value)], i + 1;
      items := items + [Test("status", Eq, Txt(f.status.value))];
    }
    var col := "created_at";
    if f.orderBy != "" {
      col := f.orderBy;
    }
    q, args := Finish(q, args, i, col, f.desc, f.limit, f.offset, items);
    rows := Execute(q, args, IsIdentityColumn, IdentityCell, order, table);
    assert items == IdentityItems(tenant, f) && col == SortText(f);
    IdentityItemsKnown(tenant, f);
    forall r <- table ensures Keeps(items, IdentityCell, r) == IdentityWanted(r, tenant, f) {
      IdentityMeaning(r, tenant, f);
    }
    FilterSame(table, r => Keeps(items, IdentityCell, r), r => IdentityWanted(r, tenant, f));
    PageCounts(order(SortColumn(f), f.desc, WantedIdentities(table, tenant, f)), f.limit, f.offset);
  }

  /** Given a database that sorts, the list is sorted as the filter says and holds wanted rows, none twice. */
  lemma IdentityListSorted(table: seq<IdentityRow>, order: Order<IdentityRow>, tenant: string, f: IdentityFilter,
                           le: (Value, Value) -> bool)
    requires SortsByColumn(f)
    requires Sorts(order, WantedIdentities(table, tenant, f), SortColumn(f), f.desc, IdentityCell, le)
    ensures Sorted(IdentityList(table, order, tenant, f), KeyOf(IdentityCell, SortColumn(f)), Direction(le, f.desc))
    ensures multiset(IdentityList(table, order, tenant, f)) <= multiset(WantedIdentities(table, tenant, f))
    ensures f.limit <= 0 && f.offset <= 0 ==>
      forall r :: r in IdentityList(table, order, tenant, f) <==>
        && r in table && r.tenant == tenant
        && (f.kind == None || f.kind == Some(r.kind)) && (f.status == None || f.status == Some(r.status))
  {
    FilterDistinct(table, r => IdentityWanted(r, tenant, f));
    var rows := WantedIdentities(table, tenant, f);
    PageWhole(rows, order(SortColumn(f), f.desc, rows), f.limit, f.offset);
    hide Page, Filter, KeyOf, Direction;
    var out, key := order(SortColumn(f), f.desc, rows), KeyOf(IdentityCell, SortColumn(f));
    PageSorted(rows, out, f.limit, f.offset, key, Direction(le, f.desc));
  }

  lemma PageWhole<R>(rows: seq<R>, out: seq<R>, limit: int, offset: int)
    requires multiset(out) == multiset(rows)
    ensures limit <= 0 && offset <= 0 ==> forall r :: r in Page(out, limit, offset) <==> r in rows
  {
    assert forall r :: r in out <==> r in multiset(out);
    assert forall r :: r in rows <==> r in multiset(rows);
  }

  /** The documented sort texts are columns of the table, and the empty one stands for created_at. */
  lemma DocumentedColumns(f: IdentityFilter)
    requires f.orderBy == "" || f.orderBy == "created_at" || f.orderBy == "updated_at" || f.orderBy == "display_name"
    ensures SortsByColumn(f) && SortColumn(f) == if f.orderBy == "" then "created_at" else f.orderBy
  {
    hide IsColumn, Lower;
    CreatedAt();
    UpdatedAt();
    DisplayName();
  }

  lemma UpdatedAt()
    ensures IsColumn("updated_at") && Lower("updated_at") == "updated_at"
  {
    assert Lower("updated_at") == "updated_at";
  }

  lemma DisplayName()
    ensures IsColumn("display_name") && Lower("display_name") == "display_name"
  {
    assert Lower("display_name") == "display_name";
  }

  /** The list as its limit and offset vary. */
  function IdentityLister(table: seq<IdentityRow>, tenant: string, f: IdentityFilter): Lister<IdentityRow> {
    (order: Order<IdentityRow>, limit: int, offset: int) =>
      IdentityList(table, order, tenant, f.(limit := limit, offset := offset))
  }

  /** The pages of an identity list tile it, however ties fall, iff no two wanted rows agree in the sort column. */
  lemma IdentityPagesExact(table: seq<IdentityRow>, tenant: string, f: IdentityFilter, le: (Value, Value) -> bool)
    requires SortsByColumn(f) && TotalOrder(le) && Distinct(table)
    ensures var rows := WantedIdentities(table, tenant, f);
            PagesAlwaysTile(IdentityLister(table, tenant, f), rows, SortColumn(f), f.desc, IdentityCell, le)
            <==> NoTies(rows, KeyOf(IdentityCell, SortColumn(f)))
  {
    var rows := WantedIdentities(table, tenant, f);
    FilterDistinct(table, r => IdentityWanted(r, tenant, f));
    forall limit, offset ensures WantedIdentities(table, tenant, f.(limit := limit, offset := offset)) == rows {
      var g := f.(limit := limit, offset := offset);
      FilterSame(table, r => IdentityWanted(r, tenant, g), r => IdentityWanted(r, tenant, f));
    }
    assert Lists(IdentityLister(table, tenant, f), rows, SortColumn(f), f.desc);
    hide TotalOrder, Lists, PagesAlwaysTile, NoTies, Filter;
    PagesTileExact(IdentityLister(table, tenant, f), rows, SortColumn(f), f.desc, IdentityCell, le);
  }

  /** What a filter keeps: the fitting rows, in their order, each as often as in the table. */
  lemma {:induction false} FilterDistinct<R>(rows: seq<R>, keep: R -> bool)
    ensures forall r :: r in Filter(rows, keep) <==> r in rows && keep(r)
    ensures Distinct(rows) ==> Distinct(Filter(rows, keep))
    decreases |rows|
  {
    if rows != [] {
      var front, last := rows[..|rows| - 1], rows[|rows| - 1];
      assert rows == front + [last];
      FilterDistinct(front, keep);
    }
  }

  lemma TenantStart(tenant: string)
    ensures Grown("WHERE tenant_id=$1", [Txt(tenant)], 2, [Test("tenant_id", Eq, Txt(tenant))])
  {
    var items := [Test("tenant_id", Eq, Txt(tenant))];
    assert items[..0] == [];
    assert Print(1) == "1";
    assert Args(items) == [Txt(tenant)];
    assert "WHERE " + ("tenant_id" + "=" + "$" + "1") == "WHERE tenant_id=$1";
  }

  lemma PageCounts<R>(rows: seq<R>, limit: int, offset: int)
    ensures Page(rows, Count(Positive(limit)), Count(Positive(offset))) == Page(rows, limit, offset)
  {
  }

  // ---------- Tenants ----------

  datatype TenantRow = TenantRow(id: string, status: string, tier: string, createdAt: int)

  datatype TenantFilter = TenantFilter(status: Option<string>, tier: Option<string>, limit: int, offset: int)

  function TenantCell(r: TenantRow, col: string): Value {
    if col == "status" then Txt(r.status)
    else if col == "tier" then Txt(r.tier)
    else if col == "created_at" then Num(r.createdAt)
    else Null
  }

  predicate TenantWanted(r: TenantRow, f: TenantFilter) {
    (f.status.Some? ==> r.status == f.status.value) && (f.tier.Some? ==> r.tier == f.tier.value)
  }

  function TenantItems(f: TenantFilter): seq<Item> {
    With(With([Always], "status", Eq, Texts(f.status)), "tier", Eq, Texts(f.tier))
  }

  predicate IsTenantColumn(col: string) {
    || col == "id" || col == "name" || col == "slug" || col == "tier" || col == "status" || col == "settings"
    || col == "data_region" || col == "created_at" || col == "updated_at"
  }

  lemma TenantItemsKnown(f: TenantFilter)
    ensures forall x <- TenantItems(f) :: x.Test? ==> IsTenantColumn(x.col)
  {
  }

  /** The sort columns of the other two lists are column names, and folded. */
  lemma ColumnNames()
    ensures IsColumn("created_at") && Lower("created_at") == "created_at" && IsTenantColumn("created_at")
    ensures IsColumn("occurred_at") && Lower("occurred_at") == "occurred_at" && IsAuditColumn("occurred_at")
  {
    assert Lower("created_at") == "created_at" && Lower("occurred_at") == "occurred_at";
  }

  lemma TenantMeaning(r: TenantRow, f: TenantFilter)
    ensures Keeps(TenantItems(f), TenantCell, r) <==> TenantWanted(r, f)
  {
    KeepsWith([Always], "status", Eq, Texts(f.status), TenantCell, r);
    KeepsWith(With([Always], "status", Eq, Texts(f.status)), "tier", Eq, Texts(f.tier), TenantCell, r);
  }

  function WantedTenants(table: seq<TenantRow>, f: TenantFilter): seq<TenantRow> {
    Filter(table, r => TenantWanted(r, f))
  }

  function TenantList(table: seq<TenantRow>, order: Order<TenantRow>, f: TenantFilter): seq<TenantRow> {
    Page(order("created_at", true, WantedTenants(table, f)), f.limit, f.offset)
  }

  lemma AlwaysStart()
    ensures Grown("WHERE 1=1", [], 1, [Always])
  {
    assert [Always][..0] == [];
    assert "WHERE " + "1=1" == "WHERE 1=1";
  }

  method ListTenants(table: seq<TenantRow>, order: Order<TenantRow>, f: TenantFilter)
      returns (q: string, args: seq<Value>, rows: Option<seq<TenantRow>>)
    ensures Marks(Split(q, ' ')) == UpTo(|args|)
    ensures rows == Some(TenantList(table, order, f))
  {
    ghost var items := [Always];
    q, args := "WHERE 1=1", [];
    var i := 1;
    AlwaysStart();
    hide Grown, Read, Marks, Keeps, Page, Filter, And, IsColumn, Lower, IsTenantColumn, IsAuditColumn;
    if f.status.Some? {
      Grow(q, args, i, items, "status", Eq, Txt(f.status.value));
      q, args, i := q + And("status", Eq, i), args + [Txt(f.status.value)], i + 1;
      items := items + [Test("status", Eq, Txt(f.status.value))];
    }
    if f.tier.Some? {
      Grow(q, args, i, items, "tier", Eq, Txt(f.tier.value));
      q, args, i := q + And("tier", Eq, i), args + [Txt(f.tier.value)], i + 1;
      items := items + [Test("tier", Eq, Txt(f.tier.value))];
    }
    q, args := Finish(q, args, i, "created_at", true, f.limit, f.offset, items);
    rows := Execute(q, args, IsTenantColumn, TenantCell, order, table);
    assert items == TenantItems(f);
    TenantItemsKnown(f);
    ColumnNames();
    forall r <- table ensures Keeps(items, TenantCell, r) == TenantWanted(r, f) { TenantMeaning(r, f); }
    FilterSame(table, r => Keeps(items, TenantCell, r), r => TenantWanted(r, f));
    PageCounts(order("created_at", true, WantedTenants(table, f)), f.limit, f.offset);
  }

  lemma TenantListSorted(table: seq<TenantRow>, order: Order<TenantRow>, f: TenantFilter, le: (Value, Value) -> bool)
    requires Sorts(order, WantedTenants(table, f), "created_at", true, TenantCell, le)
    ensures Sorted(TenantList(table, order, f), KeyOf(TenantCell, "created_at"), Direction(le, true))
    ensures multiset(TenantList(table, order, f)) <= multiset(WantedTenants(table, f))
    ensures f.limit <= 0 && f.offset <= 0 ==>
      forall r :: r in TenantList(table, order, f) <==>
        r in table && (f.status == None || f.status == Some(r.status)) && (f.tier == None || f.tier == Some(r.tier))
  {
    FilterDistinct(table, r => TenantWanted(r, f));
    PageWhole(WantedTenants(table, f), order("created_at", true, WantedTenants(table, f)), f.limit, f.offset);
    hide Page, Filter, KeyOf, Direction;
    var rows := WantedTenants(table, f);
    var out, key := order("created_at", true, rows), KeyOf(TenantCell, "created_at");
    PageSorted(rows, out, f.limit, f.offset, key, Direction(le, true));
  }

  function TenantLister(table: seq<TenantRow>, f: TenantFilter): Lister<TenantRow> {
    (order: Order<TenantRow>, limit: int, offset: int) => TenantList(table, order, f.(limit := limit, offset := offset))
  }

  /** The pages of a tenant list tile it, however ties fall, iff no two wanted tenants were created at the same time. */
  lemma TenantPagesExact(table: seq<TenantRow>, f: TenantFilter, le: (Value, Value) -> bool)
    requires TotalOrder(le) && Distinct(table)
    ensures PagesAlwaysTile(TenantLister(table, f), WantedTenants(table, f), "created_at", true, TenantCell, le)
            <==> NoTies(WantedTenants(table, f), KeyOf(TenantCell, "created_at"))
  {
    var rows := WantedTenants(table, f);
    FilterDistinct(table, r => TenantWanted(r, f));
    forall limit, offset ensures WantedTenants(table, f.(limit := limit, offset := offset)) == rows {
      var g := f.(limit := limit, offset := offset);
      FilterSame(table, r => TenantWanted(r, g), r => TenantWanted(r, f));
    }
    assert Lists(TenantLister(table, f), rows, "created_at", true);
    hide TotalOrder, Lists, PagesAlwaysTile, NoTies, Filter;
    PagesTileExact(TenantLister(table, f), rows, "created_at", true, TenantCell, le);
  }

  // ---------- Audit events ----------

  datatype AuditRow =
    AuditRow(id: string, tenant: string, eventType: string, entityType: string, actorId: Option<string>, success: bool,
             occurredAt: int)

  datatype AuditFilter =
    AuditFilter(eventType: Option<string>, entityType: Option<string>, actorId: Option<string>, success: Option<bool>,
                since: Option<int>, until: Option<int>, limit: int, offset: int)

  function AuditCell(r: AuditRow, col: string): Value {
    if col == "tenant_id" then Txt(r.tenant)
    else if col == "event_type" then Txt(r.eventType)
    else if col == "entity_type" then Txt(r.entityType)
    else if col == "occurred_at" then Num(r.occurredAt)
    else Null
  }

  /** What the query applies of the filter: neither the actor nor the success flag. */
  predicate AuditApplied(r: AuditRow, tenant: string, f: AuditFilter) {
    && r.tenant == tenant
    && (f.eventType.Some? ==> r.eventType == f.eventType.value)
    && (f.entityType.Some? ==> r.entityType == f.entityType.value)
    && (f.since.Some? ==> f.since.value <= r.occurredAt) && (f.until.Some? ==> r.occurredAt <= f.until.value)
  }

  /** What the filter's fields say. */
  predicate AuditWanted(r: AuditRow, tenant: string, f: AuditFilter) {
    && AuditApplied(r, tenant, f)
    && (f.actorId.Some? ==> r.actorId == f.actorId) && (f.success.Some? ==> r.success == f.success.value)
  }

  function TypedItems(tenant: string, f: AuditFilter): seq<Item> {
    var base := [Test("tenant_id", Eq, Txt(tenant))];
    With(With(base, "event_type", Eq, Texts(f.eventType)), "entity_type", Eq, Texts(f.entityType))
  }

  function AuditItems(tenant: string, f: AuditFilter): seq<Item> {
    With(With(TypedItems(tenant, f), "occurred_at", Ge, Nums(f.since)), "occurred_at", Le, Nums(f.until))
  }

  predicate IsAuditColumn(col: string) {
    || col == "id" || col == "tenant_id" || col == "event_type" || col == "entity_type" || col == "entity_id"
    || col == "actor_id" || col == "actor_type" || col == "ip_address" || col == "user_agent" || col == "session_id"
    || col == "request_id" || col == "before_state" || col == "after_state" || col == "metadata" || col == "success"
    || col == "error_code" || col == "occurred_at"
  }

  lemma AuditItemsKnown(tenant: string, f: AuditFilter)
    ensures forall x <- AuditItems(tenant, f) :: x.Test? && IsAuditColumn(x.col)
  {
  }

  lemma AuditMeaning(r: AuditRow, tenant: string, f: AuditFilter)
    ensures Keeps(AuditItems(tenant, f), AuditCell, r) <==> AuditApplied(r, tenant, f)
  {
    var base := [Test("tenant_id", Eq, Txt(tenant))];
    assert Keeps(base, AuditCell, r) <==> r.tenant == tenant by { assert base[0] in base; }
    var one := With(base, "event_type", Eq, Texts(f.eventType));
    KeepsWith(base, "event_type", Eq, Texts(f.eventType), AuditCell, r);
    KeepsWith(one, "entity_type", Eq, Texts(f.entityType), AuditCell, r);
    var typed := TypedItems(tenant, f);
    KeepsWith(typed, "occurred_at", Ge, Nums(f.since), AuditCell, r);
    KeepsWith(With(typed, "occurred_at", Ge, Nums(f.since)), "occurred_at", Le, Nums(f.until), AuditCell, r);
  }

  method ListAuditEvents(table: seq<AuditRow>, order: Order<AuditRow>, tenant: string, f: AuditFilter)
      returns (q: string, args: seq<Value>, rows: Option<seq<AuditRow>>)
    ensures Marks(Split(q, ' ')) == UpTo(|args|)
    ensures rows == Some(AuditRows(table, order, tenant, f))
  {
    ghost var items := [Test("tenant_id", Eq, Txt(tenant))];
    q, args := "WHERE tenant_id=$1", [Txt(tenant)];
    var i := 2;
    TenantStart(tenant);
    hide Grown, Read, Marks, Keeps, Page, Filter, And, IsColumn, Lower, IsAuditColumn, AuditCell, AuditApplied;
    if f.eventType.Some? {
      Grow(q, args, i, items, "event_type", Eq, Txt(f.eventType.value));
      q, args, i := q + And("event_type", Eq, i), args + [Txt(f.eventType.value)], i + 1;
      items := items + [Test("event_type", Eq, Txt(f.eventType.value))];
    }
    if f.entityType.Some? {
      Grow(q, args, i, items, "entity_type", Eq, Txt(f.entityType.value));
      q, args, i := q + And("entity_type", Eq, i), args + [Txt(f.entityType.value)], i + 1;
      items := items + [Test("entity_type", Eq, Txt(f.entityType.value))];
    }
    assert items == TypedItems(tenant, f);
    if f.since.Some? {
      Grow(q, args, i, items, "occurred_at", Ge, Num(f.since.value));
      q, args, i := q + And("occurred_at", Ge, i), args + [Num(f.since.value)], i + 1;
      items := items + [Test("occurred_at", Ge, Num(f.since.value))];
    }
    if f.until.Some? {
      Grow(q, args, i, items, "occurred_at", Le, Num(f.until.value));
      q, args, i := q + And("occurred_at", Le, i), args + [Num(f.until.value)], i + 1;
      items := items + [Test("occurred_at", Le, Num(f.until.value))];
    }
    assert items == AuditItems(tenant, f);
    q, args := Finish(q, args, i, "occurred_at", true, f.limit, f.offset, items);
    rows := Execute(q, args, IsAuditColumn, AuditCell, order, table);
    AuditItemsKnown(tenant, f);
    ColumnNames();
    forall r <- table ensures Keeps(items, AuditCell, r) == AuditApplied(r, tenant, f) { AuditMeaning(r, tenant, f); }
    FilterSame(table, r => Keeps(items, AuditCell, r), r => AuditApplied(r, tenant, f));
    PageCounts(order("occurred_at", true, AppliedEvents(table, tenant, f)), f.limit, f.offset);
  }

  lemma AuditListSorted(table: seq<AuditRow>, order: Order<AuditRow>, tenant: string, f: AuditFilter,
                        le: (Value, Value) -> bool)
    requires Sorts(order, AppliedEvents(table, tenant, f), "occurred_at", true, AuditCell, le)
    ensures Sorted(AuditRows(table, order, tenant, f), KeyOf(AuditCell, "occurred_at"), Direction(le, true))
    ensures multiset(AuditRows(table, order, tenant, f)) <= multiset(AppliedEvents(table, tenant, f))
    ensures f.limit <= 0 && f.offset <= 0 ==>
      forall r :: r in AuditRows(table, order, tenant, f) <==>
        && r in table && r.tenant == tenant
        && (f.eventType == None || f.eventType == Some(r.eventType))
        && (f.entityType == None || f.entityType == Some(r.entityType))
        && (f.since == None || f.since.value <= r.occurredAt) && (f.until == None || r.occurredAt <= f.until.value)
  {
    FilterDistinct(table, r => AuditApplied(r, tenant, f));
    var rows := AppliedEvents(table, tenant, f);
    PageWhole(rows, order("occurred_at", true, rows), f.limit, f.offset);
    hide Page, Filter, KeyOf, Direction;
    var out, key := order("occurred_at", true, rows), KeyOf(AuditCell, "occurred_at");
    PageSorted(rows, out, f.limit, f.offset, key, Direction(le, true));
  }

  function AuditLister(table: seq<AuditRow>, tenant: string, f: AuditFilter): Lister<AuditRow> {
    (order: Order<AuditRow>, limit: int, offset: int) =>
      AuditRows(table, order, tenant, f.(limit := limit, offset := offset))
  }

  /** The pages of an audit list tile it, however ties fall, iff no two of its events occurred at the same time. */
  lemma AuditPagesExact(table: seq<AuditRow>, tenant: string, f: AuditFilter, le: (Value, Value) -> bool)
    requires TotalOrder(le) && Distinct(table)
    ensures var rows := AppliedEvents(table, tenant, f);
            PagesAlwaysTile(AuditLister(table, tenant, f), rows, "occurred_at", true, AuditCell, le)
            <==> NoTies(rows, KeyOf(AuditCell, "occurred_at"))
  {
    var rows := AppliedEvents(table, tenant, f);
    FilterDistinct(table, r => AuditApplied(r, tenant, f));
    forall limit, offset ensures AppliedEvents(table, tenant, f.(limit := limit, offset := offset)) == rows {
      var g := f.(limit := limit, offset := offset);
      FilterSame(table, r => AuditApplied(r, tenant, g), r => AuditApplied(r, tenant, f));
    }
    assert Lists(AuditLister(table, tenant, f), rows, "occurred_at", true);
    hide TotalOrder, Lists, PagesAlwaysTile, NoTies, Filter;
    PagesTileExact(AuditLister(table, tenant, f), rows, "occurred_at", true, AuditCell, le);
  }

  function AppliedEvents(table: seq<AuditRow>, tenant: string, f: AuditFilter): seq<AuditRow> {
    Filter(table, r => AuditApplied(r, tenant, f))
  }

  function AuditRows(table: seq<AuditRow>, order: Order<AuditRow>, tenant: string, f: AuditFilter): seq<AuditRow> {
    Page(order("occurred_at", true, AppliedEvents(table, tenant, f)), f.limit, f.offset)
  }

  function AuditPromised(table: seq<AuditRow>, order: Order<AuditRow>, tenant: string, f: AuditFilter): seq<AuditRow> {
    Page(order("occurred_at", true, Filter(table, r => AuditWanted(r, tenant, f))), f.limit, f.offset)
  }

  lemma {:induction false} FilterAll<R>(rows: seq<R>, p: R -> bool, keep: bool)
    requires forall r <- rows :: p(r) == keep
    ensures Filter(rows, p) == if keep then rows else []
    decreases |rows|
  {
    if rows != [] {
      FilterAll(rows[..|rows| - 1], p, keep);
      assert rows == rows[..|rows| - 1] + [rows[|rows| - 1]];
    }
  }

  /** An audit event the query returns although the filter excludes it. */
  function Stray(tenant: string, f: AuditFilter): AuditRow {
    var eventType := if f.eventType.Some? then f.eventType.value else "";
    var entityType := if f.entityType.Some? then f.entityType.value else "";
    var at := if f.since.Some? then f.since.value else if f.until.Some? then f.until.value else 0;
    AuditRow("", tenant, eventType, entityType, None, f.success == Some(false), at)
  }

  predicate EmptySpan(f: AuditFilter) { f.since.Some? && f.until.Some? && f.since.value > f.until.value }

  lemma StrayReturned(order: Order<AuditRow>, tenant: string, f: AuditFilter)
    requires forall rows :: |order("occurred_at", true, rows)| == |rows|
    requires !(f.actorId.None? && f.success.None?) && !EmptySpan(f)
    ensures exists table :: AuditRows(table, order, tenant, f) != AuditPromised(table, order, tenant, f)
  {
    StrayMeaning(tenant, f);
    hide AuditApplied, AuditWanted, Stray;
    var e := Stray(tenant, f);
    var table := seq((if f.offset > 0 then f.offset else 0) + 1, _ => e);
    assert forall r <- table :: r == e;
    FilterAll(table, r => AuditApplied(r, tenant, f), true);
    FilterAll(table, r => AuditWanted(r, tenant, f), false);
    hide Filter;
    NonEmptyPage(order("occurred_at", true, table), f.limit, f.offset);
    assert |AuditPromised(table, order, tenant, f)| == 0;
    assert |AuditRows(table, order, tenant, f)| > 0;
  }

  lemma StrayMeaning(tenant: string, f: AuditFilter)
    requires !(f.actorId.None? && f.success.None?) && !EmptySpan(f)
    ensures AuditApplied(Stray(tenant, f), tenant, f) && !AuditWanted(Stray(tenant, f), tenant, f)
  {
  }

  lemma NonEmptyPage<R>(rows: seq<R>, limit: int, offset: int)
    requires |rows| > 0 && offset < |rows|
    ensures |Page(rows, limit, offset)| > 0
  {
  }

  /** The list is the one the filter asks for, on every table, iff no ignored field is set or the span is empty. */
  lemma AuditFilterExact(order: Order<AuditRow>, tenant: string, f: AuditFilter)
    requires forall rows :: |order("occurred_at", true, rows)| == |rows|
    ensures (forall table :: AuditRows(table, order, tenant, f) == AuditPromised(table, order, tenant, f))
            <==> (f.actorId.None? && f.success.None?) || EmptySpan(f)
  {
    if (f.actorId.None? && f.success.None?) || EmptySpan(f) {
      forall table ensures AuditRows(table, order, tenant, f) == AuditPromised(table, order, tenant, f) {
        FilterSame(table, r => AuditApplied(r, tenant, f), r => AuditWanted(r, tenant, f));
      }
    } else {
      StrayReturned(order, tenant, f);
    }
  }
}
