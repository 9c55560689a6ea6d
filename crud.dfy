/**
 * The connection handle (`DBPoolInstance`): its current-table state, the
 * statement each CRUD operation builds before handing it to the driver, and
 * the projections `exists` and `count` apply to the driver's answer.
 */
module Crud {
  import opened Wrappers
  import opened Values
  import opened Text
  import opened Sql

  /** `convertObjectToWhereClause(obj, params)`: pushes the values of `obj`
      onto the caller's parameter list, one per property in property order,
      and returns the WHERE text with one placeholder per pushed value. The
      caller's list comes back extended: its earlier entries are kept, in
      front. */
  method ConvertObjectToWhereClause(obj: seq<Entry>, params: seq<Value>) returns (clause: string, pushed: seq<Value>)
    ensures clause == WhereText(obj)
    ensures pushed == params + WhereValues(obj)
    ensures |pushed| == |params| + |obj| && pushed[..|params|] == params
    ensures forall i | 0 <= i < |obj| :: pushed[|params| + i] == obj[i].1
  {
    var whereClause: seq<string> := [];
    pushed := params;
    var i := 0;
    while i < |obj|
      invariant 0 <= i <= |obj|
      invariant |whereClause| == i
      invariant forall j | 0 <= j < i :: whereClause[j] == EqualsFragment(obj[j].0)
      invariant |pushed| == |params| + i && pushed[..|params|] == params
      invariant forall j | 0 <= j < i :: pushed[|params| + j] == obj[j].1
    {
      var (key, value) := obj[i];
      whereClause := whereClause + ["`" + key + "` = ?"];
      pushed := pushed + [value];
      i := i + 1;
    }
    assert whereClause == Fragments(obj);
    assert pushed == params + WhereValues(obj);
    clause := " WHERE " + Join(whereClause, " AND ");
  }

  /** The loop of `get` that renders `options.order`: one sort key per
      field, in field order, descending exactly when the flag is 1. */
  method OrderList(fields: seq<Entry>) returns (orderList: seq<string>)
    ensures |orderList| == |fields|
    ensures forall j | 0 <= j < |fields| ::
              orderList[j] == fields[j].0 + (if fields[j].1 == Num(1) then " DESC" else " ASC")
    ensures orderList == OrderItems(fields)
  {
    orderList := [];
    var i := 0;
    while i < |fields|
      invariant 0 <= i <= |fields|
      invariant |orderList| == i
      invariant forall j | 0 <= j < i :: orderList[j] == OrderItem(fields[j].0, fields[j].1)
    {
      var (field, flag) := fields[i];
      orderList := orderList + [field + " " + (if flag == Num(1) then "DESC" else "ASC")];
      i := i + 1;
    }
    assert orderList == OrderItems(fields);
  }

  /** The driver's connection the handle wraps; the model never uses it. */
  datatype Connection = Connection(threadId: nat)

  /** A handle on one pooled connection with its current table. */
  class PoolInstance {
    const conn: Connection
    var table: string

    /** A fresh handle has no table selected. */
    constructor (conn: Connection)
      ensures this.conn == conn && table == ""
    {
      this.conn := conn;
      table := "";
    }

    /** `table(name)`: selects the table every later statement names and
        returns the handle itself, so calls can be chained. The connection
        is a constant of the handle and stays as it is. */
    method Table(name: string) returns (self: PoolInstance)
      modifies this
      ensures self == this && table == name
    {
      table := name;
      self := this;
    }

    /** The statement and parameters of `exists(where)`. */
    method ExistsQuery(where: Value) returns (sql: string, params: seq<Value>)
      ensures sql == ExistsSql(table, where) && params == WhereParams(where)
      ensures !WhereGuard(where) ==> sql == "SELECT id FROM `" + table + "`" && params == []
    {
      sql := "SELECT id FROM `" + table + "`";
      params := [];
      if WhereGuard(where) {
        var clause;
        clause, params := ConvertObjectToWhereClause(where.fields, params);
        sql := sql + clause;
      }
    }

    /** The statement and parameters of `count(where)`. */
    method CountQuery(where: Value) returns (sql: string, params: seq<Value>)
      ensures sql == CountSql(table, where) && params == WhereParams(where)
      ensures !WhereGuard(where) ==> sql == "SELECT COUNT(id) AS rCount FROM `" + table + "`" && params == []
    {
      sql := "SELECT COUNT(id) AS rCount FROM `" + table + "`";
      params := [];
      if WhereGuard(where) {
        var clause;
        clause, params := ConvertObjectToWhereClause(where.fields, params);
        sql := sql + clause;
      }
    }

    /** The statement and parameters of `get(where, options)`: the filter,
        then the sort keys, then the page window, each only when asked for.
        Sorting and paging add no parameters. */
    method GetQuery(where: Value, options: Options) returns (sql: string, params: seq<Value>)
      ensures sql == GetSql(table, where, options) && params == WhereParams(where)
    {
      sql := "SELECT * FROM `" + table + "`";
      params := [];
      if WhereGuard(where) {
        var clause;
        clause, params := ConvertObjectToWhereClause(where.fields, params);
        sql := sql + clause;
      }
      ghost var filtered := sql;
      assert filtered == "SELECT * FROM `" + table + "`" + WhereSuffix(where);
      if options.order.Some? {
        var orderList := OrderList(options.order.value);
        var orderQuery := "ORDER BY " + Join(orderList, ", ");
        assert orderQuery == OrderSuffix(options.order);
        sql := sql + orderQuery;
      }
      ghost var ordered := sql;
      assert ordered == filtered + OrderSuffix(options.order);
      if options.page != 0 && options.pagePer != 0 {
        var page := if options.page != 0 then options.page else 1;
        var pagePer := options.pagePer;
        var window := " LIMIT " + Decimal((page - 1) * pagePer) + ", " + Decimal(pagePer);
        assert window == LimitSuffix(options.page, options.pagePer);
        sql := sql + window;
      }
      assert sql == ordered + LimitSuffix(options.page, options.pagePer);
    }

    /** The statement and parameters of `create(data)`: the whole row goes
        in as the single parameter, and there is never a WHERE clause. */
    method CreateQuery(data: Value) returns (sql: string, params: seq<Value>)
      ensures sql == CreateSql(table) && sql == "INSERT INTO `" + table + "` SET ?"
      ensures params == [data]
    {
      sql := "INSERT INTO `" + table + "` SET ?";
      params := [data];
    }

    /** The statement and parameters of `update(where, data)`: `data` is the
        first parameter and the where values follow in property order;
        without a filter every row is updated. */
    method UpdateQuery(where: Value, data: Value) returns (sql: string, params: seq<Value>)
      ensures sql == UpdateSql(table, where) && params == UpdateParams(where, data)
      ensures params[0] == data && params[1..] == WhereParams(where)
      ensures !WhereGuard(where) ==> sql == "UPDATE `" + table + "` SET ?" && params == [data]
    {
      sql := "UPDATE `" + table + "` SET ?";
      params := [data];
      if WhereGuard(where) {
        var clause;
        clause, params := ConvertObjectToWhereClause(where.fields, params);
        sql := sql + clause;
      }
    }

    /** The statement and parameters of `delete(where)`; without a filter
        every row is deleted. */
    method DeleteQuery(where: Value) returns (sql: string, params: seq<Value>)
      ensures sql == DeleteSql(table, where) && params == WhereParams(where)
      ensures !WhereGuard(where) ==> sql == "DELETE FROM `" + table + "`" && params == []
    {
      sql := "DELETE FROM `" + table + "`";
      params := [];
      if WhereGuard(where) {
        var clause;
        clause, params := ConvertObjectToWhereClause(where.fields, params);
        sql := sql + clause;
      }
    }
  }

  /** `pool.table(name).get(where, options)`: after the selection the
      statement names exactly the table selected. */
  method TableThenGet(h: PoolInstance, name: string, where: Value, options: Options)
      returns (sql: string, params: seq<Value>)
    modifies h
    ensures h.table == name
    ensures sql == GetSql(name, where, options) && params == WhereParams(where)
  {
    var self := h.Table(name);
    sql, params := self.GetQuery(where, options);
  }

  /** What `exists` resolves with: whether the query returned any row. */
  function ExistsResult(rows: seq<Row>): (found: bool)
    ensures found <==> rows != []
  {
    |rows| > 0
  }

  /** What `count` resolves with: the `rCount` column of the first row, or
      `undefined` if it has none; `None` when there is no row, where
      `records[0].rCount` throws instead of resolving. */
  function CountResult(records: seq<Row>): (r: Option<Value>)
    ensures r.None? <==> records == []
    ensures r.Some? ==> r.value == Lookup(records[0], "rCount")
  {
    if |records| == 0 then None else Some(Lookup(records[0], "rCount"))
  }
}
