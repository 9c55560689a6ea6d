/**
 * The SQL text and parameter lists the connection handle builds, as
 * functions of the current table and the call's arguments, together with
 * what is proved about them.
 */
module Sql {
  import opened Wrappers
  import opened Values
  import opened Text

  /** The recognised keys of the `options` argument of `get`. `order` is
      `None` when `options.order` is absent or falsy, and otherwise lists the
      properties of the order object in `for...in` order. `page` and
      `pagePer` are 0 when absent or falsy. */
  datatype Options = Options(order: Option<seq<Entry>>, page: int, pagePer: int)

  /** `options || {}` with nothing given. */
  const NO_OPTIONS := Options(None, 0, 0)

  // ---------------------------------------------------------------------
  // WHERE clause

  /** The equality test on one column, with a placeholder for its value. */
  function EqualsFragment(key: string): string
  {
    "`" + key + "` = ?"
  }

  /** One equality fragment per property, in property order. */
  function Fragments(obj: seq<Entry>): (r: seq<string>)
    ensures |r| == |obj|
    ensures forall i | 0 <= i < |obj| :: r[i] == EqualsFragment(obj[i].0)
  {
    if obj == [] then [] else [EqualsFragment(obj[0].0)] + Fragments(obj[1..])
  }

  /** The property names, in property order. */
  function Keys(obj: seq<Entry>): (r: seq<string>)
    ensures |r| == |obj|
    ensures forall i | 0 <= i < |obj| :: r[i] == obj[i].0
  {
    if obj == [] then [] else [obj[0].0] + Keys(obj[1..])
  }

  /** The values bound to the placeholders, in property order. */
  function WhereValues(obj: seq<Entry>): (r: seq<Value>)
    ensures |r| == |obj|
    ensures forall i | 0 <= i < |obj| :: r[i] == obj[i].1
  {
    if obj == [] then [] else [obj[0].1] + WhereValues(obj[1..])
  }

  /** The text `convertObjectToWhereClause` returns for `obj`. */
  function WhereText(obj: seq<Entry>): string
  {
    " WHERE " + Join(Fragments(obj), " AND ")
  }

  /** What a builder appends for its `where` argument. */
  function WhereSuffix(where: Value): string
  {
    if WhereGuard(where) then WhereText(where.fields) else ""
  }

  /** The parameters a builder with a fresh, empty list passes for `where`. */
  function WhereParams(where: Value): seq<Value>
  {
    if WhereGuard(where) then WhereValues(where.fields) else []
  }

  // ---------------------------------------------------------------------
  // ORDER BY and LIMIT

  /** One sort key: descending exactly when the flag is the number 1
      (strict equality), ascending for every other flag. */
  function OrderItem(field: string, flag: Value): string
  {
    field + " " + (if flag == Num(1) then "DESC" else "ASC")
  }

  function OrderItems(order: seq<Entry>): (r: seq<string>)
    ensures |r| == |order|
    ensures forall i | 0 <= i < |order| :: r[i] == OrderItem(order[i].0, order[i].1)
  {
    if order == [] then [] else [OrderItem(order[0].0, order[0].1)] + OrderItems(order[1..])
  }

  /** What `get` appends for `options.order`, with no space in front. */
  function OrderSuffix(order: Option<seq<Entry>>): string
  {
    match order
    case None => ""
    case Some(fields) => "ORDER BY " + Join(OrderItems(fields), ", ")
  }

  /** What `get` appends for `options.page` and `options.pagePer`: a window
      only when both are truthy. The offset is the exact integer
      `(page - 1) * pagePer`; JavaScript computes it in double precision,
      which agrees only while every value stays within 2^53 in magnitude
      and is rendered in plain decimal only below 10^21. */
  function LimitSuffix(page: int, pagePer: int): (r: string)
    ensures r == "" <==> page == 0 || pagePer == 0
  {
    if page != 0 && pagePer != 0 then " LIMIT " + Decimal((page - 1) * pagePer) + ", " + Decimal(pagePer)
    else ""
  }

  // ---------------------------------------------------------------------
  // The statements of the handle's builders

  function ExistsSql(table: string, where: Value): string
  {
    "SELECT id FROM `" + table + "`" + WhereSuffix(where)
  }

  function CountSql(table: string, where: Value): string
  {
    "SELECT COUNT(id) AS rCount FROM `" + table + "`" + WhereSuffix(where)
  }

  function GetSql(table: string, where: Value, options: Options): string
  {
    "SELECT * FROM `" + table + "`" + WhereSuffix(where)
      + OrderSuffix(options.order) + LimitSuffix(options.page, options.pagePer)
  }

  function CreateSql(table: string): string
  {
    "INSERT INTO `" + table + "` SET ?"
  }

  function UpdateSql(table: string, where: Value): string
  {
    "UPDATE `" + table + "` SET ?" + WhereSuffix(where)
  }

  /** `update` seeds its list with `data`; the where values follow. */
  function UpdateParams(where: Value, data: Value): seq<Value>
  {
    [data] + WhereParams(where)
  }

  function DeleteSql(table: string, where: Value): string
  {
    "DELETE FROM `" + table + "`" + WhereSuffix(where)
  }

  // ---------------------------------------------------------------------
  // ORDER BY with its separating space

  /** The ORDER BY text with the separating space in front. */
  function SpacedOrderSuffix(order: Option<seq<Entry>>): string
  {
    if order.Some? then " " + OrderSuffix(order) else ""
  }

  /** `get`'s statement with a space in front of `ORDER BY`, as the WHERE and
      LIMIT parts already carry one. */
  function GetSqlSpaced(table: string, where: Value, options: Options): string
  {
    "SELECT * FROM `" + table + "`" + WhereSuffix(where)
      + SpacedOrderSuffix(options.order) + LimitSuffix(options.page, options.pagePer)
  }
}
