/**
 * `get` appends its ORDER BY list with no space in front of it, so the
 * keyword is fused to the token before it: the table's closing backtick, or
 * the last `?` placeholder of a WHERE clause. Once the driver has put a
 * numeric value in place of that `?`, the statement reads
 * `... = 5ORDER BY ...`. The lemmas pin down the text as written and the
 * corrected text that keeps the keyword apart.
 */
module Findings {
  import opened Wrappers
  import opened Values
  import opened Text
  import opened Sql

  /** Where the ORDER BY text of `get`'s statement begins. */
  function OrderStart(table: string, where: Value): nat
  {
    |"SELECT * FROM `" + table + "`" + WhereSuffix(where)|
  }

  /** A WHERE clause ends with the placeholder of its last column. */
  lemma WhereTextEndsWithPlaceholder(obj: seq<Entry>)
    requires |obj| > 0
    ensures WhereText(obj)[|WhereText(obj)| - 1] == '?'
  {
    var parts := Fragments(obj);
    JoinEndsWithLast(parts, " AND ");
    var joined := Join(parts, " AND ");
    var last := parts[|parts| - 1];
    assert last[|last| - 1] == '?';
    assert joined[|joined| - 1] == joined[|joined| - |last|..][|last| - 1];
  }

  lemma ConcatAt(head: string, order: string, limit: string, written: string)
    requires |head| > 0 && |order| >= 9 && order[..9] == "ORDER BY "
    requires written == head + order + limit
    ensures |head| + 9 <= |written| && written[|head|..|head| + 9] == "ORDER BY "
    ensures written[|head| - 1] == head[|head| - 1]
  {
    assert written[|head|..|head| + 9] == order[..9];
  }

  /** As written: the character right before `ORDER BY` is the last `?` of
      the WHERE clause when there is one, the table's closing backtick
      otherwise, and never a space. */
  lemma OrderGluedToPrevious(table: string, where: Value, options: Options)
    requires options.order.Some?
    ensures var sql := GetSql(table, where, options);
            var k := OrderStart(table, where);
            0 < k && k + 9 <= |sql| && sql[k..k + 9] == "ORDER BY "
            && sql[k - 1] == (if WhereGuard(where) then '?' else '`')
  {
    var select := "SELECT * FROM `" + table + "`";
    var suffix := WhereSuffix(where);
    var head := select + suffix;
    var order := OrderSuffix(options.order);
    assert order[..9] == "ORDER BY ";
    ConcatAt(head, order, LimitSuffix(options.page, options.pagePer), GetSql(table, where, options));
    if WhereGuard(where) {
      WhereTextEndsWithPlaceholder(where.fields);
      assert head[|head| - 1] == suffix[|suffix| - 1];
    } else {
      assert head == select;
    }
  }

  lemma IdFilter()
    ensures WhereSuffix(Obj([("id", Num(5))])) == " WHERE `id` = ?"
  {
    var fields := [("id", Num(5))];
    assert fields[1..] == [];
    assert EqualsFragment("id") == "`id` = ?";
    assert Fragments(fields) == ["`id` = ?"];
    assert Join(["`id` = ?"], " AND ") == "`id` = ?";
  }

  lemma IdDescending()
    ensures OrderSuffix(Some([("id", Num(1))])) == "ORDER BY id DESC"
  {
    var order := [("id", Num(1))];
    assert order[1..] == [];
    assert OrderItems(order) == [OrderItem("id", Num(1))];
    assert OrderItem("id", Num(1)) == "id DESC";
    assert Join(["id DESC"], ", ") == "id DESC";
  }

  /** The statement `get({id: 5}, {order: {id: 1}})` builds on table `Users`. */
  lemma GluedOrderExample()
    ensures GetSql("Users", Obj([("id", Num(5))]), Options(Some([("id", Num(1))]), 0, 0))
            == "SELECT * FROM `Users`" + " WHERE `id` = ?" + "ORDER BY id DESC"
  {
    IdFilter();
    IdDescending();
    assert LimitSuffix(0, 0) == "";
  }

  lemma SpaceBefore(head: string, order: string, limit: string, written: string, spaced: string)
    requires |order| >= 9 && order[..9] == "ORDER BY "
    requires written == head + order + limit && spaced == head + (" " + order) + limit
    ensures |head| + 10 <= |spaced| && spaced[|head|..|head| + 10] == " ORDER BY "
    ensures |head| <= |written| && spaced == written[..|head|] + " " + written[|head|..]
  {
    assert written[..|head|] == head && written[|head|..] == order + limit;
    var spacedOrder := " " + order;
    assert spacedOrder[..10] == [' '] + order[..9];
    assert spaced == head + (spacedOrder + limit);
    assert spaced[|head|..|head| + 10] == spacedOrder[..10];
  }

  /** Corrected: `ORDER BY` is preceded by a space, and the statement differs
      from the one written only by that space. */
  lemma SpacedOrderStandsApart(table: string, where: Value, options: Options)
    requires options.order.Some?
    ensures var sql := GetSqlSpaced(table, where, options);
            var written := GetSql(table, where, options);
            var k := OrderStart(table, where);
            k + 10 <= |sql| && sql[k..k + 10] == " ORDER BY "
            && k <= |written| && sql == written[..k] + " " + written[k..]
  {
    var order := OrderSuffix(options.order);
    assert order[..9] == "ORDER BY ";
    SpaceBefore("SELECT * FROM `" + table + "`" + WhereSuffix(where), order,
      LimitSuffix(options.page, options.pagePer), GetSql(table, where, options), GetSqlSpaced(table, where, options));
  }

  /** Without an order the corrected statement is the statement written. */
  lemma SpacedWithoutOrder(table: string, where: Value, options: Options)
    requires options.order.None?
    ensures GetSqlSpaced(table, where, options) == GetSql(table, where, options)
  {
    assert SpacedOrderSuffix(options.order) == OrderSuffix(options.order) == "";
  }
}
