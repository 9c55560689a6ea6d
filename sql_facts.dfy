/**
 * What the generated statements mean. The readers below recover, from the
 * text alone, the columns of a WHERE clause, the sort keys of an ORDER BY
 * list and the window of a LIMIT clause; the round-trip lemmas show the
 * builders' text determines exactly what was asked for, in order. The
 * placeholder lemmas show every statement carries one `?` per parameter.
 */
module SqlFacts {
  import opened Wrappers
  import opened Values
  import opened Text
  import opened Sql

  // ---------------------------------------------------------------------
  // Reading a WHERE clause back

  /** The columns of `" WHERE `k1` = ? AND `k2` = ? ..."`, in order. */
  function ParseWhere(s: string): Option<seq<string>>
  {
    if |s| >= 7 && s[..7] == " WHERE " then ParseFragments(s[7..]) else None
  }

  /** The name inside a leading pair of backticks and the text after it. */
  function ReadQuoted(s: string): (r: Option<(string, string)>)
    ensures r.Some? ==> |r.value.1| < |s|
  {
    if |s| == 0 || s[0] != '`' then None
    else match IndexOf(s[1..], '`')
      case None => None
      case Some(j) => Some((s[1..1 + j], s[2 + j..]))
  }

  function ParseFragments(s: string): Option<seq<string>>
    decreases |s|
  {
    match ReadQuoted(s)
    case None => None
    case Some((key, rest)) =>
      if |rest| < 4 || rest[..4] != " = ?" then None
      else
        var after := rest[4..];
        if after == "" then Some([key])
        else if |after| >= 5 && after[..5] == " AND " then
          match ParseFragments(after[5..])
          case None => None
          case Some(keys) => Some([key] + keys)
        else None
  }

  lemma ReadQuotedName(key: string, rest: string)
    requires '`' !in key
    ensures ReadQuoted("`" + key + "`" + rest) == Some((key, rest))
  {
    var s := "`" + key + "`" + rest;
    assert s[1..] == key + ['`'] + rest;
    IndexOfAfter(key, '`', rest);
    assert s[1..1 + |key|] == key;
    assert s[2 + |key|..] == rest;
  }

  lemma LastFragment(key: string)
    requires '`' !in key
    ensures ParseFragments(EqualsFragment(key)) == Some([key])
  {
    var s := EqualsFragment(key);
    assert ReadQuoted(s) == Some((key, " = ?")) by {
      assert s == "`" + key + "`" + " = ?";
      ReadQuotedName(key, " = ?");
    }
  }

  lemma NextFragment(key: string, more: string)
    requires '`' !in key
    ensures ParseFragments(EqualsFragment(key) + " AND " + more) ==
      match ParseFragments(more)
      case None => None
      case Some(keys) => Some([key] + keys)
  {
    var s := EqualsFragment(key) + " AND " + more;
    var rest := " = ? AND " + more;
    assert ReadQuoted(s) == Some((key, rest)) by {
      assert s == "`" + key + "`" + rest;
      ReadQuotedName(key, rest);
    }
    var after := rest[4..];
    assert rest[..4] == " = ?" && after == " AND " + more;
    assert after != "" && after[..5] == " AND " && after[5..] == more;
  }

  predicate NoBackticks(obj: seq<Entry>)
  {
    forall i | 0 <= i < |obj| :: '`' !in obj[i].0
  }

  lemma {:induction false} FragmentsRoundTrip(obj: seq<Entry>)
    requires |obj| > 0 && NoBackticks(obj)
    ensures ParseFragments(Join(Fragments(obj), " AND ")) == Some(Keys(obj))
  {
    var key := obj[0].0;
    if |obj| == 1 {
      LastFragment(key);
      assert Keys(obj) == [key];
    } else {
      assert Fragments(obj)[1..] == Fragments(obj[1..]);
      FragmentsRoundTrip(obj[1..]);
      NextFragment(key, Join(Fragments(obj[1..]), " AND "));
      assert Keys(obj) == [key] + Keys(obj[1..]);
    }
  }

  /** A non-empty WHERE clause is `" WHERE "` and one `` `key` = ? `` per
      property joined by `" AND "`: reading it back yields exactly the
      property names, in property order (as long as no name contains a
      backtick, since names are not escaped). */
  lemma WhereClauseRoundTrip(obj: seq<Entry>)
    requires |obj| > 0 && NoBackticks(obj)
    ensures ParseWhere(WhereText(obj)) == Some(Keys(obj))
  {
    FragmentsRoundTrip(obj);
    assert WhereText(obj)[7..] == Join(Fragments(obj), " AND ");
  }

  // ---------------------------------------------------------------------
  // Reading an ORDER BY list back

  /** Each sort key with whether it is descending. */
  function Directions(order: seq<Entry>): (r: seq<(string, bool)>)
    ensures |r| == |order|
    ensures forall i | 0 <= i < |order| :: r[i] == (order[i].0, order[i].1 == Num(1))
  {
    if order == [] then [] else [(order[0].0, order[0].1 == Num(1))] + Directions(order[1..])
  }

  /** The sort keys of `"ORDER BY f1 DESC, f2 ASC, ..."`, in order. */
  function ParseOrder(s: string): Option<seq<(string, bool)>>
  {
    if |s| >= 9 && s[..9] == "ORDER BY " then
      if |s| == 9 then Some([]) else ParseOrderItems(s[9..])
    else None
  }

  function ParseOrderItems(s: string): Option<seq<(string, bool)>>
    decreases |s|
  {
    match IndexOf(s, ' ')
    case None => None
    case Some(j) => ParseDirection(s[..j], s[j + 1..])
  }

  /** The direction word after the sort field `field`, then the next keys. */
  function ParseDirection(field: string, rest: string): Option<seq<(string, bool)>>
    decreases |rest|
  {
    var descending := |rest| >= 4 && rest[..4] == "DESC";
    if !descending && !(|rest| >= 3 && rest[..3] == "ASC") then None
    else ParseOrderTail(field, descending, if descending then rest[4..] else rest[3..])
  }

  /** The text after one complete sort key: the end, or `", "` and more. */
  function ParseOrderTail(field: string, descending: bool, tail: string): Option<seq<(string, bool)>>
    decreases |tail|
  {
    if tail == "" then Some([(field, descending)])
    else if |tail| >= 2 && tail[..2] == ", " then
      match ParseOrderItems(tail[2..])
      case None => None
      case Some(items) => Some([(field, descending)] + items)
    else None
  }

  predicate NoSpaces(order: seq<Entry>)
  {
    forall i | 0 <= i < |order| :: ' ' !in order[i].0
  }

  lemma ParseOrderField(field: string, rest: string)
    requires ' ' !in field
    ensures ParseOrderItems(field + " " + rest) == ParseDirection(field, rest)
  {
    var s := field + " " + rest;
    assert s == field + [' '] + rest;
    IndexOfAfter(field, ' ', rest);
    assert s[..|field|] == field && s[|field| + 1..] == rest;
  }

  lemma ReadDescending(field: string, tail: string)
    ensures ParseDirection(field, "DESC" + tail) == ParseOrderTail(field, true, tail)
  {
    var rest := "DESC" + tail;
    assert rest[..4] == "DESC" && rest[4..] == tail;
  }

  lemma ReadAscending(field: string, tail: string)
    ensures ParseDirection(field, "ASC" + tail) == ParseOrderTail(field, false, tail)
  {
    var rest := "ASC" + tail;
    assert rest[0] == 'A';
    assert rest[..3] == "ASC" && rest[3..] == tail;
  }

  lemma ParseOrderStep(field: string, descending: bool, tail: string)
    requires ' ' !in field
    ensures ParseOrderItems(field + " " + (if descending then "DESC" else "ASC") + tail) ==
            ParseOrderTail(field, descending, tail)
  {
    var direction := if descending then "DESC" else "ASC";
    assert field + " " + direction + tail == field + " " + (direction + tail);
    ParseOrderField(field, direction + tail);
    if descending {
      ReadDescending(field, tail);
    } else {
      ReadAscending(field, tail);
    }
  }

  lemma ParseOrderLast(field: string, flag: Value)
    requires ' ' !in field
    ensures ParseOrderItems(OrderItem(field, flag)) == Some([(field, flag == Num(1))])
  {
    var descending := flag == Num(1);
    ParseOrderStep(field, descending, "");
    assert OrderItem(field, flag) == field + " " + (if descending then "DESC" else "ASC") + "";
  }

  lemma ParseOrderNext(field: string, flag: Value, more: string)
    requires ' ' !in field
    ensures ParseOrderItems(OrderItem(field, flag) + ", " + more) ==
      match ParseOrderItems(more)
      case None => None
      case Some(items) => Some([(field, flag == Num(1))] + items)
  {
    var descending := flag == Num(1);
    var tail := ", " + more;
    ParseOrderStep(field, descending, tail);
    assert OrderItem(field, flag) + ", " + more == field + " " + (if descending then "DESC" else "ASC") + tail;
    assert tail != "" && tail[..2] == ", " && tail[2..] == more;
  }

  lemma {:induction false} OrderItemsRoundTrip(order: seq<Entry>)
    requires |order| > 0 && NoSpaces(order)
    ensures ParseOrderItems(Join(OrderItems(order), ", ")) == Some(Directions(order))
  {
    if |order| == 1 {
      ParseOrderLast(order[0].0, order[0].1);
      assert Join(OrderItems(order), ", ") == OrderItem(order[0].0, order[0].1);
      assert Directions(order) == [(order[0].0, order[0].1 == Num(1))];
    } else {
      var more := Join(OrderItems(order[1..]), ", ");
      assert OrderItems(order)[1..] == OrderItems(order[1..]);
      OrderItemsRoundTrip(order[1..]);
      ParseOrderNext(order[0].0, order[0].1, more);
      assert Directions(order) == [(order[0].0, order[0].1 == Num(1))] + Directions(order[1..]);
    }
  }

  /** When `options.order` is given, `get` appends `"ORDER BY "` and one sort
      key per field in field order, descending exactly when its flag is the
      number 1; reading the text back recovers exactly those keys (for field
      names without spaces, since names are not quoted). An empty order
      object still appends `"ORDER BY "`. */
  lemma OrderRoundTrip(order: seq<Entry>)
    requires NoSpaces(order)
    ensures ParseOrder(OrderSuffix(Some(order))) == Some(Directions(order))
  {
    if |order| > 0 {
      OrderItemsRoundTrip(order);
      var s := OrderSuffix(Some(order));
      assert s[9..] == Join(OrderItems(order), ", ");
      JoinNonEmpty(OrderItems(order));
    }
  }

  lemma JoinNonEmpty(items: seq<string>)
    requires |items| > 0 && forall i | 0 <= i < |items| :: |items[i]| > 0
    ensures |Join(items, ", ")| > 0
  {
  }

  // ---------------------------------------------------------------------
  // Reading a LIMIT window back

  /** The offset and row count of `" LIMIT offset, count"`. */
  function ParseLimit(s: string): Option<(int, int)>
  {
    if |s| >= 7 && s[..7] == " LIMIT " then
      var body := s[7..];
      match IndexOf(body, ',')
      case None => None
      case Some(j) =>
        if |body| < j + 2 || body[j + 1] != ' ' then None
        else match (ParseInt(body[..j]), ParseInt(body[j + 2..]))
          case (Some(offset), Some(count)) => Some((offset, count))
          case _ => None
    else None
  }

  /** The reader splits a window at its first comma. */
  lemma LimitTextSplit(a: string, b: string)
    requires ',' !in a
    ensures ParseLimit(" LIMIT " + a + ", " + b) ==
      match (ParseInt(a), ParseInt(b))
      case (Some(offset), Some(count)) => Some((offset, count))
      case _ => None
  {
    var s := " LIMIT " + a + ", " + b;
    var body := s[7..];
    assert s[..7] == " LIMIT ";
    assert body == a + [','] + (" " + b);
    IndexOfAfter(a, ',', " " + b);
    assert body[|a| + 1] == ' ';
    assert body[..|a|] == a;
    assert body[|a| + 2..] == b;
  }

  lemma LimitTextRoundTrip(offset: int, count: int)
    ensures ParseLimit(" LIMIT " + Decimal(offset) + ", " + Decimal(count)) == Some((offset, count))
  {
    DecimalRoundTrip(offset);
    DecimalRoundTrip(count);
    LimitTextSplit(Decimal(offset), Decimal(count));
  }

  /** When both `page` and `pagePer` are truthy, `get` appends a window whose
      offset is `(page - 1) * pagePer` and whose row count is `pagePer`. */
  lemma LimitRoundTrip(page: int, pagePer: int)
    requires page != 0 && pagePer != 0
    ensures ParseLimit(LimitSuffix(page, pagePer)) == Some(((page - 1) * pagePer, pagePer))
  {
    var offset := (page - 1) * pagePer;
    LimitTextRoundTrip(offset, pagePer);
  }

  // ---------------------------------------------------------------------
  // Placeholders against parameters

  /** The number of `?` placeholders the driver will fill. */
  function Placeholders(sql: string): nat
  {
    CountChar(sql, '?')
  }

  predicate Unmarked(obj: seq<Entry>)
  {
    forall i | 0 <= i < |obj| :: '?' !in obj[i].0
  }

  lemma {:induction false} FragmentsPlaceholders(obj: seq<Entry>)
    requires |obj| > 0 && Unmarked(obj)
    ensures CountChar(Join(Fragments(obj), " AND "), '?') == |obj|
  {
    var key := obj[0].0;
    CountCharAbsent(key, '?');
    CountCharAppend("`" + key, "` = ?", '?');
    CountCharAppend("`", key, '?');
    assert Fragments(obj)[1..] == Fragments(obj[1..]);
    if |obj| > 1 {
      FragmentsPlaceholders(obj[1..]);
      var rest := Join(Fragments(obj[1..]), " AND ");
      CountCharAppend(EqualsFragment(key) + " AND ", rest, '?');
      CountCharAppend(EqualsFragment(key), " AND ", '?');
    }
  }

  /** The WHERE builder adds exactly as many placeholders as it adds values
      (for property names without `?`, since names are not escaped). */
  lemma WhereClausePlaceholders(obj: seq<Entry>)
    requires Unmarked(obj)
    ensures Placeholders(WhereText(obj)) == |WhereValues(obj)|
  {
    CountCharAppend(" WHERE ", Join(Fragments(obj), " AND "), '?');
    if |obj| > 0 {
      FragmentsPlaceholders(obj);
    }
  }

  lemma WhereSuffixPlaceholders(prefix: string, where: Value)
    requires where.Obj? ==> Unmarked(where.fields)
    ensures Placeholders(prefix + WhereSuffix(where)) == Placeholders(prefix) + |WhereParams(where)|
  {
    CountCharAppend(prefix, WhereSuffix(where), '?');
    if WhereGuard(where) {
      WhereClausePlaceholders(where.fields);
    }
  }

  lemma {:induction false} OrderItemsUnmarked(order: seq<Entry>)
    requires Unmarked(order)
    ensures CountChar(Join(OrderItems(order), ", "), '?') == 0
  {
    if |order| > 0 {
      var item := OrderItems(order)[0];
      assert '?' !in item by {
        assert item == order[0].0 + " " + (if order[0].1 == Num(1) then "DESC" else "ASC");
      }
      CountCharAbsent(item, '?');
      assert OrderItems(order)[1..] == OrderItems(order[1..]);
      if |order| > 1 {
        OrderItemsUnmarked(order[1..]);
        CountCharAppend(item + ", ", Join(OrderItems(order[1..]), ", "), '?');
        CountCharAppend(item, ", ", '?');
      }
    }
  }

  lemma GetPlaceholders(table: string, where: Value, options: Options)
    requires '?' !in table
    requires where.Obj? ==> Unmarked(where.fields)
    requires options.order.Some? ==> Unmarked(options.order.value)
    ensures Placeholders(GetSql(table, where, options)) == |WhereParams(where)|
  {
    var select := "SELECT * FROM `" + table + "`";
    CountCharAbsent(select, '?');
    WhereSuffixPlaceholders(select, where);
    OrderSuffixUnmarked(options.order);
    LimitSuffixUnmarked(options.page, options.pagePer);
    AppendUnmarked(select + WhereSuffix(where), OrderSuffix(options.order), LimitSuffix(options.page, options.pagePer));
  }

  /** The corrected `get` statement keeps one placeholder per parameter:
      the space it adds in front of `ORDER BY` carries none. */
  lemma SpacedGetPlaceholders(table: string, where: Value, options: Options)
    requires '?' !in table
    requires where.Obj? ==> Unmarked(where.fields)
    requires options.order.Some? ==> Unmarked(options.order.value)
    ensures Placeholders(GetSqlSpaced(table, where, options)) == |WhereParams(where)|
  {
    var select := "SELECT * FROM `" + table + "`";
    CountCharAbsent(select, '?');
    WhereSuffixPlaceholders(select, where);
    OrderSuffixUnmarked(options.order);
    if options.order.Some? {
      CountCharAppend(" ", OrderSuffix(options.order), '?');
    }
    LimitSuffixUnmarked(options.page, options.pagePer);
    AppendUnmarked(select + WhereSuffix(where), SpacedOrderSuffix(options.order), LimitSuffix(options.page, options.pagePer));
  }

  /** Text free of `?` adds no placeholder. */
  lemma AppendUnmarked(sql: string, order: string, limit: string)
    requires Placeholders(order) == 0 && Placeholders(limit) == 0
    ensures Placeholders(sql + order + limit) == Placeholders(sql)
  {
    CountCharAppend(sql, order, '?');
    CountCharAppend(sql + order, limit, '?');
  }

  /** The `ORDER BY` part carries no placeholder when no field name does. */
  lemma OrderSuffixUnmarked(order: Option<seq<Entry>>)
    requires order.Some? ==> Unmarked(order.value)
    ensures Placeholders(OrderSuffix(order)) == 0
  {
    if order.Some? {
      OrderItemsUnmarked(order.value);
      CountCharAppend("ORDER BY ", Join(OrderItems(order.value), ", "), '?');
    }
  }

  /** The `LIMIT` part never carries a placeholder. */
  lemma LimitSuffixUnmarked(page: int, pagePer: int)
    ensures Placeholders(LimitSuffix(page, pagePer)) == 0
  {
    if page != 0 && pagePer != 0 {
      LimitUnmarked((page - 1) * pagePer, pagePer);
    }
    CountCharAbsent(LimitSuffix(page, pagePer), '?');
  }

  lemma LimitUnmarked(offset: int, count: int)
    ensures '?' !in " LIMIT " + Decimal(offset) + ", " + Decimal(count)
  {
    DecimalRoundTrip(offset);
    DecimalRoundTrip(count);
  }

  /** `prefix + "` SET ?"` has the one placeholder of the `data` parameter. */
  lemma SetPlaceholder(prefix: string)
    requires '?' !in prefix
    ensures Placeholders(prefix + "` SET ?") == 1
  {
    CountCharAbsent(prefix + "` SET ", '?');
    CountCharAppend(prefix + "` SET ", "?", '?');
    assert prefix + "` SET ?" == (prefix + "` SET ") + "?";
  }

  lemma UpdatePlaceholders(table: string, where: Value, data: Value)
    requires '?' !in table
    requires where.Obj? ==> Unmarked(where.fields)
    ensures Placeholders(UpdateSql(table, where)) == |UpdateParams(where, data)|
  {
    SetPlaceholder("UPDATE `" + table);
    WhereSuffixPlaceholders("UPDATE `" + table + "` SET ?", where);
  }

  lemma FilterPlaceholders(table: string, where: Value)
    requires '?' !in table
    requires where.Obj? ==> Unmarked(where.fields)
    ensures Placeholders(ExistsSql(table, where)) == |WhereParams(where)|
    ensures Placeholders(CountSql(table, where)) == |WhereParams(where)|
    ensures Placeholders(DeleteSql(table, where)) == |WhereParams(where)|
  {
    var existsPrefix := "SELECT id FROM `" + table + "`";
    var countPrefix := "SELECT COUNT(id) AS rCount FROM `" + table + "`";
    var deletePrefix := "DELETE FROM `" + table + "`";
    CountCharAbsent(existsPrefix, '?');
    CountCharAbsent(countPrefix, '?');
    CountCharAbsent(deletePrefix, '?');
    WhereSuffixPlaceholders(existsPrefix, where);
    WhereSuffixPlaceholders(countPrefix, where);
    WhereSuffixPlaceholders(deletePrefix, where);
  }

  /** Every builder's statement has exactly one placeholder per parameter it
      passes, so the driver binds each value to the column it was meant for
      (for table, column and sort-field names without `?`). */
  lemma StatementPlaceholders(table: string, where: Value, data: Value, options: Options)
    requires '?' !in table
    requires where.Obj? ==> Unmarked(where.fields)
    requires options.order.Some? ==> Unmarked(options.order.value)
    ensures Placeholders(ExistsSql(table, where)) == |WhereParams(where)|
    ensures Placeholders(CountSql(table, where)) == |WhereParams(where)|
    ensures Placeholders(GetSql(table, where, options)) == |WhereParams(where)|
    ensures Placeholders(CreateSql(table)) == |[data]|
    ensures Placeholders(UpdateSql(table, where)) == |UpdateParams(where, data)|
    ensures Placeholders(DeleteSql(table, where)) == |WhereParams(where)|
  {
    FilterPlaceholders(table, where);
    GetPlaceholders(table, where, options);
    UpdatePlaceholders(table, where, data);
    SetPlaceholder("INSERT INTO `" + table);
  }

  // ---------------------------------------------------------------------
  // Reading the table name back

  /** The name between the first pair of backticks of a statement. */
  function ParseTable(sql: string): Option<string>
  {
    match IndexOf(sql, '`')
    case None => None
    case Some(i) =>
      match ReadQuoted(sql[i..])
      case None => None
      case Some((name, _)) => Some(name)
  }

  lemma TableAfterKeyword(keyword: string, table: string, rest: string, sql: string)
    requires '`' !in keyword && '`' !in table
    requires sql == keyword + "`" + table + "`" + rest
    ensures ParseTable(sql) == Some(table)
  {
    assert sql == keyword + ['`'] + (table + "`" + rest);
    IndexOfAfter(keyword, '`', table + "`" + rest);
    assert sql[|keyword|..] == "`" + table + "`" + rest;
    ReadQuotedName(table, rest);
  }

  lemma ExistsTable(table: string, where: Value)
    requires '`' !in table
    ensures ParseTable(ExistsSql(table, where)) == Some(table)
  {
    var keyword := "SELECT id FROM ";
    assert '`' !in keyword;
    TableAfterKeyword(keyword, table, WhereSuffix(where), ExistsSql(table, where));
  }

  lemma CountTable(table: string, where: Value)
    requires '`' !in table
    ensures ParseTable(CountSql(table, where)) == Some(table)
  {
    var keyword := "SELECT COUNT(id) AS rCount FROM ";
    assert '`' !in keyword;
    TableAfterKeyword(keyword, table, WhereSuffix(where), CountSql(table, where));
  }

  lemma SelectAllTable(table: string, w: string, o: string, l: string)
    requires '`' !in table
    ensures ParseTable("SELECT * FROM `" + table + "`" + w + o + l) == Some(table)
  {
    var keyword := "SELECT * FROM ";
    assert '`' !in keyword;
    TableAfterKeyword(keyword, table, w + o + l, "SELECT * FROM `" + table + "`" + w + o + l);
  }

  lemma GetTable(table: string, where: Value, options: Options)
    requires '`' !in table
    ensures ParseTable(GetSql(table, where, options)) == Some(table)
  {
    SelectAllTable(table, WhereSuffix(where), OrderSuffix(options.order), LimitSuffix(options.page, options.pagePer));
  }

  /** The corrected `get` statement names the same table. */
  lemma SpacedGetTable(table: string, where: Value, options: Options)
    requires '`' !in table
    ensures ParseTable(GetSqlSpaced(table, where, options)) == Some(table)
  {
    SelectAllTable(table, WhereSuffix(where), SpacedOrderSuffix(options.order), LimitSuffix(options.page, options.pagePer));
  }

  /** `get` with no filter and no options selects the whole table: a where
      argument that fails the guard (absent, `null`, a scalar or `{}`) and
      `options` absent leave the bare `SELECT * FROM` statement and no
      parameters. */
  lemma GetUnfiltered(table: string, where: Value)
    requires !WhereGuard(where)
    ensures GetSql(table, where, NO_OPTIONS) == "SELECT * FROM `" + table + "`"
    ensures WhereParams(where) == []
  {
    assert WhereSuffix(where) == "" && OrderSuffix(NO_OPTIONS.order) == "" && LimitSuffix(0, 0) == "";
  }

  lemma CreateTable(table: string)
    requires '`' !in table
    ensures ParseTable(CreateSql(table)) == Some(table)
  {
    var keyword := "INSERT INTO ";
    assert '`' !in keyword;
    TableAfterKeyword(keyword, table, " SET ?", CreateSql(table));
  }

  lemma UpdateTable(table: string, where: Value)
    requires '`' !in table
    ensures ParseTable(UpdateSql(table, where)) == Some(table)
  {
    var keyword := "UPDATE ";
    assert '`' !in keyword;
    TableAfterKeyword(keyword, table, " SET ?" + WhereSuffix(where), UpdateSql(table, where));
  }

  lemma DeleteTable(table: string, where: Value)
    requires '`' !in table
    ensures ParseTable(DeleteSql(table, where)) == Some(table)
  {
    var keyword := "DELETE FROM ";
    assert '`' !in keyword;
    TableAfterKeyword(keyword, table, WhereSuffix(where), DeleteSql(table, where));
  }

  /** Every statement names the current table first, between backticks:
      reading the first quoted name back yields exactly that table (for a
      name without a backtick, since names are not escaped). */
  lemma StatementTable(table: string, where: Value, options: Options)
    requires '`' !in table
    ensures ParseTable(ExistsSql(table, where)) == Some(table)
    ensures ParseTable(CountSql(table, where)) == Some(table)
    ensures ParseTable(GetSql(table, where, options)) == Some(table)
    ensures ParseTable(CreateSql(table)) == Some(table)
    ensures ParseTable(UpdateSql(table, where)) == Some(table)
    ensures ParseTable(DeleteSql(table, where)) == Some(table)
  {
    ExistsTable(table, where);
    CountTable(table, where);
    GetTable(table, where, options);
    CreateTable(table);
    UpdateTable(table, where);
    DeleteTable(table, where);
  }
}
