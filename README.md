# mysql-easy-basic-crud: query construction

This project models the query-building core of `mysql-easy-basic-crud`. That
library wraps a MySQL connection pool. A pooled connection comes back as a
handle (`DBPoolInstance`) that remembers a current table and offers
`exists`, `count`, `get`, `create`, `update` and `delete`. Each operation
builds one SQL statement and one parameter list, hands both to the driver,
and projects the driver's answer. The model keeps everything up to the
driver call.

- `Values` holds the JavaScript values that reach the builders. Objects are
  lists of properties in `for...in` order. It also states the `where` guard
  the filtering builders apply.
- `Text` holds `Array.prototype.join`, the plain decimal rendering a
  template literal gives an integer below 10^21, and small scanners used to
  read statements back.
- `Sql` holds the statement of every builder as a function of the current
  table and the arguments: the WHERE clause, the ORDER BY list, the LIMIT
  window, and the six statements with their parameter lists.
- `Crud` holds the handle. It is a class with a mutable `table` field,
  `Table` to select it, and one method per operation. Each method builds
  the statement step by step as the source does and returns
  `(sql, params)`. `ConvertObjectToWhereClause` and the ORDER BY loop of
  `get` are loop methods. The `exists` and `count` result projections are
  functions.
- `SqlFacts` proves what the text means. One reader recovers the table
  from a whole statement. The others each read one appended part on its
  own, before it is joined to the rest: the WHERE clause, the ORDER BY text
  and the LIMIT window. Round-trip lemmas show each reading is exactly what
  was asked for, in order. Every statement has exactly one `?` per
  parameter.
- `Findings` documents the missing space in front of `ORDER BY`.

## Model

| member | source | states |
|---|---|---|
| Values.WhereGuard | mysql-easy-basic-crud/index.js:68 | The guard `where && typeof where === 'object' && Object.keys(where).length > 0` holds exactly for an object with at least one key; `null`, `undefined`, scalars and `{}` add no filter |
| Crud.ConvertObjectToWhereClause | mysql-easy-basic-crud/index.js:4-15 | Returns `" WHERE "` plus one `` `key` = ? `` per property joined by `" AND "`; the list comes back as the caller's entries unchanged in front, followed by exactly the property values in property order |
| Crud.OrderList | mysql-easy-basic-crud/index.js:114-118 | One sort key per order field, in field order: `"<field> DESC"` exactly when the flag is the number 1, `"<field> ASC"` for every other flag |
| Crud.PoolInstance.constructor | mysql-easy-basic-crud/index.js:48-51 | A new handle keeps its connection and has the empty string as its table |
| Crud.PoolInstance.Table | mysql-easy-basic-crud/index.js:56-59 | Sets the current table to the given name and returns the same handle; the connection is a constant and cannot change |
| Crud.PoolInstance.ExistsQuery | mysql-easy-basic-crud/index.js:60-70 | `SELECT id FROM` the backtick-quoted current table, plus the WHERE clause only when the guard holds; without a filter the parameters are `[]` |
| Crud.PoolInstance.CountQuery | mysql-easy-basic-crud/index.js:81-91 | `SELECT COUNT(id) AS rCount FROM` the quoted table, plus the optional WHERE clause; without a filter the parameters are `[]` |
| Crud.PoolInstance.GetQuery | mysql-easy-basic-crud/index.js:102-129 | `SELECT * FROM` the quoted table, then the optional WHERE clause, then the ORDER BY text with no space in front when `order` is given, then the LIMIT window when both `page` and `pagePer` are truthy; parameters are only the where values |
| Crud.PoolInstance.CreateQuery | mysql-easy-basic-crud/index.js:140-147 | Exactly ``INSERT INTO `t` SET ?`` with `[data]` as the parameters, never a WHERE clause |
| Crud.PoolInstance.UpdateQuery | mysql-easy-basic-crud/index.js:156-166 | ``UPDATE `t` SET ?`` plus the optional WHERE clause; `data` is the first parameter and the where values follow in property order; without a filter the statement updates every row and the parameters are `[data]` |
| Crud.PoolInstance.DeleteQuery | mysql-easy-basic-crud/index.js:177-187 | ``DELETE FROM `t` `` plus the optional WHERE clause; without a filter the statement deletes every row and the parameters are `[]` |
| Crud.TableThenGet | mysql-easy-basic-crud/index.js:56-59 | After `table(name)` the handle's table is `name` and the chained `get` builds its statement over exactly that name |
| Crud.ExistsResult | mysql-easy-basic-crud/index.js:77 | `exists` resolves `true` exactly when the driver returned at least one row |
| Crud.CountResult | mysql-easy-basic-crud/index.js:98 | `count` resolves with the `rCount` column of the first row; with no row the access throws, shown as `None` |
| Sql.LimitSuffix | mysql-easy-basic-crud/index.js:124-129 | No LIMIT text exactly when `page` or `pagePer` is falsy (0) |
| Text.DecimalRoundTrip | mysql-easy-basic-crud/index.js:128 | The plain decimal rendering of an integer (what a template literal gives below 10^21) reads back as the same integer and contains no `?` or comma |
| SqlFacts.WhereClauseRoundTrip | mysql-easy-basic-crud/index.js:4-15 | Reading a non-empty WHERE clause back yields exactly the property names, in property order, one `` `key` = ? `` fragment each, for names without a backtick |
| SqlFacts.WhereClausePlaceholders | mysql-easy-basic-crud/index.js:7-14 | The WHERE clause has exactly as many `?` placeholders as values it pushes, for names without `?` |
| SqlFacts.OrderRoundTrip | mysql-easy-basic-crud/index.js:113-122 | Reading the ORDER BY text back yields exactly the order fields in field order, each descending iff its flag is the number 1, for names without spaces; an empty order object still yields `"ORDER BY "` |
| SqlFacts.LimitRoundTrip | mysql-easy-basic-crud/index.js:124-129 | When both are truthy, the LIMIT text reads back as offset `(page - 1) * pagePer` and row count `pagePer` |
| SqlFacts.StatementPlaceholders | mysql-easy-basic-crud/index.js:60-197 | Each of the six statements has exactly one `?` per parameter its builder passes |
| SqlFacts.StatementTable | mysql-easy-basic-crud/index.js:60-197 | The first backtick-quoted name of each of the six statements is exactly the current table, for a name without a backtick |
| Findings.OrderGluedToPrevious | mysql-easy-basic-crud/index.js:120-121 | As written, the character right before `ORDER BY` is the last `?` of the WHERE clause, or the table's closing backtick, never a space |
| Findings.GluedOrderExample | mysql-easy-basic-crud/index.js:107-121 | `get({id: 5}, {order: {id: 1}})` on table `Users` builds ``SELECT * FROM `Users` WHERE `id` = ?ORDER BY id DESC`` |
| Findings.SpacedOrderStandsApart | mysql-easy-basic-crud/index.js:120-121 | In the corrected statement `ORDER BY` is preceded by a space, and it differs from the statement as written only by that space |
| SqlFacts.GetUnfiltered | mysql-easy-basic-crud/index.js:104-129 | `get` with a where argument that fails the guard and no options builds the bare ``SELECT * FROM `t` `` with no parameters |
| SqlFacts.SpacedGetPlaceholders | mysql-easy-basic-crud/index.js:120-121 | The corrected `get` statement also has exactly one `?` per parameter |
| SqlFacts.SpacedGetTable | mysql-easy-basic-crud/index.js:107 | The corrected `get` statement also names exactly the current table first |
| Findings.SpacedWithoutOrder | mysql-easy-basic-crud/index.js:113-122 | Without an order the corrected statement equals the statement as written |

## Findings

| source | as written | input that shows it | evidently intended | confidence | as-written member | corrected member |
|---|---|---|---|---|---|---|
| mysql-easy-basic-crud/index.js:120-121 | `'ORDER BY ' + ...` is appended with no space in front, right after the WHERE clause's last `?` | `get({id: 5}, {order: {id: 1}})` builds ``... WHERE `id` = ?ORDER BY id DESC``; after the driver fills in the number the text reads `= 5ORDER BY`, and MySQL reads `5ORDER` as one identifier | `' ORDER BY '`, with a separating space like the WHERE and LIMIT parts | medium, not executed | Findings.OrderGluedToPrevious | Findings.SpacedOrderStandsApart |

`Crud.PoolInstance.GetQuery` keeps the text as written, since it models the
library's behaviour. `Sql.GetSqlSpaced` is the corrected statement.
`SqlFacts.SpacedGetPlaceholders` and `SqlFacts.SpacedGetTable` prove that it
keeps one `?` per parameter and names the current table. The ORDER BY
reader works on the ORDER BY text alone, so its round trip applies to
both statements.

## Left out

- `DBPool` (`create`, `get`, `end`, index.js:17-46) is not modelled. It only wraps `mysql2.createPool`, `getConnection` and `end`, which are foreign calls with callbacks.
- Executing statements, the `db.query(...)` calls and the Promise and callback plumbing are not modelled. They are I/O against the driver; each builder returns `(sql, params)` instead.
- `beginTransaction`, `commit` and `rollback` (index.js:198-230) are not modelled. They only delegate to the driver. Their missing `return` after `reject` only affects how a Promise settles, which needs the driver to model.
- `release` and the raw `query` (index.js:52-55, 231-243) are not modelled. Both pass straight through to the driver.
- `mysql-easy-basic-crud/exam.js` is not part of this model. It is a demo script that does network I/O and logging.
- Identifiers are not escaped, as in the library. So the round-trip lemmas require names without a backtick (table, where keys), without a space (order fields) and without `?` (placeholder count).
- Crud.ConvertObjectToWhereClause: the in-place `params.push` is modelled as returning the extended list. Aliasing of that array is not captured. Each builder's list is a fresh local, so nothing else can see it.
- Object key order is the order of the property list given. JavaScript's rule that integer-like keys come first, and `for...in` reaching inherited enumerable properties, are not modelled.
- Numbers are integers. `page` and `pagePer` are `int`, with 0 standing for absent or falsy. Fractions, `NaN` and strings in those options are not modelled.
- Text.DecimalRoundTrip: covers plain decimal notation only. JavaScript renders numbers of magnitude 10^21 and above in exponent form (`1e+21`), which is not modelled.
- SqlFacts.LimitRoundTrip: reads back the exact product `(page - 1) * pagePer`. JavaScript computes it in double precision, so the two agree only when `page`, `pagePer` and the product stay within 2^53 in magnitude; rounding above that and the exponent form from 10^21 up are not modelled.
- `options.order` is `None` when absent or falsy, and otherwise a list of `(field, flag)` pairs. A truthy non-object order, such as a string whose `for...in` visits its indices, must be given as its property list.
- The `options` argument of `exists`, `count`, `create`, `update` and `delete` is not modelled. The library computes `options || {}` there and never reads it.
- Crud.CountResult: the `rCount` value is whatever the driver put in the row. That it is a number is the database's promise, not the library's.
