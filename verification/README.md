# Leap SQL access layer — a Dafny model

Leap is a PHP ORM and SQL query-builder framework. This project models its core in Dafny:

- **Select statements.** The statement text that the PostgreSQL, Oracle and MsSQL select builders render from their accumulated data:
  - clause order;
  - the connector rule of WHERE and HAVING;
  - JOIN ... ON / USING;
  - pagination by LIMIT/OFFSET, ROWNUM and ROW_NUMBER();
  - combined statements and the terminator.
- **SQLite expression precompiler.** It prepares aliases, identifiers, connectors, join types, operators, parentheses, naturals and values.
- **Connection driver.** This covers:
  - the `quote()` scrubbing loop and the quoted literal it produces;
  - the connection guards of `query()`, `reader()` and `get_resource()`;
  - `__get` and the disabled result cache.
- **Drizzle lock builder.** It covers `add()`, `acquire()` and `release()`.
- **`ByteString`.** A hex-backed byte buffer with a remembered `count()`.
- **ORM field adaptors.** The `Number` and `JSON` adaptors, which translate between a model field and its formatted or JSON-framed form.

Each PHP string is a Dafny `string`, one character per byte. A PHP value of unknown type is the `PhpValues.Mixed` datatype. An exception is the `Err` or `Fail` side of `Wrappers.Result` and `Wrappers.Outcome`.

The classes of the source that change state in place are Dafny classes whose methods carry `modifies` clauses:
- the Oracle builder's `combine()`;
- the driver's `command` field;
- the Drizzle builder's entry list;
- `ByteString`'s remembered length;
- the ORM model's field map.

Statement text is built by loops that grow a string. These loops are methods, and each is proved equal to a specification function of the builder data. Properties of the statements are proved about those functions:
- pagination against one reference, `Pagination.Paginate`;
- connector placement against an independent stream definition;
- round trips and idempotence.

Collaborators whose code is not part of this model are parameters or function-typed `const` fields:
- the Oracle and Drizzle precompilers;
- `Command::trim`;
- the connection's `execute()`;
- `base_convert`, `number_format`, the float cast, `json_encode` and `json_decode`.

Where PHP versions differ, the model follows PHP 7.3: `count()` of a non-countable is 1, `strlen()` of an array is NULL, and `preg_quote()` escapes `#`.

## Model

| member | source | states |
|---|---|---|
| SelectModel.AppendJoins | Leap/Core/DB/PostgreSQL/Select/Builder.php:57-65 | The join loop appends each join's clause followed by ` ON (c1 AND c2 ...)` when it has ON conditions, otherwise ` USING (a, b, ...)` when it has USING columns, otherwise neither. Joins appear in insertion order. |
| SelectModel.AppendConditions | Leap/Core/DB/PostgreSQL/Select/Builder.php:67-77 | The `$append`-flag loop renders exactly `ConditionsText`: an entry's connector appears only if an earlier entry exists, the previous entry is not `(`, and the current entry is not `)`. |
| SelectModel.ConditionsTextIsStream | Leap/Core/DB/PostgreSQL/Select/Builder.php:67-93 | The positional connector rule and the `$append` state machine produce the same text. |
| SelectModel.StreamKeepsTokens | Leap/Core/DB/PostgreSQL/Select/Builder.php:67-93 | Every WHERE/HAVING token is rendered, in order; only connectors are added between them. |
| SelectModel.StreamWellPlaced | Leap/Core/DB/PostgreSQL/Select/Builder.php:67-93 | No connector is emitted at the start, right after `(`, right before `)` or at the end. |
| SelectModel.AppendCombines | Leap/Core/DB/PostgreSQL/Select/Builder.php:107-109 | Each combine entry is appended after one space, in order. |
| SelectModel.AppendFilter | Leap/Core/DB/PostgreSQL/Select/Builder.php:67-93 | A WHERE or HAVING clause is rendered only when it has entries: the keyword, then the connector-ruled body. |
| SelectModel.AppendBody | Leap/Core/DB/PostgreSQL/Select/Builder.php:53-93 | FROM, joins, WHERE, GROUP BY and HAVING are appended in exactly that order. |
| PostgreSQLSelect.Statement | Leap/Core/DB/PostgreSQL/Select/Builder.php:42-116 | The statement is `SELECT [DISTINCT ]`, then the columns (or `*` when there are none), then FROM, joins, WHERE, GROUP BY, HAVING, ORDER BY, LIMIT, OFFSET, the combines and `;`, in that order. It only reads the data, so equal data gives equal text. |
| PostgreSQLSelect.TerminatedAddsSemicolon | Leap/Core/DB/PostgreSQL/Select/Builder.php:111-113 | The terminated text is the unterminated text plus exactly one final `;`. |
| PostgreSQLSelect.StatementPaginates | Leap/Core/DB/PostgreSQL/Select/Builder.php:99-105 | LIMIT is rendered only for limit > 0 and OFFSET only for offset > 0, independently. Together they select `Paginate(rows, max(limit,0), max(offset,0))`, at most `limit` rows. |
| PostgreSQLSelect.NoLimitRunsToEnd | Leap/Core/DB/PostgreSQL/Select/Builder.php:99-105 | Without a positive limit, the page runs from the offset to the end of the result. |
| PostgreSQLSelect.PaginationIsLocal | Leap/Core/DB/PostgreSQL/Select/Builder.php:99-105 | Changing the limit and offset changes only the LIMIT and OFFSET clauses of the text. |
| OracleSelect.Builder.Combine | src/classes/Leap/Plugin/DB/Oracle/Select/Builder.php:45-58 | Anything other than a select builder or a command raises an SQL error. An operator the precompiler rejects raises its error. On failure the data is unchanged. On success exactly one entry `OP (stmt)` is appended, where stmt is the other builder's unterminated statement or the trimmed command text. |
| OracleSelect.Query | src/classes/Leap/Plugin/DB/Oracle/Select/Builder.php:72-131 | The unwrapped query is the shared clauses, then the combine entries, then ORDER BY. |
| OracleSelect.Builder.Statement | src/classes/Leap/Plugin/DB/Oracle/Select/Builder.php:72-151 | The command text is the query wrapped for ROWNUM pagination, with `;` after all wrapping exactly when terminated. It is returned as a Command. |
| OracleSelect.WindowCoversLimit | src/classes/Leap/Plugin/DB/Oracle/Select/Builder.php:133-137 | With limit and offset both positive, the query is wrapped with inner `ROWNUM <= offset+limit-1` and outer `"rn" >= offset`, a window of exactly `limit` row numbers. |
| Pagination.RownumAtMost | src/classes/Leap/Plugin/DB/Oracle/Select/Builder.php:138-140 | `ROWNUM <= n` keeps the first n rows. |
| Pagination.RownumAtLeast | src/classes/Leap/Plugin/DB/Oracle/Select/Builder.php:141-143 | `ROWNUM >= n` keeps every row when the counter already reaches n and no row otherwise. |
| Pagination.NumberedFromSuffix | src/classes/Leap/Plugin/DB/Oracle/Select/Builder.php:133-137 | `"rn" >= lo` over rows numbered from 1 drops the first lo-1 rows and keeps the rest. |
| OracleSelect.WindowSelects | src/classes/Leap/Plugin/DB/Oracle/Select/Builder.php:133-137 | The ROWNUM window [lo, hi] keeps rows lo-1 through hi-1 (0-based) of the ordered result. |
| OracleSelect.StatementSelects | src/classes/Leap/Plugin/DB/Oracle/Select/Builder.php:133-143 | The rows each wrapping returns: the window, `ROWNUM <= limit` (the first limit rows), `ROWNUM >= offset` (every row for offset 1, none for offset ≥ 2), and no wrapper (every row). |
| OracleSelect.WindowStartsOneRowEarly | src/classes/Leap/Plugin/DB/Oracle/Select/Builder.php:133-137 | As written, limit 2 and offset 2 over rows [10,20,30,40] return [20,30]. |
| OracleSelect.OffsetAloneSelectsNothing | src/classes/Leap/Plugin/DB/Oracle/Select/Builder.php:141-143 | As written, offset 2 without a limit returns no row at all. |
| OracleSelect.CorrectedStatementPaginates | src/classes/Leap/Plugin/DB/Oracle/Select/Builder.php:133-143 | With the bounds moved by one and `"rn"` used for an offset alone, every limit and offset returns exactly `Paginate(rows, limit, offset)`. |
| MsSQLSelect.Head | classes/Leap/Plugin/DB/MsSQL/Select/Builder.php:49-61 | `TOP n ` goes right after `SELECT [DISTINCT ]` exactly when limit > 0, and before the columns. |
| MsSQLSelect.Base | classes/Leap/Plugin/DB/MsSQL/Select/Builder.php:46-111 | The base text has every clause in order. The WHERE text is kept aside for the window rewrite. |
| MsSQLSelect.BuildCommand | classes/Leap/Plugin/DB/MsSQL/Select/Builder.php:46-131 | The command is the base text, or the ROW_NUMBER window when offset ≥ 0, limit > 0 and ORDER BY is non-empty. The combines and an optional `;` follow. |
| MsSQLSelect.WindowSpansLimit | classes/Leap/Plugin/DB/MsSQL/Select/Builder.php:113-119 | The window filters `ROW_NUMBER BETWEEN offset+1 AND offset+limit`, exactly `limit` row numbers. |
| Pagination.RowNumberWindowPaginates | classes/Leap/Plugin/DB/MsSQL/Select/Builder.php:113-119 | Keeping the rows numbered offset+1 through offset+limit gives exactly `Paginate(rows, limit, offset)`, at most `limit` rows. |
| MsSQLSelect.CommandSelects | classes/Leap/Plugin/DB/MsSQL/Select/Builder.php:53-55 | The window returns `Paginate(rows, limit, offset)`. Without ORDER BY only TOP applies (the first `limit` rows). Without a limit every row is returned. |
| MsSQLSelect.OffsetIgnoredWithoutOrder | classes/Leap/Plugin/DB/MsSQL/Select/Builder.php:113 | Without ORDER BY the offset changes neither the text nor the rows. |
| MsSQLSelect.WindowIgnoresOtherClauses | classes/Leap/Plugin/DB/MsSQL/Select/Builder.php:114-116 | The window text depends only on the columns, FROM, WHERE, ORDER BY, limit and offset. DISTINCT, joins, GROUP BY and HAVING do not affect it. |
| MsSQLSelect.WindowDropsJoin | classes/Leap/Plugin/DB/MsSQL/Select/Builder.php:114-116 | As written, a query joining a second table gets the same window text as the query without the join, while the corrected window texts differ. |
| MsSQLSelect.UnpaginatedQuery | classes/Leap/Plugin/DB/MsSQL/Select/Builder.php:46-111 | The query the corrected window numbers is SELECT, DISTINCT, the columns and every clause from FROM through HAVING, without TOP and ORDER BY. Its length is the sum of those parts. |
| MsSQLSelect.CorrectedWindowKeepsQuery | classes/Leap/Plugin/DB/MsSQL/Select/Builder.php:113-119 | Under the same ORDER BY, limit and offset, two corrected windows are the same text exactly when the queries they number are. No clause of the query is dropped. |
| SQLiteExpression.PrepareAlias | classes/base/db/sqlite/expression.php:38-43 | A string becomes `[...]`: trimmed, and with `[ ] " '` and the backquote removed. A non-string raises InvalidArgument. |
| SQLiteExpression.Bracket | classes/base/db/sqlite/expression.php:38-43 | The result starts with `[` and ends with `]`. Every character in between is one of the input's characters and none is a quoting character. |
| SQLiteExpression.AliasIdempotent | classes/base/db/sqlite/expression.php:38-43 | Preparing an alias that is already prepared gives the same alias. |
| SQLiteExpression.PrepareIdentifier | classes/base/db/sqlite/expression.php:86-108 | A MySQL builder goes in parentheses and an Expression passes through. Any other non-string raises InvalidArgument. A raw SELECT goes in parentheses. Otherwise every `.`-separated segment is bracketed in place. |
| SQLiteExpression.IdentifierSegments | classes/base/db/sqlite/expression.php:102-107 | The prepared identifier has as many segments as the input, and each is the bracketed input segment. |
| SQLiteExpression.RawSelectKeepsSemicolon | classes/base/db/sqlite/expression.php:96-101 | As written, a raw SELECT keeps its terminator: `SELECT 1;` becomes `(SELECT 1;)`. |
| SQLiteExpression.CorrectedRawSelectDropsTerminator | classes/base/db/sqlite/expression.php:96-101 | The corrected branch drops one final `;` before adding the parentheses. |
| SQLiteExpression.PrepareConnector | classes/base/db/sqlite/expression.php:63-74 | A connector is accepted, in either case, exactly when its upper-case form is AND or OR, and that form is returned. Anything else raises InvalidArgument. |
| SQLiteExpression.PrepareJoin | classes/base/db/sqlite/expression.php:119-137 | A join type is accepted exactly when its upper-case form is one of the nine SQLite join types, and that form is returned. |
| SQLiteExpression.PrepareOperator | classes/base/db/sqlite/expression.php:161-212 | A group or expression that is not a string raises InvalidArgument. Every failure is an InvalidArgument. Which operators are accepted is stated by OperatorAccepts. |
| SQLiteExpression.OperatorAccepts | classes/base/db/sqlite/expression.php:161-212 | Both directions: an operator is accepted exactly when the group is COMPARISON with a comparison token or a regex or `!=` spelling, or the group is SET with a set token. The result lies in the group's token set. |
| SQLiteExpression.OperatorNormalises | classes/base/db/sqlite/expression.php:161-212 | `!=` and `<>` both give `<>`, and `regex` and `not regex` give `REGEXP` and `NOT REGEXP`, whatever the case. |
| SQLiteExpression.OperatorIdempotent | classes/base/db/sqlite/expression.php:161-212 | Preparing a prepared operator returns it unchanged. |
| SQLiteExpression.ConnectorAndJoinIdempotent | classes/base/db/sqlite/expression.php:63-137 | Preparing a prepared connector or join type returns it unchanged. |
| SQLiteExpression.PrepareParenthesis | classes/base/db/sqlite/expression.php:221-231 | Only the strings `(` and `)` are accepted, returned as given. |
| SQLiteExpression.PrepareNatural | classes/base/db/sqlite/expression.php:146-149 | The result is the integer cast of the input or its negation, and never negative. |
| SQLiteExpression.NaturalProperties | classes/base/db/sqlite/expression.php:146-149 | A natural number is its own natural, the decimal text of i gives abs(i), and preparing twice changes nothing. |
| SQLiteExpression.PrepareValue | classes/base/db/sqlite/expression.php:242-283 | NULL renders as `NULL`, TRUE as `'1'` and FALSE as `'0'`. An integer renders as its decimal text. A string renders as `StringValue`. An Expression renders as its value. An SQLite select builder renders as its statement in parentheses. Another object renders as the literal of its string form, or raises TypeMismatch without one. An array succeeds exactly when all its elements do. A successful literal is never empty, unless an Expression's value is. |
| SQLiteExpression.PrepareValues | classes/base/db/sqlite/expression.php:252-254 | Each element is prepared in order, one for one. The array fails exactly when an element fails. |
| SQLiteExpression.ArrayValue | classes/base/db/sqlite/expression.php:252-254 | Both directions: an array succeeds exactly when every element does. Its text is the element texts joined by `, ` in parentheses. |
| SQLiteExpression.StringValueSafe | classes/base/db/sqlite/expression.php:272-282 | A string literal carries quotes only at its two ends. A hex literal is `0x` plus two lowercase hex digits per byte, and it decodes back to the string. |
| SQLiteExpression.DateTimeHasNoQuote | classes/base/db/sqlite/expression.php:272-274 | A date-time that the pattern accepts never holds a quote, so quoting it verbatim is safe. |
| SQLiteExpression.EmptyStringsCollapse | classes/base/db/sqlite/expression.php:275-277 | The empty string and `"0"` both become `''`. |
| ConnectionDriver.RemoveControls | classes/Leap/Core/DB/Connection/Driver.php:279-283 | Every control character except tab, LF and CR is removed. The count is 0 exactly when nothing changed. Every other character keeps its count. |
| ConnectionDriver.RemoveCodesFinds | classes/Leap/Core/DB/Connection/Driver.php:279-283 | Both directions: a `%0x`/`%1x` scan removes nothing exactly when the string holds no such code. |
| ConnectionDriver.RemoveCodesKeeps | classes/Leap/Core/DB/Connection/Driver.php:279-283 | The scan removes only `%`, the lead digit and hex digits. Every other character keeps its count. |
| ConnectionDriver.RemovalPassClean | classes/Leap/Core/DB/Connection/Driver.php:279-292 | One pass reports 0 removals exactly when the string is clean of all three patterns. It never removes a tab, LF or CR. |
| ConnectionDriver.ScrubClean | classes/Leap/Core/DB/Connection/Driver.php:289-292 | When the loop stops, no removable control character or URL-encoded control code is left, and tabs, LFs and CRs are all kept. |
| ConnectionDriver.ScrubIdempotent | classes/Leap/Core/DB/Connection/Driver.php:289-292 | Scrubbing a scrubbed string changes nothing. |
| ConnectionDriver.QuotedTextReadsBack | classes/Leap/Core/DB/Connection/Driver.php:294 | Round trip: an SQL reader of the quoted text, with every `'` doubled, gets back exactly the body and the text after the literal. |
| ConnectionDriver.QuotedTextReadsWhole | classes/Leap/Core/DB/Connection/Driver.php:294 | The literal opens with `'` and closes exactly at its final quote. |
| ConnectionDriver.Driver.Quote | classes/Leap/Core/DB/Connection/Driver.php:278-301 | Without a connection, quote raises an SQL error. Otherwise the do-while loop ends on the scrubbed string, which is then quoted, with ` ESCAPE '...'` when an escape is given. |
| ConnectionDriver.EscapeClause | classes/Leap/Core/DB/Connection/Driver.php:296-298 | A NULL escape adds no clause. An empty-string escape adds `ESCAPE ''`. false, 0 and an empty array add none. |
| ConnectionDriver.Cache | classes/Leap/Core/DB/Connection/Driver.php:144-163 | With its body commented out, cache() returns exactly the results it is given. |
| ConnectionDriver.Driver.constructor | classes/Leap/Core/DB/Connection/Driver.php:79-85 | A driver starts with its data source, the lock builder for its dialect, no cache key, an empty command and no resource. The reader factory is the one given. |
| ConnectionDriver.Driver.Get | classes/Leap/Core/DB/Connection/Driver.php:112-123 | `command`, `data_source` and `lock` are readable. Any other key raises InvalidProperty. |
| ConnectionDriver.Driver.GetResource | classes/Leap/Core/DB/Connection/Driver.php:215-220 | The resource is returned only while connected. Otherwise a database error is raised. |
| ConnectionDriver.Driver.Query | classes/Leap/Core/DB/Connection/Driver.php:249-262 | Without a connection, query raises an SQL error. Otherwise the reader factory runs the command. If it raises, that error is returned and `command` is unchanged. If it succeeds, the command is recorded and a result set of the requested type over that reader is returned. It succeeds exactly when connected and the factory succeeds. |
| ConnectionDriver.Driver.Reader | classes/Leap/Core/DB/Connection/Driver.php:311-318 | The same guard as Query, then the factory's reader or its error. The command is recorded exactly when a reader is returned. |
| DrizzleLock.LockBuilder.Add | classes/Leap/Plugin/DB/Drizzle/Lock/Builder.php:55-69 | The hint loop keeps the accepted hints, upper-cased and in order, and falls back to WRITE when none is accepted. Exactly one entry `identifier MODE|MODE` is appended. A precompiler error leaves the entries unchanged. Nothing is executed. |
| DrizzleLock.AcceptedModesSound | classes/Leap/Plugin/DB/Drizzle/Lock/Builder.php:57-63 | Every mode kept is upper-case and still matches the hint pattern, and there are no more modes than hints. |
| DrizzleLock.AcceptedModesNone | classes/Leap/Plugin/DB/Drizzle/Lock/Builder.php:57-63 | If every hint is rejected, no mode is kept. |
| DrizzleLock.AcceptedModesAll | classes/Leap/Plugin/DB/Drizzle/Lock/Builder.php:57-63 | If every hint is accepted, all are kept, one for one and in order, upper-cased. |
| DrizzleLock.UpperHintAccepted | classes/Leap/Plugin/DB/Drizzle/Lock/Builder.php:59 | The case-insensitive hint pattern still accepts the upper-cased hint. |
| DrizzleLock.ModesNeverEmpty | classes/Leap/Plugin/DB/Drizzle/Lock/Builder.php:64-66 | An entry always has at least one mode. Without hints it is WRITE. |
| DrizzleLock.LockBuilder.Acquire | classes/Leap/Plugin/DB/Drizzle/Lock/Builder.php:41-44 | Exactly one command, `LOCK TABLES e1,e2,...;`, is handed to the connection. The entries are unchanged, and the connection's outcome is returned. |
| DrizzleLock.LockTextAfterAdd | classes/Leap/Plugin/DB/Drizzle/Lock/Builder.php:42 | Adding an entry extends the LOCK TABLES statement by a comma and that entry, or makes it the only entry. |
| DrizzleLock.LockBuilder.Release | classes/Leap/Plugin/DB/Drizzle/Lock/Builder.php:80-83 | `UNLOCK TABLES;` is always sent, whatever the method argument, and the entries are unchanged. |
| ByteStrings.Unpack | classes/Leap/Core/Data/ByteString.php:194-216 | STRING data becomes lowercase hex of twice its length. HEX data is kept verbatim. BINARY data goes to base_convert after its `b'...'` wrapper is removed. A ByteString gives its hexcode. Anything else, or an unknown type, gives `''`. |
| ByteStrings.StripBinaryLiteral | classes/Leap/Core/Data/ByteString.php:197-200 | Only data that fits the `b'...'` pattern loses its first two characters and its last one. Everything else is unchanged. |
| ByteStrings.BinaryLiteralStrips | classes/Leap/Core/Data/ByteString.php:197-200 | `b'm'` and `B'm'` both give m. With a final newline, `b'm'\n` gives m followed by a quote. |
| ByteStrings.Pack | classes/Leap/Core/Data/ByteString.php:178-183 | A string packs to (n+1)/2 bytes. A non-string packs to `''`. |
| ByteStrings.ByteString.constructor | classes/Leap/Core/Data/ByteString.php:81-84 | The hexcode is the unpacked data and the remembered length starts at -1. |
| ByteStrings.ByteString.AsHexcode | classes/Leap/Core/Data/ByteString.php:104-106 | `__toString()` and `as_hexcode()` return the stored hexcode. |
| ByteStrings.ByteString.AsString | classes/Leap/Core/Data/ByteString.php:145-151 | The packed bytes, or the hexcode itself when pack is false. |
| ByteStrings.ByteString.Count | classes/Leap/Core/Data/ByteString.php:161-166 | The first call stores `2 × strlen(hexcode)`. Every call returns the stored value, and the hexcode is unchanged. |
| ByteStrings.StringRoundTrip | classes/Leap/Core/Data/ByteString.php:145-151 | Bytes stored as STRING_DATA come back unchanged from as_string(). |
| ByteStrings.HexRoundTrip | classes/Leap/Core/Data/ByteString.php:178-209 | Even-length hex, packed and unpacked again as STRING_DATA, comes back lowercased. |
| ByteStrings.CountIsFourTimesBytes | classes/Leap/Core/Data/ByteString.php:161-166 | As written, count() of STRING data is four times its byte count: `"A"` counts 4. |
| ByteStrings.ByteCountOfString | classes/Leap/Core/Data/ByteString.php:161-166 | The corrected count of STRING data equals its number of bytes, and equals the length of the packed hexcode. |
| NumberAdaptor.NumberMetadata | classes/Leap/Core/DB/ORM/Field/Adaptor/Number.php:44-72 | Precision is the integer cast of the setting, or 0 by default. The type is `double` exactly when precision > 0, otherwise `integer`. The separator defaults to `.` and the delimiter to `,`. Their literal patterns are kept under `regex`. |
| NumberAdaptor.Defaults | classes/Leap/Core/DB/ORM/Field/Adaptor/Number.php:48-71 | With no settings the metadata is precision 0, integer, `.`, `,` and the patterns `/\./` and `/,/`. |
| NumberAdaptor.Number.Set | classes/Leap/Core/DB/ORM/Field/Adaptor/Number.php:110-124 | Setting `value` stores a string after removing every delimiter, then turning separators into `.`, then the cast. A non-string is stored unchanged. Any other key raises, and the model is untouched. |
| NumberAdaptor.Number.Stored | classes/Leap/Core/DB/ORM/Field/Adaptor/Number.php:113-118 | Strings are normalised then cast. Other values are kept as they are. |
| NumberAdaptor.Number.Get | classes/Leap/Core/DB/ORM/Field/Adaptor/Number.php:84-98 | `value` returns NULL and Expressions unchanged and formats anything else. Other keys return the metadata entry if it is set and raise otherwise. |
| NumberAdaptor.NormaliseCharacters | classes/Leap/Core/DB/ORM/Field/Adaptor/Number.php:113-115 | With one-character settings, every delimiter is dropped and every separator becomes `.`. The other characters stay in order. |
| NumberAdaptor.ParsesGrouping | classes/Leap/Core/DB/ORM/Field/Adaptor/Number.php:113-116 | With the defaults, digits grouped by one `,` (such as `"12,345"`) normalise to the digits alone and are stored as that integer. |
| NumberAdaptor.DelimiterBeforeSeparator | classes/Leap/Core/DB/ORM/Field/Adaptor/Number.php:113-115 | With separator `,` and delimiter `.`, digits written `a.b,c` normalise to `ab.c`: delimiters are removed before separators are turned into `.`. |
| NumberAdaptor.SlashDelimiterStoresZero | classes/Leap/Core/DB/ORM/Field/Adaptor/Number.php:63-71 | A delimiter containing `/` breaks the pattern, so every string is stored as 0. |
| NumberAdaptor.ReplaceLiteral | classes/Leap/Core/DB/ORM/Field/Adaptor/Number.php:114-115 | The replacement yields NULL exactly when the needle holds `/`, which preg_quote() leaves unescaped. |
| JsonAdaptor.JsonMetadata | classes/Leap/Core/DB/ORM/Field/Adaptor/JSON.php:42-52 | Prefix and suffix are the string casts of the settings, and `''` by default. |
| JsonAdaptor.Defaults | classes/Leap/Core/DB/ORM/Field/Adaptor/JSON.php:45-51 | With no settings the prefix and suffix are empty, and reading decodes the whole stored text. |
| JsonAdaptor.Json.Set | classes/Leap/Core/DB/ORM/Field/Adaptor/JSON.php:95-107 | Setting `value` stores an array as `prefix + encode(value) + suffix` and anything else unchanged. Any other key raises, and the model is untouched. |
| JsonAdaptor.Json.Stored | classes/Leap/Core/DB/ORM/Field/Adaptor/JSON.php:98-101 | Arrays are framed JSON text. Other values are kept. |
| JsonAdaptor.Json.Read | classes/Leap/Core/DB/ORM/Field/Adaptor/JSON.php:67-76 | NULL and Expressions pass through undecoded. A value with no string form reads as NULL. Anything else is decoded after the frame is cut off. |
| JsonAdaptor.Json.Get | classes/Leap/Core/DB/ORM/Field/Adaptor/JSON.php:64-83 | `value` reads the model field through Read. Other keys return the metadata entry if it is set and raise otherwise. |
| JsonAdaptor.DecodeInput | classes/Leap/Core/DB/ORM/Field/Adaptor/JSON.php:69-73 | When the text is at least as long as prefix and suffix together, it is the text with |prefix| leading and |suffix| trailing characters cut. Otherwise it is the whole text. |
| JsonAdaptor.LengthsOnly | classes/Leap/Core/DB/ORM/Field/Adaptor/JSON.php:69-73 | Only the lengths of prefix and suffix matter. Their content is never compared with the text. |
| JsonAdaptor.Unframe | classes/Leap/Core/DB/ORM/Field/Adaptor/JSON.php:69-74 | Cutting the frame off framed text gives back the text inside. |
| JsonAdaptor.Json.SetThenRead | classes/Leap/Core/DB/ORM/Field/Adaptor/JSON.php:69-99 | Framing round trip: after an array is set, the decoder is handed exactly the encoder's output. |

## Left out

- `prepare_boolean` (classes/base/db/sqlite/expression.php:52-54) has no member of its own. It returns the PHP boolean `(bool)$expr`, which is `PhpValues.Truthy(expr)`. That is not an SQL literal: interpolated into a statement it becomes `1` or the empty string, not the `'1'` and `'0'` that `PrepareValue` renders for booleans.
- The double branch of `prepare_value` (`sprintf('%F')`), and floats in general, are left out. `Mixed` has no float.
- `as_binary()`, the `$format` arguments of the ByteString accessors (`sprintf`), and `base_convert` are left out. `base_convert` goes through floats and loses precision. The BINARY path takes it as a parameter, `binaryToHex`.
- `number_format`, the `settype(..., 'double')` cast, `json_encode` and `json_decode` are left out. They are parameters of the adaptor classes.
- `PhpValues.StringToInt` does not model integer overflow, or the exponent and float forms of a numeric string.
- The constants of DB_SQL_Operator, DB_SQL_Connector and DB_SQL_JoinType are not part of this model. The usual spellings are assumed: AND, OR, REGEX, NOT REGEX, `!=`, `<>` and the comparison, set and join tokens listed in sqlite_expression.dfy. The assumption most likely to be false is `DB_SQL_Operator::_REGEX` and `DB_SQL_Operator::_NOT_REGEX` (expression.php:167, 171), the only two in that switch without a trailing underscore. If they are not defined, PHP raises an Error at the first `case`, and every COMPARISON call fails.
- The Oracle precompiler's `prepare_operator($operator, 'SET')`, `Command::trim`, the Drizzle precompiler's `prepare_identifier`, the connection's `execute()` and `DataReader::factory` are not part of this model. Each is a function-typed parameter that may fail.
- `DataSource`, `ResultSet`, `DataReader`, the Lock builder factory and `is_connected()` are not part of this model. The first four are records and the last a boolean field. A reader is whatever `Driver.openReader` returns for the command.
- `open()`, `close()`, `begin_transaction()`, `commit()`, `rollback()` and `execute()` of the driver, and the driver `factory()`, are left out. `Driver.SetConnection` stands for what open and close leave behind.
- ConnectionDriver.Driver.Query: the cache is disabled in the source, so the result is always read afresh. The commented-out cache body is not modelled.
- MsSQLSelect.CorrectedWindowText: the ORDER BY expressions are taken to name columns of the numbered sub-query's result. Rewriting table-qualified names for the `[inner]` alias is not modelled.
- ConnectionDriver.Driver.Quote: the `$count` of one loop pass is modelled as the number of characters removed, which is 0 exactly when preg_replace reports 0 replacements. The ESCAPE value is interpolated unescaped, as in the source.
- Objects are cast to the integer 1. An Expression interpolates as its `value()`. Select builders carry their statement text rather than a live builder.
- The Adaptor base class is not part of this model. Its constructor is taken to require that `$metadata['field']` is a string naming a field of the model. The adaptor constructors therefore require that, rather than raising InvalidArgument.
- The ORM model's own `__get`/`__set` are not part of this model. A missing field reads as an InvalidProperty error, and setting a field updates the field map.
- `prepare_identifier`'s raw-SELECT branch follows PHP 7: `count($expr - 1)` is 1, so the test reads `$expr[1]`. PHP 8 raises a TypeError there instead.
- Concurrency, PDO and the driver-level data readers are outside the core.

## Findings

| source | as written | input that shows it | evidently intended | confidence | as-written member | corrected member |
|---|---|---|---|---|---|---|
| src/classes/Leap/Plugin/DB/Oracle/Select/Builder.php:133-137 | The window keeps `"rn"` from offset to offset+limit-1, 1-based, so it skips only offset-1 rows | limit 2, offset 2 over rows [10,20,30,40] returns [20,30] | Skip `offset` rows and return [30,40], as the PostgreSQL and MsSQL builders do | medium (not executed) | OracleSelect.WindowStartsOneRowEarly | OracleSelect.CorrectedStatementPaginates |
| src/classes/Leap/Plugin/DB/Oracle/Select/Builder.php:141-143 | `WHERE ROWNUM >= offset` is applied directly, and ROWNUM only advances for rows that pass, so no row passes once offset ≥ 2 | offset 2 without a limit over [10,20,30] returns [] | Every row after the first `offset` rows, through a numbered sub-query | high (not executed) | OracleSelect.OffsetAloneSelectsNothing | OracleSelect.CorrectedStatementPaginates |
| classes/Leap/Plugin/DB/MsSQL/Select/Builder.php:114-116 | The ROW_NUMBER rewrite rebuilds the query from the columns, FROM and WHERE only, which drops joins, GROUP BY, HAVING and DISTINCT | a query with `INNER JOIN b ON (a.id = b.id)`, limit 10, offset 0 and an ORDER BY renders the same window as without the join | Number the rows of the whole query, DISTINCT and every clause included, as a sub-query | high (not executed) | MsSQLSelect.WindowDropsJoin | MsSQLSelect.CorrectedWindowKeepsQuery |
| classes/base/db/sqlite/expression.php:96-101 | The terminator test reads `$expr[count($expr - 1)]`, which is `$expr[1]`, so a final `;` is never removed | `SELECT 1;` gives `(SELECT 1;)` | Drop a final `;` before parenthesising, giving `(SELECT 1)` | high (not executed) | SQLiteExpression.RawSelectKeepsSemicolon | SQLiteExpression.CorrectedRawSelectDropsTerminator |
| classes/Leap/Core/Data/ByteString.php:161-166 | count() returns `strlen($this->hexcode) * 2`, four times the number of bytes | STRING data `"A"` (hexcode `41`) counts 4 | The byte length the doc-comment promises, `strlen($this->hexcode) / 2`, which is 1 | medium (not executed) | ByteStrings.CountIsFourTimesBytes | ByteStrings.ByteCountOfString |
