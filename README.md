# TagProvider: routing and selection building of the NFC tag content provider

This project models the core of `TagProvider`, the Android content provider that stores NDEF
messages read from NFC tags. A request names a content URI. The provider classifies the URI with
a static `UriMatcher` table of five routes, codes 1000 to 1004. For a message item it adds an id
clause to the caller's WHERE clause and the id to the caller's arguments. It then hands a
statement (table, selection, arguments) to SQLite. The model states each entry point as a total
function. The function returns that statement, or the exception the provider throws.

Modules, one per concern of `TagProvider.java`:

- `Wrappers` (wrappers.dfy): `Option` stands for a Java reference that may be null, `Result` for a call that may throw.
- `Selection` (selection.dfy): `concatenateWhere` (on nullable strings) and `appendSelectionArgs`. The latter appears twice: as a method over nullable arrays with the two copy loops of its `System.arraycopy` calls, and as the function `AppendedArgs` on argument lists that the method is proved against. The module also counts `?` placeholders, to state that clause and arguments stay in step.
- `Decimal` (decimal.dfy): `Long.toString` and `Long.parseLong` in radix 10, as used by `ContentUris.parseId` and `withAppendedId`.
- `UriMatcher` (uri_matcher.dfy): a URI as authority plus path segments. It holds the matcher as an ordered list of registered paths (`#` = a segment of ASCII digits), plus `parseId` and `withAppendedId`.
- `TagProvider` (tag_provider.dfy): the route table built by the static initialiser, the projection map, `query`, `insertInTransaction`, `updateInTransaction`, `deleteInTransaction` and `getType`, with the lemmas about them.

Modelling choices:

- Java `null` is `None`: a null selection, null argument array, null projection, null sort order or null returned URI.
- `TextUtils.isEmpty` is `IsEmpty`: null or length zero.
- SQLite is not modelled. A read or write is the plan value it would execute (`QueryPlan`, `UpdatePlan`, `InsertPlan`, `Statement`). The row id that `SQLiteDatabase.insert` reports is a parameter of `InsertInTransaction`, of Java type `long`.
- `TagContract` and `TagDBHelper` are not part of this model. The authority, the table names and the column names are stand-in strings. The tables are the constructors of `Table`, and the only fact the proofs use about the stand-in table name is that it holds no `?`. The two MIME types are the constructors of `ContentType`.
- `UriMatcher` keeps a trie. It walks the trie one segment at a time and takes the first child that matches. The model takes the first registered path that matches the whole URI. The two agree for this table because at every node of its trie at most one child accepts a given segment: three distinct literals under the authority, and a lone `#` under each of `ndef_msgs` and `ndef_records`.
- `Uri.getPathSegments()` never yields an empty segment, but `Uri.path` admits one. The `#` rule then accepts `""`, and `parseId` rejects it like any unparsable id, so `HasParsableId` asks for a non-empty segment. Such a URI cannot occur.
- `new UriMatcher(0)` gives code 0 to a URI with neither authority nor path. The model keeps this. No entry point accepts code 0.
- `parseId` reads the last segment with `Long.parseLong`. A `#` segment whose value exceeds 2^63-1 therefore makes `query`, `update` and `delete` throw `NumberFormatException` (`Failure.NumberFormat`). `getType` never parses and still reports the item type (`TagProvider.TypedItemQueryRejects`).

Facts of the code the model keeps:

- The caller's clause comes first and the id clause second. The caller's arguments come first and the id argument last (TagProvider.java lines 112-115).
- With an empty caller clause the selection is the bare `<messages table>._id=?`, without parentheses (lines 94-95).
- The id clause names its table: `<messages table>._id=?`.
- `ndef_records/#` is registered in the matcher. Query, update, delete and insert still reject it, and getType returns null for it (lines 124-126, 157-159, 188-190, 214-216, 232-233).

## Model

| member | source | states |
|---|---|---|
| `Selection.ConcatenateWhereCases` | src/com/android/apps/tag/provider/TagProvider.java:93-102 | an empty (null or "") first clause gives the second unchanged; a non-empty first with an empty second gives the first unchanged; two non-empty clauses give exactly "(" + a + ") AND (" + b + ")" |
| `Selection.ConcatenateWhereEmpty` | src/com/android/apps/tag/provider/TagProvider.java:93-102 | the joined clause is empty if and only if both clauses are empty |
| `Selection.ConcatenateWhereOrder` | src/com/android/apps/tag/provider/TagProvider.java:101 | of two non-empty clauses, a stands first inside the first parentheses and b second inside the second, joined by ") AND (" |
| `Selection.ConcatenateWherePlaceholders` | src/com/android/apps/tag/provider/TagProvider.java:93-102 | the joined clause holds exactly the placeholders of both clauses |
| `Selection.AppendedArgsContents` | src/com/android/apps/tag/provider/TagProvider.java:80-88 | the result lists the original arguments followed by the new ones; it is the new array itself when the original is null or empty; it is null only when there are no original arguments and the new array is null |
| `Selection.ConcatenateKeepsBalance` | src/com/android/apps/tag/provider/TagProvider.java:80-102 | joining two clauses, each with one argument per placeholder, and appending their arguments keeps one argument per placeholder |
| `Selection.AppendSelectionArgs` | src/com/android/apps/tag/provider/TagProvider.java:80-88 | returns newValues itself when originalValues is null or of length 0; otherwise a fresh array of length \|original\| + \|new\| holding original then new; both inputs unchanged |
| `Decimal.ToDecimal` | src/com/android/apps/tag/provider/TagProvider.java:115 | Long.toString of a non-negative number is a non-empty digit string without a leading zero |
| `Decimal.ValueOfToDecimal` | src/com/android/apps/tag/provider/TagProvider.java:115 | the digits of toString denote the number printed |
| `Decimal.ToDecimalValueOf` | src/com/android/apps/tag/provider/TagProvider.java:115 | printing the value of a canonical digit string gives that string back |
| `Decimal.ParseLongToString` | src/com/android/apps/tag/provider/TagProvider.java:115 | Long.parseLong undoes Long.toString on every long, negative ones included |
| `Decimal.ParseLongDigits` | src/com/android/apps/tag/provider/TagProvider.java:115 | on a digit string parseLong succeeds if and only if the string is non-empty and its value is at most 2^63-1, and then yields that value |
| `Decimal.LeadingZerosDropped` | src/com/android/apps/tag/provider/TagProvider.java:115 | parseLong("007") is 7 and toString(7) is "7": the id argument is canonical, not the raw segment |
| `Decimal.OverflowRejected` | src/com/android/apps/tag/provider/TagProvider.java:115 | the digit string of 2^63 matches `#` but parseLong rejects it |
| `UriMatcher.FirstMatch` | src/com/android/apps/tag/provider/TagProvider.java:109 | the index found is of a registered path that matches, and no earlier path matches; none is found only when no path matches |
| `UriMatcher.WithAppendedId` | src/com/android/apps/tag/provider/TagProvider.java:163 | keeps the authority and path and appends one segment, the id's Long.toString text, which parseId reads back as the id |
| `TagProvider.MatcherRoutes` | src/com/android/apps/tag/provider/TagProvider.java:50-60 | ndef_msgs is 1000, ndef_msgs/# is 1001, ndef_records is 1002, ndef_records/# is 1003, ndef_tags is 1004, each if and only if; the URI with neither authority nor path is 0; every other URI fails to match |
| `TagProvider.ProjectionMapIdentity` | src/com/android/apps/tag/provider/TagProvider.java:62-68 | the projection map has exactly the five message columns as keys and maps each to itself |
| `TagProvider.MessagesStatementRoutes` | src/com/android/apps/tag/provider/TagProvider.java:110-127 | the shared switch: the collection passes the caller's clause and arguments through; an item with a parsable id gets the id statement; an item whose id overflows throws NumberFormatException; every other URI, records and tags included, throws IllegalArgumentException |
| `TagProvider.QueryDispatch` | src/com/android/apps/tag/provider/TagProvider.java:104-134 | query reads the messages table with the messages projection map, passing projection and sort order on; it scopes item URIs by id and throws for every URI other than ndef_msgs and ndef_msgs/# |
| `TagProvider.UpdateDispatch` | src/com/android/apps/tag/provider/TagProvider.java:168-194 | update writes the values to the messages table under the caller's or the id-scoped statement; it throws for every URI other than ndef_msgs and ndef_msgs/# |
| `TagProvider.DeleteDispatch` | src/com/android/apps/tag/provider/TagProvider.java:196-220 | delete issues the caller's or the id-scoped statement on the messages table; it throws for every URI other than ndef_msgs and ndef_msgs/# |
| `TagProvider.ItemStatementShape` | src/com/android/apps/tag/provider/TagProvider.java:111-115 | the id statement puts the caller's clause first and "<table>._id=?" second, or the bare id clause when the caller's is empty; its arguments are the caller's followed by the id's decimal form |
| `TagProvider.ItemArgumentValue` | src/com/android/apps/tag/provider/TagProvider.java:114-115 | the last argument of the id statement is one extra argument, a canonical decimal whose value is the id |
| `TagProvider.StatementBalanced` | src/com/android/apps/tag/provider/TagProvider.java:111-115 | if the caller's clause has one argument per placeholder, so has the statement query, update and delete issue |
| `TagProvider.InsertRoutes` | src/com/android/apps/tag/provider/TagProvider.java:136-166 | insert accepts exactly ndef_msgs, ndef_records and ndef_tags, each into its own table (messages with TITLE as null-column hack, the others with ""), and throws IllegalArgumentException otherwise; it returns the URI with the id appended if and only if the id is at least 0, else null |
| `TagProvider.InsertedUriRoutes` | src/com/android/apps/tag/provider/TagProvider.java:162-163 | the returned URI parses back to the row id; for a message it is the ndef_msgs/# route, for a record the ndef_records/# route; for a tag it matches no route |
| `TagProvider.InsertedMessageAddressable` | src/com/android/apps/tag/provider/TagProvider.java:162-163 | query, update and delete on the URI returned for a new message issue the id statement for that row id |
| `TagProvider.GetTypeRoutes` | src/com/android/apps/tag/provider/TagProvider.java:222-234 | getType gives the item type exactly for ndef_msgs/#, the collection type exactly for ndef_msgs, and null for every other URI, records and tags included; it never throws |
| `TagProvider.TypedItemQueryRejects` | src/com/android/apps/tag/provider/TagProvider.java:224-231 | for ndef_msgs/9223372036854775808 getType reports the item type while query throws NumberFormatException |

## Left out

- SQLite: `getReadableDatabase`, `getWritableDatabase`, `SQLiteQueryBuilder.query`, `SQLiteDatabase.insert`, `update` and `delete` are a foreign library. The model returns the statement each entry point would execute. The row id of an insert is a parameter. The row counts of update and delete, and the cursor of query, are not modelled.
- The cursor's `setNotificationUri` registration (line 131) and the `cursor != null` test: a ContentResolver call with no effect on the statement.
- Transactions and `notifyChange` (lines 236-239): the bracketing and the once-per-write notification belong to the `SQLiteContentProvider` superclass, which is not part of this model. `notifyChange` itself is only a ContentResolver call.
- `getDatabaseHelper` (lines 71-74): it constructs `TagDBHelper`, which is not part of this model.
- `TagContract` and `TagDBHelper` constants: stand-in strings, as said above.
- `UriMatcher`: the trie itself, `*` wildcards, and the `addURI` form with a leading `/`. None of them is used by this table.
- URIs: scheme, query string, fragment and percent-encoding. The matcher and `parseId` read only the authority and the decoded path segments.
- `Decimal.ParseLong`: only ASCII digits. `Long.parseLong` also accepts other Unicode decimal digits. No segment that `#` accepts contains one.
- `Selection.AppendSelectionArgs`: requires that `newValues` is non-null when `originalValues` is non-empty. The Java code would throw NullPointerException there. Every caller in the provider passes a fresh one-element array.
- Null elements inside an argument array: `appendSelectionArgs` copies them through, but an argument is a `string` here and cannot be null. SQLite refuses a null bind argument anyway.
