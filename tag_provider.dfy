/**
 * TagProvider: the content provider that stores NDEF messages. Each entry point routes its URI
 * through the static matcher and computes the statement it hands to SQLite; the database call
 * itself is outside the model, so a read or write is the statement value it would execute.
 */
module TagProvider {
  import opened Wrappers
  import opened Selection
  import opened Decimal
  import opened UriMatcher

  // Match codes of the route table.
  const NDEF_MESSAGES: nat := 1000
  const NDEF_MESSAGES_ID: nat := 1001
  const NDEF_RECORDS: nat := 1002
  const NDEF_RECORDS_ID: nat := 1003
  const NDEF_TAGS: nat := 1004

  // TagContract.AUTHORITY and the NdefMessages column names (stand-in values; TagContract is not part of this model).
  const AUTHORITY: string := "com.android.apps.tag"
  const ID: string := "_id"
  const TITLE: string := "title"
  const BYTES: string := "bytes"
  const DATE: string := "date"
  const STARRED: string := "starred"

  /** The matcher built by the static initialiser: root code 0 and five registered paths. */
  const MATCHER: Matcher := Matcher(0, [
    Rule(AUTHORITY, [Exact("ndef_msgs")], NDEF_MESSAGES),
    Rule(AUTHORITY, [Exact("ndef_msgs"), Number], NDEF_MESSAGES_ID),
    Rule(AUTHORITY, [Exact("ndef_records")], NDEF_RECORDS),
    Rule(AUTHORITY, [Exact("ndef_records"), Number], NDEF_RECORDS_ID),
    Rule(AUTHORITY, [Exact("ndef_tags")], NDEF_TAGS)
  ])

  /** The projection map of the messages table: every column under its own name. */
  const NDEF_MESSAGES_PROJECTION_MAP: map<string, string> :=
    map[ID := ID, TITLE := TITLE, BYTES := BYTES, DATE := DATE, STARRED := STARRED]

  /** The three tables of TagDBHelper. */
  datatype Table = NdefMessagesTable | NdefRecordsTable | NdefTagsTable

  /** The TagDBHelper table names (stand-in values; TagDBHelper is not part of this model). */
  function TableName(t: Table): string {
    match t
    case NdefMessagesTable => "ndef_msgs"
    case NdefRecordsTable => "ndef_records"
    case NdefTagsTable => "ndef_tags"
  }

  /** The clause that scopes a statement to one message. */
  const ID_SELECTION: string := TableName(NdefMessagesTable) + "._id=?"

  /** The two MIME types getType reports (NdefMessages.CONTENT_TYPE and CONTENT_ITEM_TYPE). */
  datatype ContentType = MessagesContentType | MessageItemContentType

  /** A value stored in a ContentValues; the provider passes these through untouched. */
  datatype ContentValue = NullValue | TextValue(text: string) | IntegerValue(integer: int) | BlobValue(bytes: seq<bv8>)

  type ContentValues = map<string, ContentValue>

  /** The exceptions the entry points throw: IllegalArgumentException and NumberFormatException from parseId. */
  datatype Failure = IllegalArgument(uri: Uri) | NumberFormat(uri: Uri)

  /** The table, WHERE clause and arguments of a read, update or delete. */
  datatype Statement = Statement(table: Table, selection: Option<string>, selectionArgs: Option<seq<string>>)

  /** What query hands to SQLiteQueryBuilder.query. */
  datatype QueryPlan = QueryPlan(statement: Statement, projectionMap: map<string, string>,
                                 projection: Option<seq<string>>, sortOrder: Option<string>)

  /** What updateInTransaction hands to SQLiteDatabase.update. */
  datatype UpdatePlan = UpdatePlan(statement: Statement, values: ContentValues)

  /** What insertInTransaction hands to SQLiteDatabase.insert. */
  datatype InsertPlan = InsertPlan(table: Table, nullColumnHack: string, values: ContentValues)

  /** The insert issued and the URI returned for the row id SQLite reported. */
  datatype Inserted = Inserted(plan: InsertPlan, result: Option<Uri>)

  // The five registered routes, and the root code, in terms of the URI itself.

  predicate IsMessagesUri(u: Uri) {
    u.authority == Some(AUTHORITY) && u.path == ["ndef_msgs"]
  }

  predicate IsMessageItemUri(u: Uri) {
    u.authority == Some(AUTHORITY) && |u.path| == 2 && u.path[0] == "ndef_msgs" && AllDigits(u.path[1])
  }

  predicate IsRecordsUri(u: Uri) {
    u.authority == Some(AUTHORITY) && u.path == ["ndef_records"]
  }

  predicate IsRecordItemUri(u: Uri) {
    u.authority == Some(AUTHORITY) && |u.path| == 2 && u.path[0] == "ndef_records" && AllDigits(u.path[1])
  }

  predicate IsTagsUri(u: Uri) {
    u.authority == Some(AUTHORITY) && u.path == ["ndef_tags"]
  }

  predicate IsRootUri(u: Uri) {
    u.authority.None? && u.path == []
  }

  /** An item URI whose id Long.parseLong accepts. */
  predicate HasParsableId(u: Uri)
    requires IsMessageItemUri(u)
  {
    |u.path[1]| > 0 && ValueOf(u.path[1]) <= LONG_MAX
  }

  /**
   * The fall-through switch shared by query, update and delete: an item URI adds the id
   * clause after the caller's clause and the id after the caller's arguments, then both
   * cases address the messages table; any other match code throws.
   */
  function MessagesStatement(uri: Uri, selection: Option<string>, selectionArgs: Option<seq<string>>)
    : Result<Statement, Failure>
  {
    var code := Match(MATCHER, uri);
    if code == NDEF_MESSAGES_ID then
      match ParseId(uri)
      case None => Err(NumberFormat(uri))
      case Some(id) =>
        Ok(Statement(NdefMessagesTable,
                     ConcatenateWhere(selection, Some(ID_SELECTION)),
                     AppendedArgs(selectionArgs, Some([LongToString(id)]))))
    else if code == NDEF_MESSAGES then
      Ok(Statement(NdefMessagesTable, selection, selectionArgs))
    else
      Err(IllegalArgument(uri))
  }

  /** query: the statement with the messages projection map, projection and sort order passed on. */
  function Query(uri: Uri, projection: Option<seq<string>>, selection: Option<string>,
                 selectionArgs: Option<seq<string>>, sortOrder: Option<string>): Result<QueryPlan, Failure>
  {
    match MessagesStatement(uri, selection, selectionArgs)
    case Err(e) => Err(e)
    case Ok(s) => Ok(QueryPlan(s, NDEF_MESSAGES_PROJECTION_MAP, projection, sortOrder))
  }

  /** updateInTransaction: the statement with the new values. */
  function UpdateInTransaction(uri: Uri, values: ContentValues, selection: Option<string>,
                               selectionArgs: Option<seq<string>>): Result<UpdatePlan, Failure>
  {
    match MessagesStatement(uri, selection, selectionArgs)
    case Err(e) => Err(e)
    case Ok(s) => Ok(UpdatePlan(s, values))
  }

  /** deleteInTransaction: the statement alone. */
  function DeleteInTransaction(uri: Uri, selection: Option<string>, selectionArgs: Option<seq<string>>)
    : Result<Statement, Failure>
  {
    MessagesStatement(uri, selection, selectionArgs)
  }

  /**
   * insertInTransaction: one insert into the table of a collection URI; rowId is what
   * SQLiteDatabase.insert reports for it, -1 when no row was inserted.
   */
  function InsertInTransaction(uri: Uri, values: ContentValues, rowId: Long): Result<Inserted, Failure> {
    var code := Match(MATCHER, uri);
    var plan :=
      if code == NDEF_MESSAGES then Some(InsertPlan(NdefMessagesTable, TITLE, values))
      else if code == NDEF_RECORDS then Some(InsertPlan(NdefRecordsTable, "", values))
      else if code == NDEF_TAGS then Some(InsertPlan(NdefTagsTable, "", values))
      else None;
    match plan
    case None => Err(IllegalArgument(uri))
    case Some(p) => Ok(Inserted(p, if rowId >= 0 then Some(WithAppendedId(uri, rowId)) else None))
  }

  /** getType: a MIME type for the two message routes, null for any other. */
  function GetType(uri: Uri): Option<ContentType> {
    var code := Match(MATCHER, uri);
    if code == NDEF_MESSAGES_ID then Some(MessageItemContentType)
    else if code == NDEF_MESSAGES then Some(MessagesContentType)
    else None
  }

  // ---------------------------------------------------------------------------------------
  // The route table.

  lemma RuleShapes(u: Uri)
    ensures RuleMatches(MATCHER.rules[0], u) <==> IsMessagesUri(u)
    ensures RuleMatches(MATCHER.rules[1], u) <==> IsMessageItemUri(u)
    ensures RuleMatches(MATCHER.rules[2], u) <==> IsRecordsUri(u)
    ensures RuleMatches(MATCHER.rules[3], u) <==> IsRecordItemUri(u)
    ensures RuleMatches(MATCHER.rules[4], u) <==> IsTagsUri(u)
  {
    if |u.path| == 1 {
      assert u.path == [u.path[0]];
    }
  }

  /** The matcher recognises exactly the five registered paths and the root; everything else fails to match. */
  lemma MatcherRoutes(u: Uri)
    ensures Match(MATCHER, u) == NDEF_MESSAGES <==> IsMessagesUri(u)
    ensures Match(MATCHER, u) == NDEF_MESSAGES_ID <==> IsMessageItemUri(u)
    ensures Match(MATCHER, u) == NDEF_RECORDS <==> IsRecordsUri(u)
    ensures Match(MATCHER, u) == NDEF_RECORDS_ID <==> IsRecordItemUri(u)
    ensures Match(MATCHER, u) == NDEF_TAGS <==> IsTagsUri(u)
    ensures Match(MATCHER, u) == 0 <==> IsRootUri(u)
    ensures Match(MATCHER, u) == NO_MATCH <==>
              !IsMessagesUri(u) && !IsMessageItemUri(u) && !IsRecordsUri(u) &&
              !IsRecordItemUri(u) && !IsTagsUri(u) && !IsRootUri(u)
  {
    RuleShapes(u);
    var rules := MATCHER.rules;
    var f := FirstMatch(rules, u);
    if !IsRootUri(u) {
      if f.Some? {
        var i := f.value;
        assert i < 5;
        assert rules[i].code == 1000 + i;
      }
    }
  }

  // ---------------------------------------------------------------------------------------
  // query, update and delete.

  /** The statement an item URI ndef_msgs/N leads to, for the value n of N. */
  function ItemStatement(selection: Option<string>, selectionArgs: Option<seq<string>>, n: nat): Statement {
    Statement(NdefMessagesTable, ConcatenateWhere(selection, Some(ID_SELECTION)),
              AppendedArgs(selectionArgs, Some([ToDecimal(n)])))
  }

  /**
   * The shared switch: the collection passes the caller's clause and arguments through, an item
   * whose id parses gets the id statement, an item whose id does not throws NumberFormatException,
   * and every other URI, the registered record and tag routes among them, IllegalArgumentException.
   */
  lemma MessagesStatementRoutes(u: Uri, selection: Option<string>, selectionArgs: Option<seq<string>>)
    ensures var r := MessagesStatement(u, selection, selectionArgs);
            (IsMessagesUri(u) ==> r == Ok(Statement(NdefMessagesTable, selection, selectionArgs))) &&
            (IsMessageItemUri(u) && HasParsableId(u) ==>
               r == Ok(ItemStatement(selection, selectionArgs, ValueOf(u.path[1])))) &&
            (IsMessageItemUri(u) && !HasParsableId(u) ==> r == Err(NumberFormat(u))) &&
            (!IsMessagesUri(u) && !IsMessageItemUri(u) ==> r == Err(IllegalArgument(u)))
  {
    MatcherRoutes(u);
    if IsMessageItemUri(u) {
      ParseLongDigits(u.path[1]);
    }
  }

  /** query on each kind of URI: the plan it builds or the exception it throws. */
  lemma QueryDispatch(u: Uri, projection: Option<seq<string>>, selection: Option<string>,
                      selectionArgs: Option<seq<string>>, sortOrder: Option<string>)
    ensures var r := Query(u, projection, selection, selectionArgs, sortOrder);
            (IsMessagesUri(u) ==>
               r == Ok(QueryPlan(Statement(NdefMessagesTable, selection, selectionArgs),
                                 NDEF_MESSAGES_PROJECTION_MAP, projection, sortOrder))) &&
            (IsMessageItemUri(u) && HasParsableId(u) ==>
               r == Ok(QueryPlan(ItemStatement(selection, selectionArgs, ValueOf(u.path[1])),
                                 NDEF_MESSAGES_PROJECTION_MAP, projection, sortOrder))) &&
            (IsMessageItemUri(u) && !HasParsableId(u) ==> r == Err(NumberFormat(u))) &&
            (!IsMessagesUri(u) && !IsMessageItemUri(u) ==> r == Err(IllegalArgument(u)))
  {
    MessagesStatementRoutes(u, selection, selectionArgs);
  }

  /** update on each kind of URI: the plan it builds or the exception it throws. */
  lemma UpdateDispatch(u: Uri, values: ContentValues, selection: Option<string>, selectionArgs: Option<seq<string>>)
    ensures var r := UpdateInTransaction(u, values, selection, selectionArgs);
            (IsMessagesUri(u) ==>
               r == Ok(UpdatePlan(Statement(NdefMessagesTable, selection, selectionArgs), values))) &&
            (IsMessageItemUri(u) && HasParsableId(u) ==>
               r == Ok(UpdatePlan(ItemStatement(selection, selectionArgs, ValueOf(u.path[1])), values))) &&
            (IsMessageItemUri(u) && !HasParsableId(u) ==> r == Err(NumberFormat(u))) &&
            (!IsMessagesUri(u) && !IsMessageItemUri(u) ==> r == Err(IllegalArgument(u)))
  {
    MessagesStatementRoutes(u, selection, selectionArgs);
  }

  /** delete on each kind of URI: the statement it issues or the exception it throws. */
  lemma DeleteDispatch(u: Uri, selection: Option<string>, selectionArgs: Option<seq<string>>)
    ensures var r := DeleteInTransaction(u, selection, selectionArgs);
            (IsMessagesUri(u) ==> r == Ok(Statement(NdefMessagesTable, selection, selectionArgs))) &&
            (IsMessageItemUri(u) && HasParsableId(u) ==>
               r == Ok(ItemStatement(selection, selectionArgs, ValueOf(u.path[1])))) &&
            (IsMessageItemUri(u) && !HasParsableId(u) ==> r == Err(NumberFormat(u))) &&
            (!IsMessagesUri(u) && !IsMessageItemUri(u) ==> r == Err(IllegalArgument(u)))
  {
    MessagesStatementRoutes(u, selection, selectionArgs);
  }

  /**
   * The id statement: the caller's clause first and the id clause second, the bare id clause
   * without parentheses when the caller's is empty; the caller's arguments first and the id last.
   */
  lemma ItemStatementShape(selection: Option<string>, selectionArgs: Option<seq<string>>, n: nat)
    ensures var s := ItemStatement(selection, selectionArgs, n);
            s.table == NdefMessagesTable &&
            (IsEmpty(selection) ==> s.selection == Some(ID_SELECTION)) &&
            (!IsEmpty(selection) ==> s.selection == Some("(" + selection.value + ") AND (" + ID_SELECTION + ")")) &&
            s.selectionArgs.Some? &&
            Args(s.selectionArgs) == Args(selectionArgs) + [ToDecimal(n)]
  {
    ConcatenateWhereCases(selection, Some(ID_SELECTION));
    AppendedArgsContents(selectionArgs, Some([ToDecimal(n)]));
  }

  /** The id argument is the canonical decimal of the segment: zeros in front are dropped, the value kept. */
  lemma ItemArgumentValue(selection: Option<string>, selectionArgs: Option<seq<string>>, n: nat)
    ensures var a := Args(ItemStatement(selection, selectionArgs, n).selectionArgs);
            |a| == |Args(selectionArgs)| + 1 && IsCanonical(a[|a| - 1]) && ValueOf(a[|a| - 1]) == n
  {
    AppendedArgsContents(selectionArgs, Some([ToDecimal(n)]));
    ValueOfToDecimal(n);
  }

  lemma IdSelectionPlaceholders()
    ensures Placeholders(ID_SELECTION) == 1
  {
    var t := TableName(NdefMessagesTable);
    PlaceholdersAppend(t, "._id=?");
    assert Placeholders(t) == 0;
    assert Placeholders("._id=?") == 1;
  }

  /** A caller clause with one argument per placeholder stays so after the id clause and id are added. */
  lemma StatementBalanced(u: Uri, selection: Option<string>, selectionArgs: Option<seq<string>>)
    requires Balanced(selection, selectionArgs)
    requires MessagesStatement(u, selection, selectionArgs).Ok?
    ensures var s := MessagesStatement(u, selection, selectionArgs).value;
            Balanced(s.selection, s.selectionArgs)
  {
    MatcherRoutes(u);
    if IsMessageItemUri(u) {
      MessagesStatementRoutes(u, selection, selectionArgs);
      IdSelectionPlaceholders();
      var n := ValueOf(u.path[1]);
      assert Balanced(Some(ID_SELECTION), Some([ToDecimal(n)]));
      ConcatenateKeepsBalance(selection, selectionArgs, Some(ID_SELECTION), Some([ToDecimal(n)]));
    }
  }

  // ---------------------------------------------------------------------------------------
  // insert.

  /**
   * insert accepts the three collection URIs, each bound to its own table, and throws for
   * every other URI; it returns the URI with the row id appended exactly when the id is non-negative.
   */
  lemma InsertRoutes(u: Uri, values: ContentValues, rowId: Long)
    ensures var r := InsertInTransaction(u, values, rowId);
            (r.Ok? <==> IsMessagesUri(u) || IsRecordsUri(u) || IsTagsUri(u)) &&
            (r.Err? ==> r.error == IllegalArgument(u)) &&
            (IsMessagesUri(u) ==> r.value.plan == InsertPlan(NdefMessagesTable, TITLE, values)) &&
            (IsRecordsUri(u) ==> r.value.plan == InsertPlan(NdefRecordsTable, "", values)) &&
            (IsTagsUri(u) ==> r.value.plan == InsertPlan(NdefTagsTable, "", values)) &&
            (r.Ok? ==> (r.value.result.Some? <==> rowId >= 0)) &&
            (r.Ok? && rowId >= 0 ==> r.value.result == Some(WithAppendedId(u, rowId)))
  {
    MatcherRoutes(u);
  }

  /**
   * The URI insert returns for a message or a record is that item's route and parses back to
   * the row id; the one it returns for a tag matches no route.
   */
  lemma InsertedUriRoutes(u: Uri, values: ContentValues, rowId: Long)
    requires IsMessagesUri(u) || IsRecordsUri(u) || IsTagsUri(u)
    requires rowId >= 0
    ensures var r := InsertInTransaction(u, values, rowId);
            r.Ok? && r.value.result.Some? &&
            var v := r.value.result.value;
            ParseId(v) == Some(rowId) &&
            (IsMessagesUri(u) ==> Match(MATCHER, v) == NDEF_MESSAGES_ID && IsMessageItemUri(v) && HasParsableId(v)) &&
            (IsRecordsUri(u) ==> Match(MATCHER, v) == NDEF_RECORDS_ID) &&
            (IsTagsUri(u) ==> Match(MATCHER, v) == NO_MATCH)
  {
    InsertRoutes(u, values, rowId);
    var v := WithAppendedId(u, rowId);
    var d := ToDecimal(rowId as nat);
    assert v.path == u.path + [d];
    ValueOfToDecimal(rowId as nat);
    MatcherRoutes(v);
  }

  /** A message inserted with row id n is read back, updated or deleted by the id clause with argument n. */
  lemma InsertedMessageAddressable(u: Uri, values: ContentValues, rowId: Long,
                                   selection: Option<string>, selectionArgs: Option<seq<string>>)
    requires IsMessagesUri(u) && rowId >= 0
    ensures var r := InsertInTransaction(u, values, rowId);
            r.Ok? && r.value.result.Some? &&
            MessagesStatement(r.value.result.value, selection, selectionArgs) ==
              Ok(ItemStatement(selection, selectionArgs, rowId as nat))
  {
    InsertedUriRoutes(u, values, rowId);
    var v := InsertInTransaction(u, values, rowId).value.result.value;
    ValueOfToDecimal(rowId as nat);
    assert v.path[1] == ToDecimal(rowId as nat);
    MessagesStatementRoutes(v, selection, selectionArgs);
  }

  // ---------------------------------------------------------------------------------------
  // getType and the projection map.

  /** getType names the item type for ndef_msgs/N, the collection type for ndef_msgs, and null otherwise. */
  lemma GetTypeRoutes(u: Uri)
    ensures GetType(u) == Some(MessageItemContentType) <==> IsMessageItemUri(u)
    ensures GetType(u) == Some(MessagesContentType) <==> IsMessagesUri(u)
    ensures GetType(u).None? <==> !IsMessagesUri(u) && !IsMessageItemUri(u)
  {
    MatcherRoutes(u);
  }

  /** getType does not parse the id: an id past the range of a long is typed as an item that query rejects. */
  lemma TypedItemQueryRejects()
    ensures var u := Uri(Some(AUTHORITY), ["ndef_msgs", ToDecimal(LONG_MAX + 1)]);
            GetType(u) == Some(MessageItemContentType) &&
            Query(u, None, None, None, None) == Err(NumberFormat(u))
  {
    var u := Uri(Some(AUTHORITY), ["ndef_msgs", ToDecimal(LONG_MAX + 1)]);
    ValueOfToDecimal(LONG_MAX + 1);
    GetTypeRoutes(u);
    QueryDispatch(u, None, None, None, None);
  }

  /** The projection map exposes the five message columns, each under its own name. */
  lemma ProjectionMapIdentity()
    ensures NDEF_MESSAGES_PROJECTION_MAP.Keys == {ID, TITLE, BYTES, DATE, STARRED}
    ensures forall c :: c in NDEF_MESSAGES_PROJECTION_MAP ==> NDEF_MESSAGES_PROJECTION_MAP[c] == c
  {
  }
}
