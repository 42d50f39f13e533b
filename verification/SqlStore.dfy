/**
 * The PostgreSQL store as relations: tables are maps and sets without an order,
 * a query is any answer its WHERE, ORDER BY and LIMIT clauses allow. Each
 * statement is compared with the in-memory store.
 */
module SqlStore {
  import opened Prelude
  import opened Text
  import opened OrderStore
  import T = TradeStore

  // ---- tap_orders ----

  /** NULL is None. */
  datatype SqlRow = SqlRow(
    symbol: string, native: Option<string>, orderNo: Option<string>, serverFlag: Option<string>,
    status: Status, message: string)

  /** UNIQUE (client_id, strategy_id, client_order_id) makes the table a map. */
  type SqlOrders = map<Key, SqlRow>

  function OrEmpty(c: Option<string>): string {
    if c.Some? then c.value else ""
  }

  function NullIfEmpty(v: string): Option<string> {
    if v == "" then None else Some(v)
  }

  function Coalesce(a: Option<string>, b: Option<string>): Option<string> {
    if a.Some? then a else b
  }

  function Read(r: SqlRow): Record {
    Record(r.symbol, OrEmpty(r.native), OrEmpty(r.orderNo), OrEmpty(r.serverFlag), r.status, r.message)
  }

  /** Identifier columns hold NULL rather than the empty string. */
  ghost predicate NoEmptyText(rows: SqlOrders) {
    forall k :: k in rows ==>
      && rows[k].native != Some("") && rows[k].orderNo != Some("")
      && rows[k].serverFlag != Some("")
  }

  ghost predicate SameNative(a: SqlRow, b: SqlRow) {
    a.native.Some? && a.native == b.native
  }

  ghost predicate SameOrderKey(a: SqlRow, b: SqlRow) {
    a.orderNo.Some? && a.serverFlag.Some? && a.orderNo == b.orderNo && a.serverFlag == b.serverFlag
  }

  ghost predicate Clash(a: SqlRow, b: SqlRow) {
    SameNative(a, b) || SameOrderKey(a, b)
  }

  /** The two partial unique indexes. */
  ghost predicate Indexed(rows: SqlOrders) {
    forall k, l {:trigger Clash(rows[k], rows[l])} :: k in rows && l in rows && k != l ==> !Clash(rows[k], rows[l])
  }

  /** The two stores hold the same orders. */
  ghost predicate Agrees(rows: SqlOrders, t: Orders) {
    && t.Valid()
    && rows.Keys == t.rows.Keys
    && forall k :: k in rows ==> Read(rows[k]) == t.rows[k]
  }

  datatype SqlError = UniqueViolation

  /** A statement commits only when the unique indexes still hold. */
  ghost function Commit(rows: SqlOrders): Result<SqlOrders, SqlError> {
    if Indexed(rows) then Ok(rows) else Err(UniqueViolation)
  }

  ghost function SqlReserve(rows: SqlOrders, k: Key, symbol: string): SqlOrders {
    if k in rows then rows else rows[k := SqlRow(symbol, None, None, None, PendingSubmit, "")]
  }

  ghost function SqlSetNative(rows: SqlOrders, key: Key, native: string): Result<SqlOrders, SqlError> {
    Commit(map k | k in rows :: if k == key then rows[k].(native := Some(native), status := Accepted) else rows[k])
  }

  ghost function SqlUpdated(r: SqlRow, orderNo: string, serverFlag: string, status: Status): SqlRow {
    r.(orderNo := Coalesce(NullIfEmpty(orderNo), r.orderNo),
       serverFlag := Coalesce(NullIfEmpty(serverFlag), r.serverFlag),
       status := status)
  }

  ghost function SqlUpdateTap(rows: SqlOrders, native: string, orderNo: string, serverFlag: string, status: Status)
    : Result<SqlOrders, SqlError>
  {
    if native == "" then Ok(rows)
    else Commit(map k | k in rows ::
                  if rows[k].native == Some(native) then SqlUpdated(rows[k], orderNo, serverFlag, status) else rows[k])
  }

  ghost function SqlMarkFailed(rows: SqlOrders, key: Key, message: string): SqlOrders {
    map k | k in rows :: if k == key then rows[k].(status := SubmitFailed, message := message) else rows[k]
  }

  ghost predicate SqlHit(r: SqlRow, orderNo: string, serverFlag: string) {
    r.orderNo == Some(orderNo) && (serverFlag == "" || r.serverFlag == Some(serverFlag))
  }

  /** LIMIT 1 over an order the model leaves open: any matching row, or none when none matches. */
  ghost predicate SqlFindByNative(rows: SqlOrders, native: string, answer: Option<Key>) {
    if native == "" then answer.None?
    else if answer.Some? then answer.value in rows && rows[answer.value].native == Some(native)
    else forall k :: k in rows ==> rows[k].native != Some(native)
  }

  ghost predicate SqlFindByOrderNo(rows: SqlOrders, orderNo: string, serverFlag: string, answer: Option<Key>) {
    if orderNo == "" then answer.None?
    else if answer.Some? then answer.value in rows && SqlHit(rows[answer.value], orderNo, serverFlag)
    else forall k :: k in rows ==> !SqlHit(rows[k], orderNo, serverFlag)
  }

  lemma ReserveIndexed(rows: SqlOrders, k: Key, symbol: string)
    requires Indexed(rows) && NoEmptyText(rows)
    ensures Indexed(SqlReserve(rows, k, symbol)) && NoEmptyText(SqlReserve(rows, k, symbol))
  {
    var after := SqlReserve(rows, k, symbol);
    forall l, m | l in after && m in after && l != m
      ensures !Clash(after[l], after[m])
    {
      if l in rows && m in rows {
        assert !Clash(rows[l], rows[m]);
      }
    }
  }

  /** ON CONFLICT DO NOTHING and the in-memory check reserve alike. */
  lemma ReserveAgrees(rows: SqlOrders, t: Orders, k: Key, symbol: string)
    requires Agrees(rows, t)
    ensures Agrees(SqlReserve(rows, k, symbol), Reserve(t, k, symbol))
  {
    ReserveValid(t, k, symbol);
  }

  /** Memory raises for an unknown key where the UPDATE touches no row; otherwise they agree. */
  lemma SetNativeAgrees(rows: SqlOrders, t: Orders, key: Key, native: string)
    requires Agrees(rows, t) && Indexed(rows) && native != ""
    ensures SqlSetNative(rows, key, native).Ok? <==>
              key !in rows || forall k :: k in rows && k != key ==> rows[k].native != Some(native)
    ensures key in t.rows && SqlSetNative(rows, key, native).Ok? ==>
              Agrees(SqlSetNative(rows, key, native).value, SetNative(t, key, native))
    ensures key !in t.rows ==> SqlSetNative(rows, key, native) == Ok(rows)
  {
    var after :=
      map k | k in rows :: if k == key then rows[k].(native := Some(native), status := Accepted) else rows[k];
    if key !in rows {
      assert after == rows;
    } else if k :| k in rows && k != key && rows[k].native == Some(native) {
      assert Clash(after[k], after[key]);
      assert !Indexed(after);
    } else {
      forall l, m | l in after && m in after && l != m
        ensures !Clash(after[l], after[m])
      {
        assert !Clash(rows[l], rows[m]);
      }
      assert Indexed(after);
      SetNativeRows(rows, after, t, key, native);
    }
  }

  lemma SetNativeRows(rows: SqlOrders, after: SqlOrders, t: Orders, key: Key, native: string)
    requires Agrees(rows, t) && key in rows && native != ""
    requires after ==
               map k | k in rows :: if k == key then rows[k].(native := Some(native), status := Accepted) else rows[k]
    ensures Agrees(after, SetNative(t, key, native))
  {
    forall k | k in rows
      ensures Read(after[k]) == SetNative(t, key, native).rows[k]
    {
      assert Read(rows[k]) == t.rows[k];
      if k == key { SetNativeRow(rows[k], t.rows[k], native); }
    }
  }

  lemma SetNativeRow(row: SqlRow, record: Record, native: string)
    requires Read(row) == record && native != ""
    ensures Read(row.(native := Some(native), status := Accepted)) == record.(native := native, status := Accepted)
  {
  }

  lemma MarkFailedIndexed(rows: SqlOrders, key: Key, message: string)
    requires Indexed(rows)
    ensures Indexed(SqlMarkFailed(rows, key, message))
  {
    var after := SqlMarkFailed(rows, key, message);
    forall k, l | k in after && l in after && k != l
      ensures !Clash(after[k], after[l])
    {
      assert !Clash(rows[k], rows[l]);
    }
  }

  /** A known key fails alike in both stores; for an unknown one memory raises and the UPDATE touches no row. */
  lemma MarkFailedAgrees(rows: SqlOrders, t: Orders, key: Key, message: string)
    requires Agrees(rows, t) && key in t.rows
    ensures Agrees(SqlMarkFailed(rows, key, message), MarkFailed(t, key, message))
  {
    var after := SqlMarkFailed(rows, key, message);
    assert forall k :: k in rows ==> Read(rows[k]) == t.rows[k];
  }

  /** Under the unique index a native id names one row, so both stores find it. */
  lemma NativeRow(rows: SqlOrders, t: Orders, native: string, k: Key)
    requires Agrees(rows, t) && Indexed(rows) && native != "" && k in rows
    ensures rows[k].native == Some(native) <==> FindNative(t, native) == Some(k)
  {
    assert Read(rows[k]) == t.rows[k];
    var found := FindNative(t, native);
    if found.Some? && found.value != k {
      assert Read(rows[found.value]) == t.rows[found.value];
      assert !Clash(rows[k], rows[found.value]);
    }
  }

  /** The unique index makes any answer of the query the one the in-memory search finds. */
  lemma FindByNativeAgrees(rows: SqlOrders, t: Orders, native: string, answer: Option<Key>)
    requires Agrees(rows, t) && Indexed(rows) && SqlFindByNative(rows, native, answer)
    ensures answer == FindNative(t, native)
  {
    if native != "" {
      if answer.Some? {
        NativeRow(rows, t, native, answer.value);
      } else if FindNative(t, native).Some? {
        NativeRow(rows, t, native, FindNative(t, native).value);
      }
    }
  }

  /**
   * `update_tap` computes the same order table in both stores whenever the
   * statement commits, and it fails to commit exactly when the pair it would
   * write already belongs to another order. Memory has no such index.
   */
  lemma UpdateTapAgrees(rows: SqlOrders, t: Orders, native: string, orderNo: string, serverFlag: string, status: Status)
    requires Agrees(rows, t) && Indexed(rows)
    ensures var r := SqlUpdateTap(rows, native, orderNo, serverFlag, status);
            && (r.Ok? ==> Agrees(r.value, UpdateTap(t, native, orderNo, serverFlag, status)))
            && (r.Err? <==>
                  exists k, l ::
                    && k in rows && l in rows && k != l && native != "" && rows[k].native == Some(native)
                    && SameOrderKey(SqlUpdated(rows[k], orderNo, serverFlag, status), rows[l]))
  {
    if native != "" {
      var after := map k | k in rows ::
        if rows[k].native == Some(native) then SqlUpdated(rows[k], orderNo, serverFlag, status) else rows[k];
      UpdateTapIndex(rows, after, native, orderNo, serverFlag, status);
      forall k | k in rows
        ensures rows[k].native == Some(native) <==> FindNative(t, native) == Some(k)
      {
        NativeRow(rows, t, native, k);
      }
      UpdateTapRows(rows, after, t, native, orderNo, serverFlag, status);
    }
  }

  lemma UpdateTapRows(rows: SqlOrders, after: SqlOrders, t: Orders, native: string, orderNo: string, serverFlag: string,
      status: Status)
    requires Agrees(rows, t)
    requires forall k :: k in rows ==> (rows[k].native == Some(native) <==> FindNative(t, native) == Some(k))
    requires after == map k | k in rows ::
               if rows[k].native == Some(native) then SqlUpdated(rows[k], orderNo, serverFlag, status) else rows[k]
    ensures Agrees(after, UpdateTap(t, native, orderNo, serverFlag, status))
  {
    forall k | k in rows
      ensures Read(after[k]) == UpdateTap(t, native, orderNo, serverFlag, status).rows[k]
    {
      UpdateTapRow(rows[k], t, native, orderNo, serverFlag, status, k);
    }
  }

  lemma UpdateTapRow(row: SqlRow, t: Orders, native: string, orderNo: string, serverFlag: string, status: Status,
      k: Key)
    requires t.Valid() && k in t.rows && Read(row) == t.rows[k]
    requires row.native == Some(native) <==> FindNative(t, native) == Some(k)
    ensures Read(if row.native == Some(native) then SqlUpdated(row, orderNo, serverFlag, status) else row)
         == UpdateTap(t, native, orderNo, serverFlag, status).rows[k]
  {
  }

  lemma UpdateTapIndex(rows: SqlOrders, after: SqlOrders, native: string, orderNo: string, serverFlag: string,
      status: Status)
    requires Indexed(rows) && native != ""
    requires after.Keys == rows.Keys
    requires after == map k | k in rows ::
               if rows[k].native == Some(native) then SqlUpdated(rows[k], orderNo, serverFlag, status) else rows[k]
    ensures !Indexed(after) <==> exists k, l :: k in rows && l in rows && k != l && rows[k].native == Some(native)
                                   && SameOrderKey(SqlUpdated(rows[k], orderNo, serverFlag, status), rows[l])
  {
    if !Indexed(after) {
      var k, l :| k in after && l in after && k != l && Clash(after[k], after[l]);
      assert !Clash(rows[k], rows[l]);
      if rows[k].native == Some(native) {
        assert SameOrderKey(SqlUpdated(rows[k], orderNo, serverFlag, status), rows[l]);
      } else {
        assert SameOrderKey(SqlUpdated(rows[l], orderNo, serverFlag, status), rows[k]);
      }
    }
    if k, l :| k in rows && l in rows && k != l && rows[k].native == Some(native)
               && SameOrderKey(SqlUpdated(rows[k], orderNo, serverFlag, status), rows[l]) {
      assert !Clash(rows[k], rows[l]);
      assert Clash(after[k], after[l]);
    }
  }

  /**
   * The order-number lookups agree for a non-empty flag; without a flag both
   * find an order with that number, maybe different ones. For an empty order
   * number, which the SQL form never looks up, they agree exactly when no stored
   * order without a number has the flag that was asked for.
   */
  lemma FindByOrderNoAgrees(rows: SqlOrders, t: Orders, orderNo: string, serverFlag: string, answer: Option<Key>)
    requires Agrees(rows, t) && Indexed(rows) && NoEmptyText(rows)
    requires SqlFindByOrderNo(rows, orderNo, serverFlag, answer)
    ensures orderNo != "" && serverFlag != "" ==> answer == FindOrderNo(t, orderNo, serverFlag)
    ensures orderNo != "" ==> (answer.Some? <==> FindOrderNo(t, orderNo, serverFlag).Some?)
    ensures orderNo == "" ==>
              (answer == FindOrderNo(t, orderNo, serverFlag) <==>
                 forall k :: k in t.rows && (serverFlag == "" || t.rows[k].serverFlag == serverFlag) ==>
                   t.rows[k].orderNo != "")
  {
    var found := FindOrderNo(t, orderNo, serverFlag);
    forall k | k in rows && orderNo != ""
      ensures SqlHit(rows[k], orderNo, serverFlag) <==> Hits(t.rows[k], ByOrderNo(orderNo, serverFlag))
    {
      assert Read(rows[k]) == t.rows[k];
    }
    if orderNo != "" && serverFlag != "" && answer.Some? && found.Some? && answer.value != found.value {
      assert Clash(rows[answer.value], rows[found.value]);
    }
  }

  // ---- Any sequence of statements ----

  datatype Statement =
    | InsertOrder(key: Key, symbol: string)
    | AssignNative(key: Key, native: string)
    | ReportUpdate(native: string, orderNo: string, serverFlag: string, status: Status)
    | RecordFailure(key: Key, message: string)

  ghost function SqlApply(rows: SqlOrders, s: Statement): Result<SqlOrders, SqlError> {
    match s
    case InsertOrder(k, symbol) => Ok(SqlReserve(rows, k, symbol))
    case AssignNative(k, native) => SqlSetNative(rows, k, native)
    case ReportUpdate(native, orderNo, serverFlag, status) => SqlUpdateTap(rows, native, orderNo, serverFlag, status)
    case RecordFailure(k, message) => Ok(SqlMarkFailed(rows, k, message))
  }

  /** An exception for an unknown key leaves memory as it was. */
  ghost function MemoryApply(t: Orders, s: Statement): Orders
    requires t.Valid()
  {
    match s
    case InsertOrder(k, symbol) => Reserve(t, k, symbol)
    case AssignNative(k, native) => if k in t.rows then SetNative(t, k, native) else t
    case ReportUpdate(native, orderNo, serverFlag, status) => UpdateTap(t, native, orderNo, serverFlag, status)
    case RecordFailure(k, message) => if k in t.rows then MarkFailed(t, k, message) else t
  }

  ghost predicate Refines(rows: SqlOrders, t: Orders) {
    Agrees(rows, t) && Indexed(rows) && NoEmptyText(rows)
  }

  lemma CommittedIndexed(rows: SqlOrders)
    requires Commit(rows).Ok?
    ensures Indexed(Commit(rows).value) && Commit(rows).value == rows
  {
  }

  lemma AssignKeeps(rows: SqlOrders, k: Key, native: string)
    requires Indexed(rows) && NoEmptyText(rows) && native != "" && SqlSetNative(rows, k, native).Ok?
    ensures var r := SqlSetNative(rows, k, native).value; Indexed(r) && NoEmptyText(r)
  {
    CommittedIndexed(
      map l | l in rows :: if l == k then rows[l].(native := Some(native), status := Accepted) else rows[l]);
  }

  lemma AssignRefines(rows: SqlOrders, t: Orders, k: Key, native: string)
    requires Refines(rows, t) && native != "" && SqlSetNative(rows, k, native).Ok?
    ensures Refines(SqlSetNative(rows, k, native).value, if k in t.rows then SetNative(t, k, native) else t)
  {
    AssignKeeps(rows, k, native);
    SetNativeAgrees(rows, t, k, native);
  }

  lemma UpdatedNoEmptyText(rows: SqlOrders, after: SqlOrders, native: string, orderNo: string, serverFlag: string,
      status: Status)
    requires NoEmptyText(rows)
    requires after == map k | k in rows ::
               if rows[k].native == Some(native) then SqlUpdated(rows[k], orderNo, serverFlag, status) else rows[k]
    ensures NoEmptyText(after)
  {
    forall k | k in after
      ensures after[k].native != Some("") && after[k].orderNo != Some("") && after[k].serverFlag != Some("")
    {
      RowNoEmptyText(rows[k], orderNo, serverFlag, status);
    }
  }

  lemma RowNoEmptyText(r: SqlRow, orderNo: string, serverFlag: string, status: Status)
    requires r.native != Some("") && r.orderNo != Some("") && r.serverFlag != Some("")
    ensures var r' := SqlUpdated(r, orderNo, serverFlag, status);
            r'.native != Some("") && r'.orderNo != Some("") && r'.serverFlag != Some("")
  {
  }

  lemma UpdateKeeps(rows: SqlOrders, native: string, orderNo: string, serverFlag: string, status: Status)
    requires Indexed(rows) && NoEmptyText(rows) && SqlUpdateTap(rows, native, orderNo, serverFlag, status).Ok?
    ensures var r := SqlUpdateTap(rows, native, orderNo, serverFlag, status).value; Indexed(r) && NoEmptyText(r)
  {
    if native != "" {
      var after := map k | k in rows ::
        if rows[k].native == Some(native) then SqlUpdated(rows[k], orderNo, serverFlag, status) else rows[k];
      assert SqlUpdateTap(rows, native, orderNo, serverFlag, status) == Commit(after);
      CommittedIndexed(after);
      UpdatedNoEmptyText(rows, after, native, orderNo, serverFlag, status);
    }
  }

  lemma UpdateRefines(rows: SqlOrders, t: Orders, native: string, orderNo: string, serverFlag: string, status: Status)
    requires Refines(rows, t) && SqlUpdateTap(rows, native, orderNo, serverFlag, status).Ok?
    ensures Refines(SqlUpdateTap(rows, native, orderNo, serverFlag, status).value,
            UpdateTap(t, native, orderNo, serverFlag, status))
  {
    UpdateTapAgrees(rows, t, native, orderNo, serverFlag, status);
    UpdateKeeps(rows, native, orderNo, serverFlag, status);
  }

  lemma FailureRefines(rows: SqlOrders, t: Orders, k: Key, message: string)
    requires Refines(rows, t)
    ensures Refines(SqlMarkFailed(rows, k, message), if k in t.rows then MarkFailed(t, k, message) else t)
  {
    MarkFailedIndexed(rows, k, message);
    if k in t.rows {
      MarkFailedAgrees(rows, t, k, message);
    } else {
      assert SqlMarkFailed(rows, k, message) == rows;
    }
  }

  ghost function SqlRun(statements: seq<Statement>): Result<SqlOrders, SqlError> {
    if statements == [] then Ok(map[])
    else
      var before := SqlRun(statements[..|statements| - 1]);
      if before.Err? then before else SqlApply(before.value, statements[|statements| - 1])
  }

  ghost function MemoryRun(statements: seq<Statement>): (t: Orders)
    ensures t.Valid()
  {
    if statements == [] then Orders([], map[])
    else
      var before, s := MemoryRun(statements[..|statements| - 1]), statements[|statements| - 1];
      if s.InsertOrder? then ReserveValid(before, s.key, s.symbol); MemoryApply(before, s)
      else MemoryApply(before, s)
  }

  /**
   * Refinement over whole histories: after any sequence of statements that all
   * commit, on known keys or not, the two stores hold the same orders, both
   * unique indexes hold, and no identifier column holds an empty text.
   */
  lemma {:induction false} StoresAgree(statements: seq<Statement>)
    requires SqlRun(statements).Ok? && forall s :: s in statements && s.AssignNative? ==> s.native != ""
    ensures Refines(SqlRun(statements).value, MemoryRun(statements))
  {
    if statements != [] {
      var n := |statements| - 1;
      assert statements[n] in statements;
      StoresAgree(statements[..n]);
      var rows, t := SqlRun(statements[..n]).value, MemoryRun(statements[..n]);
      match statements[n] {
        case InsertOrder(k, symbol) =>
          ReserveIndexed(rows, k, symbol);
          ReserveAgrees(rows, t, k, symbol);
        case AssignNative(k, native) => AssignRefines(rows, t, k, native);
        case ReportUpdate(native, orderNo, serverFlag, status) =>
          UpdateRefines(rows, t, native, orderNo, serverFlag, status);
        case RecordFailure(k, message) => FailureRefines(rows, t, k, message);
      }
    }
  }

  // ---- tap_trades ----

  /** SELECT ... WHERE owner AND id > after ORDER BY id ASC LIMIT n. */
  ghost predicate SqlSelect(table: set<T.Row>, owner: Owner, after: int, n: nat, answer: seq<T.Row>) {
    && T.Ascending(answer)
    && |answer| <= n
    && (forall r :: r in answer ==> r in table && T.Selects(r, owner, after))
    && forall r :: r in table && T.Selects(r, owner, after) && r !in answer ==>
         |answer| == n && forall a :: a in answer ==> a.id < r.id
  }

  /** The page `list_trades` builds from the rows the query returned. */
  function SqlPage(answer: seq<T.Row>, size: nat, cursor: int): T.Page {
    var page := if |answer| <= size then answer else answer[..size];
    T.Page(page, if page == [] then cursor else page[|page| - 1].id, |answer| > size)
  }

  lemma AscendingFresh(rows: seq<T.Row>, k: nat)
    requires T.Ascending(rows) && k < |rows|
    ensures rows[k] !in rows[..k]
  {
  }

  lemma AnswerNotBelow(m: seq<T.Row>, answer: seq<T.Row>, i: nat) returns (j: nat)
    requires T.Ascending(m) && T.Ascending(answer) && i < |answer| && i < |m|
    requires answer[..i] == m[..i] && answer[i] in m
    ensures i <= j < |m| && m[j] == answer[i]
  {
    AscendingFresh(answer, i);
    j :| 0 <= j < |m| && m[j] == answer[i];
  }

  lemma AnswerNotAbove(m: seq<T.Row>, answer: seq<T.Row>, i: nat)
    requires T.Ascending(m) && T.Ascending(answer) && i < |answer| && i < |m|
    requires answer[..i] == m[..i]
    requires m[i] !in answer ==> forall a :: a in answer ==> a.id < m[i].id
    ensures answer[i].id <= m[i].id
  {
    if m[i] in answer {
      AscendingFresh(m, i);
      var j :| 0 <= j < |answer| && answer[j] == m[i];
    } else {
      assert answer[i] in answer;
    }
  }

  /** `answer` takes rows of `m` only, and leaves out none below one it takes. */
  ghost predicate Lowest(m: seq<T.Row>, answer: seq<T.Row>) {
    && (forall r :: r in answer ==> r in m)
    && forall r :: r in m && r !in answer ==> forall a :: a in answer ==> a.id < r.id
  }

  lemma SameAt(m: seq<T.Row>, answer: seq<T.Row>, i: nat)
    requires T.Ascending(m) && T.Ascending(answer) && Lowest(m, answer)
    requires i < |answer| && i < |m| && answer[..i] == m[..i]
    ensures answer[i] == m[i]
  {
    assert answer[i] in answer && m[i] in m;
    var j := AnswerNotBelow(m, answer, i);
    AnswerNotAbove(m, answer, i);
    assert j == i;
  }

  lemma {:induction false} SelectSteps(m: seq<T.Row>, answer: seq<T.Row>, i: nat)
    requires T.Ascending(m) && T.Ascending(answer) && Lowest(m, answer)
    requires i <= |answer| && i <= |m|
    ensures answer[..i] == m[..i]
  {
    if i > 0 {
      SelectSteps(m, answer, i - 1);
      SameAt(m, answer, i - 1);
      assert answer[..i] == answer[..i - 1] + [answer[i - 1]];
      assert m[..i] == m[..i - 1] + [m[i - 1]];
    }
  }

  /** Any answer of the query is the first n matching rows of the in-memory scan. */
  lemma SelectIsPrefix(rows: seq<T.Row>, owner: Owner, after: int, n: nat, answer: seq<T.Row>)
    requires T.Ascending(rows)
    requires SqlSelect(ToSet(rows), owner, after, n, answer)
    ensures var m := T.Matching(rows, owner, after);
            answer == if |m| <= n then m else m[..n]
  {
    var m := T.Matching(rows, owner, after);
    T.MatchingIsFilter(rows, owner, after);
    assert Lowest(m, answer);
    if |answer| <= |m| {
      SelectSteps(m, answer, |answer|);
      assert answer == m[..|answer|];
      if |answer| < |m| {
        AscendingFresh(m, |answer|);
        assert m[|answer|] in m;
        assert |answer| == n;
      }
    } else {
      SelectSteps(m, answer, |m|);
      AscendingFresh(answer, |m|);
      assert false;
    }
  }

  /** `LIMIT page_size + 1` and the in-memory cut return the same page. */
  lemma ListTradesAgrees(rows: seq<T.Row>, owner: Owner, afterId: int, limit: int, answer: seq<T.Row>)
    requires T.Ascending(rows)
    requires SqlSelect(ToSet(rows), owner, T.Start(afterId), T.PageSize(limit) + 1, answer)
    ensures SqlPage(answer, T.PageSize(limit), T.Start(afterId)) == T.ListTrades(rows, owner, afterId, limit)
  {
    SelectIsPrefix(rows, owner, T.Start(afterId), T.PageSize(limit) + 1, answer);
    var m := T.Matching(rows, owner, T.Start(afterId));
    var size := T.PageSize(limit);
    if |m| > size + 1 {
      assert m[..size + 1][..size] == m[..size];
    }
  }

  /** SELECT COALESCE(MAX(id), 0) WHERE owner. */
  ghost predicate SqlMaxId(table: set<T.Row>, owner: Owner, answer: int) {
    if exists r :: r in table && r.trade.owner == owner
    then (exists r :: r in table && r.trade.owner == owner && r.id == answer)
         && forall r :: r in table && r.trade.owner == owner ==> r.id <= answer
    else answer == 0
  }

  /** COALESCE(MAX(id), 0) is the in-memory scan. */
  lemma LatestCursorAgrees(rows: seq<T.Row>, owner: Owner, answer: int)
    requires T.Ascending(rows) && SqlMaxId(ToSet(rows), owner, answer)
    ensures answer == T.LatestCursor(rows, owner)
  {
    T.LatestIsMaximum(rows, owner);
    if r :| r in ToSet(rows) && r.trade.owner == owner {
      assert r in rows;
      var i :| 0 <= i < |rows| && rows[i] == r;
      assert 0 < r.id <= T.LatestCursor(rows, owner);
    } else {
      assert forall r :: r in rows && r.trade.owner == owner ==> r in ToSet(rows);
    }
  }

  /**
   * INSERT ... ON CONFLICT (event_id) DO NOTHING RETURNING id. The sequence
   * hands out an id above every stored one; skipped ids leave gaps.
   */
  ghost predicate SqlRecordTrade(table: set<T.Row>, trade: T.Trade, after: set<T.Row>, answer: Option<int>) {
    if exists r :: r in table && T.Event(r) == Strip(trade.eventId)
    then after == table && answer.None?
    else answer.Some? && answer.value > 0 && (forall r :: r in table ==> r.id < answer.value)
         && after == table + {T.Row(answer.value, trade)}
  }

  /** Whatever id the sequence hands out, the insertion is one the in-memory table could make. */
  lemma RecordTradeAgrees(rows: seq<T.Row>, trade: T.Trade, after: set<T.Row>, answer: Option<int>)
    requires T.Ascending(rows) && SqlRecordTrade(ToSet(rows), trade, after, answer)
    ensures exists gap: nat ::
              var (rows', cursor) := T.Record(rows, trade, gap); ToSet(rows') == after && cursor == answer
  {
    var eventId := Strip(trade.eventId);
    if T.Known(rows, eventId) {
      var i :| 0 <= i < |rows| && T.Event(rows[i]) == eventId;
      assert rows[i] in ToSet(rows);
      assert T.Record(rows, trade, 0) == (rows, None);
    } else {
      forall r | r in ToSet(rows) ensures T.Event(r) != eventId {
        assert r in rows;
        var i :| 0 <= i < |rows| && rows[i] == r;
      }
      if rows != [] { assert rows[|rows| - 1] in ToSet(rows); }
      var gap := answer.value - 1 - T.LastId(rows);
      var row := T.Row(answer.value, trade);
      assert T.Record(rows, trade, gap) == (rows + [row], answer);
      assert ToSet(rows + [row]) == ToSet(rows) + {row};
    }
  }
}
