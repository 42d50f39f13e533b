/** The order table: idempotency keys, native identifiers and order statuses. */
module OrderStore {
  import opened Prelude

  datatype Key = Key(clientId: string, strategyId: string, clientOrderId: string)

  datatype Status =
    | PendingSubmit | SubmitFailed | Accepted
    | Submitted | PartTraded | Traded | Cancelled | Rejected | Unknown

  /** Empty strings stand for identifiers that are not known yet. */
  datatype Record = Record(
    symbol: string, native: string, orderNo: string, serverFlag: string,
    status: Status, message: string)

  /** `order` is the insertion order of the dictionary `rows`. */
  datatype Orders = Orders(order: seq<Key>, rows: map<Key, Record>) {
    ghost predicate Valid() {
      Enumerates(order, rows.Keys)
    }
  }

  /** What the two lookups compare; an empty flag is a wildcard. */
  datatype Probe = ByNative(native: string) | ByOrderNo(orderNo: string, serverFlag: string)

  predicate Hits(r: Record, p: Probe) {
    match p
    case ByNative(n) => r.native == n
    case ByOrderNo(o, f) => r.orderNo == o && (f == "" || r.serverFlag == f)
  }

  /** The first key in `order` whose record is hit. */
  function Scan(order: seq<Key>, rows: map<Key, Record>, p: Probe): (r: Option<Key>)
    requires forall k :: k in order ==> k in rows
    ensures r.Some? ==> exists i :: 0 <= i < |order| && order[i] == r.value && Hits(rows[order[i]], p)
                                    && forall j :: 0 <= j < i ==> !Hits(rows[order[j]], p)
    ensures r.None? ==> forall k :: k in order ==> !Hits(rows[k], p)
  {
    if order == [] then None
    else if Hits(rows[order[0]], p) then
      assert order[0] == order[0] && Hits(rows[order[0]], p);
      Some(order[0])
    else
      var r := Scan(order[1..], rows, p);
      assert r.Some? ==> exists i :: 0 < i < |order| && order[i] == r.value && Hits(rows[order[i]], p)
                                     && forall j :: 0 <= j < i ==> !Hits(rows[order[j]], p) by {
        if r.Some? {
          var i :| 0 <= i < |order[1..]| && order[1..][i] == r.value && Hits(rows[order[1..][i]], p)
                   && forall j :: 0 <= j < i ==> !Hits(rows[order[1..][j]], p);
          assert order[i + 1] == r.value;
          assert forall j :: 0 < j < i + 1 ==> order[j] == order[1..][j - 1];
        }
      }
      r
  }

  ghost function FindNative(t: Orders, native: string): (r: Option<Key>)
    requires t.Valid()
    ensures r.Some? ==> r.value in t.rows && native != "" && t.rows[r.value].native == native
    ensures r.None? && native != "" ==> forall k :: k in t.rows ==> t.rows[k].native != native
  {
    if native == "" then None else Scan(t.order, t.rows, ByNative(native))
  }

  ghost function FindOrderNo(t: Orders, orderNo: string, serverFlag: string): (r: Option<Key>)
    requires t.Valid()
    ensures r.Some? ==> r.value in t.rows && Hits(t.rows[r.value], ByOrderNo(orderNo, serverFlag))
    ensures r.None? ==> forall k :: k in t.rows ==> !Hits(t.rows[k], ByOrderNo(orderNo, serverFlag))
  {
    Scan(t.order, t.rows, ByOrderNo(orderNo, serverFlag))
  }

  function NewRecord(symbol: string): Record {
    Record(symbol, "", "", "", PendingSubmit, "")
  }

  function Reserve(t: Orders, k: Key, symbol: string): Orders {
    if k in t.rows then t
    else Orders(t.order + [k], t.rows[k := NewRecord(symbol)])
  }

  function SetNative(t: Orders, k: Key, native: string): Orders
    requires k in t.rows
  {
    t.(rows := t.rows[k := t.rows[k].(native := native, status := Accepted)])
  }

  function MarkFailed(t: Orders, k: Key, message: string): Orders
    requires k in t.rows
  {
    t.(rows := t.rows[k := t.rows[k].(status := SubmitFailed, message := message)])
  }

  function Or(value: string, otherwise: string): string {
    if value != "" then value else otherwise
  }

  function Updated(r: Record, orderNo: string, serverFlag: string, status: Status): Record {
    r.(orderNo := Or(orderNo, r.orderNo), serverFlag := Or(serverFlag, r.serverFlag), status := status)
  }

  ghost function UpdateTap(t: Orders, native: string, orderNo: string, serverFlag: string, status: Status): Orders
    requires t.Valid()
  {
    var found := FindNative(t, native);
    if found.None? then t
    else t.(rows := t.rows[found.value := Updated(t.rows[found.value], orderNo, serverFlag, status)])
  }

  lemma ReserveValid(t: Orders, k: Key, symbol: string)
    requires t.Valid()
    ensures Reserve(t, k, symbol).Valid()
  {
  }

  ghost predicate UniqueNatives(rows: map<Key, Record>) {
    forall k, l :: k in rows && l in rows && rows[k].native == rows[l].native != "" ==> k == l
  }
}
