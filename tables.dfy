/**
 * The database tables the payment handlers read and write: the per-series
 * folio counter (tickets_config), the payments and the read-only client
 * directory with the users who collect from them.
 */
module Db {
  import opened Wrappers
  import opened JsValues

  /** The only series the registration handler issues folios in. */
  const Series: string := "A"

  /** The header name a lazily created series row is given. */
  const DefaultHeaderName: string := "FUNERALES C\U{00C1}RDENAS"

  /** A tickets_config row: the last folio issued in its series. */
  datatype SeriesRow = SeriesRow(currentNumber: nat, headerName: string)

  /** The client columns the handler uses: its internal id and its assigned collector. */
  datatype ClientRow = ClientRow(id: nat, collectorId: nat)

  datatype PaymentRow = PaymentRow(
    uuid: string,
    clientId: nat,
    collectorId: nat,
    amount: Decimal,
    notes: Option<string>,
    deviceLocalTs: string,
    series: string,
    number: nat,
    syncState: string,
    origin: string,
    idempotencyKey: string)

  /**
   * One database state. Clients are keyed by their public uuid; users holds
   * the ids of existing users (the collectors a client can be joined to).
   */
  datatype Tables = Tables(
    ticketsConfig: map<string, SeriesRow>,
    payments: seq<PaymentRow>,
    clients: map<string, ClientRow>,
    users: set<nat>)

  /** current_number of series A, reading a missing row as 0. */
  function CurrentNumber(t: Tables): nat {
    if Series in t.ticketsConfig then t.ticketsConfig[Series].currentNumber else 0
  }

  /**
   * The client join: the client with this uuid, provided its collector is an
   * existing user.
   */
  function ResolveClient(clients: map<string, ClientRow>, users: set<nat>, uuid: string): (r: Option<ClientRow>)
    ensures r.Some? <==> uuid in clients && clients[uuid].collectorId in users
    ensures r.Some? ==> r.value == clients[uuid]
  {
    if uuid in clients && clients[uuid].collectorId in users then Some(clients[uuid]) else None
  }

  /** SELECT ... FROM payments WHERE idempotency_key = ? LIMIT 1, in table order. */
  function FindByKey(rows: seq<PaymentRow>, key: string): (r: Option<PaymentRow>)
    ensures r.None? <==> forall i :: 0 <= i < |rows| ==> rows[i].idempotencyKey != key
    ensures r.Some? ==> exists i :: 0 <= i < |rows| && rows[i] == r.value && r.value.idempotencyKey == key
                                   && forall j :: 0 <= j < i ==> rows[j].idempotencyKey != key
  {
    if rows == [] then None
    else if rows[0].idempotencyKey == key then Some(rows[0])
    else
      var r := FindByKey(rows[1..], key);
      assert forall i :: 1 <= i < |rows| ==> rows[i] == rows[1..][i - 1];
      r
  }

  /** A row appended under a key no earlier row carries is the one the key lookup finds. */
  lemma {:induction false} FindByKeyAppended(rows: seq<PaymentRow>, row: PaymentRow)
    requires forall i :: 0 <= i < |rows| ==> rows[i].idempotencyKey != row.idempotencyKey
    ensures FindByKey(rows + [row], row.idempotencyKey) == Some(row)
  {
    if rows != [] {
      assert (rows + [row])[1..] == rows[1..] + [row];
      FindByKeyAppended(rows[1..], row);
    }
  }

  /**
   * The unique keys assumed on the payments table: uuid, idempotency_key
   * and the (ticket_series, ticket_number) pair. The schema is not part of
   * this model; the handler's duplicate-entry branch implies a unique key
   * on idempotency_key, and the other two are assumed. An insert that
   * repeats one of them fails with a duplicate-entry error.
   */
  predicate Collides(rows: seq<PaymentRow>, row: PaymentRow) {
    exists i :: 0 <= i < |rows| && (
      || rows[i].uuid == row.uuid
      || rows[i].idempotencyKey == row.idempotencyKey
      || (rows[i].series == row.series && rows[i].number == row.number))
  }
}
