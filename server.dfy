/**
 * POST /api/v1/payments: validate the Idempotency-Key header and the body,
 * then in one transaction make sure series A exists, advance its counter,
 * resolve the client and insert the payment under the key; a duplicate key
 * rolls everything back and replays the stored payment. Also the SQL the
 * client listing builds.
 */
module Server {
  import opened Wrappers
  import opened Numerals
  import opened JsValues
  import opened Db
  import opened Links

  // ---------------------------------------------------------------------------
  // paymentSchema

  predicate IsHex(c: char) {
    ('0' <= c <= '9') || ('a' <= c <= 'f') || ('A' <= c <= 'F')
  }

  predicate HyphenAt(i: int) {
    i == 8 || i == 13 || i == 18 || i == 23
  }

  /** The textual uuid shape: 8-4-4-4-12 hexadecimal digits, either case. */
  predicate IsUuid(s: string) {
    |s| == 36 && forall i :: 0 <= i < 36 ==> if HyphenAt(i) then s[i] == '-' else IsHex(s[i])
  }

  /** A validated payment body. */
  datatype Payload = Payload(clientUuid: string, amount: Decimal, notes: Option<string>, deviceLocalTs: string)

  /** The amount the handler hands to the schema: a number as it is, anything else through Number(). */
  function CoercedAmount(body: map<string, Value>): (v: Value)
    ensures v.Num? || v.NaN?
    ensures Field(body, "amount").Num? ==> v == Field(body, "amount")
    ensures !Field(body, "amount").Num? ==> v == ToNumber(Field(body, "amount"))
  {
    var a := Field(body, "amount");
    if a.Num? || a.NaN? then a else ToNumber(a)
  }

  /**
   * paymentSchema accepts the body: client_uuid is a uuid string, the amount
   * (after coercion) is a number greater than zero, notes is absent or a
   * string, and device_local_ts is a string.
   */
  predicate PaymentSchema(body: map<string, Value>) {
    var cu := Field(body, "client_uuid");
    var amount := CoercedAmount(body);
    var notes := Field(body, "notes");
    && cu.Str? && IsUuid(cu.s)
    && amount.Num? && RealValue(amount.n) > 0.0
    && (notes.Undefined? || notes.Str?)
    && Field(body, "device_local_ts").Str?
  }

  /** safeParse: the parsed payload exactly when the schema accepts the body. */
  function ParsePayment(body: map<string, Value>): (r: Option<Payload>)
    ensures r.Some? <==> PaymentSchema(body)
    ensures r.Some? ==> && Str(r.value.clientUuid) == Field(body, "client_uuid")
                        && Num(r.value.amount) == CoercedAmount(body)
                        && RealValue(r.value.amount) > 0.0
                        && Str(r.value.deviceLocalTs) == Field(body, "device_local_ts")
                        && (r.value.notes.Some? <==> Field(body, "notes").Str?)
                        && (r.value.notes.Some? ==> Field(body, "notes") == Str(r.value.notes.value))
  {
    var cu := Field(body, "client_uuid");
    var amount := CoercedAmount(body);
    var notes := Field(body, "notes");
    var ts := Field(body, "device_local_ts");
    if !amount.Num? then None
    else
      PositiveUnits(amount.n);
      if cu.Str? && IsUuid(cu.s) && amount.n.units > 0 && (notes.Undefined? || notes.Str?) && ts.Str?
      then Some(Payload(cu.s, amount.n, if notes.Str? then Some(notes.s) else None, ts.s))
      else None
  }

  // ---------------------------------------------------------------------------
  // The registration transaction

  const MissingKeyMessage: string := "Missing Idempotency-Key header"
  const InvalidPayloadMessage: string := "Invalid payment payload"

  /** What one registration request comes to. */
  datatype Reply =
    | Created(paymentUuid: string, series: string, number: nat)
    | Replayed(paymentUuid: string, series: string, number: nat)
    | ValidationError(message: string)
    | NotFound
    | Conflict
    | Internal

  /**
   * The database calls of the transaction; a fault names the one that throws
   * an error other than a duplicate entry. RollbackUnknownClient is the
   * rollback before the 404, whose failure the catch block turns into 500.
   */
  datatype Step =
    | Begin | LockSeries | CreateSeries | ReloadSeries | AdvanceCounter
    | FindClient | RollbackUnknownClient | InsertPayment | Commit

  datatype Outcome = Outcome(tables: Tables, reply: Reply)

  /** A header that is absent or empty is missing. */
  predicate MissingKey(idk: Option<string>) {
    idk.None? || idk.value == ""
  }

  /** `notes || null`: an empty note is stored as NULL. */
  function StoredNotes(notes: Option<string>): (r: Option<string>)
    ensures r.Some? <==> notes.Some? && notes.value != ""
    ensures r.Some? ==> r == notes
  {
    if notes.Some? && notes.value != "" then notes else None
  }

  function NewPayment(uuid: string, client: ClientRow, p: Payload, number: nat, key: string): PaymentRow {
    PaymentRow(uuid, client.id, client.collectorId, p.amount, StoredNotes(p.notes),
               p.deviceLocalTs, Series, number, "SYNCED", "APP", key)
  }

  /** Whether the call at step s throws. */
  predicate Fails(fault: Option<Step>, s: Step) {
    fault == Some(s)
  }

  /**
   * One request against the state t. Every reply but Created leaves every
   * table as it was: the failure paths roll back, including the lazily
   * created series row and the counter increment.
   */
  function Register(t: Tables, idk: Option<string>, body: map<string, Value>, newUuid: string, fault: Option<Step>): (o: Outcome)
    // A missing key is refused before the body or any table is looked at.
    ensures MissingKey(idk) ==> o == Outcome(t, ValidationError(MissingKeyMessage))
    ensures !MissingKey(idk) && !PaymentSchema(body) ==> o == Outcome(t, ValidationError(InvalidPayloadMessage))
    ensures !o.reply.Created? ==> o.tables == t
    ensures o.reply.Created? ==>
      && !MissingKey(idk) && PaymentSchema(body)
      && o.tables.clients == t.clients && o.tables.users == t.users
      && Series in o.tables.ticketsConfig
      && CurrentNumber(o.tables) == CurrentNumber(t) + 1
      // Only current_number changes; a lazily created row carries the default header name.
      && o.tables.ticketsConfig[Series]
         == (if Series in t.ticketsConfig then t.ticketsConfig[Series] else SeriesRow(0, DefaultHeaderName))
              .(currentNumber := CurrentNumber(t) + 1)
      && o.reply == Created(newUuid, Series, CurrentNumber(o.tables))
      && o.tables.ticketsConfig.Keys == t.ticketsConfig.Keys + {Series}
      && (forall s :: s in t.ticketsConfig && s != Series ==> o.tables.ticketsConfig[s] == t.ticketsConfig[s])
      && |o.tables.payments| == |t.payments| + 1
      && o.tables.payments[..|t.payments|] == t.payments
      && o.tables.payments[|t.payments|].uuid == newUuid
      && o.tables.payments[|t.payments|].series == Series
      && o.tables.payments[|t.payments|].number == CurrentNumber(o.tables)
      && o.tables.payments[|t.payments|].idempotencyKey == idk.value
      && o.tables.payments[|t.payments|].amount == ParsePayment(body).value.amount
      && !Collides(t.payments, o.tables.payments[|t.payments|])
      && ResolveClient(t.clients, t.users, ParsePayment(body).value.clientUuid).Some?
      && o.tables.payments[|t.payments|]
         == NewPayment(newUuid, ResolveClient(t.clients, t.users, ParsePayment(body).value.clientUuid).value,
                       ParsePayment(body).value, CurrentNumber(o.tables), idk.value)
    ensures o.reply.Replayed? ==>
      && !MissingKey(idk) && FindByKey(t.payments, idk.value).Some?
      && var p := FindByKey(t.payments, idk.value).value;
         o.reply == Replayed(p.uuid, p.series, p.number)
    ensures o.reply.NotFound? ==>
      PaymentSchema(body) && ResolveClient(t.clients, t.users, ParsePayment(body).value.clientUuid).None?
    ensures o.reply.Conflict? ==> !MissingKey(idk) && FindByKey(t.payments, idk.value).None?
    ensures o.reply.Internal? ==> fault.Some?
  {
    if MissingKey(idk) then Outcome(t, ValidationError(MissingKeyMessage))
    else
      var parsed := ParsePayment(body);
      if parsed.None? then Outcome(t, ValidationError(InvalidPayloadMessage))
      else
        var p, key := parsed.value, idk.value;
        if Fails(fault, Begin) || Fails(fault, LockSeries) then Outcome(t, Internal)
        else if Series !in t.ticketsConfig && Fails(fault, CreateSeries) then Outcome(t, Internal)
        else if Fails(fault, ReloadSeries) || Fails(fault, AdvanceCounter) then Outcome(t, Internal)
        else
          var ensured := if Series in t.ticketsConfig then t.ticketsConfig
                         else t.ticketsConfig[Series := SeriesRow(0, DefaultHeaderName)];
          var cfg := ensured[Series];
          var nextNumber := cfg.currentNumber + 1;
          var advanced := ensured[Series := cfg.(currentNumber := nextNumber)];
          if Fails(fault, FindClient) then Outcome(t, Internal)
          else
            match ResolveClient(t.clients, t.users, p.clientUuid)
            case None =>
              if Fails(fault, RollbackUnknownClient) then Outcome(t, Internal) else Outcome(t, NotFound)
            case Some(client) =>
              var row := NewPayment(newUuid, client, p, nextNumber, key);
              if Fails(fault, InsertPayment) then Outcome(t, Internal)
              else if Collides(t.payments, row) then
                match FindByKey(t.payments, key)
                case Some(stored) => Outcome(t, Replayed(stored.uuid, stored.series, stored.number))
                case None => Outcome(t, Conflict)
              else if Fails(fault, Commit) then Outcome(t, Internal)
              else
                Outcome(t.(ticketsConfig := advanced, payments := t.payments + [row]),
                        Created(newUuid, Series, nextNumber))
  }

  /** The database: the counter and payments tables change; clients and users are only read. */
  class PaymentsDb {
    var ticketsConfig: map<string, SeriesRow>
    var payments: seq<PaymentRow>
    const clients: map<string, ClientRow>
    const users: set<nat>

    function Snapshot(): Tables
      reads this
    {
      Tables(ticketsConfig, payments, clients, users)
    }

    constructor (initial: Tables)
      ensures Snapshot() == initial
    {
      ticketsConfig := initial.ticketsConfig;
      payments := initial.payments;
      clients := initial.clients;
      users := initial.users;
    }

    /**
     * The handler. The transaction works on copies of the two tables it
     * writes; commit stores them, every other exit drops them.
     */
    method RegisterPayment(idk: Option<string>, body: map<string, Value>, newUuid: string, fault: Option<Step>)
      returns (reply: Reply)
      modifies this
      ensures Outcome(Snapshot(), reply) == Register(old(Snapshot()), idk, body, newUuid, fault)
    {
      if MissingKey(idk) {
        return ValidationError(MissingKeyMessage);
      }
      var parsed := ParsePayment(body);
      if parsed.None? {
        return ValidationError(InvalidPayloadMessage);
      }
      var p, key := parsed.value, idk.value;

      var config := ticketsConfig;
      var rows := payments;
      if Fails(fault, Begin) || Fails(fault, LockSeries) {
        return Internal;
      }
      if Series !in config {
        if Fails(fault, CreateSeries) {
          return Internal;
        }
        config := config[Series := SeriesRow(0, DefaultHeaderName)];
      }
      if Fails(fault, ReloadSeries) {
        return Internal;
      }
      var cfg := config[Series];
      var nextNumber := cfg.currentNumber + 1;
      if Fails(fault, AdvanceCounter) {
        return Internal;
      }
      config := config[Series := cfg.(currentNumber := nextNumber)];

      if Fails(fault, FindClient) {
        return Internal;
      }
      var client := ResolveClient(clients, users, p.clientUuid);
      if client.None? {
        if Fails(fault, RollbackUnknownClient) {
          return Internal;
        }
        return NotFound;
      }

      var row := NewPayment(newUuid, client.value, p, nextNumber, key);
      if Fails(fault, InsertPayment) {
        return Internal;
      }
      if Collides(rows, row) {
        // Rolled back; the stored payment is looked up outside the transaction.
        var stored := FindByKey(payments, key);
        if stored.Some? {
          return Replayed(stored.value.uuid, stored.value.series, stored.value.number);
        }
        return Conflict;
      }
      rows := rows + [row];
      if Fails(fault, Commit) {
        return Internal;
      }
      ticketsConfig, payments := config, rows;
      reply := Created(newUuid, Series, nextNumber);
    }
  }
  // ---------------------------------------------------------------------------
  // The HTTP response

  /** A JSON response body: the ticket links of a registered payment, or an error. */
  datatype ResponseBody =
    | TicketLinks(paymentUuid: string, ticketFolio: string, ticketPdfUrl: string, ticketPrintUrl: string)
    | ErrorBody(code: string, message: string)

  datatype HttpResponse = HttpResponse(status: nat, body: ResponseBody)

  /** The links for folio number `number` of `series`: folio, PDF and print locators. */
  function LinksFor(uuid: string, series: string, number: nat): ResponseBody {
    TicketLinks(uuid, Folio(series, number), TicketUrl(series, NatText(number), "pdf"),
                TicketUrl(series, NatText(number), "print"))
  }

  /**
   * The status and body each reply is sent with. A first registration and a
   * replay answer alike (200, same fields); the errors carry their codes.
   */
  function Respond(reply: Reply): (r: HttpResponse)
    ensures (reply.Created? || reply.Replayed?) <==> r.status == 200
    ensures r.status == 200 <==> r.body.TicketLinks?
    ensures reply.ValidationError? <==> r.status == 400
    ensures reply.NotFound? <==> r.status == 404
    ensures reply.Conflict? <==> r.status == 409
    ensures reply.Internal? <==> r.status == 500
    ensures reply.Created? || reply.Replayed? ==>
              r.body == TicketLinks(reply.paymentUuid, Folio(reply.series, reply.number),
                                    TicketUrl(reply.series, NatText(reply.number), "pdf"),
                                    TicketUrl(reply.series, NatText(reply.number), "print"))
    ensures r.body.ErrorBody? ==> r.body.code == match reply
      case ValidationError(_) => "VALIDATION_ERROR"
      case NotFound => "NOT_FOUND"
      case Conflict => "CONFLICT"
      case _ => "INTERNAL_ERROR"
    ensures r.body.ErrorBody? ==> r.body.message == match reply
      case ValidationError(m) => m
      case NotFound => "Client not found"
      case Conflict => "Duplicate request"
      case _ => "Unexpected error"
  {
    match reply
    case Created(uuid, series, number) => HttpResponse(200, LinksFor(uuid, series, number))
    case Replayed(uuid, series, number) => HttpResponse(200, LinksFor(uuid, series, number))
    case ValidationError(message) => HttpResponse(400, ErrorBody("VALIDATION_ERROR", message))
    case NotFound => HttpResponse(404, ErrorBody("NOT_FOUND", "Client not found"))
    case Conflict => HttpResponse(409, ErrorBody("CONFLICT", "Duplicate request"))
    case Internal => HttpResponse(500, ErrorBody("INTERNAL_ERROR", "Unexpected error"))
  }

  // ---------------------------------------------------------------------------
  // GET /api/v1/clients

  /** A statement as the driver receives it: text with `?` slots that take the parameters in order. */
  datatype SqlPart = Text(text: string) | Slot

  function Render(stmt: seq<SqlPart>): string {
    if stmt == [] then "" else (if stmt[0].Slot? then "?" else stmt[0].text) + Render(stmt[1..])
  }

  function SlotCount(stmt: seq<SqlPart>): nat {
    if stmt == [] then 0 else (if stmt[0].Slot? then 1 else 0) + SlotCount(stmt[1..])
  }

  const SelectClients: string := "SELECT c.* FROM clients c"
  const JoinCollector: string := " JOIN users u ON u.id = c.collector_id WHERE u.uuid = "

  /**
   * The statement and parameters of the client listing. Only `mine=true`
   * restricts it to the caller's clients, through one slot bound to the
   * caller's subject; the slots always match the parameters.
   */
  method ClientsQuery(mine: Option<string>, sub: string) returns (sql: seq<SqlPart>, params: seq<string>)
    ensures SlotCount(sql) == |params|
    ensures mine != Some("true") ==> Render(sql) == SelectClients && params == []
    ensures mine == Some("true") ==> Render(sql) == SelectClients + JoinCollector + "?" && params == [sub]
  {
    var restrict := mine == Some("true");
    sql := [Text(SelectClients)];
    params := [];
    assert sql[1..] == [];
    if restrict {
      sql := sql + [Text(JoinCollector), Slot];
      params := params + [sub];
      assert sql[1..] == [Text(JoinCollector), Slot] && sql[1..][1..] == [Slot] && sql[1..][1..][1..] == [];
      assert Render([Slot]) == "?" && SlotCount([Slot]) == 1;
      assert Render(sql) == SelectClients + (JoinCollector + "?");
    }
  }
}
