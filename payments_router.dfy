/**
 * The stand-alone payments router (POST / under /api/v1/payments): a
 * required-fields check, the next folio of a series as the largest stored
 * number plus one, an insert outside any transaction, and a 201 reply
 * carrying the folio and the locator of its print page. The browser launch
 * that follows the insert is a call that may fail after the row is stored.
 */
module PaymentsRouter {
  import opened Wrappers
  import opened Numerals
  import opened JsValues
  import opened Links

  /**
   * A payments row as this router writes it: the series column, the folio
   * it computed and the body's client, collector and amount as sent.
   */
  datatype Row = Row(series: string, number: nat, clientId: Value, collectorId: Value, amount: Value)

  /** The awaited call that throws, if any: the MAX query, the insert or the browser launch. */
  datatype Fault = MaxQueryFails | InsertFails | BrowserFails

  datatype Response =
    /** 201 { success: true, ticket_series, ticket_number, print_url } */
    | Created(series: Value, number: nat, printUrl: string)
    /** 400 { error: 'Faltan campos requeridos' } */
    | MissingFields
    /** The error handed to next(err), which answers 500. */
    | ServerError

  const MissingFieldsMessage: string := "Faltan campos requeridos"

  datatype Outcome = Outcome(rows: seq<Row>, response: Response)

  /** ticket_series, client_id, collector_id and amount are all truthy. */
  predicate HasRequiredFields(body: map<string, Value>) {
    && Truthy(Field(body, "ticket_series"))
    && Truthy(Field(body, "client_id"))
    && Truthy(Field(body, "collector_id"))
    && Truthy(Field(body, "amount"))
  }

  /** The series text the statements bind: the body's value as a string. */
  function SeriesText(body: map<string, Value>): string {
    ToText(Field(body, "ticket_series"))
  }

  /** SELECT MAX(ticket_number) FROM payments WHERE ticket_series = ?, with NULL read as 0. */
  function MaxNumber(rows: seq<Row>, series: string): (m: nat)
    ensures forall i :: 0 <= i < |rows| && rows[i].series == series ==> rows[i].number <= m
    ensures m == 0 || exists i :: 0 <= i < |rows| && rows[i].series == series && rows[i].number == m
  {
    if rows == [] then 0
    else
      var rest := MaxNumber(rows[1..], series);
      assert forall i :: 1 <= i < |rows| ==> rows[i] == rows[1..][i - 1];
      if rows[0].series == series && rows[0].number > rest then rows[0].number else rest
  }

  /**
   * (last_num || 0) + 1: one more than every stored number of the series,
   * and either 1 or one past a number the series holds.
   */
  function NextFolio(rows: seq<Row>, series: string): (n: nat)
    ensures n >= 1
    ensures forall i :: 0 <= i < |rows| && rows[i].series == series ==> rows[i].number < n
    ensures n == 1 || exists i :: 0 <= i < |rows| && rows[i].series == series && rows[i].number == n - 1
  {
    MaxNumber(rows, series) + 1
  }

  /** `http://localhost:${process.env.PORT || 3000}`: an unset or empty PORT gives 3000. */
  function BaseUrl(port: Option<string>): string {
    "http://localhost:" + (if port.Some? && port.value != "" then port.value else "3000")
  }

  function PrintUrl(port: Option<string>, series: string, number: nat): string {
    BaseUrl(port) + TicketUrl(series, NatText(number), "print")
  }

  /**
   * One request against the payments rows. A missing field answers 400 and
   * reads nothing; a failing MAX query or insert stores nothing; otherwise
   * exactly one row is appended, and it stays even when the browser launch
   * then fails, since no transaction wraps the handler.
   */
  function PostPayment(rows: seq<Row>, body: map<string, Value>, port: Option<string>, fault: Option<Fault>): (o: Outcome)
    ensures !HasRequiredFields(body) ==> o == Outcome(rows, MissingFields)
    ensures o.response.MissingFields? ==> !HasRequiredFields(body)
    ensures o.response.Created? <==> HasRequiredFields(body) && fault.None?
    ensures o.response.ServerError? ==> fault.Some?
    ensures (fault == Some(MaxQueryFails) || fault == Some(InsertFails)) ==> o.rows == rows
    ensures HasRequiredFields(body) && fault != Some(MaxQueryFails) && fault != Some(InsertFails) ==>
              && |o.rows| == |rows| + 1 && o.rows[..|rows|] == rows
              && var row := o.rows[|rows|];
                 && row == Row(SeriesText(body), row.number, Field(body, "client_id"),
                               Field(body, "collector_id"), Field(body, "amount"))
                 && (forall i :: 0 <= i < |rows| && rows[i].series == row.series ==> rows[i].number < row.number)
                 && (row.number == 1 || exists i :: 0 <= i < |rows| && rows[i].series == row.series
                                                     && rows[i].number == row.number - 1)
    ensures o.response.Created? ==>
              && o.response.series == Field(body, "ticket_series")
              && o.response.number == o.rows[|rows|].number
              && o.response.printUrl == PrintUrl(port, SeriesText(body), o.response.number)
  {
    if !HasRequiredFields(body) then Outcome(rows, MissingFields)
    else if fault == Some(MaxQueryFails) then Outcome(rows, ServerError)
    else
      var series := SeriesText(body);
      var next := NextFolio(rows, series);
      if fault == Some(InsertFails) then Outcome(rows, ServerError)
      else
        var stored := rows + [Row(series, next, Field(body, "client_id"), Field(body, "collector_id"), Field(body, "amount"))];
        assert stored[..|rows|] == rows;
        // The only call left to fail is the browser launch.
        if fault.Some? then Outcome(stored, ServerError)
        else Outcome(stored, Created(Field(body, "ticket_series"), next, PrintUrl(port, series, next)))
  }

  /** The payments table this router writes to, with no transaction around the handler. */
  class PaymentsTable {
    var rows: seq<Row>

    constructor (initial: seq<Row>)
      ensures rows == initial
    {
      rows := initial;
    }

    /** The handler: read the maximum, insert, build the locator, open it, reply. */
    method Post(body: map<string, Value>, port: Option<string>, fault: Option<Fault>) returns (response: Response)
      modifies this
      ensures Outcome(rows, response) == PostPayment(old(rows), body, port, fault)
    {
      var series := Field(body, "ticket_series");
      var clientId := Field(body, "client_id");
      var collectorId := Field(body, "collector_id");
      var amount := Field(body, "amount");
      if !Truthy(series) || !Truthy(clientId) || !Truthy(collectorId) || !Truthy(amount) {
        return MissingFields;
      }

      var seriesText := ToText(series);
      if fault == Some(MaxQueryFails) {
        return ServerError;
      }
      var lastNum := MaxNumber(rows, seriesText);
      var nextFolio := lastNum + 1;

      if fault == Some(InsertFails) {
        return ServerError;
      }
      rows := rows + [Row(seriesText, nextFolio, clientId, collectorId, amount)];

      var printUrl := BaseUrl(port) + TicketUrl(seriesText, NatText(nextFolio), "print");
      if fault.Some? {
        // open(printUrl) threw: the row stays stored.
        return ServerError;
      }
      response := Created(series, nextFolio, printUrl);
    }
  }

  // ---------------------------------------------------------------------------
  // Properties of the folio rule

  /** The rows of one series, in table order. */
  function InSeries(rows: seq<Row>, series: string): (r: seq<Row>)
    ensures forall i :: 0 <= i < |r| ==> r[i].series == series
  {
    if rows == [] then []
    else if rows[0].series == series then [rows[0]] + InSeries(rows[1..], series)
    else InSeries(rows[1..], series)
  }

  lemma {:induction false} MaxNumberOfSeries(rows: seq<Row>, series: string)
    ensures MaxNumber(rows, series) == MaxNumber(InSeries(rows, series), series)
  {
    if rows != [] {
      MaxNumberOfSeries(rows[1..], series);
      if rows[0].series == series {
        var tail := InSeries(rows[1..], series);
        assert ([rows[0]] + tail)[1..] == tail;
      }
    }
  }

  /** Payments of other series do not affect the folio: two tables with the same rows in the series agree. */
  lemma OtherSeriesIgnored(a: seq<Row>, b: seq<Row>, series: string)
    requires InSeries(a, series) == InSeries(b, series)
    ensures NextFolio(a, series) == NextFolio(b, series)
  {
    MaxNumberOfSeries(a, series);
    MaxNumberOfSeries(b, series);
  }

  /** Within each series no folio repeats. */
  predicate DistinctFolios(rows: seq<Row>) {
    forall i, j :: 0 <= i < j < |rows| && rows[i].series == rows[j].series ==> rows[i].number != rows[j].number
  }

  /** Sequential requests keep folios distinct within each series. */
  lemma PostKeepsFoliosDistinct(rows: seq<Row>, body: map<string, Value>, port: Option<string>, fault: Option<Fault>)
    requires DistinctFolios(rows)
    ensures DistinctFolios(PostPayment(rows, body, port, fault).rows)
  {
    var o := PostPayment(rows, body, port, fault);
    if |o.rows| != |rows| {
      var n := |rows|;
      assert forall i :: 0 <= i < n ==> o.rows[i] == rows[i] by {
        assert o.rows[..n] == rows;
      }
      forall i, j | 0 <= i < j < |o.rows| && o.rows[i].series == o.rows[j].series
        ensures o.rows[i].number != o.rows[j].number
      {
        if j == n {
          assert o.rows[i] == rows[i];
        } else {
          assert o.rows[i] == rows[i] && o.rows[j] == rows[j];
        }
      }
    }
  }

  /** The row a request stores becomes the series maximum. */
  lemma {:induction false} MaxNumberAppended(rows: seq<Row>, row: Row)
    requires forall i :: 0 <= i < |rows| && rows[i].series == row.series ==> rows[i].number < row.number
    ensures MaxNumber(rows + [row], row.series) == row.number
  {
    if rows != [] {
      assert (rows + [row])[1..] == rows[1..] + [row];
      MaxNumberAppended(rows[1..], row);
    }
  }

  /** Two requests in a row for the same series get consecutive folios. */
  lemma SuccessiveFolios(rows: seq<Row>, first: map<string, Value>, second: map<string, Value>, port: Option<string>)
    requires PostPayment(rows, first, port, None).response.Created?
    requires HasRequiredFields(second) && SeriesText(second) == SeriesText(first)
    ensures var o := PostPayment(rows, first, port, None);
            PostPayment(o.rows, second, port, None).response.number == o.response.number + 1
  {
    var o := PostPayment(rows, first, port, None);
    var row := o.rows[|rows|];
    assert o.rows == rows + [row] by {
      assert o.rows[..|rows|] == rows;
    }
    MaxNumberAppended(rows, row);
  }

  /**
   * When the series text is a plain path segment, the print locator of a
   * created payment is the base URL followed by a path the print route
   * matches to that series and folio.
   */
  lemma PrintUrlLocates(rows: seq<Row>, body: map<string, Value>, port: Option<string>)
    requires PostPayment(rows, body, port, None).response.Created?
    requires SeriesText(body) != "" && NoSlash(SeriesText(body))
    ensures var r := PostPayment(rows, body, port, None).response;
            exists path :: r.printUrl == BaseUrl(port) + path
                           && MatchTicketRoute(path, "print") == Some((SeriesText(body), NatText(r.number)))
  {
    var r := PostPayment(rows, body, port, None).response;
    NumeralHasNoSlash(r.number);
    TicketUrlRoutes(SeriesText(body), NatText(r.number), "print");
    var path := TicketUrl(SeriesText(body), NatText(r.number), "print");
    assert r.printUrl == BaseUrl(port) + path;
  }
}
