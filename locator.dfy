/**
 * The links a registration answers with lead back to the payment it stored:
 * the print page embeds the PDF locator, and the PDF route finds exactly the
 * new row and draws its ticket.
 */
module Locator {
  import opened Wrappers
  import opened Numerals
  import opened JsValues
  import opened Db
  import opened Links
  import opened Server
  import opened ServerProperties
  import opened Tickets

  /** A folio number written out reads back, through Number(), as that number. */
  lemma FolioParamMatches(row: PaymentRow, n: nat)
    requires row.series == Series && row.number == n
    ensures ToNumber(Str(NatText(n))) == Num(Decimal(n, 0))
    ensures MatchesFolio(row, Series, Decimal(n, 0))
  {
    var s := NatText(n);
    NumberOfDigits(s);
    assert DigitsValue(s) == n;
    IntegerValue(n);
  }

  /** In a consistent state, the only series-A row with folio n is the one at index k. */
  lemma OnlyMatch(ps: seq<PaymentRow>, k: nat, n: nat, i: nat)
    requires k < |ps| && ps[k].series == Series && ps[k].number == n
    requires forall a, b :: 0 <= a < b < |ps| && ps[a].series == Series && ps[b].series == Series
               ==> ps[a].number != ps[b].number
    requires i < |ps| && MatchesFolio(ps[i], Series, Decimal(n, 0))
    ensures i == k
  {
    IntegerValue(n);
    assert ps[i].number == n;
  }

  /**
   * After a registration that created folio n from a consistent state, the
   * response carries the folio "A-n"; its print locator is served a page
   * whose frame shows its PDF locator; the PDF locator names series A and
   * number n; and the PDF route, run on the committed tables, draws the
   * ticket of the new payment: folio n padded to six digits, total equal to
   * the amount sent.
   */
  lemma CreatedTicketIsServed(t: Tables, idk: Option<string>, body: map<string, Value>, newUuid: string,
                              fault: Option<Step>, clients: map<nat, Record>, users: map<nat, Record>,
                              configs: map<string, Record>)
    requires Consistent(t)
    requires Register(t, idk, body, newUuid, fault).reply.Created?
    ensures var o := Register(t, idk, body, newUuid, fault);
            var n := o.reply.number;
            var links := Respond(o.reply).body;
            && links.paymentUuid == newUuid
            && links.ticketFolio == Folio(Series, n)
            && MatchTicketRoute(links.ticketPdfUrl, "pdf") == Some((Series, NatText(n)))
            && PrintRoute(links.ticketPrintUrl).Some?
            && PrintRoute(links.ticketPrintUrl).value.iframeSrc == links.ticketPdfUrl
            && var pdf := PdfRoute(o.tables.payments, Series, NatText(n), clients, users, configs);
               && pdf.Rendered?
               && pdf.ticket.folio == PadFolio(n)
               && pdf.ticket.total == RealValue(ParsePayment(body).value.amount)
  {
    var o := Register(t, idk, body, newUuid, fault);
    RegisterPreservesConsistency(t, idk, body, newUuid, fault);
    CreatedLinksRoute(newUuid, o.reply.number);
    StoredTicketIsDrawn(o.tables.payments, |t.payments|, o.reply.number, clients, users, configs);
  }

  /**
   * The links answered for folio n of series A: the payment's uuid, the
   * folio "A-n", a PDF locator routed to A and n, and a print locator whose
   * page frames that PDF locator.
   */
  lemma CreatedLinksRoute(uuid: string, n: nat)
    ensures var links := Respond(Created(uuid, Series, n)).body;
            && links.paymentUuid == uuid
            && links.ticketFolio == Folio(Series, n)
            && MatchTicketRoute(links.ticketPdfUrl, "pdf") == Some((Series, NatText(n)))
            && PrintRoute(links.ticketPrintUrl).Some?
            && PrintRoute(links.ticketPrintUrl).value.iframeSrc == links.ticketPdfUrl
  {
    NumeralHasNoSlash(n);
    assert NoSlash(Series);
    TicketUrlRoutes(Series, NatText(n), "pdf");
    TicketUrlRoutes(Series, NatText(n), "print");
  }

  /**
   * For a series-A row at index k whose folio n no other series-A row
   * repeats, the PDF route asked for A and n draws exactly that row's ticket.
   */
  lemma StoredTicketIsDrawn(ps: seq<PaymentRow>, k: nat, n: nat,
                            clients: map<nat, Record>, users: map<nat, Record>, configs: map<string, Record>)
    requires k < |ps| && ps[k].series == Series && ps[k].number == n
    requires forall a, b :: 0 <= a < b < |ps| && ps[a].series == Series && ps[b].series == Series
               ==> ps[a].number != ps[b].number
    ensures var pdf := PdfRoute(ps, Series, NatText(n), clients, users, configs);
            && pdf.Rendered?
            && pdf.ticket.folio == PadFolio(n)
            && pdf.ticket.total == RealValue(ps[k].amount)
  {
    FolioParamMatches(ps[k], n);
    var pdf := PdfRoute(ps, Series, NatText(n), clients, users, configs);
    assert !pdf.TicketNotFound?;
    var i :| && 0 <= i < |ps| && MatchesFolio(ps[i], Series, Decimal(n, 0))
             && pdf.ticket.folio == PadFolio(ps[i].number) && pdf.ticket.total == RealValue(ps[i].amount);
    OnlyMatch(ps, k, n, i);
  }

  /**
   * The header the PDF route draws for a created payment, when the route
   * reads the header_name the registration committed: a series row the
   * registration created carries 'FUNERALES CÁRDENAS'; an existing row keeps
   * its own name, since the counter update leaves it alone.
   */
  lemma CreatedSeriesHeader(t: Tables, idk: Option<string>, body: map<string, Value>, newUuid: string,
                            fault: Option<Step>, clients: map<nat, Record>, users: map<nat, Record>,
                            configs: map<string, Record>)
    requires Consistent(t)
    requires Register(t, idk, body, newUuid, fault).reply.Created?
    requires Series in configs && "header_name" in configs[Series]
    requires configs[Series]["header_name"] == Str(Register(t, idk, body, newUuid, fault).tables.ticketsConfig[Series].headerName)
    ensures var o := Register(t, idk, body, newUuid, fault);
            var pdf := PdfRoute(o.tables.payments, Series, NatText(o.reply.number), clients, users, configs);
            && pdf.Rendered?
            && (Series !in t.ticketsConfig || t.ticketsConfig[Series].headerName == "" ==> pdf.header.name == DefaultHeaderName)
            && (Series in t.ticketsConfig && t.ticketsConfig[Series].headerName != "" ==>
                  pdf.header.name == Norm(Str(t.ticketsConfig[Series].headerName)))
  {
    var o := Register(t, idk, body, newUuid, fault);
    RegisterPreservesConsistency(t, idk, body, newUuid, fault);
    var name := o.tables.ticketsConfig[Series].headerName;
    assert Series !in t.ticketsConfig ==> name == DefaultHeaderName;
    assert Series in t.ticketsConfig ==> name == t.ticketsConfig[Series].headerName;
    SeriesHeaderDrawn(o.tables.payments, |t.payments|, o.reply.number, clients, users, configs, name);
    DefaultHeaderNameIsNormal();
  }

  /**
   * The PDF route for a stored series-A folio draws the header name of the
   * series configuration, or the default name when that column is empty.
   */
  lemma SeriesHeaderDrawn(ps: seq<PaymentRow>, k: nat, n: nat, clients: map<nat, Record>,
                          users: map<nat, Record>, configs: map<string, Record>, name: string)
    requires k < |ps| && ps[k].series == Series && ps[k].number == n
    requires forall a, b :: 0 <= a < b < |ps| && ps[a].series == Series && ps[b].series == Series
               ==> ps[a].number != ps[b].number
    requires Series in configs && "header_name" in configs[Series] && configs[Series]["header_name"] == Str(name)
    ensures var pdf := PdfRoute(ps, Series, NatText(n), clients, users, configs);
            && pdf.Rendered?
            && (name == "" ==> pdf.header.name == DefaultHeaderName)
            && (name != "" ==> pdf.header.name == Norm(Str(name)))
  {
    DrawnHeaderIsSeriesConfig(ps, k, n, clients, users, configs);
    HeaderNameOf(configs[Series], name);
  }

  /** The header drawn for a stored series-A folio is the one of the series configuration. */
  lemma DrawnHeaderIsSeriesConfig(ps: seq<PaymentRow>, k: nat, n: nat, clients: map<nat, Record>,
                                  users: map<nat, Record>, configs: map<string, Record>)
    requires k < |ps| && ps[k].series == Series && ps[k].number == n
    requires forall a, b :: 0 <= a < b < |ps| && ps[a].series == Series && ps[b].series == Series
               ==> ps[a].number != ps[b].number
    requires Series in configs
    ensures var pdf := PdfRoute(ps, Series, NatText(n), clients, users, configs);
            pdf.Rendered? && pdf.header == HeaderFor(Some(configs[Series]))
  {
    StoredTicketIsDrawn(ps, k, n, clients, users, configs);
    var pdf := PdfRoute(ps, Series, NatText(n), clients, users, configs);
    var i :| && 0 <= i < |ps| && MatchesFolio(ps[i], Series, ToNumber(Str(NatText(n))).n)
             && pdf.header == HeaderFor(ConfigOf(configs, ps[i].series));
    assert ps[i].series == Series;
  }

  /** The header name of a configuration row whose header_name column holds the text name. */
  lemma HeaderNameOf(cfg: Record, name: string)
    requires "header_name" in cfg && cfg["header_name"] == Str(name)
    ensures name == "" ==> HeaderFor(Some(cfg)).name == DefaultHeaderName
    ensures name != "" ==> HeaderFor(Some(cfg)).name == Norm(Str(name))
  {
    assert Usable(Some(cfg), "header_name") <==> name != "";
  }
}
