/**
 * The ticket routes: the field helpers pick and norm, the six-digit folio,
 * the ticket record the PDF is drawn from, the 404 rule of
 * GET /folio/:series/:number/pdf and the page GET /folio/:series/:number/print
 * serves around that PDF.
 */
module Tickets {
  import opened Wrappers
  import opened Numerals
  import opened JsValues
  import opened Db
  import opened Links

  /** A database row as the driver returns it: column name to value. */
  type Record = map<string, Value>

  // ---------------------------------------------------------------------------
  // pick and norm

  /** obj has k as an own property whose value is neither null, undefined nor ''. */
  predicate Usable(obj: Option<Record>, k: string) {
    obj.Some? && k in obj.value && !obj.value[k].Null? && !obj.value[k].Undefined? && obj.value[k] != Str("")
  }

  /**
   * pick(obj, keys, fallback): the value of the first usable key in list
   * order, or the fallback ('' unless given) when the row is missing or no
   * key is usable.
   */
  function Pick(obj: Option<Record>, keys: seq<string>, fallback: Value := Str("")): (r: Value)
    ensures (forall i :: 0 <= i < |keys| ==> !Usable(obj, keys[i])) ==> r == fallback
    ensures (exists i :: 0 <= i < |keys| && Usable(obj, keys[i])) ==>
              exists i :: && 0 <= i < |keys| && Usable(obj, keys[i]) && r == obj.value[keys[i]]
                          && forall j :: 0 <= j < i ==> !Usable(obj, keys[j])
  {
    if keys == [] then fallback
    else if Usable(obj, keys[0]) then obj.value[keys[0]]
    else
      var r := Pick(obj, keys[1..], fallback);
      assert forall i :: 1 <= i < |keys| ==> keys[i] == keys[1..][i - 1];
      r
  }

  /**
   * norm(s): a falsy value becomes '', anything else its text with every
   * literal backslash-n turned into a newline, then trimmed.
   */
  function Norm(v: Value): (r: string)
    ensures !Truthy(v) ==> r == ""
    ensures r == [] || (!IsWhitespace(r[0]) && !IsWhitespace(r[|r| - 1]))
  {
    var s := if Truthy(v) then ToText(v) else "";
    Trim(ExpandNewlines(s))
  }

  /** A slice of text without an escaped newline has none either. */
  lemma NoEscapeInSlice(s: string, a: nat, b: nat)
    requires a <= b <= |s| && !HasEscapedNewline(s)
    ensures !HasEscapedNewline(s[a..b])
  {
    forall i | 0 <= i < b - a - 1
      ensures !(s[a..b][i] == '\\' && s[a..b][i + 1] == 'n')
    {
      assert s[a..b][i] == s[a + i] && s[a..b][i + 1] == s[a + i + 1];
    }
  }

  /** Trimming keeps a text free of escaped newlines: the result is a slice of it. */
  lemma TrimHasNoEscape(e: string)
    requires !HasEscapedNewline(e)
    ensures !HasEscapedNewline(Trim(e))
  {
    var m := TrimEnd(e);
    var r := TrimStart(m);
    assert Trim(e) == r;
    NoEscapeInSlice(e, 0, |m|);
    NoEscapeInSlice(m, |m| - |r|, |m|);
  }

  /** The normalised text holds no escaped newline. */
  lemma NormHasNoEscape(v: Value)
    ensures !HasEscapedNewline(Norm(v))
  {
    var s := if Truthy(v) then ToText(v) else "";
    TrimHasNoEscape(ExpandNewlines(s));
  }

  /** Normalising a normalised text changes nothing. */
  lemma NormIdempotent(v: Value)
    ensures Norm(Str(Norm(v))) == Norm(v)
  {
    var r := Norm(v);
    if r != [] {
      NormHasNoEscape(v);
      ExpandNewlinesIdempotent(r);
      assert ToText(Str(r)) == r;
      assert Trim(r) == r;
    }
  }

  /** A non-empty text is normalised by replacing its escapes and trimming. */
  lemma NormOfText(s: string)
    requires s != []
    ensures Norm(Str(s)) == Trim(ExpandNewlines(s))
  {
    assert Truthy(Str(s)) && ToText(Str(s)) == s;
  }

  /** Whitespace around a text without escaped newlines adds none. */
  lemma PaddingAddsNoEscape(lead: string, s: string, trail: string)
    requires Blank(lead) && Blank(trail) && !HasEscapedNewline(s)
    ensures !HasEscapedNewline(lead + s + trail)
  {
    var t := lead + s + trail;
    forall i | 0 <= i < |t| - 1
      ensures !(t[i] == '\\' && t[i + 1] == 'n')
    {
      if i < |lead| {
        assert t[i] == lead[i];
      } else if i < |lead| + |s| - 1 {
        assert t[i] == s[i - |lead|] && t[i + 1] == s[i - |lead| + 1];
      } else {
        assert t[i + 1] == trail[i + 1 - |lead| - |s|];
      }
    }
  }

  /**
   * Whitespace around a text that starts and ends visibly and holds no
   * escaped newline is trimmed away, and nothing else changes.
   */
  lemma NormOfPadded(lead: string, s: string, trail: string)
    requires Blank(lead) && Blank(trail)
    requires s != [] && !IsWhitespace(s[0]) && !IsWhitespace(s[|s| - 1]) && !HasEscapedNewline(s)
    ensures Norm(Str(lead + s + trail)) == s
  {
    var t := lead + s + trail;
    PaddingAddsNoEscape(lead, s, trail);
    ExpandNewlinesIdempotent(t);
    TrimPadded(lead, s, trail);
    NormOfText(t);
  }

  /** Two lines joined by a newline start and end as the lines do. */
  lemma JoinedEnds(a: string, b: string)
    requires a != [] && b != []
    ensures var joined := a + "\n" + b;
            joined != [] && joined[0] == a[0] && joined[|joined| - 1] == b[|b| - 1]
  {
  }

  /**
   * A literal backslash-n between two clean lines becomes a newline: the
   * two lines are kept as they are, joined by one line break.
   */
  lemma NormJoinsLines(a: string, b: string)
    requires a != [] && !IsWhitespace(a[0]) && !HasEscapedNewline(a)
    requires b != [] && !IsWhitespace(b[|b| - 1]) && !HasEscapedNewline(b)
    ensures Norm(Str(a + "\\n" + b)) == a + "\n" + b
  {
    ExpandNewlinesAt(a, b);
    ExpandNewlinesIdempotent(b);
    JoinedEnds(a, b);
    NormOfText(a + "\\n" + b);
  }

  // ---------------------------------------------------------------------------
  // The ticket record

  /** String(number).padStart(6, '0'). */
  function PadFolio(number: nat): (r: string)
    ensures |r| == if |NatText(number)| >= 6 then |NatText(number)| else 6
    ensures r[|r| - |NatText(number)|..] == NatText(number)
    ensures forall i :: 0 <= i < |r| - |NatText(number)| ==> r[i] == '0'
    ensures ToNumber(Str(r)) == Num(Decimal(number, 0))
  {
    NumberOfNumeral(number, 6);
    PadStart(NatText(number), 6, '0')
  }

  datatype Concept = Concept(concepto: string, importe: real)

  datatype Ticket = Ticket(
    serie: string,
    folio: string,
    cobrador: Value,
    clienteNombre: Value,
    clienteRfc: string,
    conceptos: seq<Concept>,
    subtotal: real,
    taxTotal: real,
    total: real,
    formaPago: string)

  function Importes(cs: seq<Concept>): real {
    if cs == [] then 0.0 else cs[0].importe + Importes(cs[1..])
  }

  /**
   * The ticket of a payment: one 'Abono' concept for the amount, whose sum is
   * both the subtotal and the total, with no tax.
   */
  function TicketFor(pay: PaymentRow, client: Option<Record>, user: Option<Record>): (tk: Ticket)
    ensures tk.serie == pay.series && tk.folio == PadFolio(pay.number)
    ensures tk.conceptos == [Concept("Abono", RealValue(pay.amount))]
    ensures tk.subtotal == Importes(tk.conceptos) == tk.total == RealValue(pay.amount)
    ensures tk.taxTotal == 0.0 && tk.total == tk.subtotal + tk.taxTotal
    ensures tk.cobrador == Pick(user, ["name", "username"], Str("cobrador"))
    ensures tk.clienteNombre == Pick(client, ["name"])
    ensures tk.clienteRfc == "" && tk.formaPago == "Efectivo"
  {
    var amount := RealValue(pay.amount);
    var conceptos := [Concept("Abono", amount)];
    assert Importes(conceptos) == amount + Importes([]);
    Ticket(pay.series, PadFolio(pay.number), Pick(user, ["name", "username"], Str("cobrador")),
           Pick(client, ["name"], Str("")), "", conceptos, amount, 0.0, amount, "Efectivo")
  }

  /** pick over a single key: the usable value of that key, or the fallback. */
  lemma PickOne(obj: Option<Record>, k: string, fallback: Value)
    ensures Usable(obj, k) ==> Pick(obj, [k], fallback) == obj.value[k]
    ensures !Usable(obj, k) ==> Pick(obj, [k], fallback) == fallback
  {
  }

  /** The header lines, each normalised, with the defaults of a missing configuration. */
  datatype Header = Header(name: string, web: string, address: string, phone: string, footer: string)

  const DefaultFooter: string := "Gracias por su preferencia"

  /** A text that starts and ends visibly and holds no escaped newline is its own normal form. */
  lemma NormOfClean(s: string)
    requires s != [] && !IsWhitespace(s[0]) && !IsWhitespace(s[|s| - 1]) && !HasEscapedNewline(s)
    ensures Norm(Str(s)) == s
  {
    NormOfText(s);
    ExpandNewlinesIdempotent(s);
  }

  /** The default header name is already normalised. */
  lemma DefaultHeaderNameIsNormal()
    ensures Norm(Str(DefaultHeaderName)) == DefaultHeaderName
  {
    NormOfClean(DefaultHeaderName);
  }

  /** The default footer is already normalised. */
  lemma DefaultFooterIsNormal()
    ensures Norm(Str(DefaultFooter)) == DefaultFooter
  {
    FooterHasNoEscape();
    NormOfClean(DefaultFooter);
  }

  lemma FooterHasNoEscape()
    ensures !HasEscapedNewline(DefaultFooter)
  {
    var a, b := "Gracias por", " su preferencia";
    assert !HasEscapedNewline(a) && !HasEscapedNewline(b);
    NoEscapeJoined(a, b);
    assert a + b == DefaultFooter;
  }

  /** Two texts without an escaped newline, not meeting at a backslash and an n, join into one without. */
  lemma NoEscapeJoined(a: string, b: string)
    requires !HasEscapedNewline(a) && !HasEscapedNewline(b)
    requires !(a != [] && b != [] && a[|a| - 1] == '\\' && b[0] == 'n')
    ensures !HasEscapedNewline(a + b)
  {
    var t := a + b;
    forall i | 0 <= i < |t| - 1
      ensures !(t[i] == '\\' && t[i + 1] == 'n')
    {
      if i + 1 < |a| {
        assert t[i] == a[i] && t[i + 1] == a[i + 1];
      } else if i >= |a| {
        assert t[i] == b[i - |a|] && t[i + 1] == b[i + 1 - |a|];
      }
    }
  }

  /**
   * The header lines of a ticket: each is the normalised value of its
   * column when the configuration row has a usable one; otherwise the name
   * is 'FUNERALES CÁRDENAS', the footer 'Gracias por su preferencia', and
   * the web, address and phone lines are empty.
   */
  function HeaderFor(cfg: Option<Record>): (h: Header)
    ensures Usable(cfg, "header_name") ==> h.name == Norm(cfg.value["header_name"])
    ensures !Usable(cfg, "header_name") ==> h.name == DefaultHeaderName
    ensures Usable(cfg, "header_rfc") ==> h.web == Norm(cfg.value["header_rfc"])
    ensures !Usable(cfg, "header_rfc") ==> h.web == ""
    ensures Usable(cfg, "header_address") ==> h.address == Norm(cfg.value["header_address"])
    ensures !Usable(cfg, "header_address") ==> h.address == ""
    ensures Usable(cfg, "header_phone") ==> h.phone == Norm(cfg.value["header_phone"])
    ensures !Usable(cfg, "header_phone") ==> h.phone == ""
    ensures Usable(cfg, "footer_legend") ==> h.footer == Norm(cfg.value["footer_legend"])
    ensures !Usable(cfg, "footer_legend") ==> h.footer == DefaultFooter
  {
    DefaultHeaderNameIsNormal();
    DefaultFooterIsNormal();
    Header(HeaderLine(cfg, "header_name", DefaultHeaderName), HeaderLine(cfg, "header_rfc", ""),
           HeaderLine(cfg, "header_address", ""), HeaderLine(cfg, "header_phone", ""),
           HeaderLine(cfg, "footer_legend", DefaultFooter))
  }

  /** norm(pick(cfg, [k], fallback)): the normalised usable value of column k, or the fallback, which is already normal. */
  function HeaderLine(cfg: Option<Record>, k: string, fallback: string): (r: string)
    requires Norm(Str(fallback)) == fallback
    ensures Usable(cfg, k) ==> r == Norm(cfg.value[k])
    ensures !Usable(cfg, k) ==> r == fallback
  {
    PickOne(cfg, k, Str(fallback));
    Norm(Pick(cfg, [k], Str(fallback)))
  }

  // ---------------------------------------------------------------------------
  // GET /folio/:series/:number/pdf

  /** The row matches series and numeric folio, as `ticket_series = ? AND ticket_number = ?` compares. */
  predicate MatchesFolio(row: PaymentRow, series: string, number: Decimal) {
    row.series == series && row.number as real == RealValue(number)
  }

  /** SELECT * FROM payments WHERE ticket_series = ? AND ticket_number = ? LIMIT 1, in table order. */
  function FindByFolio(rows: seq<PaymentRow>, series: string, number: Decimal): (r: Option<PaymentRow>)
    ensures r.None? <==> forall i :: 0 <= i < |rows| ==> !MatchesFolio(rows[i], series, number)
    ensures r.Some? ==> exists i :: && 0 <= i < |rows| && rows[i] == r.value && MatchesFolio(r.value, series, number)
                                    && forall j :: 0 <= j < i ==> !MatchesFolio(rows[j], series, number)
  {
    if rows == [] then None
    else if MatchesFolio(rows[0], series, number) then Some(rows[0])
    else
      var r := FindByFolio(rows[1..], series, number);
      assert forall i :: 1 <= i < |rows| ==> rows[i] == rows[1..][i - 1];
      r
  }

  /**
   * What the PDF route comes to: 404 when no payment has that folio; a
   * failed query (handed to the error handler) when the number is not a
   * number, since the driver then inlines NaN into the statement; else the
   * header and the ticket it draws, and the file name it offers.
   */
  datatype PdfOutcome =
    | TicketNotFound
    | QueryFailed
    | Rendered(header: Header, ticket: Ticket, fileName: string)

  function Lookup(table: map<nat, Record>, id: nat): Option<Record> {
    if id in table then Some(table[id]) else None
  }

  /** SELECT … FROM tickets_config WHERE series = ? LIMIT 1. */
  function ConfigOf(configs: map<string, Record>, series: string): Option<Record> {
    if series in configs then Some(configs[series]) else None
  }

  function PdfRoute(payments: seq<PaymentRow>, series: string, numberParam: string,
                    clients: map<nat, Record>, users: map<nat, Record>, configs: map<string, Record>): (r: PdfOutcome)
    ensures r.QueryFailed? <==> ToNumber(Str(numberParam)).NaN?
    ensures r.TicketNotFound? <==> && ToNumber(Str(numberParam)).Num?
                                   && forall i :: 0 <= i < |payments| ==> !MatchesFolio(payments[i], series, ToNumber(Str(numberParam)).n)
    ensures r.Rendered? ==> exists i :: && 0 <= i < |payments|
                                        && MatchesFolio(payments[i], series, ToNumber(Str(numberParam)).n)
                                        && r.ticket.serie == series
                                        && r.ticket.folio == PadFolio(payments[i].number)
                                        && r.ticket.total == RealValue(payments[i].amount)
                                        && (forall j :: 0 <= j < i ==> !MatchesFolio(payments[j], series, ToNumber(Str(numberParam)).n))
                                        && r.ticket == TicketFor(payments[i], Lookup(clients, payments[i].clientId),
                                                                 Lookup(users, payments[i].collectorId))
                                        && r.header == HeaderFor(ConfigOf(configs, payments[i].series))
                                        && r.fileName == "ticket-" + series + "-" + PadFolio(payments[i].number) + ".pdf"
  {
    var folioNum := ToNumber(Str(numberParam));
    if folioNum.NaN? then QueryFailed
    else
      match FindByFolio(payments, series, folioNum.n)
      case None => TicketNotFound
      case Some(pay) =>
        RenderedFor(pay, clients, users, configs)
  }

  /**
   * What the route draws for a found payment: the header of its series'
   * configuration, its ticket with its client and collector rows, and the
   * file name ticket-<serie>-<folio>.pdf.
   */
  function RenderedFor(pay: PaymentRow, clients: map<nat, Record>, users: map<nat, Record>,
                       configs: map<string, Record>): (r: PdfOutcome)
    ensures r.Rendered?
    ensures r.ticket == TicketFor(pay, Lookup(clients, pay.clientId), Lookup(users, pay.collectorId))
    ensures r.header == HeaderFor(ConfigOf(configs, pay.series))
    ensures r.fileName == "ticket-" + pay.series + "-" + PadFolio(pay.number) + ".pdf"
  {
    var ticket := TicketFor(pay, Lookup(clients, pay.clientId), Lookup(users, pay.collectorId));
    Rendered(HeaderFor(ConfigOf(configs, pay.series)), ticket, "ticket-" + ticket.serie + "-" + ticket.folio + ".pdf")
  }

  // ---------------------------------------------------------------------------
  // GET /folio/:series/:number/print

  /** The page that prints a ticket: its title and the source of the iframe holding the PDF. */
  datatype PrintPage = PrintPage(title: string, iframeSrc: string)

  function PrintPageFor(series: string, number: string): PrintPage {
    PrintPage("Imprimiendo ticket " + series + "-" + number, TicketUrl(series, number, "pdf"))
  }

  /** The print route: the page for the series and number of a matching path. */
  function PrintRoute(path: string): (r: Option<PrintPage>)
    ensures r.Some? <==> MatchTicketRoute(path, "print").Some?
    ensures r.Some? ==> var (series, number) := MatchTicketRoute(path, "print").value;
                        && r.value.iframeSrc == TicketUrl(series, number, "pdf")
                        && r.value.title == "Imprimiendo ticket " + series + "-" + number
                        && MatchTicketRoute(r.value.iframeSrc, "pdf") == Some((series, number))
  {
    match MatchTicketRoute(path, "print")
    case None => None
    case Some((series, number)) =>
      assert NoSlash(series) && NoSlash(number) by {
        RouteParamsHaveNoSlash(path, "print");
      }
      TicketUrlRoutes(series, number, "pdf");
      Some(PrintPageFor(series, number))
  }
}
