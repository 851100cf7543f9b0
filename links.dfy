/**
 * The printable folio "<series>-<number>" and the ticket locators
 * /api/v1/tickets/folio/<series>/<number>/<pdf|print>, together with the
 * route matching that takes a locator back to its series and number.
 */
module Links {
  import opened Wrappers
  import opened Numerals
  import opened JsValues

  const FolioRoot: string := "/api/v1/tickets/folio/"

  /** The human-facing folio `${series}-${number}`. */
  function Folio(series: string, number: nat): string {
    series + "-" + NatText(number)
  }

  /** Within one series, the folio string determines the number. */
  lemma {:induction false} FolioInjective(series: string, m: nat, n: nat)
    requires Folio(series, m) == Folio(series, n)
    ensures m == n
  {
    var k := |series| + 1;
    assert Folio(series, m)[k..] == NatText(m);
    assert Folio(series, n)[k..] == NatText(n);
    NatTextInjective(m, n);
  }

  /** `/api/v1/tickets/folio/${series}/${number}/${leaf}`. */
  function TicketUrl(series: string, number: string, leaf: string): string {
    FolioRoot + series + "/" + number + "/" + leaf
  }

  /** The segments of s between separators c. */
  function Split(s: string, c: char): (parts: seq<string>)
    ensures |parts| >= 1
    decreases |s|
  {
    var i := IndexOf(s, c);
    if i == |s| then [s] else [s[..i]] + Split(s[i + 1..], c)
  }

  /**
   * The router's match of GET /folio/:series/:number/<leaf> under
   * /api/v1/tickets: each parameter is a non-empty segment without '/', and
   * one trailing slash is tolerated.
   */
  function MatchTicketRoute(path: string, leaf: string): Option<(string, string)> {
    if |path| >= |FolioRoot| && path[..|FolioRoot|] == FolioRoot then
      var parts := Split(path[|FolioRoot|..], '/');
      if (|parts| == 3 || (|parts| == 4 && parts[3] == ""))
         && parts[0] != "" && parts[1] != "" && parts[2] == leaf
      then Some((parts[0], parts[1]))
      else None
    else None
  }

  predicate NoSlash(s: string) {
    forall i :: 0 <= i < |s| ==> s[i] != '/'
  }

  lemma SplitWhole(s: string)
    requires NoSlash(s)
    ensures Split(s, '/') == [s]
  {
  }

  lemma SplitFirst(a: string, b: string)
    requires NoSlash(a)
    ensures Split(a + "/" + b, '/') == [a] + Split(b, '/')
  {
    var s := a + "/" + b;
    assert s[|a|] == '/';
    assert forall j :: 0 <= j < |a| ==> s[j] == a[j];
    assert IndexOf(s, '/') == |a|;
    assert s[..|a|] == a && s[|a| + 1..] == b;
  }

  lemma SplitThree(a: string, b: string, c: string)
    requires NoSlash(a) && NoSlash(b) && NoSlash(c)
    ensures Split(a + "/" + b + "/" + c, '/') == [a, b, c]
  {
    var bc := b + "/" + c;
    assert a + "/" + b + "/" + c == a + "/" + bc;
    SplitFirst(a, bc);
    SplitFirst(b, c);
    SplitWhole(c);
    assert [a] + ([b] + [c]) == [a, b, c];
  }

  /** A ticket locator built from a series and a number routes back to exactly those parameters. */
  lemma TicketUrlRoutes(series: string, number: string, leaf: string)
    requires series != "" && number != "" && NoSlash(series) && NoSlash(number) && NoSlash(leaf)
    ensures MatchTicketRoute(TicketUrl(series, number, leaf), leaf) == Some((series, number))
  {
    var rest := series + "/" + number + "/" + leaf;
    var path := TicketUrl(series, number, leaf);
    assert path == FolioRoot + rest;
    assert path[..|FolioRoot|] == FolioRoot && path[|FolioRoot|..] == rest;
    SplitThree(series, number, leaf);
  }

  lemma {:induction false} SplitPartsHaveNoSlash(s: string)
    ensures forall k :: 0 <= k < |Split(s, '/')| ==> NoSlash(Split(s, '/')[k])
    decreases |s|
  {
    var i := IndexOf(s, '/');
    if i < |s| {
      SplitPartsHaveNoSlash(s[i + 1..]);
      var parts := Split(s, '/');
      assert parts == [s[..i]] + Split(s[i + 1..], '/');
      assert forall k :: 1 <= k < |parts| ==> parts[k] == Split(s[i + 1..], '/')[k - 1];
    }
  }

  /** The parameters a route match yields are non-empty and slash-free. */
  lemma RouteParamsHaveNoSlash(path: string, leaf: string)
    requires MatchTicketRoute(path, leaf).Some?
    ensures var (series, number) := MatchTicketRoute(path, leaf).value;
            series != "" && number != "" && NoSlash(series) && NoSlash(number)
  {
    SplitPartsHaveNoSlash(path[|FolioRoot|..]);
  }

  /** A numeral never holds a slash, so a folio number can stand as a route parameter. */
  lemma NumeralHasNoSlash(n: nat)
    ensures NoSlash(NatText(n)) && NatText(n) != ""
  {
  }
}
