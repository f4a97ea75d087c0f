/**
 The MOEX ISS client: three lookups over the `marketdata` section
 (trading status, last price, close price), one over the `securities`
 section (company short name), the quote line built from them, and the
 newline-joined quotes for a list of tickers.

 The HTTP request and JSON decoding are replaced by a `Document` argument
 (or, for several tickers, a `fetch` function from ticker to document;
 all requests made for one ticker see the same document).
 */
module MoexApi {
  import opened Common
  import opened Iss
  import PyText

  const StatusColumn: string := "TRADINGSTATUS"
  const LastColumn: string := "LAST"
  const CloseColumn: string := "CLOSEPRICE"
  const NameColumn: string := "SHORTNAME"

  /** The status lookup's boards. Its first code is "TQRB", not the main
      board "TQBR" the price lookups use; the model keeps that. */
  const StatusProbe: Probe := Probe(StatusColumn, ["TQRB", "SMAL", "SPEQ"], false)
  const LastProbe: Probe := Probe(LastColumn, ["TQBR", "SMAL", "SPEQ"], true)
  const CloseProbe: Probe := Probe(CloseColumn, ["TQBR", "SMAL", "SPEQ"], true)
  /** The name lookup's chain tests "TQBR" three times over. */
  const NameProbe: Probe := Probe(NameColumn, ["TQBR", "TQBR", "TQBR"], true)

  // The user-facing messages, keyed by ticker.

  function NotFoundOrClosedMsg(ticker: string): string {
    "Акция " + ticker + " не найдена или торги закрыты."
  }

  function NotFoundMsg(ticker: string): string {
    "Акция " + ticker + " не найдена."
  }

  function MissingColumnMsg(ticker: string): string {
    "Акция " + ticker + ": одна из необходимых колонок не найдена в данных."
  }

  function NoBoardMsg(ticker: string): string {
    "Акция " + ticker + ": не найдено ни одного режима торгов из TQRB, SMAL, SPEQ."
  }

  function NoLastMsg(ticker: string): string {
    "Акция " + ticker + ": цена LAST не найдена."
  }

  function NoCloseMsg(ticker: string): string {
    "Акция " + ticker + ": цена CLOSE не найдена."
  }

  function NoNameMsg(ticker: string): string {
    "Акция " + ticker + ": название не найдено."
  }

  /** `get_trading_status`: the TRADINGSTATUS of the first TQRB/SMAL/SPEQ
      row, null or not. */
  function GetTradingStatus(doc: Document, ticker: string): (r: Reply<Value>)
    requires Indexable(doc.marketdata, StatusColumn)
    ensures Answers(doc.marketdata, StatusProbe, r,
                    NotFoundOrClosedMsg(ticker), MissingColumnMsg(ticker), NoBoardMsg(ticker))
    ensures r.Err? ==> |r.msg| > 0
  {
    LookupAnswers(doc.marketdata, StatusProbe,
                  NotFoundOrClosedMsg(ticker), MissingColumnMsg(ticker), NoBoardMsg(ticker));
    Respond(Lookup(doc.marketdata, StatusProbe),
            NotFoundOrClosedMsg(ticker), MissingColumnMsg(ticker), NoBoardMsg(ticker))
  }

  /** `get_last_price`: the first non-null LAST on a TQBR/SMAL/SPEQ row. */
  function GetLastPrice(doc: Document, ticker: string): (r: Reply<Value>)
    requires Indexable(doc.marketdata, LastColumn)
    ensures Answers(doc.marketdata, LastProbe, r,
                    NotFoundOrClosedMsg(ticker), MissingColumnMsg(ticker), NoLastMsg(ticker))
    ensures r.Ok? ==> r.value != Null
    ensures r.Err? ==> |r.msg| > 0
  {
    LookupAnswers(doc.marketdata, LastProbe,
                  NotFoundOrClosedMsg(ticker), MissingColumnMsg(ticker), NoLastMsg(ticker));
    Respond(Lookup(doc.marketdata, LastProbe),
            NotFoundOrClosedMsg(ticker), MissingColumnMsg(ticker), NoLastMsg(ticker))
  }

  /** `get_close_price`: the first non-null CLOSEPRICE on a TQBR/SMAL/SPEQ
      row; its not-found message lacks the "or trading closed" part. */
  function GetClosePrice(doc: Document, ticker: string): (r: Reply<Value>)
    requires Indexable(doc.marketdata, CloseColumn)
    ensures Answers(doc.marketdata, CloseProbe, r,
                    NotFoundMsg(ticker), MissingColumnMsg(ticker), NoCloseMsg(ticker))
    ensures r.Ok? ==> r.value != Null
    ensures r.Err? ==> |r.msg| > 0
  {
    LookupAnswers(doc.marketdata, CloseProbe,
                  NotFoundMsg(ticker), MissingColumnMsg(ticker), NoCloseMsg(ticker));
    Respond(Lookup(doc.marketdata, CloseProbe),
            NotFoundMsg(ticker), MissingColumnMsg(ticker), NoCloseMsg(ticker))
  }

  /** `get_name_company`: the first non-null SHORTNAME on a TQBR row of the
      `securities` section. On success the source returns the bare value,
      on failure a `(None, message)` pair; `NameText` renders either. */
  function GetNameCompany(doc: Document, ticker: string): (r: Reply<Value>)
    requires Indexable(doc.securities, NameColumn)
    ensures Answers(doc.securities, NameProbe, r,
                    NotFoundMsg(ticker), MissingColumnMsg(ticker), NoNameMsg(ticker))
    ensures r.Ok? ==> r.value != Null
    ensures r.Err? ==> |r.msg| > 0
  {
    LookupAnswers(doc.securities, NameProbe,
                  NotFoundMsg(ticker), MissingColumnMsg(ticker), NoNameMsg(ticker));
    Respond(Lookup(doc.securities, NameProbe),
            NotFoundMsg(ticker), MissingColumnMsg(ticker), NoNameMsg(ticker))
  }

  /** The status lookup never accepts a main-board ("TQBR") row, although
      the price lookups accept exactly such a row when its value is set. */
  lemma StatusSkipsMainBoard(vi: nat, bi: nat, row: Row)
    requires bi < |row| && row[bi] == Str("TQBR")
    ensures !Accepts(StatusProbe, vi, bi, row)
    ensures Accepts(LastProbe, vi, bi, row) <==> |row| > vi && row[vi] != Null
  {
  }

  /** The name lookup's triple test accepts exactly the non-null names on
      "TQBR" rows. */
  lemma NameOnlyOnMainBoard(vi: nat, bi: nat, row: Row)
    ensures Accepts(NameProbe, vi, bi, row) <==>
              |row| > vi && bi < |row| && row[bi] == Str("TQBR") && row[vi] != Null
  {
  }

  /** What `get_name_company`'s result looks like inside an f-string: the
      name itself, or the printed `(None, '...')` pair. */
  function NameText(name: Reply<Value>): (r: string)
    ensures name.Err? ==> r == "(None, " + PyText.Repr(name.msg) + ")"
    ensures name.Ok? ==> r == Render(name.value)
    ensures name.Err? && PyText.PlainText(name.msg) ==> r == "(None, '" + name.msg + "')"
  {
    match name
    case Ok(v) => Render(v)
    case Err(m) => "(None, " + PyText.Repr(m) + ")"
  }

  /** The price a quote shows. */
  datatype Price = LastPrice(value: Value) | ClosePrice(value: Value) | NoPrice

  /** The price preference, with the trading marker kept apart: the last
      price whenever it was found, else the close price, else none. */
  function ChoosePrice(last: Reply<Value>, close: Reply<Value>): (p: Price)
    ensures p.LastPrice? <==> last.Ok?
    ensures p.ClosePrice? <==> last.Err? && close.Ok?
    ensures p.NoPrice? <==> last.Err? && close.Err?
    ensures p.LastPrice? ==> p.value == last.value
    ensures p.ClosePrice? ==> p.value == close.value
  {
    if last.Ok? then LastPrice(last.value)
    else if close.Ok? then ClosePrice(close.value)
    else NoPrice
  }

  const ClosedMarker: string := "⛔️"
  const OpenMarker: string := "👍"

  /** The trading marker: closed for status "N", open otherwise. */
  function Marker(closed: bool): string {
    if closed then ClosedMarker else OpenMarker
  }

  /** The quote line as one function of the trading marker and the chosen
      price. Only the no-price wording depends on the marker beyond the
      marker itself. */
  function QuoteLine(name: string, closed: bool, price: Price): string {
    match price
    case LastPrice(v) => name + " | торги " + Marker(closed) + ": последняя цена " + Render(v) + " руб."
    case ClosePrice(v) => name + " | торги " + Marker(closed) + ": цена закрытия " + Render(v) + " руб."
    case NoPrice =>
      if closed then name + ": цена отсутствует."
      else name + " | торги " + OpenMarker + ": ни LAST, ни CLOSE цена не найдены."
  }

  /** The two no-price messages are worded differently: the closed one has
      no marker at all. */
  lemma NoPriceWordingDiffers(name: string)
    ensures QuoteLine(name, true, NoPrice) != QuoteLine(name, false, NoPrice)
  {
    assert QuoteLine(name, true, NoPrice)[|name|] == ':';
    assert QuoteLine(name, false, NoPrice)[|name|] == ' ';
  }

  /** The quote part of `get_stock_info`, as the source writes it: one
      copy of the price selection for status "N" and one for any other
      status. It agrees with the factored `QuoteLine`. */
  function ComposeQuote(status: Value, last: Reply<Value>, close: Reply<Value>, name: Reply<Value>): (r: string)
    ensures r == QuoteLine(NameText(name), status == Str("N"), ChoosePrice(last, close))
  {
    var company := NameText(name);
    if status == Str("N") then
      if last.Err? && close.Err? then company + ": цена отсутствует."
      else if last.Ok? then company + " | торги " + ClosedMarker + ": последняя цена " + Render(last.value) + " руб."
      else company + " | торги " + ClosedMarker + ": цена закрытия " + Render(close.value) + " руб."
    else
      if last.Err? && close.Err? then company + " | торги " + OpenMarker + ": ни LAST, ни CLOSE цена не найдены."
      else if last.Ok? then company + " | торги " + OpenMarker + ": последняя цена " + Render(last.value) + " руб."
      else company + " | торги " + OpenMarker + ": цена закрытия " + Render(close.value) + " руб."
  }

  /** The response never makes the source's unchecked indexing raise:
      the status and name scans always run, the price scans only once a
      status was found. */
  predicate Servable(doc: Document) {
    && Indexable(doc.marketdata, StatusColumn)
    && Indexable(doc.securities, NameColumn)
    && (Lookup(doc.marketdata, StatusProbe).Hit? ==>
          Indexable(doc.marketdata, LastColumn) && Indexable(doc.marketdata, CloseColumn))
  }

  /** A response the client can process without an `IndexError`. */
  type Response = doc: Document | Servable(doc)
    witness Document(Table([], []), Table([], []))

  /** `get_stock_info`: a status error is returned verbatim, whatever the
      prices and name; otherwise the quote line for the status, the
      preferred price and the company name. */
  function GetStockInfo(doc: Document, ticker: string): (r: string)
    requires Servable(doc)
    ensures doc.marketdata.data == [] ==> r == NotFoundOrClosedMsg(ticker)
    ensures GetTradingStatus(doc, ticker).Err? ==> r == GetTradingStatus(doc, ticker).msg
    ensures GetTradingStatus(doc, ticker).Ok? ==>
              r == QuoteLine(NameText(GetNameCompany(doc, ticker)),
                             GetTradingStatus(doc, ticker).value == Str("N"),
                             ChoosePrice(GetLastPrice(doc, ticker), GetClosePrice(doc, ticker)))
  {
    var status := GetTradingStatus(doc, ticker);
    var name := GetNameCompany(doc, ticker);
    if status.Err? then status.msg
    else ComposeQuote(status.value, GetLastPrice(doc, ticker), GetClosePrice(doc, ticker), name)
  }

  /** A ticker traded only on the main board ("TQBR") never gets a quote:
      the status scan finds no board it knows, whatever the prices. */
  lemma MainBoardOnlyReportsNoBoard(doc: Document, ticker: string)
    requires WellShaped(doc.marketdata)
    requires Indexable(doc.securities, NameColumn)
    requires doc.marketdata.data != []
    requires StatusColumn in doc.marketdata.columns && BoardColumn in doc.marketdata.columns
    requires forall row <- doc.marketdata.data ::
               row[PyList.IndexOf(doc.marketdata.columns, BoardColumn).value] == Str("TQBR")
    ensures Servable(doc)
    ensures GetStockInfo(doc, ticker) == NoBoardMsg(ticker)
  {
    var md := doc.marketdata;
    WellShapedIndexable(md, StatusColumn);
    forall k | 0 <= k < |md.data| ensures !RowAccepted(md, StatusProbe, k) {
      assert md.data[k] in md.data;
    }
  }

  /** `get_stock_info` for each ticker, in order. */
  function Quotes(fetch: string -> Response, tickers: seq<string>): (r: seq<string>)
    ensures |r| == |tickers|
    ensures forall i :: 0 <= i < |tickers| ==> r[i] == GetStockInfo(fetch(tickers[i]), tickers[i])
    decreases |tickers|
  {
    if tickers == [] then []
    else [GetStockInfo(fetch(tickers[0]), tickers[0])] + Quotes(fetch, tickers[1..])
  }

  /** `get_all_stocks_info`: one quote per ticker, in input order, joined
      by newlines. The lines read back are each quote's own lines in turn,
      which are exactly the quotes when no quote holds a newline. */
  function GetAllStocksInfo(fetch: string -> Response, tickers: seq<string>): (r: string)
    ensures tickers == [] ==> r == ""
    ensures tickers != [] ==> PyText.Split(r, '\n') == PyText.SplitAll(Quotes(fetch, tickers), '\n')
    ensures tickers != [] && (forall k :: 0 <= k < |tickers| ==> '\n' !in Quotes(fetch, tickers)[k]) ==>
              PyText.Split(r, '\n') == Quotes(fetch, tickers)
  {
    var quotes := Quotes(fetch, tickers);
    var joined := PyText.Join(quotes, "\n");
    assert tickers != [] ==> PyText.Split(joined, '\n') == PyText.SplitAll(quotes, '\n') by {
      if tickers != [] { PyText.SplitJoinAll(quotes, '\n'); }
    }
    assert (forall k :: 0 <= k < |quotes| ==> '\n' !in quotes[k]) ==> PyText.SplitAll(quotes, '\n') == quotes by {
      if forall k :: 0 <= k < |quotes| ==> '\n' !in quotes[k] { PyText.SplitAllNoSep(quotes, '\n'); }
    }
    joined
  }
}
