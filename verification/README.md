# MOEX watch-list bot: a Dafny model

This project models the logic of a Telegram bot that keeps a watch-list of
Moscow Exchange tickers and reports their prices from the MOEX ISS API. It
covers two parts:

- **The ISS client** (`src/moex_API.py`). Each `get_*` method scans one
  tabular section of the ISS response, which is a `columns` header plus a
  `data` list of rows. It resolves the value column and `BOARDID` by name.
  It fails with "not found" when there are no rows, and with a schema error
  when a column is missing. Otherwise it returns the value of the first row
  whose board is on its allow-list and that is long enough; the price and
  name lookups also require the value to be non-null. `get_stock_info`
  combines the status, last price, close price and company name into one
  line. `get_all_stocks_info` joins those lines with newlines.
- **The conversation** (`src/cashBot.py`). `handle_message` is a
  transition on two things: the process-wide list `tickets`, and the
  per-user `action` (none, add or remove). The text is stripped and
  upper-cased first. Menu labels are tested before any pending action. A
  pending action consumes one ticker and is then cleared. `show_texts`
  and `show_prices` render the list. The commands `/start`, `/addtext`,
  `/showtexts` and `/showprices` reach their own handlers; every other
  update goes to `handle_message`.

Modules, leaf first:

- `Common` (common.dfy) defines `Option` and `Reply`. `Reply` is the
  source's `(value, None)` / `(None, message)` convention.
- `PyList` (pylist.dfy) models `list.index` and `list.remove`, and the
  duplicate-free invariant.
- `PyText` (pytext.dfy) models `str.strip`, `str.upper`, `sep.join` with
  `Split` as its inverse, and `repr` of a string.
- `Iss` (iss.dfy) holds the response tables and the generic table scan
  `Lookup`, with its error taxonomy: no rows, missing column, no match.
- `MoexApi` (moex_api.dfy) holds the four lookups, the quote line and the
  joined quotes.
- `CashBot` (cash_bot.dfy) holds the handlers as pure functions from
  state and message to new state and reply.

Network access is replaced by parameters. One lookup takes the decoded
response as a `Document`. `get_all_stocks_info` and `show_prices` take a
function `fetch` from ticker to document. All requests made for one ticker
are assumed to see the same document.

Quirks of the source are kept as written:

- The status lookup accepts the boards "TQRB", "SMAL" and "SPEQ". "TQRB"
  is not the main board "TQBR", which the price lookups use.
  `MoexApi.MainBoardOnlyReportsNoBoard` proves the consequence: a ticker
  quoted only on TQBR always gets the "no trading mode" message.
- The name lookup tests "TQBR" three times over.
- On failure the name lookup returns a `(None, msg)` pair instead of a
  string, and that pair is printed inside the quote line.
- The board cell is indexed after only the value column's length is
  checked. A row that passes the length test but is too short for
  `BOARDID` would raise `IndexError`. The model asks the caller to rule
  that out: `Iss.Indexable` is a precondition of the lookups, and
  `MoexApi.Response` is the subset type of documents that satisfy it.
  This is weaker than "every row is as long as the header";
  `Iss.WellShapedIndexable` shows the header-length condition implies it.
- `strip()` keeps inner newlines, so a multi-line message sent while an
  add is pending is stored as one ticker. `show_texts` then shows it as
  several lines; `CashBot.ShowTexts` states the reply's lines for every
  list, such tickers included.
- `get_stock_info` fetches the company name before it checks the status
  error. So `MoexApi.Servable` also requires that the name lookup can be
  evaluated when the status lookup fails.

## Model

| member | source | states |
|---|---|---|
| PyList.IndexOf | src/moex_API.py:23-24 | `columns.index(name)`: `None` exactly when the name is absent; otherwise the position of its first occurrence |
| PyList.RemoveFirst | src/cashBot.py:83 | `tickets.remove(text)` removes the first occurrence and keeps the other elements in order. Python raises `ValueError` for an absent element; the model totalises that case by returning the list unchanged, and the case is never reached because src/cashBot.py:82 tests membership first |
| PyList.RemoveFirstKeepsNoDup | src/cashBot.py:81-84 | removing from a duplicate-free list leaves it duplicate-free and with no copy of the removed ticker |
| PyList.AppendFreshKeepsNoDup | src/cashBot.py:76-77 | appending a ticker that is absent keeps the list duplicate-free |
| PyText.Strip | src/cashBot.py:59 | `strip()` returns an infix that neither starts nor ends with white space, and everything cut off is white space |
| PyText.UpperCharFacts | src/cashBot.py:59 | upper-casing a character is idempotent and never creates or removes white space |
| PyText.Upper | src/cashBot.py:59 | `upper()` keeps the length and maps each character by `UpperChar` |
| PyText.Join | src/moex_API.py:153 | `sep.join(xs)` is empty for no pieces, otherwise starts with the first piece and ends with the last; `SplitJoinAll` reads it back piece by piece (the same join builds the list at src/cashBot.py:103) |
| PyText.SplitJoin | src/moex_API.py:153 | splitting `'\n'.join(xs)` on newlines gives back `xs` when no element contains a newline |
| PyText.SplitConcat | src/moex_API.py:153 | splitting text around one separator gives the pieces of the left part followed by the pieces of the right part |
| PyText.SplitJoinAll | src/moex_API.py:153 | splitting `'\n'.join(xs)` on newlines gives each element's own lines in order, for every non-empty `xs` |
| PyText.SplitAllNoSep | src/moex_API.py:153 | elements that hold no newline are their own lines |
| PyText.StripKeepsTrimmed | src/cashBot.py:59 | stripping a text with no white space at its ends leaves it unchanged |
| PyText.UpperOfTrimmedIsFixed | src/cashBot.py:59 | stripping and upper-casing the upper case of a trimmed text changes nothing |
| PyText.EscapePlain | src/moex_API.py:127 | text with no quote, backslash, newline, carriage return or tab needs no escaping inside single quotes |
| PyText.Repr | src/moex_API.py:127 | `repr` of the error message is delimited by matching quotes, double quotes exactly when the text has a single quote and no double quote; text with nothing to escape appears verbatim between single quotes |
| Iss.Positions | src/moex_API.py:21-26 | both column positions are found exactly when the value column and `BOARDID` are in the header, and they point at those names |
| Iss.FirstAccepted | src/moex_API.py:28-34 | the row scan returns the first accepted row in row order, or reports that no row is accepted |
| Iss.Lookup | src/moex_API.py:16-36 | "no rows" exactly when the row list is empty; "missing column" exactly when rows exist and a needed column is absent; otherwise the value of the first accepted row, or "no match" exactly when no row is accepted; a null-skipping lookup never returns null |
| Iss.LookupAnswers | src/moex_API.py:16-145 | generic over the four lookups (lines 16-36, 43-63, 70-90 and 125-145): the reply built from a lookup's outcome is the one the table calls for, with that lookup's three messages |
| Iss.MissingColumnIgnoresRows | src/moex_API.py:75-80 | a schema error depends only on the header: any two non-empty tables with the same header that lacks a needed column give it |
| Iss.WellShapedIndexable | src/moex_API.py:29 | if every row is as long as the header, indexing the board cell can never fail |
| MoexApi.GetTradingStatus | src/moex_API.py:11-36 | TRADINGSTATUS of the first TQRB/SMAL/SPEQ row that is long enough (null allowed); otherwise the not-found, schema or "none of TQRB, SMAL, SPEQ" message; errors are non-empty |
| MoexApi.GetLastPrice | src/moex_API.py:38-63 | first non-null LAST on a TQBR/SMAL/SPEQ row; otherwise the not-found, schema or "LAST not found" message; a success is never null |
| MoexApi.GetClosePrice | src/moex_API.py:65-90 | first non-null CLOSEPRICE on a TQBR/SMAL/SPEQ row; its not-found message has no "trading closed" clause; a success is never null |
| MoexApi.GetNameCompany | src/moex_API.py:120-145 | first non-null SHORTNAME on a TQBR row of the securities section; otherwise the not-found, schema or "name not found" message |
| MoexApi.StatusSkipsMainBoard | src/moex_API.py:29-34 | a TQBR row is never accepted by the status lookup, although the last-price lookup accepts it whenever its value is set |
| MoexApi.NameOnlyOnMainBoard | src/moex_API.py:138-143 | the triple board test of the name lookup accepts exactly the rows on TQBR with a non-null name |
| MoexApi.NameText | src/moex_API.py:127-145 | in the quote line the name is printed bare on success; on failure the pair is printed, and a message with nothing to escape reads exactly `(None, '<message>')` |
| MoexApi.ChoosePrice | src/moex_API.py:104-109 | the last price whenever its lookup succeeded; the close price exactly when last failed and close succeeded; no price exactly when both failed |
| MoexApi.NoPriceWordingDiffers | src/moex_API.py:104-114 | the no-price message of the closed branch differs from the open branch's |
| MoexApi.ComposeQuote | src/moex_API.py:100-118 | the duplicated closed/open branches equal one line built from the marker (closed exactly for status "N") and the preferred price |
| MoexApi.GetStockInfo | src/moex_API.py:92-118 | an empty market-data section gives the not-found message; a status error is returned verbatim whatever the prices and name; otherwise the quote line for that status, price preference and company name |
| MoexApi.MainBoardOnlyReportsNoBoard | src/moex_API.py:28-36 | a ticker whose market-data rows are all on TQBR always gets the "none of TQRB, SMAL, SPEQ" message, whatever its prices |
| MoexApi.Quotes | src/moex_API.py:149-152 | exactly one `get_stock_info` result per ticker, in input order |
| MoexApi.GetAllStocksInfo | src/moex_API.py:147-153 | no tickers give the empty string; otherwise splitting the result on newlines gives each per-ticker quote of `Quotes` as its own lines, in order, and exactly the quotes when none holds a newline |
| CashBot.Normalize | src/cashBot.py:59 | the normalized text is the upper case, character by character, of an infix of the input; everything around that infix is white space, and the result has none at either end |
| CashBot.NormalizeIdempotent | src/cashBot.py:59-77 | normalizing a normalized text changes nothing, so a stored ticker is its own normal form |
| CashBot.ShowTexts | src/cashBot.py:93-106 | the empty-list message exactly for an empty list; otherwise the reply's lines are the header and then each ticker's own lines in insertion order, which are exactly the tickers when none holds a newline |
| CashBot.ShowPrices | src/cashBot.py:108-114 | the empty-list message for an empty list; otherwise the joined quotes of all tickers |
| CashBot.ShowPricesEmptyMakesNoRequest | src/cashBot.py:110-114 | with an empty list the reply does not depend on the market data |
| CashBot.AddText | src/cashBot.py:31-34 | `/addtext` sets `adding_text`, keeps the list and the pending action, and prompts for a ticker |
| CashBot.ConsumeTicker | src/cashBot.py:72-91 | with no action pending: nothing changes and the hint is replied. With an action pending: it is cleared. Add appends an absent ticker, or reports a present one and keeps the list. Remove deletes the first occurrence of a present ticker and keeps the others in order, or reports an absent one and keeps the list. The list stays duplicate-free and gains nothing but the text |
| CashBot.PressButton | src/cashBot.py:61-70 | a menu label never changes the list or `adding_text`; add and remove arm the matching action with its prompt; show-list and show-prices leave the user data alone and reply the list or the quotes |
| CashBot.Answer | src/cashBot.py:61-91 | for an already normalized text: a menu label goes to `PressButton`, any other text to `ConsumeTicker`; the list stays duplicate-free and gains nothing but that text |
| CashBot.HandleMessage | src/cashBot.py:49-91 | the text is normalized; a menu label goes to `PressButton` whatever action is pending, and any other text goes to `ConsumeTicker`. The list stays duplicate-free, gains nothing but the normalized text, and `adding_text` is never touched |
| CashBot.Start | src/cashBot.py:36-47 | `/start` greets and changes neither the list nor the user data |
| CashBot.Dispatch | src/cashBot.py:15-28 | the four commands reach their own handlers before the catch-all: they never change the list or the pending action, only `/addtext` sets `adding_text`, and any other update goes to `handle_message` |
| CashBot.DispatchKeepsNormalized | src/cashBot.py:59-77 | after any update every stored ticker is still in normal form |
| CashBot.Run | src/cashBot.py:15-91 | over any update sequence: one reply per update, the list stays duplicate-free, every stored ticker stays in normal form, and `adding_text` is set exactly when it was set before or an `/addtext` occurred |
| CashBot.CommandsKeepState | src/cashBot.py:15-47 | a sequence of commands alone never changes the list or the pending action |
| CashBot.AddTextDoesNotAdd | src/cashBot.py:31-34 | after `/addtext` with no action pending, a typed ticker is not added; only the hint is replied, because `handle_message` never reads `adding_text` |

## Left out

- HTTP requests, URL building and JSON decoding: replaced by a `Document` or `fetch` argument. The model assumes one document per ticker for the whole `get_stock_info` call; the source issues up to four requests (two when the status lookup fails), and those could see different data.
- A missing `columns` key when rows are present raises `KeyError` in the source. This is not modelled: a `Table` always has a header. A missing section reads as a table without rows, as `data.get(..., {}).get('data', [])` does.
- Iss.Indexable: it requires every row that passes the length test to reach `BOARDID`. The source only indexes rows up to the first accepted one, so the precondition is slightly stronger than what the source needs.
- Telegram transport: the `Updater`, polling and reply keyboards. Replies are modelled as returned strings. Whether an update is one of the four registered commands (the `/name` prefix, possibly with `@botname`) is decided by the transport; the model takes that classification as its `Input`.
- A message without text, where `update.message.text` is `None`, is not modelled; every message is a string.
- PyText.UpperChar: covers ASCII, Latin-1 (including µ and ÿ, whose upper cases lie outside Latin-1) and basic Cyrillic letters only. Other scripts and multi-character upper cases, such as German sharp s, are left unchanged.
- PyText.Repr: escapes backslash, the quote, `\n`, `\r` and `\t`. Python's hex escapes of other non-printable characters are not modelled.
- Price values are opaque: a number is kept as the text Python prints for it. No float arithmetic or formatting is modelled.
- Concurrency and several users: the model runs one message stream against one user's `user_data`. The shared `tickets` list is never interleaved.
- The `__main__` demo at the end of `src/moex_API.py`.
- No proof connects the keyboard captions ("Добавить акцию", ...) to the upper-case menu labels, because the keyboard is left out. `handle_message` compares against the upper-case forms, and those are the ones modelled.
