/**
 The bot's conversation logic: the process-wide watch-list `tickets`, the
 per-user `action` (pending add or remove) kept in `user_data`, and the
 handlers that read and change them. Each handler is a function from the
 state and the message to the new state and the reply text; keyboards and
 message delivery are not modelled.
 */
module CashBot {
  import opened Common
  import opened PyList
  import PyText
  import MoexApi

  /** The value of `user_data['action']`. */
  datatype Mode = Add | Remove

  /** The keys of `user_data` the handlers use: `action`, absent as `None`,
      and the `adding_text` flag set by `/addtext`. */
  datatype UserData = UserData(action: Option<Mode>, addingText: bool)

  /** The state after one handler, with the text it replies. */
  datatype Step = Step(tickets: seq<string>, user: UserData, reply: string)

  // The menu button labels, as `handle_message` compares them after
  // normalization (the keyboard shows them in sentence case).
  const AddLabel: string := "ДОБАВИТЬ АКЦИЮ"
  const RemoveLabel: string := "УДАЛИТЬ АКЦИЮ"
  const ListLabel: string := "ПОКАЗАТЬ АКЦИИ"
  const PricesLabel: string := "УЗНАТЬ ЦЕНЫ"

  predicate IsMenuLabel(text: string) {
    text == AddLabel || text == RemoveLabel || text == ListLabel || text == PricesLabel
  }

  // Replies.
  const AddPrompt: string := "Введите тикер акции для добавления например mtss или MTSS"
  const RemovePrompt: string := "Введите тикер акции для удаления:"
  const AddTextPrompt: string := "Введите тикер компании, которую вы хотите добавить:"
  const ButtonsHint: string := "Используйте кнопки для добавления или удаления акций."
  const EmptyListReply: string := "Нет добавленных акций."
  const ListHeader: string := "Добавленные акции:"

  function AddedReply(ticker: string): string { "Акция " + ticker + " добавлена." }
  function AlreadyListedReply(ticker: string): string { "Акция " + ticker + " уже есть в списке." }
  function RemovedReply(ticker: string): string { "Акция " + ticker + " удалена." }
  function NotListedReply(ticker: string): string { "Акция " + ticker + " нет в списке." }

  /** `r` is the upper case of the infix `raw[i..i + |r|]`, and everything
      around that infix is white space. */
  ghost predicate UpperedInfix(raw: string, i: int, r: string) {
    && 0 <= i && i + |r| <= |raw|
    && PyText.Surrounds(raw, i, raw[i..i + |r|])
    && r == PyText.Upper(raw[i..i + |r|])
  }

  /** `text.strip().upper()`: what every comparison and every stored ticker
      uses. The result is the upper case of the input with the white space
      at both ends cut off, and none is left at either end. */
  function Normalize(raw: string): (r: string)
    ensures |r| <= |raw|
    ensures exists i :: UpperedInfix(raw, i, r)
    ensures PyText.Trimmed(r)
  {
    var stripped := PyText.Strip(raw);
    UpperOfStripIsInfix(raw);
    PyText.UpperKeepsTrimmed(stripped);
    PyText.Upper(stripped)
  }

  /** Upper-casing what `strip()` keeps gives the upper case of an infix
      that only white space surrounds. */
  lemma UpperOfStripIsInfix(raw: string)
    ensures exists i :: UpperedInfix(raw, i, PyText.Upper(PyText.Strip(raw)))
  {
    var stripped := PyText.Strip(raw);
    var r := PyText.Upper(stripped);
    var i :| PyText.Surrounds(raw, i, stripped);
    assert stripped == raw[i..i + |r|];
    assert UpperedInfix(raw, i, r);
  }

  /** Normalizing twice is normalizing once, so a stored ticker is its own
      normal form. */
  lemma NormalizeIdempotent(raw: string)
    ensures Normalize(Normalize(raw)) == Normalize(raw)
  {
    PyText.UpperOfTrimmedIsFixed(PyText.Strip(raw));
  }

  /** The header holds no newline, so it splits off as the first line. */
  lemma HeaderThenLines(body: string)
    ensures PyText.Split(ListHeader + "\n" + body, '\n') == [ListHeader] + PyText.Split(body, '\n')
  {
    assert '\n' !in ListHeader;
    PyText.SplitPiece(ListHeader, '\n', body);
  }

  /** `show_texts`: the empty-list message, or the header and then the
      tickers one per line in insertion order. */
  function ShowTexts(tickets: seq<string>): (r: string)
    ensures r == EmptyListReply <==> tickets == []
    // The reply's lines are the header and then each ticker's own lines, so
    // a ticker that holds a newline shows as several lines.
    ensures tickets != [] ==> PyText.Split(r, '\n') == [ListHeader] + PyText.SplitAll(tickets, '\n')
    ensures tickets != [] && (forall i :: 0 <= i < |tickets| ==> '\n' !in tickets[i]) ==>
              PyText.Split(r, '\n') == [ListHeader] + tickets
  {
    if tickets != [] then
      var body := PyText.Join(tickets, "\n");
      var r := ListHeader + "\n" + body;
      assert r[0] == ListHeader[0];
      HeaderThenLines(body);
      PyText.SplitJoinAll(tickets, '\n');
      assert (forall i :: 0 <= i < |tickets| ==> '\n' !in tickets[i]) ==>
               PyText.SplitAll(tickets, '\n') == tickets by {
        if forall i :: 0 <= i < |tickets| ==> '\n' !in tickets[i] {
          PyText.SplitAllNoSep(tickets, '\n');
        }
      }
      r
    else EmptyListReply
  }

  /** `show_prices`: the empty-list message without any request, or one
      quote line per ticker. */
  function ShowPrices(tickets: seq<string>, fetch: string -> MoexApi.Response): (r: string)
    ensures tickets == [] ==> r == EmptyListReply
    ensures tickets != [] ==> r == MoexApi.GetAllStocksInfo(fetch, tickets)
  {
    if tickets != [] then MoexApi.GetAllStocksInfo(fetch, tickets) else EmptyListReply
  }

  /** With an empty list, `show_prices` does not depend on the market data. */
  lemma ShowPricesEmptyMakesNoRequest(fetch: string -> MoexApi.Response, other: string -> MoexApi.Response)
    ensures ShowPrices([], fetch) == ShowPrices([], other) == EmptyListReply
  {
  }

  /** `/addtext`: sets `adding_text` and prompts; the pending action is
      untouched. */
  function AddText(tickets: seq<string>, user: UserData): (r: Step)
    ensures r.tickets == tickets
    ensures r.user.addingText && r.user.action == user.action
    ensures r.reply == AddTextPrompt
  {
    Step(tickets, user.(addingText := true), AddTextPrompt)
  }

  /** The part of `handle_message` after the menu labels: the text is a
      ticker for the pending action, which is then cleared; with no action
      pending it only earns the buttons hint. */
  function ConsumeTicker(tickets: seq<string>, user: UserData, text: string): (r: Step)
    // The watch-list stays duplicate-free, and only `text` can join it.
    ensures NoDup(tickets) ==> NoDup(r.tickets)
    ensures forall t <- r.tickets :: t in tickets || t == text
    // With no action pending, nothing changes.
    ensures user.action.None? ==> r == Step(tickets, user, ButtonsHint)
    // A pending action is consumed by the message.
    ensures user.action.Some? ==> r.user == user.(action := None)
    ensures user.action == Some(Add) ==>
              if text in tickets then r.tickets == tickets && r.reply == AlreadyListedReply(text)
              else r.tickets == tickets + [text] && r.reply == AddedReply(text)
    ensures user.action == Some(Remove) ==>
              if text in tickets then
                && r.reply == RemovedReply(text)
                && (exists i :: 0 <= i < |tickets| && tickets[i] == text && text !in tickets[..i] && r.tickets == tickets[..i] + tickets[i + 1..])
                && (NoDup(tickets) ==> text !in r.tickets)
              else r.tickets == tickets && r.reply == NotListedReply(text)
  {
    match user.action
    case None => Step(tickets, user, ButtonsHint)
    case Some(Add) =>
      if text !in tickets then
        assert NoDup(tickets) ==> NoDup(tickets + [text]) by {
          if NoDup(tickets) { AppendFreshKeepsNoDup(tickets, text); }
        }
        Step(tickets + [text], user.(action := None), AddedReply(text))
      else Step(tickets, user.(action := None), AlreadyListedReply(text))
    case Some(Remove) =>
      if text in tickets then
        var rest := RemoveFirst(tickets, text);
        assert NoDup(tickets) ==> NoDup(rest) && text !in rest by {
          if NoDup(tickets) { RemoveFirstKeepsNoDup(tickets, text); }
        }
        var i := IndexOf(tickets, text).value;
        assert tickets[i] == text;
        assert forall t <- rest :: t in tickets by {
          forall k | 0 <= k < |rest| ensures rest[k] in tickets {
            assert rest[k] == tickets[if k < i then k else k + 1];
          }
        }
        Step(rest, user.(action := None), RemovedReply(text))
      else Step(tickets, user.(action := None), NotListedReply(text))
  }

  /** The menu-button part of `handle_message`: add and remove arm the
      action, the other two only reply; the list is never touched. */
  function PressButton(tickets: seq<string>, user: UserData, text: string, fetch: string -> MoexApi.Response): (r: Step)
    requires IsMenuLabel(text)
    ensures r.tickets == tickets
    ensures r.user.addingText == user.addingText
    ensures text == AddLabel ==> r.user.action == Some(Add) && r.reply == AddPrompt
    ensures text == RemoveLabel ==> r.user.action == Some(Remove) && r.reply == RemovePrompt
    ensures text == ListLabel ==> r.user == user && r.reply == ShowTexts(tickets)
    ensures text == PricesLabel ==> r.user == user && r.reply == ShowPrices(tickets, fetch)
  {
    if text == AddLabel then Step(tickets, user.(action := Some(Add)), AddPrompt)
    else if text == RemoveLabel then Step(tickets, user.(action := Some(Remove)), RemovePrompt)
    else if text == ListLabel then Step(tickets, user, ShowTexts(tickets))
    else Step(tickets, user, ShowPrices(tickets, fetch))
  }

  /** What `handle_message` does with the already normalized `text`. */
  function Answer(tickets: seq<string>, user: UserData, text: string, fetch: string -> MoexApi.Response): (r: Step)
    ensures NoDup(tickets) ==> NoDup(r.tickets)
    ensures forall t <- r.tickets :: t in tickets || t == text
    ensures r.user.addingText == user.addingText
    ensures IsMenuLabel(text) ==> r == PressButton(tickets, user, text, fetch)
    ensures !IsMenuLabel(text) ==> r == ConsumeTicker(tickets, user, text)
  {
    if IsMenuLabel(text) then PressButton(tickets, user, text, fetch)
    else ConsumeTicker(tickets, user, text)
  }

  /** `handle_message`: the text is normalized, menu labels are tested
      first, and any other text goes to `ConsumeTicker`. */
  function HandleMessage(tickets: seq<string>, user: UserData, raw: string, fetch: string -> MoexApi.Response): (r: Step)
    // The watch-list stays duplicate-free, and only the normalized text can join it.
    ensures NoDup(tickets) ==> NoDup(r.tickets)
    ensures forall t <- r.tickets :: t in tickets || t == Normalize(raw)
    ensures r.user.addingText == user.addingText
    // Menu labels win over a pending action and never reach the list.
    ensures IsMenuLabel(Normalize(raw)) ==> r == PressButton(tickets, user, Normalize(raw), fetch)
    // Any other text is a ticker, in its normalized form.
    ensures !IsMenuLabel(Normalize(raw)) ==> r == ConsumeTicker(tickets, user, Normalize(raw))
  {
    Answer(tickets, user, Normalize(raw), fetch)
  }

  /** The four registered commands; the transport routes them to their own
      handlers before the catch-all message handler sees anything. */
  datatype Command = StartCmd | AddTextCmd | ShowTextsCmd | ShowPricesCmd

  /** One update as the dispatcher classifies it. */
  datatype Input = Cmd(command: Command) | Message(raw: string)

  const Greeting: string := "Добро пожаловать! Бот добавляет акции московской биржи в избранное для отслеживания цен"

  /** `start`: greets and shows the keyboard; no state changes. */
  function Start(tickets: seq<string>, user: UserData): (r: Step)
    ensures r.tickets == tickets && r.user == user
    ensures r.reply == Greeting
  {
    Step(tickets, user, Greeting)
  }

  /** The handler chain of `init_handlers`: each command goes to its own
      handler, everything else to `handle_message`. */
  function Dispatch(tickets: seq<string>, user: UserData, input: Input, fetch: string -> MoexApi.Response): (r: Step)
    // The watch-list stays duplicate-free; a command never touches it or
    // the pending action.
    ensures NoDup(tickets) ==> NoDup(r.tickets)
    ensures input.Cmd? ==> r.tickets == tickets && r.user.action == user.action
    // Only `/addtext` changes `adding_text`, and only to true.
    ensures r.user.addingText == (user.addingText || input == Cmd(AddTextCmd))
    ensures input == Cmd(StartCmd) ==> r.reply == Greeting
    ensures input == Cmd(AddTextCmd) ==> r.reply == AddTextPrompt
    ensures input == Cmd(ShowTextsCmd) ==> r.reply == ShowTexts(tickets)
    ensures input == Cmd(ShowPricesCmd) ==> r.reply == ShowPrices(tickets, fetch)
    ensures input.Message? ==> r == HandleMessage(tickets, user, input.raw, fetch)
  {
    match input
    case Cmd(StartCmd) => Start(tickets, user)
    case Cmd(AddTextCmd) => AddText(tickets, user)
    case Cmd(ShowTextsCmd) => Step(tickets, user, ShowTexts(tickets))
    case Cmd(ShowPricesCmd) => Step(tickets, user, ShowPrices(tickets, fetch))
    case Message(raw) => HandleMessage(tickets, user, raw, fetch)
  }

  /** One update keeps every stored ticker in normal form: the only ticker
      that can join is a normalized text. */
  lemma DispatchKeepsNormalized(tickets: seq<string>, user: UserData, input: Input, fetch: string -> MoexApi.Response)
    requires AllNormalized(tickets)
    ensures AllNormalized(Dispatch(tickets, user, input, fetch).tickets)
  {
    if input.Message? { NormalizeIdempotent(input.raw); }
  }

  /** The state after a sequence of updates, with every reply. */
  datatype Trace = Trace(tickets: seq<string>, user: UserData, replies: seq<string>)

  /** Every ticker is its own normal form. */
  predicate AllNormalized(tickets: seq<string>) {
    forall t <- tickets :: Normalize(t) == t
  }

  /** Each update dispatched in turn: one reply per update, and the
      watch-list stays duplicate-free and normalized throughout. */
  function Run(tickets: seq<string>, user: UserData, inputs: seq<Input>, fetch: string -> MoexApi.Response): (r: Trace)
    ensures |r.replies| == |inputs|
    ensures NoDup(tickets) ==> NoDup(r.tickets)
    ensures AllNormalized(tickets) ==> AllNormalized(r.tickets)
    ensures r.user.addingText == (user.addingText || Cmd(AddTextCmd) in inputs)
    decreases |inputs|
  {
    if inputs == [] then Trace(tickets, user, [])
    else
      var step := Dispatch(tickets, user, inputs[0], fetch);
      assert AllNormalized(tickets) ==> AllNormalized(step.tickets) by {
        if AllNormalized(tickets) { DispatchKeepsNormalized(tickets, user, inputs[0], fetch); }
      }
      var rest := Run(step.tickets, step.user, inputs[1..], fetch);
      InHeadOrTail(inputs, Cmd(AddTextCmd));
      Trace(rest.tickets, rest.user, [step.reply] + rest.replies)
  }

  /** Commands alone never change the watch-list or the pending action. */
  lemma {:induction false} CommandsKeepState(tickets: seq<string>, user: UserData, inputs: seq<Input>, fetch: string -> MoexApi.Response)
    requires forall i :: 0 <= i < |inputs| ==> inputs[i].Cmd?
    ensures Run(tickets, user, inputs, fetch).tickets == tickets
    ensures Run(tickets, user, inputs, fetch).user.action == user.action
    decreases |inputs|
  {
    if inputs != [] {
      var step := Dispatch(tickets, user, inputs[0], fetch);
      CommandsKeepState(step.tickets, step.user, inputs[1..], fetch);
    }
  }

  /** `/addtext` does not arm the add mode: `handle_message` never reads
      `adding_text`, so a ticker typed afterwards only earns the hint. */
  lemma AddTextDoesNotAdd(tickets: seq<string>, user: UserData, raw: string, fetch: string -> MoexApi.Response)
    requires user.action.None?
    requires !IsMenuLabel(Normalize(raw))
    ensures var s := AddText(tickets, user);
            HandleMessage(s.tickets, s.user, raw, fetch) == Step(tickets, s.user, ButtonsHint)
  {
  }
}
