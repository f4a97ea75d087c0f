/**
 Small wrapper datatypes shared by the market-data client and the bot.

 The Python code reports failures as `(None, message)` pairs and success as
 `(value, None)`; `Reply` is that convention as a sum type.
 */
module Common {

  /** Conventional optional value, used for `list.index`-style lookups and
      for the bot's pending action. */
  datatype Option<+T> = None | Some(value: T)

  /** A lookup's answer: the value found, or the user-facing error text. */
  datatype Reply<+T> = Ok(value: T) | Err(msg: string)
}
