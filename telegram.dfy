/** The slice of the Telegram Bot API the handlers see: inline keyboards,
    incoming messages and callback queries, and the requests the bot makes.
    The bot's requests are recorded in order in a `Chat`, which stands for
    the `Bot` handle every handler receives. */
module Telegram {
  import opened Wrappers

  /** `InlineKeyboardButton::callback(caption, payload)`. */
  datatype Button = Button(caption: string, payload: string)

  /** `InlineKeyboardMarkup`: rows of buttons, top to bottom. */
  type Keyboard = seq<seq<Button>>

  datatype User = User(id: int, username: Option<string>)

  datatype Message = Message(chatId: int, messageId: int, from: Option<User>, text: Option<string>)

  datatype CallbackQuery = CallbackQuery(id: string, from: User, message: Option<Message>, data: Option<string>)

  /** One request to the chat platform. `html` is `ParseMode::Html`. */
  datatype Request =
    | Send(chat: int, text: string, html: bool, markup: Option<Keyboard>)
    | EditText(chat: int, messageId: int, text: string, markup: Option<Keyboard>)
    | EditMarkup(chat: int, messageId: int, keyboard: Keyboard)
    | Delete(chat: int, messageId: int)
    | AnswerCallback(queryId: string)

  /** `send_message(chat, text)` without parse mode or keyboard. */
  function Plain(chat: int, text: string): (r: Request)
    ensures r.Send? && r.chat == chat && r.text == text && !r.html && r.markup.None?
  {
    Send(chat, text, false, None)
  }

  /** The bot handle: every request the handlers make, in order. The
      platform's answers are not modelled, except in a broadcast, whose
      failures are an explicit input. */
  class Chat {
    var requests: seq<Request>

    constructor ()
      ensures requests == []
    {
      requests := [];
    }

    method Perform(r: Request)
      modifies this
      ensures requests == old(requests) + [r]
    {
      requests := requests + [r];
    }
  }
}
