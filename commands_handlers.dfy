/** The bot's commands and free-text messages: `/start`, the
    administrator's broadcast, and the token the user types when asked for
    one. */
module CommandsHandlers {
  import opened Wrappers
  import opened Strings
  import opened Sorting
  import opened Errors
  import opened Telegram
  import opened TokenDecoder
  import opened Database
  import opened ApiRequests
  import opened Keyboards
  import opened CallbackHandlers

  const NoUsername := "no_username"
  const AdminUsername := "SET_YOUR_LOGIN_HERE"
  const WelcomeText := "🍆 Я бот для работы с <b>Wildberris</b>! 🍆\n\nНа <b>Wildberris</b> я могу показать тебе коэффиценты по складам (в скором времени надеюсь смогу уведомлять о 😋вкусных😋 коэффицентах), а так же найду слот с <b>бесплатной или платной приемкой</b> до подходящего коэффицента.\n\nВыбирай!"
  const SentToAllText := "Отправлено всем."
  const NoRightsText := "Недостатоно прав."
  const ExpiredTokenText := "Токен просрочен, введите другой токен"
  const InvalidTokenText := "Токен невалиден, введите другой токен"

  // ---------------------------------------------------------------------
  // The sender
  // ---------------------------------------------------------------------

  /** `get_username_from_msg`: the sender's username, "no_username" when
      there is no sender or the sender has none. */
  function GetUsernameFromMsg(msg: Message): (name: string)
    ensures msg.from.Some? && msg.from.value.username.Some? ==> name == msg.from.value.username.value
    ensures msg.from.None? || msg.from.value.username.None? ==> name == NoUsername
  {
    match msg.from
    case Some(User(_, Some(username))) => username
    case _ => NoUsername
  }

  /** Only a sender whose username is the administrator's login passes the
      broadcast check: a message without a sender or without a username
      never does. */
  lemma AdminHasThatUsername(msg: Message)
    requires GetUsernameFromMsg(msg) == AdminUsername
    ensures msg.from.Some? && msg.from.value.username == Some(AdminUsername)
  {
    assert NoUsername[0] == 'n' && AdminUsername[0] == 'S';
  }

  // ---------------------------------------------------------------------
  // /start
  // ---------------------------------------------------------------------

  /** `start_command_handler`: a chat id that is not a valid user id fails
      the conversion; otherwise the user is inserted (a known user keeps
      the stored username), set to `Idle`, and greeted with the main
      menu. The token is not touched. */
  method StartCommandHandler(db: Store, chat: Chat, msg: Message) returns (r: Result<(), Error>)
    requires db.Valid()
    modifies db, chat
    ensures db.Valid()
    ensures msg.chatId < 0 ==> r == Err(IdOutOfRange) && unchanged(db) && chat.requests == old(chat.requests)
    ensures msg.chatId >= 0 ==>
      && r.Ok?
      && (forall k :: Lookup(db.users, k) == if k == msg.chatId && Lookup(old(db.users), k).None?
                                             then Some(GetUsernameFromMsg(msg)) else Lookup(old(db.users), k))
      && db.states == old(db.states)[msg.chatId := Code(Idle)]
      && chat.requests == old(chat.requests) + [Send(msg.chatId, WelcomeText, true, Some(MainMenu()))]
    ensures db.tokens == old(db.tokens) && db.warehouses == old(db.warehouses)
    ensures db.coefficients == old(db.coefficients)
  {
    if msg.chatId < 0 {
      return Err(IdOutOfRange);
    }
    var id := msg.chatId;
    var username := GetUsernameFromMsg(msg);
    db.AddUser(id, username);
    db.SetUserState(id, Idle);
    chat.Perform(Send(msg.chatId, WelcomeText, true, Some(MainMenu())));
    r := Ok(());
  }

  // ---------------------------------------------------------------------
  // /msg_to_all
  // ---------------------------------------------------------------------

  /** The stored ids other than the sender's, in the order given. */
  function Others(ids: seq<int>, sender: int): (others: seq<int>)
    ensures forall x :: x in others <==> x in ids && x != sender
  {
    if ids == [] then []
    else if ids[0] == sender then Others(ids[1..], sender)
    else [ids[0]] + Others(ids[1..], sender)
  }

  function Plains(chats: seq<int>, text: string): (rs: seq<Request>)
    ensures |rs| == |chats|
    ensures forall i | 0 <= i < |chats| :: rs[i] == Plain(chats[i], text)
  {
    if chats == [] then [] else [Plain(chats[0], text)] + Plains(chats[1..], text)
  }

  /** The broadcast loop of `msg_to_all_command_handler`: the messages
      delivered, and the error of the first recipient the platform refuses
      (the `?` ends the loop there). */
  function Broadcast(ids: seq<int>, sender: int, text: string, failing: set<int>): (seq<Request>, Result<(), Error>) {
    if ids == [] then ([], Ok(()))
    else if ids[0] == sender then Broadcast(ids[1..], sender, text, failing)
    else if ids[0] in failing then ([], Err(SendFailed(ids[0])))
    else
      var rest := Broadcast(ids[1..], sender, text, failing);
      ([Plain(ids[0], text)] + rest.0, rest.1)
  }

  /** When every recipient accepts, each stored id other than the sender's
      receives the text exactly once, in order. */
  lemma {:induction false} BroadcastReachesOthers(ids: seq<int>, sender: int, text: string, failing: set<int>)
    requires forall x | x in Others(ids, sender) :: x !in failing
    ensures Broadcast(ids, sender, text, failing) == (Plains(Others(ids, sender), text), Ok(()))
  {
    if ids != [] {
      assert forall x | x in Others(ids[1..], sender) :: x in Others(ids, sender);
      BroadcastReachesOthers(ids[1..], sender, text, failing);
    }
  }

  /** The broadcast fails exactly when some recipient refuses, names a
      refusing recipient, and what it delivered is the start of the full
      broadcast. */
  lemma {:induction false} BroadcastStopsAtRefusal(ids: seq<int>, sender: int, text: string, failing: set<int>)
    ensures var (sent, r) := Broadcast(ids, sender, text, failing);
      && (r.Err? <==> exists x | x in Others(ids, sender) :: x in failing)
      && (r.Err? ==> r.error.SendFailed? && r.error.chat in failing && r.error.chat in Others(ids, sender))
      && sent <= Plains(Others(ids, sender), text)
  {
    if ids != [] {
      BroadcastStopsAtRefusal(ids[1..], sender, text, failing);
      if ids[0] != sender {
        assert Others(ids, sender) == [ids[0]] + Others(ids[1..], sender);
        assert Plains(Others(ids, sender), text) == [Plain(ids[0], text)] + Plains(Others(ids[1..], sender), text);
      }
    }
  }

  /** `msg_to_all_command_handler`: the administrator's text goes to every
      stored user but the sender, then the sender is told; anyone else is
      told they lack the rights. Replies to the sender are assumed
      delivered; `failing` are the chats that refuse a message. */
  method MsgToAllCommandHandler(db: Store, chat: Chat, msg: Message, text: string, failing: set<int>)
    returns (r: Result<(), Error>)
    requires db.Valid()
    modifies chat
    ensures GetUsernameFromMsg(msg) != AdminUsername ==>
      r.Ok? && chat.requests == old(chat.requests) + [Plain(msg.chatId, NoRightsText)]
    ensures GetUsernameFromMsg(msg) == AdminUsername ==>
      var (sent, outcome) := Broadcast(Ids(db.users), msg.chatId, text, failing);
      && (outcome.Err? ==> r == outcome && chat.requests == old(chat.requests) + sent)
      && (outcome.Ok? ==> r.Ok? && chat.requests == old(chat.requests) + sent + [Plain(msg.chatId, SentToAllText)])
  {
    var username := GetUsernameFromMsg(msg);
    if username != AdminUsername {
      chat.Perform(Plain(msg.chatId, NoRightsText));
      return Ok(());
    }
    var sender := msg.chatId;
    var ids := db.UserIds();
    ghost var sent: seq<Request> := [];
    var i := 0;
    assert ids[i..] == ids;
    assert sent + Broadcast(ids, sender, text, failing).0 == Broadcast(ids, sender, text, failing).0;
    while i < |ids|
      invariant 0 <= i <= |ids|
      invariant chat.requests == old(chat.requests) + sent
      invariant Broadcast(ids, sender, text, failing)
                == (sent + Broadcast(ids[i..], sender, text, failing).0, Broadcast(ids[i..], sender, text, failing).1)
    {
      assert ids[i..][1..] == ids[i + 1..];
      if ids[i] != sender {
        if ids[i] in failing {
          return Err(SendFailed(ids[i]));
        }
        chat.Perform(Plain(ids[i], text));
        var rest := Broadcast(ids[i + 1..], sender, text, failing).0;
        assert sent + ([Plain(ids[i], text)] + rest) == sent + [Plain(ids[i], text)] + rest;
        sent := sent + [Plain(ids[i], text)];
      }
      i := i + 1;
    }
    chat.Perform(Plain(msg.chatId, SentToAllText));
    r := Ok(());
  }

  // ---------------------------------------------------------------------
  // Free text
  // ---------------------------------------------------------------------

  /** A valid token is stored and the user is shown the warehouses. */
  method AcceptToken(db: Store, chat: Chat, msg: Message, token: string, answer: Exchange<seq<Warehouse>>)
    returns (r: Result<(), Error>)
    requires db.Valid() && msg.chatId >= 0
    modifies db, chat
    ensures db.Valid()
    ensures db.states == old(db.states)[msg.chatId := Code(Idle)]
    ensures db.tokens == old(db.tokens)[msg.chatId := token]
    ensures r.Ok? <==> ValidHeaderValue(token) && answer.Answered? && IsSuccess(answer.status) && answer.body.Some?
    ensures r.Ok? ==>
      && db.warehouses == PutAll(old(db.warehouses), SortBy(answer.body.value, NameLe))
      && chat.requests == old(chat.requests)
           + [Send(msg.chatId, ChooseWarehouseText, false, Some(WarehouseKeyboardOf(db.warehouses, 0, 10)))]
    ensures r.Err? ==> db.warehouses == old(db.warehouses) && chat.requests == old(chat.requests)
    ensures db.users == old(db.users) && db.coefficients == old(db.coefficients)
  {
    db.SetUserState(msg.chatId, Idle);
    db.SetUserToken(msg.chatId, token);
    r := FetchWarehouses(db, token, answer);
    if r.Err? {
      return;
    }
    var kb := CreateWarehouseKeyboard(db, 0, 10);
    chat.Perform(Send(msg.chatId, ChooseWarehouseText, false, Some(kb)));
  }

  /** `text_msg_handler`: a message means something only to a user in
      state `AwaitingToken`, whose text is then the candidate token. A
      token the API accepts is stored; for a refused one the store is left
      alone and the reply depends on the token's `exp`: "просрочен" while
      `exp > now`, "невалиден" once it has passed. */
  method TextMsgHandler(db: Store, chat: Chat, msg: Message, ping: Exchange<PingResponse>, up: Upstream)
    returns (r: Result<(), Error>)
    requires db.Valid()
    modifies db, chat
    ensures db.Valid()
    ensures old(chat.requests) <= chat.requests
    ensures msg.chatId < 0 ==> r == Err(IdOutOfRange) && unchanged(db) && chat.requests == old(chat.requests)
    ensures msg.chatId >= 0 && ReadState(old(db.states), msg.chatId) != AwaitingToken ==>
      r.Ok? && unchanged(db) && chat.requests == old(chat.requests)
    ensures msg.chatId >= 0 && ReadState(old(db.states), msg.chatId) == AwaitingToken ==>
      var token := msg.text.GetOr("");
      var valid := CheckToken(token, ping);
      && (valid.Err? ==> r == Err(valid.error) && unchanged(db) && chat.requests == old(chat.requests))
      && (valid == Ok(true) ==>
            db.states == old(db.states)[msg.chatId := Code(Idle)] && db.tokens == old(db.tokens)[msg.chatId := token])
      && (valid == Ok(true) ==>
            (r.Ok? <==> ValidHeaderValue(token) && up.warehouses.Answered? && IsSuccess(up.warehouses.status)
                        && up.warehouses.body.Some?))
      && (valid == Ok(true) && r.Ok? ==>
            && up.warehouses.Answered? && up.warehouses.body.Some?
            && db.warehouses == PutAll(old(db.warehouses), SortBy(up.warehouses.body.value, NameLe))
            && chat.requests == old(chat.requests)
                 + [Send(msg.chatId, ChooseWarehouseText, false, Some(WarehouseKeyboardOf(db.warehouses, 0, 10)))])
      && (valid == Ok(true) && r.Err? ==> db.warehouses == old(db.warehouses) && chat.requests == old(chat.requests))
      && (valid == Ok(false) ==>
            && unchanged(db)
            && var alive := IsTokenExpired(token, up.decoder, up.now);
               && (alive.Err? ==> r == Err(alive.error) && chat.requests == old(chat.requests))
               && (alive == Ok(true) ==> r.Ok? && chat.requests == old(chat.requests) + [Plain(msg.chatId, ExpiredTokenText)])
               && (alive == Ok(false) ==> r.Ok? && chat.requests == old(chat.requests) + [Plain(msg.chatId, InvalidTokenText)]))
    ensures db.users == old(db.users) && db.coefficients == old(db.coefficients)
  {
    if msg.chatId < 0 {
      return Err(IdOutOfRange);
    }
    var state := db.GetUserState(msg.chatId);
    if state != AwaitingToken {
      return Ok(());
    }
    var token := msg.text.GetOr("");
    var valid := CheckToken(token, ping);
    if valid.Err? {
      return Err(valid.error);
    }
    if valid.value {
      r := AcceptToken(db, chat, msg, token, up.warehouses);
      return;
    }
    var alive := IsTokenExpired(token, up.decoder, up.now);
    if alive.Err? {
      return Err(alive.error);
    }
    if alive.value {
      chat.Perform(Plain(msg.chatId, ExpiredTokenText));
    } else {
      chat.Perform(Plain(msg.chatId, InvalidTokenText));
    }
    r := Ok(());
  }
}
