/** The button handlers of `callback_handlers.rs` and the parser of the
    box-type payload. The store is the `Store` object, the platform the
    `Chat` log; what the supplier API answers, the token decoder and the
    clock are inputs. */
module CallbackHandlers {
  import opened Wrappers
  import opened Strings
  import opened Sorting
  import opened Errors
  import opened Telegram
  import opened TokenDecoder
  import opened Database
  import opened ApiRequests
  import opened Keyboards

  // ---------------------------------------------------------------------
  // `parse_callback_boxtype_text`
  // ---------------------------------------------------------------------

  const BoxTypePrefix := "boxtype:"
  const WarehousePrefix := "whid:"

  /** The API spells this box type with spaces, which the payload cannot
      keep; its first word is mapped back to the full name. */
  function Canonical(t: string): (r: string)
    ensures r == "" <==> t == ""
    ensures t != "QR-поставка" ==> r == t
  {
    if t == "QR-поставка" then "QR-поставка с коробами" else t
  }

  /** The box type and warehouse the scan has seen so far. */
  datatype Scan = Scan(boxType: string, warehouseId: int)

  /** One step of the loop: a `boxtype:` word sets the box type, a `whid:`
      word the warehouse (0 when its value is not an `i32`). */
  function ScanWord(acc: Scan, word: string): Scan {
    if BoxTypePrefix <= word then Scan(Canonical(TrimStartMatches(word, BoxTypePrefix)), acc.warehouseId)
    else if WarehousePrefix <= word then Scan(acc.boxType, ParseI32(word[5..]).GetOr(0))
    else acc
  }

  /** The loop over the words, from `("", 0)`. */
  function ScanWords(words: seq<string>): Scan
    decreases |words|
  {
    if words == [] then Scan("", 0) else ScanWord(ScanWords(words[..|words| - 1]), words[|words| - 1])
  }

  /** The result: nothing when the box type is empty. */
  function ParseBoxType(text: string): Option<(string, int)> {
    var s := ScanWords(SplitWhitespace(text));
    if s.boxType != "" then Some((s.boxType, s.warehouseId)) else None
  }

  /** `parse_callback_boxtype_text`, with its `for` loop. */
  method ParseCallbackBoxtypeText(text: string) returns (r: Option<(string, int)>)
    ensures r == ParseBoxType(text)
  {
    var parts := SplitWhitespace(text);
    var boxType := "";
    var warehouseId := 0;
    for i := 0 to |parts|
      invariant Scan(boxType, warehouseId) == ScanWords(parts[..i])
    {
      assert parts[..i + 1][..i] == parts[..i];
      var part := parts[i];
      if BoxTypePrefix <= part {
        boxType := TrimStartMatches(part, BoxTypePrefix);
        if boxType == "QR-поставка" {
          boxType := "QR-поставка с коробами";
        }
      } else if WarehousePrefix <= part {
        warehouseId := ParseI32(part[5..]).GetOr(0);
      }
    }
    assert parts[..|parts|] == parts;
    if boxType != "" {
      r := Some((boxType, warehouseId));
    } else {
      r := None;
    }
  }

  /** The last word with the given prefix. */
  function LastWith(words: seq<string>, prefix: string): (r: Option<string>)
    ensures r.Some? ==> r.value in words && prefix <= r.value
    ensures r.None? ==> forall w | w in words :: !(prefix <= w)
    decreases |words|
  {
    if words == [] then None
    else
      var w := words[|words| - 1];
      var init := words[..|words| - 1];
      assert forall x | x in words :: x in init || x == w;
      if prefix <= w then Some(w) else LastWith(init, prefix)
  }

  /** The box type a `boxtype:` word names. */
  function BoxTypeOf(word: Option<string>): string {
    match word
    case None => ""
    case Some(w) => Canonical(TrimStartMatches(w, BoxTypePrefix))
  }

  /** The warehouse a `whid:` word names. */
  function WarehouseOf(word: Option<string>): int {
    match word
    case None => 0
    case Some(w) => if |w| < 5 then 0 else ParseI32(w[5..]).GetOr(0)
  }

  /** The scan keeps the last `boxtype:` word and the last `whid:` word:
      a later word overrides an earlier one, and a missing `whid:` leaves
      0. */
  lemma {:induction false} ScanKeepsLast(words: seq<string>)
    ensures ScanWords(words).boxType == BoxTypeOf(LastWith(words, BoxTypePrefix))
    ensures ScanWords(words).warehouseId == WarehouseOf(LastWith(words, WarehousePrefix))
    decreases |words|
  {
    if words != [] {
      var init, w := words[..|words| - 1], words[|words| - 1];
      ScanKeepsLast(init);
      var acc := ScanWords(init);
      assert ScanWords(words) == ScanWord(acc, w);
      if BoxTypePrefix <= w {
        assert !(WarehousePrefix <= w) by {
          assert w[0] == 'b';
        }
      }
    }
  }

  /** The parse fails exactly when there is no `boxtype:` word, or the
      last one is nothing but repeated prefixes. */
  lemma ParseBoxTypeNone(text: string)
    ensures ParseBoxType(text).None?
        <==> (var w := LastWith(SplitWhitespace(text), BoxTypePrefix);
              w.None? || TrimStartMatches(w.value, BoxTypePrefix) == "")
  {
    ScanKeepsLast(SplitWhitespace(text));
  }

  /** A payload built by the box-type keyboard for a type whose first word
      is `words[0]` and whose other words look like neither prefix parses
      back to the warehouse and the canonical form of the first word. */
  lemma ParseBoxTypeOfPayload(words: seq<string>, wid: int)
    requires |words| >= 1 && IsI32(wid)
    requires forall i | 0 <= i < |words| :: words[i] != [] && NoWhitespace(words[i])
    requires !(BoxTypePrefix <= words[0])
    requires forall i | 1 <= i < |words| :: !(BoxTypePrefix <= words[i]) && !(WarehousePrefix <= words[i])
    ensures ParseBoxType(BoxTypePayload(Join(words, ' '), wid)) == Some((Canonical(words[0]), wid))
  {
    PayloadSplits(words, wid);
    ScanOfPayloadWords(words, wid);
  }

  lemma ScanOfPayloadWords(words: seq<string>, wid: int)
    requires |words| >= 1 && IsI32(wid)
    requires !(BoxTypePrefix <= words[0])
    requires forall i | 1 <= i < |words| :: !(BoxTypePrefix <= words[i]) && !(WarehousePrefix <= words[i])
    ensures ScanWords(PayloadWords(words, wid)) == Scan(Canonical(words[0]), wid)
  {
    PayloadLastWords(words, wid);
    ScanKeepsLast(PayloadWords(words, wid));
    assert Repeat(BoxTypePrefix, 1) + words[0] == BoxTypePrefix + words[0];
    TrimStartMatchesRepeated(BoxTypePrefix, 1, words[0]);
    assert (WarehousePrefix + IntToString(wid))[5..] == IntToString(wid);
    ParseI32OfIntToString(wid);
  }

  /** The words of a box-type payload. */
  function PayloadWords(words: seq<string>, wid: int): seq<string>
    requires |words| >= 1
  {
    [BoxTypePrefix + words[0]] + words[1..] + [WarehousePrefix + IntToString(wid)]
  }

  lemma PayloadSplits(words: seq<string>, wid: int)
    requires |words| >= 1
    requires forall i | 0 <= i < |words| :: words[i] != [] && NoWhitespace(words[i])
    ensures SplitWhitespace(BoxTypePayload(Join(words, ' '), wid)) == PayloadWords(words, wid)
  {
    PayloadIsJoin(words, wid);
    PayloadWordsAreWords(words, wid);
    SplitWhitespaceOfJoin(PayloadWords(words, wid));
  }

  lemma PayloadIsJoin(words: seq<string>, wid: int)
    requires |words| >= 1
    ensures BoxTypePayload(Join(words, ' '), wid) == Join(PayloadWords(words, wid), ' ')
  {
    var number := IntToString(wid);
    var last := WarehousePrefix + number;
    JoinPayload(words, BoxTypePrefix + words[0], last);
    ConcatAssoc(BoxTypePrefix + Join(words, ' ') + " ", WarehousePrefix, number);
  }

  lemma PayloadWordsAreWords(words: seq<string>, wid: int)
    requires |words| >= 1
    requires forall i | 0 <= i < |words| :: words[i] != [] && NoWhitespace(words[i])
    ensures var parts := PayloadWords(words, wid);
      forall i | 0 <= i < |parts| :: parts[i] != [] && NoWhitespace(parts[i])
  {
    var number := IntToString(wid);
    var parts := PayloadWords(words, wid);
    assert NoWhitespace(number) by {
      forall i | 0 <= i < |number| ensures !IsWhitespace(number[i]) {
        assert IsDigit(number[i]) || number[i] == '-';
      }
    }
    NoWhitespaceAppend(BoxTypePrefix, words[0]);
    NoWhitespaceAppend(WarehousePrefix, number);
    forall i | 0 <= i < |parts| ensures parts[i] != [] && NoWhitespace(parts[i]) {
      if 0 < i < |parts| - 1 {
        assert parts[i] == words[i];
      }
    }
  }

  lemma NoWhitespaceAppend(a: string, b: string)
    requires NoWhitespace(a) && NoWhitespace(b)
    ensures NoWhitespace(a + b)
  {
    forall i | 0 <= i < |a + b| ensures !IsWhitespace((a + b)[i]) {
      if i >= |a| {
        assert (a + b)[i] == b[i - |a|];
      }
    }
  }

  lemma PayloadLastWords(words: seq<string>, wid: int)
    requires |words| >= 1
    requires forall i | 1 <= i < |words| :: !(BoxTypePrefix <= words[i]) && !(WarehousePrefix <= words[i])
    ensures var parts := PayloadWords(words, wid);
      && LastWith(parts, BoxTypePrefix) == Some(BoxTypePrefix + words[0])
      && LastWith(parts, WarehousePrefix) == Some(WarehousePrefix + IntToString(wid))
  {
    var first := BoxTypePrefix + words[0];
    var parts := PayloadWords(words, wid);
    assert parts[..|parts| - 1] == [first] + words[1..];
    LastWithSkips([first], words[1..], BoxTypePrefix);
    LastWithSkips([first], words[1..], WarehousePrefix);
    assert [first][..0] == [];
    assert !(WarehousePrefix <= first) by {
      assert first[0] == 'b';
    }
  }

  /** Words that do not carry the prefix do not change the last one that
      does. */
  lemma {:induction false} LastWithSkips(init: seq<string>, rest: seq<string>, prefix: string)
    requires forall i | 0 <= i < |rest| :: !(prefix <= rest[i])
    ensures LastWith(init + rest, prefix) == LastWith(init, prefix)
    decreases |rest|
  {
    if rest == [] {
      assert init + rest == init;
    } else {
      var all := init + rest;
      assert all[..|all| - 1] == init + rest[..|rest| - 1];
      assert all[|all| - 1] == rest[|rest| - 1];
      LastWithSkips(init, rest[..|rest| - 1], prefix);
    }
  }

  /** The payload is the space-joined list of its words. */
  lemma JoinPayload(words: seq<string>, first: string, last: string)
    requires |words| >= 1 && first == BoxTypePrefix + words[0]
    ensures Join([first] + words[1..] + [last], ' ') == BoxTypePrefix + Join(words, ' ') + " " + last
  {
    JoinFirst(words, BoxTypePrefix);
    JoinLast([first] + words[1..], last);
    assert ([first] + words[1..]) == words[0 := first];
  }

  /** Prefixing the first word prefixes the joined text. */
  lemma JoinFirst(words: seq<string>, p: string)
    requires |words| >= 1
    ensures Join(words[0 := p + words[0]], ' ') == p + Join(words, ' ')
  {
    var changed := words[0 := p + words[0]];
    assert changed[1..] == words[1..];
  }

  /** Appending a word appends it after a space. */
  lemma {:induction false} JoinLast(words: seq<string>, last: string)
    requires |words| >= 1
    ensures Join(words + [last], ' ') == Join(words, ' ') + " " + last
    decreases |words|
  {
    var all := words + [last];
    assert all[1..] == words[1..] + [last];
    if |words| > 1 {
      JoinLast(words[1..], last);
    } else {
      assert all[1..] == [last];
    }
  }

  /** Any one-word type round-trips, changed only by the canonical name. */
  lemma OneWordTypeRoundTrip(t: string, wid: int)
    requires t != [] && NoWhitespace(t) && !(BoxTypePrefix <= t) && IsI32(wid)
    ensures ParseBoxType(BoxTypePayload(t, wid)) == Some((Canonical(t), wid))
  {
    ParseBoxTypeOfPayload([t], wid);
  }

  /** The three-word type "QR-поставка с коробами" round-trips too: its
      payload splits into three words and the first is mapped back. */
  lemma QrTypeRoundTrip(wid: int)
    requires IsI32(wid)
    ensures ParseBoxType(BoxTypePayload("QR-поставка с коробами", wid)) == Some(("QR-поставка с коробами", wid))
  {
    var words := ["QR-поставка", "с", "коробами"];
    assert Join(words, ' ') == "QR-поставка с коробами";
    assert words[0][0] == 'Q' && words[1][0] == 'с' && words[2][0] == 'к';
    assert forall i | 0 <= i < 3 :: NoWhitespace(words[i]);
    ParseBoxTypeOfPayload(words, wid);
  }

  // ---------------------------------------------------------------------
  // Handlers
  // ---------------------------------------------------------------------

  const InternalError := "Внутренняя ошибка, попробуйте повторить позже"
  const MainMenuText := "Главное меню"
  const NoTokenText := "Токен не был введен"
  const EnterTokenText := "Введите токен\n\nТокен должен быть создан для работы с категорией <b>'Поставки'</b>"
  const ChooseWarehouseText := "Выберите склад"
  const ChooseBoxTypeText := "Выберите тип поставки"
  const NoInformationText := "WB не предоставил информации по данному складу\nВыберите другой склад"

  function LifetimeText(lifetime: string): string {
    "Токен действителен до " + lifetime
  }

  function ExpiredText(lifetime: string): string {
    "Срок действия токена истек. Действовал до " + lifetime
      + ".\n\nВведите новый токен\n\nТокен должен быть создан для работы с категорией <b>'Поставки'</b>"
  }

  /** What the handlers learn from outside: the token decoder, the clock,
      and the supplier API's answers to the warehouse and coefficient
      requests. */
  datatype Upstream = Upstream(
    decoder: Decoder,
    now: int,
    warehouses: Exchange<seq<Warehouse>>,
    coefficients: Exchange<Option<seq<Coefficient>>>)

  /** `main_menu_callback`: shows the main menu and resets the user to
      `Idle`; nothing else in the store changes. */
  method MainMenuCallback(db: Store, chat: Chat, q: CallbackQuery) returns (r: Result<(), Error>)
    requires db.Valid()
    modifies db, chat
    ensures old(chat.requests) <= chat.requests
    ensures db.Valid()
    ensures q.message.Some? ==>
      && r.Ok?
      && chat.requests == old(chat.requests) + [Send(q.message.value.chatId, MainMenuText, false, Some(MainMenu()))]
      && db.states == old(db.states)[q.from.id := Code(Idle)]
    ensures q.message.None? ==>
      && r == Err(MissingMessage)
      && chat.requests == old(chat.requests) + [Plain(q.from.id, InternalError)]
      && db.states == old(db.states)
    ensures db.users == old(db.users) && db.tokens == old(db.tokens)
    ensures db.warehouses == old(db.warehouses) && db.coefficients == old(db.coefficients)
  {
    if q.message.None? {
      chat.Perform(Plain(q.from.id, InternalError));
      return Err(MissingMessage);
    }
    var m := q.message.value;
    chat.Perform(Send(m.chatId, MainMenuText, false, Some(MainMenu())));
    db.SetUserState(q.from.id, Idle);
    r := Ok(());
  }

  /** `token_lifetime_callback`: changes nothing in the store; shows the
      token's lifetime only to a user in state `TokenEntered`. */
  method TokenLifetimeCallback(db: Store, chat: Chat, q: CallbackQuery, decoder: Decoder) returns (r: Result<(), Error>)
    modifies chat
    ensures old(chat.requests) <= chat.requests
    ensures q.message.None? ==>
      r == Err(MissingMessage) && chat.requests == old(chat.requests) + [Plain(q.from.id, InternalError)]
    ensures q.message.Some? && ReadState(db.states, q.from.id) != TokenEntered ==>
      r.Ok? && chat.requests == old(chat.requests) + [Plain(q.message.value.chatId, NoTokenText)]
    ensures q.message.Some? && ReadState(db.states, q.from.id) == TokenEntered ==>
      var m := q.message.value;
      var lifetime := LifetimeStr(ReadToken(db.tokens, q.from.id), decoder);
      && (lifetime.Err? ==> r == Err(lifetime.error) && chat.requests == old(chat.requests))
      && (lifetime.Ok? ==>
            r.Ok? && chat.requests == old(chat.requests) + [Delete(m.chatId, m.messageId),
                                                            Plain(m.chatId, LifetimeText(lifetime.value)),
                                                            Send(m.chatId, MainMenuText, false, Some(MainMenu()))])
  {
    if q.message.None? {
      chat.Perform(Plain(q.from.id, InternalError));
      return Err(MissingMessage);
    }
    var m := q.message.value;
    var state := db.GetUserState(q.from.id);
    if state == TokenEntered {
      var token := db.GetUserToken(q.from.id);
      var lifetime := LifetimeStr(token, decoder);
      if lifetime.Err? {
        return Err(lifetime.error);
      }
      chat.Perform(Delete(m.chatId, m.messageId));
      chat.Perform(Plain(m.chatId, LifetimeText(lifetime.value)));
      chat.Perform(Send(m.chatId, MainMenuText, false, Some(MainMenu())));
    } else {
      chat.Perform(Plain(m.chatId, NoTokenText));
    }
    r := Ok(());
  }

  /** The live-token branch of `warehouses_list_callback`: refresh the
      warehouse table from the API, then turn the pressed message into
      page 0 of the warehouse keyboard. */
  method ShowWarehouseList(db: Store, chat: Chat, m: Message, token: string, answer: Exchange<seq<Warehouse>>)
    returns (r: Result<(), Error>)
    requires db.Valid()
    modifies db, chat
    ensures old(chat.requests) <= chat.requests
    ensures db.Valid()
    ensures r.Ok? <==> ValidHeaderValue(token) && answer.Answered? && IsSuccess(answer.status) && answer.body.Some?
    ensures r.Ok? ==>
      && db.warehouses == PutAll(old(db.warehouses), SortBy(answer.body.value, NameLe))
      && chat.requests == old(chat.requests) + [EditText(m.chatId, m.messageId, ChooseWarehouseText, None),
                                                EditMarkup(m.chatId, m.messageId, WarehouseKeyboardOf(db.warehouses, 0, 10))]
    ensures r.Err? ==> db.warehouses == old(db.warehouses) && chat.requests == old(chat.requests)
    ensures db.users == old(db.users) && db.states == old(db.states) && db.tokens == old(db.tokens)
    ensures db.coefficients == old(db.coefficients)
  {
    r := FetchWarehouses(db, token, answer);
    if r.Err? {
      return;
    }
    chat.Perform(EditText(m.chatId, m.messageId, ChooseWarehouseText, None));
    var kb := CreateWarehouseKeyboard(db, 0, 10);
    chat.Perform(EditMarkup(m.chatId, m.messageId, kb));
  }

  /** The expired-token branch of `warehouses_list_callback`: the user is
      set to `AwaitingToken` and told when the token expired. */
  method AskForNewToken(db: Store, chat: Chat, user: int, m: Message, token: string, decoder: Decoder)
    returns (r: Result<(), Error>)
    requires db.Valid()
    modifies db, chat
    ensures old(chat.requests) <= chat.requests
    ensures db.Valid()
    ensures db.states == old(db.states)[user := Code(AwaitingToken)]
    ensures var lifetime := LifetimeStr(token, decoder);
      && (lifetime.Err? ==> r == Err(lifetime.error) && chat.requests == old(chat.requests))
      && (lifetime.Ok? ==>
            r.Ok? && chat.requests == old(chat.requests)
                       + [Send(m.chatId, ExpiredText(lifetime.value), true, Some(ToMainMenuButton()))])
    ensures db.users == old(db.users) && db.tokens == old(db.tokens)
    ensures db.warehouses == old(db.warehouses) && db.coefficients == old(db.coefficients)
  {
    db.SetUserState(user, AwaitingToken);
    var lifetime := LifetimeStr(token, decoder);
    if lifetime.Err? {
      return Err(lifetime.error);
    }
    chat.Perform(Send(m.chatId, ExpiredText(lifetime.value), true, Some(ToMainMenuButton())));
    r := Ok(());
  }

  /** `warehouses_list_callback`: without a token the user is asked for
      one; with a live token the warehouse list is refreshed and page 0
      shown; with an expired one the user is asked for a new token. */
  method WarehousesListCallback(db: Store, chat: Chat, q: CallbackQuery, up: Upstream) returns (r: Result<(), Error>)
    requires db.Valid()
    modifies db, chat
    ensures old(chat.requests) <= chat.requests
    ensures db.Valid()
    ensures q.message.None? ==>
      r == Err(MissingMessage) && chat.requests == old(chat.requests) + [Plain(q.from.id, InternalError)]
      && db.states == old(db.states) && db.warehouses == old(db.warehouses)
    ensures q.message.Some? && ReadToken(old(db.tokens), q.from.id) == "" ==>
      && r.Ok?
      && db.states == old(db.states)[q.from.id := Code(AwaitingToken)]
      && db.warehouses == old(db.warehouses)
      && chat.requests == old(chat.requests) + [Send(q.from.id, EnterTokenText, true, Some(ToMainMenuButton()))]
    ensures q.message.Some? && ReadToken(old(db.tokens), q.from.id) != "" ==>
      var alive := IsTokenExpired(ReadToken(old(db.tokens), q.from.id), up.decoder, up.now);
      && (alive.Err? ==> r == Err(alive.error) && db.states == old(db.states) && db.warehouses == old(db.warehouses)
                         && chat.requests == old(chat.requests))
      && (alive == Ok(true) ==> db.states == old(db.states))
      && (alive == Ok(true) ==>
            (r.Ok? <==> ValidHeaderValue(ReadToken(old(db.tokens), q.from.id)) && up.warehouses.Answered?
                        && IsSuccess(up.warehouses.status) && up.warehouses.body.Some?))
      && (alive == Ok(true) && r.Ok? ==>
            && up.warehouses.Answered? && up.warehouses.body.Some?
            && db.warehouses == PutAll(old(db.warehouses), SortBy(up.warehouses.body.value, NameLe))
            && var m := q.message.value;
               chat.requests == old(chat.requests) + [EditText(m.chatId, m.messageId, ChooseWarehouseText, None),
                                                      EditMarkup(m.chatId, m.messageId, WarehouseKeyboardOf(db.warehouses, 0, 10))])
      && (alive == Ok(true) && r.Err? ==> db.warehouses == old(db.warehouses) && chat.requests == old(chat.requests))
      && (alive == Ok(false) ==>
            db.states == old(db.states)[q.from.id := Code(AwaitingToken)] && db.warehouses == old(db.warehouses))
      && (alive == Ok(false) ==>
            var lifetime := LifetimeStr(ReadToken(old(db.tokens), q.from.id), up.decoder);
            && (lifetime.Err? ==> r == Err(lifetime.error) && chat.requests == old(chat.requests))
            && (lifetime.Ok? ==>
                  r.Ok? && chat.requests == old(chat.requests)
                             + [Send(q.message.value.chatId, ExpiredText(lifetime.value), true, Some(ToMainMenuButton()))]))
    ensures db.users == old(db.users) && db.tokens == old(db.tokens) && db.coefficients == old(db.coefficients)
  {
    if q.message.None? {
      chat.Perform(Plain(q.from.id, InternalError));
      return Err(MissingMessage);
    }
    var m := q.message.value;
    var token := db.GetUserToken(q.from.id);
    if token == "" {
      db.SetUserState(q.from.id, AwaitingToken);
      chat.Perform(Send(q.from.id, EnterTokenText, true, Some(ToMainMenuButton())));
      return Ok(());
    }
    var alive := IsTokenExpired(token, up.decoder, up.now);
    if alive.Err? {
      return Err(alive.error);
    }
    if alive.value {
      r := ShowWarehouseList(db, chat, m, token, up.warehouses);
    } else {
      r := AskForNewToken(db, chat, q.from.id, m, token, up.decoder);
    }
  }

  /** `warehouses_page_callback`: page `page` of the warehouse keyboard. */
  method WarehousesPageCallback(db: Store, chat: Chat, q: CallbackQuery, page: int) returns (r: Result<(), Error>)
    requires IsI32(page)
    modifies chat
    ensures old(chat.requests) <= chat.requests
    ensures q.message.Some? ==>
      var m := q.message.value;
      r.Ok? && chat.requests == old(chat.requests) + [EditMarkup(m.chatId, m.messageId, WarehouseKeyboardOf(db.warehouses, page, 10))]
    ensures q.message.None? ==>
      r == Err(MissingMessage) && chat.requests == old(chat.requests) + [Plain(q.from.id, InternalError)]
  {
    if q.message.None? {
      chat.Perform(Plain(q.from.id, InternalError));
      return Err(MissingMessage);
    }
    var m := q.message.value;
    var kb := CreateWarehouseKeyboard(db, page, 10);
    chat.Perform(EditMarkup(m.chatId, m.messageId, kb));
    r := Ok(());
  }

  /** `phone_page_callback`: the profile query reads a table the schema
      never creates, and its error is unwrapped, so a query with a message
      panics before any request. */
  method PhonePageCallback(chat: Chat, q: CallbackQuery, page: int) returns (r: Result<(), Error>)
    modifies chat
    ensures old(chat.requests) <= chat.requests
    ensures q.message.Some? ==> r == Err(Panic) && chat.requests == old(chat.requests)
    ensures q.message.None? ==>
      r == Err(MissingMessage) && chat.requests == old(chat.requests) + [Plain(q.from.id, InternalError)]
  {
    if q.message.None? {
      chat.Perform(Plain(q.from.id, InternalError));
      return Err(MissingMessage);
    }
    r := Err(Panic);
  }

  /** `warehouse_choosed_callback`: refreshes the warehouse's coefficients;
      on success shows its box types, on failure the first warehouse page
      and the error. A negative id fails the conversion to `u32` before
      anything is sent. */
  method WarehouseChoosedCallback(db: Store, chat: Chat, q: CallbackQuery, wid: int, up: Upstream)
    returns (r: Result<(), Error>)
    requires db.Valid() && IsI32(wid)
    modifies db, chat
    ensures old(chat.requests) <= chat.requests
    ensures db.Valid()
    ensures q.message.None? ==>
      r == Err(MissingMessage) && chat.requests == old(chat.requests) + [Plain(q.from.id, InternalError)]
      && db.coefficients == old(db.coefficients)
    ensures q.message.Some? && wid < 0 ==>
      r == Err(IdOutOfRange) && chat.requests == old(chat.requests) && db.coefficients == old(db.coefficients)
    ensures q.message.Some? && wid >= 0 ==>
      var m := q.message.value;
      var fetched := CoefficientsOutcome(ReadToken(db.tokens, q.from.id), up.coefficients);
      && (fetched.Ok? ==>
            db.coefficients == (if up.coefficients.Answered? && IsSuccess(up.coefficients.status)
                                   && up.coefficients.body.Some? && up.coefficients.body.value.Some?
                                then UpsertAll(old(db.coefficients), up.coefficients.body.value.value)
                                else old(db.coefficients)))
      && (fetched.Ok? ==>
            r.Ok? && chat.requests == old(chat.requests)
                       + [EditText(m.chatId, m.messageId, ChooseBoxTypeText, None),
                          EditMarkup(m.chatId, m.messageId, BoxTypesKeyboard(UniqueBoxTypes(db.coefficients, wid), wid))])
      && (fetched.Err? ==>
            r == fetched && db.coefficients == old(db.coefficients)
            && chat.requests == old(chat.requests)
                 + [EditText(m.chatId, m.messageId, NoInformationText, Some(WarehouseKeyboardOf(db.warehouses, 0, 10)))])
    ensures db.users == old(db.users) && db.states == old(db.states) && db.tokens == old(db.tokens)
    ensures db.warehouses == old(db.warehouses)
  {
    if q.message.None? {
      chat.Perform(Plain(q.from.id, InternalError));
      return Err(MissingMessage);
    }
    var m := q.message.value;
    var token := db.GetUserToken(q.from.id);
    if wid < 0 {
      return Err(IdOutOfRange);
    }
    var fetched, _ := FetchAndStoreCoefficients(db, token, Some([wid]), up.coefficients);
    if fetched.Ok? {
      var types := db.GetUniqueBoxTypes(wid);
      chat.Perform(EditText(m.chatId, m.messageId, ChooseBoxTypeText, None));
      var kb := CreateBoxTypesKeyboard(types, wid);
      chat.Perform(EditMarkup(m.chatId, m.messageId, kb));
      r := Ok(());
    } else {
      var kb := CreateWarehouseKeyboard(db, 0, 10);
      chat.Perform(EditText(m.chatId, m.messageId, NoInformationText, Some(kb)));
      r := fetched;
    }
  }

  /** `box_type_choosed_callback`: the coefficient report of the payload's
      warehouse and box type, replacing the keyboard message. */
  method BoxTypeChoosedCallback(db: Store, chat: Chat, q: CallbackQuery) returns (r: Result<(), Error>)
    requires q.data.Some?
    modifies chat
    ensures old(chat.requests) <= chat.requests
    ensures ParseBoxType(q.data.value).None? ==>
      r == Err(UnparsableCallback) && chat.requests == old(chat.requests) + [Plain(q.from.id, InternalError)]
    ensures ParseBoxType(q.data.value).Some? && q.message.None? ==>
      r == Err(MissingMessage) && chat.requests == old(chat.requests) + [Plain(q.from.id, InternalError)]
    ensures ParseBoxType(q.data.value).Some? && q.message.Some? ==>
      var (boxType, wid) := ParseBoxType(q.data.value).value;
      var report := Report(db.warehouses, db.coefficients, wid, boxType);
      var m := q.message.value;
      && (report.Err? ==> r == Err(report.error) && chat.requests == old(chat.requests))
      && (report.Ok? ==>
            r.Ok? && chat.requests == old(chat.requests)
                       + [Delete(m.chatId, m.messageId), Send(m.chatId, report.value, false, Some(CoefficientsKeyboard(wid, wid)))])
  {
    var parsed := ParseCallbackBoxtypeText(q.data.value);
    if parsed.None? {
      chat.Perform(Plain(q.from.id, InternalError));
      return Err(UnparsableCallback);
    }
    var (boxType, wid) := parsed.value;
    if q.message.None? {
      chat.Perform(Plain(q.from.id, InternalError));
      return Err(MissingMessage);
    }
    var m := q.message.value;
    var report := db.GetWarehouseData(wid, boxType);
    if report.Err? {
      return Err(report.error);
    }
    chat.Perform(Delete(m.chatId, m.messageId));
    chat.Perform(Send(m.chatId, report.value, false, Some(CoefficientsKeyboard(wid, wid))));
    r := Ok(());
  }

  /** `another_warehouse_callback(msg)`: the first warehouse page under
      `msg`. */
  method AnotherWarehouseCallback(db: Store, chat: Chat, q: CallbackQuery, msg: string) returns (r: Result<(), Error>)
    modifies chat
    ensures old(chat.requests) <= chat.requests
    ensures q.message.Some? ==>
      r.Ok? && chat.requests == old(chat.requests)
                 + [Send(q.message.value.chatId, msg, false, Some(WarehouseKeyboardOf(db.warehouses, 0, 10)))]
    ensures q.message.None? ==>
      r == Err(MissingMessage) && chat.requests == old(chat.requests) + [Plain(q.from.id, InternalError)]
  {
    if q.message.None? {
      chat.Perform(Plain(q.from.id, InternalError));
      return Err(MissingMessage);
    }
    var kb := CreateWarehouseKeyboard(db, 0, 10);
    chat.Perform(Send(q.message.value.chatId, msg, false, Some(kb)));
    r := Ok(());
  }

  /** `another_box_type_callback(wid)`: the stored box types of `wid`. */
  method AnotherBoxTypeCallback(db: Store, chat: Chat, q: CallbackQuery, wid: int) returns (r: Result<(), Error>)
    modifies chat
    ensures old(chat.requests) <= chat.requests
    ensures q.message.Some? ==>
      r.Ok? && chat.requests == old(chat.requests)
                 + [Send(q.message.value.chatId, ChooseBoxTypeText, false,
                         Some(BoxTypesKeyboard(UniqueBoxTypes(db.coefficients, wid), wid)))]
    ensures q.message.None? ==>
      r == Err(MissingMessage) && chat.requests == old(chat.requests) + [Plain(q.from.id, InternalError)]
  {
    if q.message.None? {
      chat.Perform(Plain(q.from.id, InternalError));
      return Err(MissingMessage);
    }
    var types := db.GetUniqueBoxTypes(wid);
    var kb := CreateBoxTypesKeyboard(types, wid);
    chat.Perform(Send(q.message.value.chatId, ChooseBoxTypeText, false, Some(kb)));
    r := Ok(());
  }
}
