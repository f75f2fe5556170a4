/** The callback dispatcher: every button press arrives as a callback
    query whose payload string is classified into the handler it names. */
module BotCallbacks {
  import opened Wrappers
  import opened Strings
  import opened Errors
  import opened Telegram
  import opened Database
  import opened Keyboards
  import opened CallbackHandlers

  const TokenLifetimePayload := "token_lifetime_callback"
  const AnotherBoxTypePrefix := "another_box_type_callback:"
  const WarehousePagePrefix := "w_page:"
  const PhonePagePrefix := "p_page:"
  const AnotherWarehouseText := "Выберите другой склад"

  function UnknownText(data: string): string {
    "Неизвестный callback: " + data
  }

  /** The handler a payload selects, with the number it carries. */
  datatype Callback =
    | ToMainMenu
    | ShowTokenLifetime
    | ListWarehouses
    | OtherWarehouse
      /** `None` when the suffix is not an `i32`: the source unwraps it. */
    | OtherBoxType(target: Option<int>)
    | WarehousePage(page: int)
    | PhonePage(page: int)
    | WarehouseChosen(warehouseId: int)
    | BoxTypeChosen
    | Unknown

  /** The `match` of `callback_handler`: the four exact payloads first,
      then the prefixes in the source's order. A page or warehouse suffix
      that is not an `i32` becomes 0. */
  function Classify(data: string): (c: Callback)
    ensures c == ToMainMenu <==> data == MainMenuPayload
    ensures c == ShowTokenLifetime <==> data == TokenLifetimePayload
    ensures c == ListWarehouses <==> data == WarehousesListPayload
    ensures c == OtherWarehouse <==> data == AnotherWarehousePayload
    ensures c.OtherBoxType? <==> AnotherBoxTypePrefix <= data
    ensures c.WarehousePage? <==> WarehousePagePrefix <= data
    ensures c.PhonePage? <==> PhonePagePrefix <= data
    ensures c.WarehouseChosen? <==> WarehousePrefix <= data
    ensures c.BoxTypeChosen? <==> BoxTypePrefix <= data
    ensures c.WarehousePage? ==> IsI32(c.page)
    ensures c.PhonePage? ==> IsI32(c.page)
    ensures c.WarehouseChosen? ==> IsI32(c.warehouseId)
    ensures c.OtherBoxType? && c.target.Some? ==> IsI32(c.target.value)
  {
    // The payloads and prefixes are told apart by their first, second or
    // ninth character.
    assert MainMenuPayload[0] == 'm' && TokenLifetimePayload[0] == 't' && PhonePagePrefix[0] == 'p';
    assert BoxTypePrefix[0] == 'b';
    assert WarehousesListPayload[1] == 'a' && WarehousePagePrefix[1] == '_' && WarehousePrefix[1] == 'h';
    assert AnotherWarehousePayload[8] == 'w' && AnotherBoxTypePrefix[8] == 'b';
    if data == MainMenuPayload then ToMainMenu
    else if data == TokenLifetimePayload then ShowTokenLifetime
    else if data == WarehousesListPayload then ListWarehouses
    else if data == AnotherWarehousePayload then OtherWarehouse
    else if AnotherBoxTypePrefix <= data then
      OtherBoxType(ParseI32(Trim(TrimStartMatches(data, AnotherBoxTypePrefix))))
    else if WarehousePagePrefix <= data then WarehousePage(ParseI32(data[|WarehousePagePrefix|..]).GetOr(0))
    else if PhonePagePrefix <= data then PhonePage(ParseI32(data[|PhonePagePrefix|..]).GetOr(0))
    else if WarehousePrefix <= data then WarehouseChosen(ParseI32(data[|WarehousePrefix|..]).GetOr(0))
    else if BoxTypePrefix <= data then BoxTypeChosen
    else Unknown
  }

  // ---------------------------------------------------------------------
  // The keyboards' payloads reach their handlers
  // ---------------------------------------------------------------------

  lemma PrefixedSuffix(prefix: string, s: string)
    ensures prefix <= prefix + s && (prefix + s)[|prefix|..] == s
  {
  }

  /** `whid:N` selects warehouse N. */
  lemma WarehousePayloadRoundTrip(id: int)
    requires IsI32(id)
    ensures Classify(WarehousePayload(id)) == WarehouseChosen(id)
  {
    PrefixedSuffix(WarehousePrefix, IntToString(id));
    ParseI32OfIntToString(id);
  }

  /** `w_page:N` selects warehouse page N. */
  lemma WarehousePagePayloadRoundTrip(page: int)
    requires IsI32(page)
    ensures Classify(WarehousePagePayload(page)) == WarehousePage(page)
  {
    PrefixedSuffix(WarehousePagePrefix, IntToString(page));
    ParseI32OfIntToString(page);
  }

  /** `p_page:N` selects profile page N. */
  lemma PhonePagePayloadRoundTrip(page: int)
    requires IsI32(page)
    ensures Classify(PhonePagePayload(page)) == PhonePage(page)
  {
    PrefixedSuffix(PhonePagePrefix, IntToString(page));
    ParseI32OfIntToString(page);
  }

  /** `another_box_type_callback:N` selects the box types of warehouse N. */
  lemma AnotherBoxTypePayloadRoundTrip(id: int)
    requires IsI32(id)
    ensures Classify(AnotherBoxTypePayload(id)) == OtherBoxType(Some(id))
  {
    var digits := IntToString(id);
    PrefixedSuffix(AnotherBoxTypePrefix, digits);
    assert !(AnotherBoxTypePrefix <= digits) by {
      assert AnotherBoxTypePrefix[0] == 'a';
    }
    assert Repeat(AnotherBoxTypePrefix, 1) + digits == AnotherBoxTypePayload(id);
    TrimStartMatchesRepeated(AnotherBoxTypePrefix, 1, digits);
    assert NoWhitespace(digits);
    TrimNoWhitespace(digits);
    ParseI32OfIntToString(id);
  }

  /** `boxtype:T whid:N` goes to the box-type handler. */
  lemma BoxTypePayloadRoundTrip(t: string, wid: int)
    ensures Classify(BoxTypePayload(t, wid)) == BoxTypeChosen
  {
    assert BoxTypePayload(t, wid) == BoxTypePrefix + (t + " " + "whid:" + IntToString(wid));
    PrefixedSuffix(BoxTypePrefix, t + " " + "whid:" + IntToString(wid));
  }

  /** A page suffix that is not an `i32` shows page 0. */
  lemma UnparsablePageIsZero(suffix: string)
    requires ParseI32(suffix).None?
    ensures Classify(WarehousePagePrefix + suffix) == WarehousePage(0)
    ensures Classify(PhonePagePrefix + suffix) == PhonePage(0)
  {
    PrefixedSuffix(WarehousePagePrefix, suffix);
    PrefixedSuffix(PhonePagePrefix, suffix);
  }

  // ---------------------------------------------------------------------
  // Dispatch
  // ---------------------------------------------------------------------

  /** `callback_handler`: a query without data is ignored; any other is
      acknowledged first and then handed to the handler its payload
      selects. */
  method CallbackHandler(db: Store, chat: Chat, q: CallbackQuery, up: Upstream) returns (r: Result<(), Error>)
    requires db.Valid()
    modifies db, chat
    ensures db.Valid()
    ensures q.data.None? ==> r.Ok? && chat.requests == old(chat.requests) && unchanged(db)
    ensures q.data.Some? ==>
      && old(chat.requests) + [AnswerCallback(q.id)] <= chat.requests
      && (Classify(q.data.value).Unknown? ==>
            r.Ok? && unchanged(db)
            && chat.requests == old(chat.requests) + [AnswerCallback(q.id), Plain(q.from.id, UnknownText(q.data.value))])
      && (Classify(q.data.value) == OtherBoxType(None) ==>
            r == Err(Panic) && unchanged(db) && chat.requests == old(chat.requests) + [AnswerCallback(q.id)])
    ensures q.data.Some? ==>
      var c := Classify(q.data.value);
      !(c.ToMainMenu? || c.ListWarehouses? || c.WarehouseChosen?) ==> unchanged(db)
  {
    if q.data.None? {
      return Ok(());
    }
    var data := q.data.value;
    chat.Perform(AnswerCallback(q.id));
    match Classify(data)
    case ToMainMenu =>
      r := MainMenuCallback(db, chat, q);
    case ShowTokenLifetime =>
      r := TokenLifetimeCallback(db, chat, q, up.decoder);
    case ListWarehouses =>
      r := WarehousesListCallback(db, chat, q, up);
    case OtherWarehouse =>
      r := AnotherWarehouseCallback(db, chat, q, AnotherWarehouseText);
    case OtherBoxType(wid) =>
      if wid.None? {
        return Err(Panic);
      }
      r := AnotherBoxTypeCallback(db, chat, q, wid.value);
    case WarehousePage(page) =>
      r := WarehousesPageCallback(db, chat, q, page);
    case PhonePage(page) =>
      r := PhonePageCallback(chat, q, page);
    case WarehouseChosen(wid) =>
      r := WarehouseChoosedCallback(db, chat, q, wid, up);
    case BoxTypeChosen =>
      r := BoxTypeChoosedCallback(db, chat, q);
    case Unknown =>
      chat.Perform(Plain(q.from.id, UnknownText(data)));
      r := Ok(());
  }
}
