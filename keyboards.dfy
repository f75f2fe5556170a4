/** The inline keyboards of `keyboards.rs` and the callback payloads their
    buttons carry. The store queries behind the warehouse keyboard are the
    store's own methods; the phone list behind the profile keyboard, whose
    table the schema never creates, is an input. */
module Keyboards {
  import opened Wrappers
  import opened Strings
  import opened Sorting
  import opened Telegram
  import opened Database

  // ---------------------------------------------------------------------
  // Payloads
  // ---------------------------------------------------------------------

  const MainMenuPayload := "main_menu"
  const WarehousesListPayload := "warehouses_list_callback"
  const AnotherWarehousePayload := "another_warehouse_callback"

  /** `format!("whid:{}", id)`. */
  function WarehousePayload(id: int): string {
    "whid:" + IntToString(id)
  }

  /** `format!("w_page:{}", page)`. */
  function WarehousePagePayload(page: int): string {
    "w_page:" + IntToString(page)
  }

  /** `format!("p_page:{}", page)`. */
  function PhonePagePayload(page: int): string {
    "p_page:" + IntToString(page)
  }

  /** `format!("boxtype:{} whid:{}", t, warehouse_id)`. */
  function BoxTypePayload(t: string, wid: int): string {
    "boxtype:" + t + " " + "whid:" + IntToString(wid)
  }

  /** `format!("another_box_type_callback:{}", btype)`. */
  function AnotherBoxTypePayload(btype: int): string {
    "another_box_type_callback:" + IntToString(btype)
  }

  // ---------------------------------------------------------------------
  // Fixed keyboards
  // ---------------------------------------------------------------------

  /** `main_menu`: one button, leading to the warehouse list. */
  function MainMenu(): (kb: Keyboard)
    ensures |kb| == 1 && |kb[0]| == 1 && kb[0][0].payload == WarehousesListPayload
  {
    [[Button("📍Коэффиценты складов", WarehousesListPayload)]]
  }

  /** `to_main_menu_button`: one button, back to the main menu. */
  function ToMainMenuButton(): (kb: Keyboard)
    ensures |kb| == 1 && |kb[0]| == 1 && kb[0][0].payload == MainMenuPayload
  {
    [[Button("🏠Главное меню", MainMenuPayload)]]
  }

  /** The closing row of the built keyboards (its caption has a space the
      fixed keyboards' lacks). */
  function HomeRow(): (row: seq<Button>)
    ensures |row| == 1 && row[0].payload == MainMenuPayload
  {
    [Button("🏠 Главное меню", MainMenuPayload)]
  }

  /** `create_coefficents_keyboard(btype, _page)`: another box type, another
      warehouse, main menu. */
  function CoefficientsKeyboard(btype: int, page: int): (kb: Keyboard)
    ensures |kb| == 3 && forall i | 0 <= i < 3 :: |kb[i]| == 1
    ensures kb[0][0].payload == AnotherBoxTypePayload(btype)
    ensures kb[1][0].payload == AnotherWarehousePayload
    ensures kb[2][0].payload == MainMenuPayload
  {
    [[Button("📦Выбрать другой тип поставки", AnotherBoxTypePayload(btype))],
     [Button("📍Выбрать другой склад", AnotherWarehousePayload)],
     [Button("🏠Главное меню", MainMenuPayload)]]
  }

  /** The page argument is not used. */
  lemma CoefficientsKeyboardIgnoresPage(btype: int, p: int, q: int)
    ensures CoefficientsKeyboard(btype, p) == CoefficientsKeyboard(btype, q)
  {
  }

  // ---------------------------------------------------------------------
  // Paged keyboards
  // ---------------------------------------------------------------------

  /** The navigation buttons of page `page` of `size` entries out of
      `total`, with `i32` arithmetic that wraps: back when `page > 0`,
      forward when `(page + 1) * size < total`. */
  function NavRow(pagePrefix: string, page: int, size: int, total: int): seq<Button>
    requires IsI32(page) && IsI32(size)
  {
    (if page > 0 then [Button("⬅️ Назад", pagePrefix + IntToString(page - 1))] else [])
    + (if Wrap32(Wrap32(page + 1) * size) < total
       then [Button("Вперед ➡️", pagePrefix + IntToString(Wrap32(page + 1)))] else [])
  }

  /** One single-button row per entry, then the navigation row when it is
      not empty, then the main-menu row. */
  function Paged(entries: seq<Button>, nav: seq<Button>): Keyboard {
    seq(|entries|, i requires 0 <= i < |entries| => [entries[i]]) + (if nav == [] then [] else [nav]) + [HomeRow()]
  }

  function WarehouseButton(w: Warehouse): Button {
    Button(w.name, WarehousePayload(w.id))
  }

  function PhoneButton(phone: string): Button {
    Button("+7" + phone, "phone:" + phone)
  }

  /** The warehouse keyboard of a page of warehouses. */
  function WarehouseKeyboard(ws: seq<Warehouse>, page: int, size: int, total: int): Keyboard
    requires IsI32(page) && IsI32(size)
  {
    Paged(seq(|ws|, i requires 0 <= i < |ws| => WarehouseButton(ws[i])), NavRow("w_page:", page, size, total))
  }

  /** The warehouse keyboard of page `page` of a warehouses table. */
  function WarehouseKeyboardOf(rows: seq<Row>, page: int, size: int): Keyboard
    requires IsI32(page) && IsI32(size)
  {
    WarehouseKeyboard(Window(Listing(rows), Wrap32(page * size), size), page, size, |rows|)
  }

  /** The profile keyboard of a page of phone numbers. */
  function ProfilesKeyboard(phones: seq<string>, page: int, size: int, total: int): Keyboard
    requires IsI32(page) && IsI32(size)
  {
    Paged(seq(|phones|, i requires 0 <= i < |phones| => PhoneButton(phones[i])), NavRow("p_page:", page, size, total))
  }

  /** Shape of a paged keyboard: entries in order, one row each, the
      navigation row exactly when it has a button, and the main-menu row
      last. */
  lemma PagedShape(entries: seq<Button>, nav: seq<Button>)
    ensures var kb := Paged(entries, nav);
      && |kb| == |entries| + (if nav == [] then 0 else 1) + 1
      && (forall i | 0 <= i < |entries| :: kb[i] == [entries[i]])
      && (nav != [] ==> kb[|entries|] == nav)
      && kb[|kb| - 1] == HomeRow()
  {
  }

  /** The back button is there exactly when `page > 0`, pointing one page
      back; the forward one exactly when the wrapped `(page + 1) * size` is
      below `total`, pointing one page on. */
  lemma NavRowButtons(pagePrefix: string, page: int, size: int, total: int)
    requires IsI32(page) && IsI32(size)
    ensures var nav := NavRow(pagePrefix, page, size, total);
      && var back := page > 0;
      && var forward := Wrap32(Wrap32(page + 1) * size) < total;
      && |nav| == (if back then 1 else 0) + (if forward then 1 else 0)
      && (back ==> nav[0].payload == pagePrefix + IntToString(page - 1))
      && (forward ==> nav[|nav| - 1].payload == pagePrefix + IntToString(Wrap32(page + 1)))
  {
  }

  /** Without overflow the forward button is there exactly when the next
      page of the listing is not empty. */
  lemma ForwardMeansNextPage(rows: seq<Row>, page: int, size: int)
    requires 0 <= page && 0 < size && IsI32((page + 1) * size) && IsI32(|rows|)
    ensures var nav := NavRow("w_page:", page, size, |rows|);
      (|nav| > 0 && nav[|nav| - 1].caption == "Вперед ➡️")
      <==> Window(Listing(rows), (page + 1) * size, size) != []
  {
    var next := (page + 1) * size;
    NoWrapBelow(page + 1, size);
    assert Wrap32(Wrap32(page + 1) * size) == next;
    assert |Listing(rows)| == |rows|;
  }

  /** A positive factor of an `i32` product with a positive factor is an
      `i32` too. */
  lemma NoWrapBelow(a: int, b: int)
    requires 0 < a && 0 < b && IsI32(a * b)
    ensures IsI32(a) && a <= a * b
  {
    assert a * b == a * (b - 1) + a;
    assert a * (b - 1) >= 0;
  }

  // ---------------------------------------------------------------------
  // Builders
  // ---------------------------------------------------------------------

  /** The navigation row as the builders push it. */
  method BuildNavRow(pagePrefix: string, page: int, size: int, total: int) returns (nav: seq<Button>)
    requires IsI32(page) && IsI32(size)
    ensures nav == NavRow(pagePrefix, page, size, total)
  {
    nav := [];
    if page > 0 {
      nav := nav + [Button("⬅️ Назад", pagePrefix + IntToString(page - 1))];
    }
    if Wrap32(Wrap32(page + 1) * size) < total {
      nav := nav + [Button("Вперед ➡️", pagePrefix + IntToString(Wrap32(page + 1)))];
    }
  }

  /** One row per entry, the navigation row if it is not empty, then the
      main-menu row, pushed in that order. */
  method BuildPaged(entries: seq<Button>, nav: seq<Button>) returns (kb: Keyboard)
    ensures kb == Paged(entries, nav)
  {
    kb := [];
    for i := 0 to |entries|
      invariant kb == seq(i, k requires 0 <= k < i => [entries[k]])
    {
      kb := kb + [[entries[i]]];
    }
    if nav != [] {
      kb := kb + [nav];
    }
    kb := kb + [HomeRow()];
  }

  /** `create_warehouse_keyboard(page, page_size)`: the page and the count
      come from the store. */
  method CreateWarehouseKeyboard(db: Store, page: int, size: int) returns (kb: Keyboard)
    requires IsI32(page) && IsI32(size)
    ensures kb == WarehouseKeyboardOf(db.warehouses, page, size)
  {
    var warehouses := db.GetWarehousesPage(page, size);
    var total := db.CountWarehouses();
    var entries := BuildWarehouseButtons(warehouses);
    var nav := BuildNavRow("w_page:", page, size, total);
    kb := BuildPaged(entries, nav);
    assert kb == WarehouseKeyboard(warehouses, page, size, total);
  }

  /** One button per warehouse of the page, pushed in page order. */
  method BuildWarehouseButtons(ws: seq<Warehouse>) returns (entries: seq<Button>)
    ensures entries == seq(|ws|, i requires 0 <= i < |ws| => WarehouseButton(ws[i]))
  {
    entries := [];
    for i := 0 to |ws|
      invariant entries == seq(i, k requires 0 <= k < i => WarehouseButton(ws[k]))
    {
      entries := entries + [WarehouseButton(ws[i])];
    }
  }

  /** `create_user_profiles_keyboard` over the page of phone numbers and
      their count. */
  method CreateUserProfilesKeyboard(phones: seq<string>, page: int, size: int, total: int) returns (kb: Keyboard)
    requires IsI32(page) && IsI32(size)
    ensures kb == ProfilesKeyboard(phones, page, size, total)
  {
    var entries := [];
    for i := 0 to |phones|
      invariant entries == seq(i, k requires 0 <= k < i => PhoneButton(phones[k]))
    {
      entries := entries + [PhoneButton(phones[i])];
    }
    var nav := BuildNavRow("p_page:", page, size, total);
    kb := BuildPaged(entries, nav);
  }

  /** The box-type keyboard: one row per type, then the main-menu row. */
  function BoxTypesKeyboard(types: seq<string>, wid: int): (kb: Keyboard)
    ensures |kb| == |types| + 1
    ensures forall i | 0 <= i < |types| :: kb[i] == [Button(types[i], BoxTypePayload(types[i], wid))]
    ensures kb[|types|] == HomeRow()
  {
    seq(|types|, i requires 0 <= i < |types| => [Button(types[i], BoxTypePayload(types[i], wid))]) + [HomeRow()]
  }

  /** `create_box_types_keyboard(box_types, warehouse_id)`. */
  method CreateBoxTypesKeyboard(types: seq<string>, wid: int) returns (kb: Keyboard)
    ensures kb == BoxTypesKeyboard(types, wid)
  {
    kb := [];
    for i := 0 to |types|
      invariant kb == seq(i, k requires 0 <= k < i => [Button(types[k], BoxTypePayload(types[k], wid))])
    {
      kb := kb + [[Button(types[i], BoxTypePayload(types[i], wid))]];
    }
    kb := kb + [HomeRow()];
  }
}
