# WbWarehouseCoefficients in Dafny

A model of the Telegram bot that shows a marketplace seller the acceptance
coefficients of the supplier warehouses. A user gives the bot a supplier
API token. The bot stores the token and the user's dialogue state in an
SQLite file and caches the warehouse list and the coefficients it fetches.
The user then pages through the warehouses, picks a warehouse and a box
type, and receives a text report of the upcoming slots, cheapest first.

The model has one module per source file plus some library modules:

- `Database` (`src/database.rs`): the store. It is a class `Store` with
  one field per table:
  - `users` and `warehouses`: rows in rowid order, that is by id.
  - `states` and `tokens`: maps from user id to the stored value.
  - `coefficients`: rows in scan order, unique on `(date, warehouse, box
    type)`.
  Every Rust function is a method whose postcondition gives the new table,
  or the answer, in terms of specification functions. Lemmas prove what the
  upserts, the pagination, the `DISTINCT … COLLATE NOCASE` query and the
  report builder promise.
- `CallbackHandlers` (`src/callback_handlers.rs`): the button handlers and
  the `boxtype:T whid:N` parser. The handlers are methods on the `Store`
  and on a `Chat`, which records every platform request (send, edit,
  delete, answer) in order.
- `BotCallbacks` (`src/bot_callbacks.rs`): the payload classifier and the
  dispatcher.
- `CommandsHandlers` (`src/commands_handlers.rs`): `/start`, the
  administrator's broadcast, and the token typed by a user asked for one.
- `Keyboards` (`src/keyboards.rs`): the inline keyboards and the payload
  printers.
- `TokenDecoder` (`src/token_decoder.rs`): the three-segment token check,
  the `exp` comparison, the expiry string and the scope bit test.
- `ApiRequests` (`src/api_reauests.rs`): what the ping, warehouse and
  coefficient requests do with the HTTP answer. The answer is an input:
  the request is unreachable, or it has a status and a body, which is
  `None` when it does not deserialise.
- Library modules:
  - `CivilTime`: chrono's UTC calendar and the `%d.%m.%Y %H:%M:%S` layout.
  - `Strings`: Rust's integer parsing and printing, `split`,
    `split_whitespace`, `trim` and `trim_start_matches`.
  - `Sorting`: a stable sort, for `sort_by` and `ORDER BY`.
  - `Errors`: the causes of failure.
  - `Telegram`: the platform's data and the `Chat` log.
  - `Wrappers`: `Option` and `Result`.

The clock is a parameter (`now`).

The base64, UTF-8 and JSON steps of the token decoder are one function
parameter, `decoder`. It maps the middle segment to its optional `exp` and
`s` claims.

Integers are unbounded:
- The `i32` products and sums of the pagination wrap explicitly (`Wrap32`),
  as a release build does.
- The `u32` conversion of a negative warehouse id is an error.
- The model assumes the year range of recent chrono 0.4 releases,
  −262143..262142. Earlier releases allow −262144..262143, and the source
  does not pin a version. A date outside the range is an error for
  `timestamp_opt`, and adding three hours past its end is a panic.

Three behaviours of the code that a reader may not expect, kept as written:
- A failed send in `/msg_to_all` ends the broadcast through `?`. It is not
  skipped.
- `is_token_expired` is true while the token is still valid.
  `warehouses_list_callback` uses it in that sense. `text_msg_handler`
  replies "просрочен" while `exp > now` and "невалиден" once `exp` has
  passed, and the model keeps both as written.
- No modelled operation ever writes the state `TokenEntered`, so
  `token_lifetime_callback` answers "Токен не был введен" in every store the
  other operations can produce.

## Model

| member | source | states |
|---|---|---|
| Database.FromI8 | src/database.rs:21-29 | total: codes 1–5 decode to their own state, every other value to `Idle` |
| Database.FromI8OfCode | src/database.rs:21-29 | the code stored for any of the six states decodes back to that state, so the error arm of `get_user_state` is unreachable |
| Database.ReadAfterWrite | src/database.rs:117-185 | after writing a state or token for `id`, reading `id` gives the written value and every other user reads as before |
| Database.Lookup | src/database.rs:297-298 | a lookup finds a row exactly when one with that id exists, and then returns that row's value |
| Database.LookupPut | src/database.rs:81-84 | after an insert, a lookup of the inserted id gives the new value unless the insert ignores conflicts and the id was present; other ids are unchanged |
| Database.PutKeepsOrder | src/database.rs:81-84 | inserting keeps the rows strictly increasing by id, so ids stay unique |
| Database.SameLookupSameRows | src/database.rs:187-200 | two id-ordered tables with the same lookups are identical |
| Database.LookupPutAll | src/database.rs:191-197 | after the upserts each id listed has the name of its last occurrence in the list, every other id keeps its row, and ids stay unique |
| Database.PutAllIdempotent | src/database.rs:191-197 | upserting the same list twice leaves the table of the first time |
| Database.NameLeTotalPreorder | src/database.rs:208 | byte-wise comparison of names is a total preorder, so the listing can be sorted by it |
| Database.ListingSorted | src/database.rs:208 | the name listing is sorted by name |
| Database.WindowPositions | src/database.rs:202-226 | for a non-negative page, entry `k` of page `p` is entry `p*s + k` of the listing, for exactly the positions inside the listing |
| Database.WindowAfterPrefix | src/database.rs:205-208 | the listing before an offset followed by the page at that offset is the listing up to the page's end |
| Database.PagesPartition | src/database.rs:202-226 | the first `n` pages, one after the other, are the listing's first `n*s` entries |
| Database.UpsertKeepsKeysUnique | src/database.rs:258-270 | a coefficient upsert keeps `(date, warehouse, box type)` unique |
| Database.UpsertNewKey | src/database.rs:260-262 | a record with a new key is appended |
| Database.UpsertExistingKey | src/database.rs:263-264 | a record with a stored key changes only that row's coefficient; its warehouse name and box type id stay |
| Database.UpsertAllKeepsKeysUnique | src/database.rs:254-273 | the whole batch keeps the key unique |
| Database.UpsertSameSlotTwice | src/database.rs:263-264 | for any table with unique keys and any two records of one slot: an unseen slot gets one appended row with the first record's names and the second record's coefficient; a stored slot keeps its row, with only the coefficient set to the second record's |
| Database.Unexpired | src/database.rs:246-249 | after the deletion every row has `date >= now`, and every row with `date >= now` is kept |
| Database.UnexpiredKeepsKeysUnique | src/database.rs:239-252 | the deletion keeps the key unique |
| Database.BoxTypesOf | src/database.rs:279 | the names listed are exactly the box types stored for the warehouse |
| Database.Distinct | src/database.rs:279 | `DISTINCT` lists every name of its input exactly once and no other |
| Database.NoCaseLeTotalPreorder | src/database.rs:279 | comparison with ASCII letters folded is a total preorder |
| Database.UniqueBoxTypesListsEachOnce | src/database.rs:275-291 | each box type stored for the warehouse appears exactly once, nothing else appears, in case-insensitive order |
| Database.Matching | src/database.rs:300-302 | the rows selected are exactly those of the warehouse and box type whose coefficient is not -1 |
| Database.ReportRowsSorted | src/database.rs:300-304 | the report rows are the matching rows in non-decreasing coefficient order, as a permutation |
| Database.ReportTextShape | src/database.rs:305-327 | the report starts with the header and ends with "⛔️Нет доступных поставок" exactly when no row matched |
| Database.ReportOutcome | src/database.rs:293-329 | the report fails with no warehouse row; otherwise it succeeds exactly when chrono can print every listed date, and is then the header, the rows and the notice |
| Database.RenderReport | src/database.rs:305-328 | the `while` loop with its `found` flag builds the report text of the listed rows, or stops at the first date chrono cannot print |
| Database.Store.AddUser | src/database.rs:75-86 | `INSERT OR IGNORE`: a new id gets the username, a known id keeps its stored one; other tables unchanged |
| Database.Store.UserIds | src/database.rs:95-107 | the stored ids in rowid order, each once, exactly the users present |
| Database.Store.SetUserState | src/database.rs:117-128 | `INSERT OR REPLACE`: the user's state code becomes the new one; nothing else changes |
| Database.Store.GetUserState | src/database.rs:137-153 | the stored state, `Idle` without a row |
| Database.Store.SetUserToken | src/database.rs:155-166 | `INSERT OR REPLACE`: the user's token becomes the new one; nothing else changes |
| Database.Store.GetUserToken | src/database.rs:168-185 | the stored token, the empty string without a row |
| Database.Store.InsertWarehouses | src/database.rs:187-200 | the table after upserting every warehouse in list order; other tables unchanged |
| Database.Store.GetWarehousesPage | src/database.rs:202-226 | at most `size` warehouses, positions `[page*size, page*size+size)` of the name listing, sorted by name |
| Database.Store.CountWarehouses | src/database.rs:228-237 | the number of warehouse rows |
| Database.Store.DeleteExpiredRecords | src/database.rs:239-252 | no row with `date < now` remains and every other row is kept |
| Database.Store.AddOrUpdateCoefficients | src/database.rs:254-273 | the coefficients after upserting the records in order; the key stays unique |
| Database.Store.GetUniqueBoxTypes | src/database.rs:275-291 | each stored box type of the warehouse once, in case-insensitive order |
| Database.Store.GetWarehouseData | src/database.rs:293-329 | the report of the warehouse and box type, or the missing-warehouse error |
| CivilTime.FromTimestamp | src/token_decoder.rs:58-61 | the UTC date and time of an instant is a valid date and time whose timestamp is that instant |
| CivilTime.FromTimestampOfTimestamp | src/token_decoder.rs:58-61 | every valid date and time is the date of its own timestamp |
| CivilTime.YearOf | src/token_decoder.rs:58-61 | the year of a day number is the one whose first day is at or before it and whose next year's first day is after it |
| CivilTime.RepresentableMeansYearInRange | src/token_decoder.rs:58-61 | chrono accepts a timestamp exactly when its year is within chrono's range |
| CivilTime.Pad4 | src/token_decoder.rs:65 | a year below 10000 prints as four digits with that value |
| CivilTime.ParseLayoutOfFormat | src/token_decoder.rs:65 | the `%d.%m.%Y %H:%M:%S` text of a date with a four-digit year reads back as that date |
| CivilTime.MoscowStringMeansInstant | src/database.rs:316-318 | the printed Moscow time reads back as the date exactly three hours after the instant |
| TokenDecoder.MaskValue | src/token_decoder.rs:8-22 | every scope's raw value is between 1 and 31 |
| TokenDecoder.MaskValueInjective | src/token_decoder.rs:8-22 | no two scopes share a value |
| TokenDecoder.DecodePayload | src/token_decoder.rs:25-39 | a token that does not split on '.' into exactly three parts is malformed; otherwise the result is the decoding of the middle part |
| TokenDecoder.DecodeNeedsTwoDots | src/token_decoder.rs:27-30 | the segment check passes exactly when the token has two dots |
| TokenDecoder.OnlyPayloadDecoded | src/token_decoder.rs:32-33 | for any header and signature the outcome depends only on the middle segment |
| TokenDecoder.ExtractExp | src/token_decoder.rs:42-46 | `exp` exactly when the payload decodes and carries it; a decoded payload without it is a missing-claim error |
| TokenDecoder.ExtractS | src/token_decoder.rs:71-75 | `s` exactly when the payload decodes and carries it; a decoded payload without it is a missing-claim error |
| TokenDecoder.IsTokenExpired | src/token_decoder.rs:49-53 | exactly `exp > now`, or the error of reading `exp` |
| TokenDecoder.LifetimeStr | src/token_decoder.rs:56-68 | the Moscow date and time of `exp` when chrono can hold `exp` and `exp + 3h`; a bad timestamp error when it cannot hold `exp` |
| TokenDecoder.BitAndNonZero | src/token_decoder.rs:79 | the bitwise AND with a value below `2^k` is non-zero exactly when the two share one of the low `k` bits |
| TokenDecoder.IsTokenPropertySet | src/token_decoder.rs:77-80 | defined exactly when `s` is read, and fails with the error of reading it |
| TokenDecoder.PropertySetMeansSharedBit | src/token_decoder.rs:77-80 | the property is set exactly when `s` shares a bit with the scope's raw value, not with `1 << value` |
| TokenDecoder.StatisticsTestsBitsZeroAndTwo | src/token_decoder.rs:13 | the Statistics scope (5) tests bits 0 and 2 |
| ApiRequests.AuthorizationHeader | src/api_reauests.rs:39-41 | the header is the token exactly when every character is a tab or visible, otherwise an invalid-header error |
| ApiRequests.CheckToken | src/api_reauests.rs:36-56 | true exactly for a 2xx answer with `Status == "OK"`; a non-2xx answer is `false`, not an error |
| ApiRequests.FetchWarehouses | src/api_reauests.rs:58-88 | a 2xx list is sorted by name and upserted; a non-2xx answer or any failure leaves the store untouched |
| ApiRequests.SortingDoesNotChangeTable | src/api_reauests.rs:77-79 | when no id is listed with two names, sorting before the upsert changes nothing |
| ApiRequests.WarehouseIdsQuery | src/api_reauests.rs:100-104 | the parameter is present exactly when ids are given |
| ApiRequests.WarehouseIdsQueryReadsBack | src/api_reauests.rs:101-104 | splitting the parameter on ',' gives one decimal field per id, in order, with that id's value |
| ApiRequests.FetchAndStoreCoefficients | src/api_reauests.rs:90-124 | a 2xx array is upserted; a 2xx `null` fails and stores nothing; a non-2xx status is `Ok` and stores nothing |
| Keyboards.MainMenu | src/keyboards.rs:7-14 | one button, whose payload is `warehouses_list_callback` |
| Keyboards.ToMainMenuButton | src/keyboards.rs:16-21 | one button, whose payload is `main_menu` |
| Keyboards.CoefficientsKeyboard | src/keyboards.rs:82-97 | three single-button rows: the box types of `btype`, another warehouse, the main menu |
| Keyboards.CoefficientsKeyboardIgnoresPage | src/keyboards.rs:82 | the second argument does not change the keyboard |
| Keyboards.NavRowButtons | src/keyboards.rs:37-49 | a back button to `page-1` exactly when `page > 0`, then a forward button to `page+1` exactly when `(page+1)*size < total` in `i32` arithmetic |
| Keyboards.ForwardMeansNextPage | src/keyboards.rs:44-49 | without overflow, the forward button appears exactly when the next page of the listing is not empty |
| Keyboards.PagedShape | src/keyboards.rs:51-58 | one row per entry in order, the navigation row only when it is not empty, and the main-menu row last |
| Keyboards.BuildNavRow | src/keyboards.rs:37-49 | the navigation row the pushes build |
| Keyboards.BuildPaged | src/keyboards.rs:26-58 | the keyboard the row pushes build |
| Keyboards.CreateWarehouseKeyboard | src/keyboards.rs:23-61 | the keyboard of page `page` of the name listing, `whid:{id}` per warehouse, with the stored count as total |
| Keyboards.BuildWarehouseButtons | src/keyboards.rs:28-34 | one `whid:{id}` button per warehouse of the page, in page order |
| Keyboards.CreateUserProfilesKeyboard | src/keyboards.rs:99-143 | `+7{p}` / `phone:{p}` per phone under the same navigation rule with `p_page:` |
| Keyboards.BoxTypesKeyboard | src/keyboards.rs:63-80 | one row per box type with payload `boxtype:{t} whid:{w}`, then the main-menu row |
| Keyboards.CreateBoxTypesKeyboard | src/keyboards.rs:63-80 | the box-type keyboard the row pushes build |
| CallbackHandlers.Canonical | src/callback_handlers.rs:219-222 | "QR-поставка" becomes "QR-поставка с коробами", every other value is unchanged |
| CallbackHandlers.ParseCallbackBoxtypeText | src/callback_handlers.rs:211-233 | the `for` loop computes the parse of the text |
| CallbackHandlers.ScanKeepsLast | src/callback_handlers.rs:215-226 | the last `boxtype:` word gives the box type with every leading `boxtype:` stripped; the last `whid:` word gives the id, 0 when it is not an `i32` or absent |
| CallbackHandlers.ParseBoxTypeNone | src/callback_handlers.rs:228-232 | no result exactly when there is no `boxtype:` word or the last one has an empty value |
| CallbackHandlers.ParseBoxTypeOfPayload | src/callback_handlers.rs:211-233 | the payload printed for a box type of whitespace-free words and an `i32` id parses back to its first word, canonicalised, and the id |
| CallbackHandlers.OneWordTypeRoundTrip | src/callback_handlers.rs:211-233 | a one-word box type without a leading `boxtype:` and any `i32` id round-trip, up to the QR canonicalisation |
| CallbackHandlers.QrTypeRoundTrip | src/callback_handlers.rs:219-222 | "QR-поставка с коробами" round-trips although its payload splits into three words |
| CallbackHandlers.MainMenuCallback | src/callback_handlers.rs:9-24 | the main menu is sent and the user's state becomes `Idle`; nothing else in the store changes; without a message the internal-error reply and an error |
| CallbackHandlers.TokenLifetimeCallback | src/callback_handlers.rs:26-49 | never changes the store; with state `TokenEntered` the message is deleted and the lifetime and the menu are sent, otherwise "Токен не был введен" |
| CallbackHandlers.ShowWarehouseList | src/callback_handlers.rs:66-73 | the warehouses are refreshed and the message becomes page 0, or the fetch error with nothing sent and the store unchanged |
| CallbackHandlers.AskForNewToken | src/callback_handlers.rs:74-82 | the state becomes `AwaitingToken`, then the expiry is reported, or the lifetime error |
| CallbackHandlers.WarehousesListCallback | src/callback_handlers.rs:51-99 | empty token: `AwaitingToken` and a request for one; `exp > now`: state unchanged, success exactly when the header is valid and the API answers a 2xx list, which is then upserted and page 0 shown, while a failure leaves warehouses and chat untouched; otherwise `AwaitingToken`, then the expiry reply, or the lifetime error with nothing sent |
| CallbackHandlers.WarehousesPageCallback | src/callback_handlers.rs:101-116 | the message's keyboard becomes page `page` of the warehouses |
| CallbackHandlers.PhonePageCallback | src/callback_handlers.rs:118-133 | with a message the profile query panics before any request |
| CallbackHandlers.WarehouseChoosedCallback | src/callback_handlers.rs:135-182 | on fetch success the coefficient table becomes the upsert of a 2xx array (unchanged for any other successful answer) and the stored box types of the warehouse are shown; on failure the "WB не предоставил…" text with page 0 and the error; a negative id fails before any request |
| CallbackHandlers.BoxTypeChoosedCallback | src/callback_handlers.rs:184-209 | an unparsable payload gets the internal-error reply; otherwise the message is replaced by the report with the coefficients keyboard, or the report's error |
| CallbackHandlers.AnotherWarehouseCallback | src/callback_handlers.rs:235-250 | the given text with warehouse page 0 |
| CallbackHandlers.AnotherBoxTypeCallback | src/callback_handlers.rs:252-272 | "Выберите тип поставки" with the stored box types of the warehouse |
| BotCallbacks.Classify | src/bot_callbacks.rs:9-43 | the four exact payloads are recognised before any prefix; each prefix selects its handler; page and id suffixes that are not `i32` give 0 |
| BotCallbacks.WarehousePayloadRoundTrip | src/bot_callbacks.rs:34-37 | `whid:N` selects warehouse N for every `i32` N |
| BotCallbacks.WarehousePagePayloadRoundTrip | src/bot_callbacks.rs:26-29 | `w_page:N` selects warehouse page N |
| BotCallbacks.PhonePagePayloadRoundTrip | src/bot_callbacks.rs:30-33 | `p_page:N` selects profile page N |
| BotCallbacks.AnotherBoxTypePayloadRoundTrip | src/bot_callbacks.rs:22-25 | `another_box_type_callback:N` selects the box types of warehouse N |
| BotCallbacks.BoxTypePayloadRoundTrip | src/bot_callbacks.rs:38-40 | every `boxtype:T whid:N` payload goes to the box-type handler |
| BotCallbacks.UnparsablePageIsZero | src/bot_callbacks.rs:26-33 | a page suffix that is not an `i32` gives page 0 |
| BotCallbacks.CallbackHandler | src/bot_callbacks.rs:5-47 | without data nothing happens; otherwise the query is acknowledged before anything else; an unknown payload gets "Неизвестный callback: …"; an unparsable box-type id panics; only three handlers touch the store |
| CommandsHandlers.GetUsernameFromMsg | src/commands_handlers.rs:78-85 | the sender's username, "no_username" when there is no sender or no username |
| CommandsHandlers.AdminHasThatUsername | src/commands_handlers.rs:28-32 | only a sender with the administrator's username passes the check |
| CommandsHandlers.StartCommandHandler | src/commands_handlers.rs:14-25 | the user is inserted keeping a stored username, the state becomes `Idle`, the token is untouched, and the welcome is sent |
| CommandsHandlers.BroadcastReachesOthers | src/commands_handlers.rs:33-38 | when nobody refuses, every stored id but the sender's gets the text once, in stored order |
| CommandsHandlers.BroadcastStopsAtRefusal | src/commands_handlers.rs:33-38 | the broadcast fails exactly when a recipient refuses, names a refusing recipient, and has delivered a prefix of the full broadcast |
| CommandsHandlers.MsgToAllCommandHandler | src/commands_handlers.rs:27-45 | a non-administrator gets only "Недостатоно прав."; for the administrator the loop delivers the broadcast, then "Отправлено всем.", or stops at the first refusal |
| CommandsHandlers.AcceptToken | src/commands_handlers.rs:53-59 | state `Idle`, token stored, warehouses fetched, page 0 shown, in that order |
| CommandsHandlers.TextMsgHandler | src/commands_handlers.rs:47-69 | no effect unless the state is `AwaitingToken`; an accepted token is stored with state Idle, then the result is Ok exactly when the warehouse fetch succeeds, which upserts the list and sends page 0, while a failed fetch leaves warehouses and chat untouched; a refused one leaves the store unchanged and the reply follows `exp > now` |
| Strings.ParseI32OfIntToString | src/bot_callbacks.rs:27 | an `i32` printed in decimal parses back to itself |
| Strings.TrimStartMatchesRepeated | src/callback_handlers.rs:219 | `trim_start_matches` removes every leading copy of the pattern |
| Strings.SplitWhitespaceOfJoin | src/callback_handlers.rs:212 | words without whitespace joined by spaces split back into the same words |
| Strings.SplitOfJoin | src/api_reauests.rs:102 | fields without the separator joined by it split back into the same fields |
| Strings.SplitCount | src/token_decoder.rs:27 | `split` gives one more part than there are separators |
| Sorting.SortBySorted | src/api_reauests.rs:78 | the stable sort's result is ordered and a permutation of its input |

## Left out

- `src/main.rs` and `src/bot_commands.rs`: the runtime, the dispatcher
  wiring, the hourly sweep timer and command recognition. The sweep's only
  effect is `delete_expired_records`, which is modelled. `help_command_handler`
  and `bot_started_msg` only send fixed text.
- rusqlite failures: every query succeeds, except the missing warehouse
  row in `get_warehouse_data`. So the error arm of `warehouses_list_callback`
  (src/callback_handlers.rs:85-92) and the logged errors of
  `get_unique_box_types` in the handlers are not modelled.
- The date parse in `add_or_update_warehouse_coefficents`: the date is an
  integer in the record. A string that does not parse makes the source
  panic, and the model does not cover that.
- Platform failures: every request to the chat platform succeeds, except
  the recipient sends of the broadcast.
- Base64, UTF-8 and JSON: the `decoder` parameter stands for all three.
  HTTP transport and serde are the `Exchange` answer.
- The profile pages: the query reads `chrome_profiles`, which is never
  created, so `phone_page_callback` panics. `CreateUserProfilesKeyboard`
  takes the phones and the total as inputs.
- Warehouse ids above `i32::MAX`: the store keeps them, but their `whid:`
  payload does not parse as an `i32`. The round-trip lemmas assume `i32`
  ids.
- `GetWarehousesPage` and `NavRow`: model `i32` wrap-around as a release
  build does. A debug build panics instead, and that panic is not modelled.
- Tie order: SQLite does not promise an order among equal names or equal
  coefficients. The model fixes it as the scan order, the order of a stable
  sort.
- `FetchWarehouses`: models the in-place `sort_by` as the sorted value
  `SortBy(list)`, not as an update of a vector in place.
- BotCallbacks.CallbackHandler: its contract states the acknowledgement,
  the unknown-payload reply, the panic of an unparsable box-type id, and
  which arms may change the store. It does not repeat each handler's own
  contract for the other arms.
- `count_warehouses` reads an SQLite `COUNT(*)` as an `i32`. A count beyond
  `i32` is not modelled.
