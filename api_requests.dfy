/** The outcome logic of `api_reauests.rs`: what the bot makes of the
    supplier API's answers and what reaches the store. The HTTP exchange is
    an input: either no answer at all or a status with the body as serde
    reads it (`None` when it does not deserialise). */
module ApiRequests {
  import opened Wrappers
  import opened Strings
  import opened Sorting
  import opened Errors
  import opened Database

  /** One request's fate. */
  datatype Exchange<T> = Unreachable | Answered(status: int, body: Option<T>)

  /** `StatusCode::is_success`. */
  predicate IsSuccess(status: int) { 200 <= status <= 299 }

  /** `HeaderValue::from_str` accepts tab and every character whose UTF-8
      bytes are 32 or more, except DEL. */
  predicate ValidHeaderValue(s: string) {
    forall i | 0 <= i < |s| :: s[i] == '\t' || (s[i] as int >= 32 && s[i] as int != 127)
  }

  /** The `Authorization` header: `Err(InvalidHeader)` on a character the
      header cannot carry. */
  function AuthorizationHeader(apiKey: string): (r: Result<string, Error>)
    ensures r.Ok? <==> ValidHeaderValue(apiKey)
    ensures r.Ok? ==> r.value == apiKey
    ensures r.Err? ==> r.error == InvalidHeader
  {
    if ValidHeaderValue(apiKey) then Ok(apiKey) else Err(InvalidHeader)
  }

  // ---------------------------------------------------------------------
  // `check_token`
  // ---------------------------------------------------------------------

  /** The ping answer's `Status` field. */
  datatype PingResponse = PingResponse(status: string)

  /** `check_token`: true for a 2xx answer whose `Status` is "OK"; a non-2xx
      answer is a plain `false`, not an error. */
  function CheckToken(apiKey: string, ping: Exchange<PingResponse>): (r: Result<bool, Error>)
    ensures r == Ok(true) <==> ValidHeaderValue(apiKey) && ping.Answered? && IsSuccess(ping.status)
                               && ping.body == Some(PingResponse("OK"))
    ensures ValidHeaderValue(apiKey) && ping.Answered? && !IsSuccess(ping.status) ==> r == Ok(false)
    ensures r.Err? <==> !ValidHeaderValue(apiKey) || ping.Unreachable?
                        || (IsSuccess(ping.status) && ping.body.None?)
  {
    var _ :- AuthorizationHeader(apiKey);
    match ping
    case Unreachable => Err(Transport)
    case Answered(status, body) =>
      if !IsSuccess(status) then Ok(false)
      else if body.None? then Err(BadBody)
      else Ok(body.value.status == "OK")
  }

  // ---------------------------------------------------------------------
  // `fetch_warehouses`
  // ---------------------------------------------------------------------

  /** `fetch_warehouses`: a 2xx list, sorted by name, is upserted into the
      warehouses table; any failure leaves the store untouched. */
  method FetchWarehouses(db: Store, apiKey: string, answer: Exchange<seq<Warehouse>>) returns (r: Result<(), Error>)
    requires db.Valid()
    modifies db
    ensures db.Valid()
    ensures r.Ok? <==> ValidHeaderValue(apiKey) && answer.Answered? && IsSuccess(answer.status) && answer.body.Some?
    ensures r.Ok? ==> db.warehouses == PutAll(old(db.warehouses), SortBy(answer.body.value, NameLe))
    ensures r.Err? ==> db.warehouses == old(db.warehouses)
    ensures ValidHeaderValue(apiKey) && answer.Answered? && !IsSuccess(answer.status)
            ==> r == Err(WarehousesUnavailable(answer.status))
    ensures db.users == old(db.users) && db.states == old(db.states) && db.tokens == old(db.tokens)
    ensures db.coefficients == old(db.coefficients)
  {
    var header := AuthorizationHeader(apiKey);
    if header.Err? {
      return Err(InvalidHeader);
    }
    match answer
    case Unreachable =>
      return Err(Transport);
    case Answered(status, body) =>
      if !IsSuccess(status) {
        return Err(WarehousesUnavailable(status));
      }
      if body.None? {
        return Err(BadBody);
      }
      var warehouses := SortBy(body.value, NameLe);
      db.InsertWarehouses(warehouses);
      return Ok(());
  }

  /** No id is listed twice with different names. */
  predicate IdsDetermineNames(ws: seq<Warehouse>) {
    forall a, b | a in ws && b in ws && a.id == b.id :: a == b
  }

  /** When no id is listed twice with different names, sorting before the
      upsert leaves the same table as upserting the list as sent. */
  lemma SortingDoesNotChangeTable(rows: seq<Row>, ws: seq<Warehouse>)
    requires IdsIncreasing(rows) && IdsDetermineNames(ws)
    ensures PutAll(rows, SortBy(ws, NameLe)) == PutAll(rows, ws)
  {
    var sorted := SortBy(ws, NameLe);
    forall x ensures x in sorted <==> x in ws {
      assert x in sorted <==> x in multiset(sorted);
    }
    forall k ensures Lookup(PutAll(rows, sorted), k) == Lookup(PutAll(rows, ws), k) {
      LookupPutAll(rows, ws, k);
      LookupPutAll(rows, sorted, k);
      SameLastName(ws, sorted, k);
    }
    LookupPutAll(rows, ws, 0);
    LookupPutAll(rows, sorted, 0);
    SameLookupSameRows(PutAll(rows, sorted), PutAll(rows, ws));
  }

  lemma SameLastName(ws: seq<Warehouse>, other: seq<Warehouse>, k: int)
    requires IdsDetermineNames(ws)
    requires forall x :: x in other <==> x in ws
    ensures LastName(other, k) == LastName(ws, k)
  {
    var a, b := LastName(ws, k), LastName(other, k);
    if a.Some? && b.Some? {
      assert Warehouse(k, a.value) in ws && Warehouse(k, b.value) in ws;
    }
  }

  // ---------------------------------------------------------------------
  // `fetch_and_store_coefficients`
  // ---------------------------------------------------------------------

  /** The `warehouseIDs` query parameter: the decimal ids joined with ",";
      no list, no parameter. */
  function WarehouseIdsQuery(ids: Option<seq<nat>>): (q: Option<string>)
    ensures q.Some? <==> ids.Some?
  {
    match ids
    case None => None
    case Some(list) => Some(Join(seq(|list|, i requires 0 <= i < |list| => NatToString(list[i])), ','))
  }

  /** The parameter lists every id, in order, and reads back field by
      field. */
  lemma WarehouseIdsQueryReadsBack(ids: seq<nat>)
    requires ids != []
    ensures var fields := Split(WarehouseIdsQuery(Some(ids)).value, ',');
      && |fields| == |ids|
      && forall i | 0 <= i < |ids| :: AllDigits(fields[i]) && DigitsValue(fields[i]) == ids[i]
  {
    var parts := seq(|ids|, i requires 0 <= i < |ids| => NatToString(ids[i]));
    assert forall i | 0 <= i < |parts| :: ',' !in parts[i];
    SplitOfJoin(parts, ',');
  }

  /** The outcome `fetch_and_store_coefficients` reports for an answer:
      a refused header or an unreachable API fails, a non-2xx status is
      ignored, and a 2xx answer must carry an array. */
  function CoefficientsOutcome(apiKey: string, answer: Exchange<Option<seq<Coefficient>>>): Result<(), Error> {
    if !ValidHeaderValue(apiKey) then Err(InvalidHeader)
    else if answer.Unreachable? then Err(Transport)
    else if !IsSuccess(answer.status) then Ok(())
    else if answer.body.None? then Err(BadBody)
    else if answer.body.value.None? then Err(NoCoefficients)
    else Ok(())
  }

  /** `fetch_and_store_coefficients`: a 2xx array is upserted record by
      record, a 2xx `null` is an error that stores nothing, and a non-2xx
      answer is a silent success that stores nothing. `query` is the
      parameter the request carries. */
  method FetchAndStoreCoefficients(db: Store, apiKey: string, ids: Option<seq<nat>>,
                                   answer: Exchange<Option<seq<Coefficient>>>)
    returns (r: Result<(), Error>, query: Option<string>)
    requires db.Valid()
    modifies db
    ensures db.Valid()
    ensures query == WarehouseIdsQuery(ids)
    ensures r == CoefficientsOutcome(apiKey, answer)
    ensures ValidHeaderValue(apiKey) && answer.Answered? && IsSuccess(answer.status) && answer.body.Some?
            && answer.body.value.Some?
            ==> r.Ok? && db.coefficients == UpsertAll(old(db.coefficients), answer.body.value.value)
    ensures ValidHeaderValue(apiKey) && answer.Answered? && IsSuccess(answer.status) && answer.body == Some(None)
            ==> r == Err(NoCoefficients)
    ensures ValidHeaderValue(apiKey) && answer.Answered? && !IsSuccess(answer.status) ==> r == Ok(())
    ensures r.Err? <==> !ValidHeaderValue(apiKey) || answer.Unreachable?
                        || (IsSuccess(answer.status) && (answer.body.None? || answer.body.value.None?))
    ensures !(ValidHeaderValue(apiKey) && answer.Answered? && IsSuccess(answer.status) && answer.body.Some?
              && answer.body.value.Some?)
            ==> db.coefficients == old(db.coefficients)
    ensures db.users == old(db.users) && db.states == old(db.states) && db.tokens == old(db.tokens)
    ensures db.warehouses == old(db.warehouses)
  {
    query := WarehouseIdsQuery(ids);
    var header := AuthorizationHeader(apiKey);
    if header.Err? {
      return Err(InvalidHeader), query;
    }
    match answer
    case Unreachable =>
      return Err(Transport), query;
    case Answered(status, body) =>
      if IsSuccess(status) {
        if body.None? {
          return Err(BadBody), query;
        }
        match body.value
        case None =>
          return Err(NoCoefficients), query;
        case Some(records) =>
          db.AddOrUpdateCoefficients(records);
      }
      return Ok(()), query;
  }
}
