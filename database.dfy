/** The bot's SQLite store: five tables and the statements the bot runs on
    them. A table whose key is an `INTEGER PRIMARY KEY` is a rowid table, so
    a scan returns its rows in ascending key order; `users` and
    `warehouses` are kept as sequences in that order. `user_states` and
    `user_tokens` are only ever read by key, so they are maps.
    `warehouses_coefficients` has an AUTOINCREMENT key that only grows, so
    its scan order is insertion order. */
module Database {
  import opened Wrappers
  import opened Strings
  import opened Sorting
  import opened CivilTime
  import opened Errors

  // ---------------------------------------------------------------------
  // Dialogue states
  // ---------------------------------------------------------------------

  datatype State = Idle | AwaitingToken | TokenEntered | AwaitingNumber | AwaitingCaptcha | AwaitingSmsCode

  /** `state as i8`, the value stored in `user_states`. */
  function Code(s: State): (c: int)
    ensures 0 <= c <= 5
    ensures c == 0 <==> s == Idle
  {
    match s
    case Idle => 0
    case AwaitingToken => 1
    case TokenEntered => 2
    case AwaitingNumber => 3
    case AwaitingCaptcha => 4
    case AwaitingSmsCode => 5
  }

  /** `State::from_i8`: 1 to 5 name their states and every other value,
      0 included, is `Idle`; it never returns `None`. */
  function FromI8(v: int): (r: Option<State>)
    ensures r.Some?
    ensures 1 <= v <= 5 ==> Code(r.value) == v
    ensures !(1 <= v <= 5) ==> r.value == Idle
  {
    if v == 1 then Some(AwaitingToken)
    else if v == 2 then Some(TokenEntered)
    else if v == 3 then Some(AwaitingNumber)
    else if v == 4 then Some(AwaitingCaptcha)
    else if v == 5 then Some(AwaitingSmsCode)
    else Some(Idle)
  }

  /** Every state survives being stored and read back. */
  lemma FromI8OfCode(s: State)
    ensures FromI8(Code(s)) == Some(s)
  {
  }

  /** `get_user_state`: the stored state, or `Idle` when the user has no
      row. */
  function ReadState(states: map<int, int>, id: int): State {
    if id in states then FromI8(states[id]).value else Idle
  }

  /** `get_user_token`: the stored token, or the empty string when the user
      has no row. */
  function ReadToken(tokens: map<int, string>, id: int): string {
    if id in tokens then tokens[id] else ""
  }

  /** The last write of a state or a token is the one read back, and no
      other user's entry changes. */
  lemma ReadAfterWrite(states: map<int, int>, tokens: map<int, string>, id: int, s: State, token: string)
    ensures ReadState(states[id := Code(s)], id) == s
    ensures ReadToken(tokens[id := token], id) == token
    ensures forall other | other != id ::
      ReadState(states[id := Code(s)], other) == ReadState(states, other)
      && ReadToken(tokens[id := token], other) == ReadToken(tokens, other)
  {
    FromI8OfCode(s);
  }

  // ---------------------------------------------------------------------
  // Rowid tables: `users (id, username)` and `warehouses (id, name)`
  // ---------------------------------------------------------------------

  datatype Row = Row(id: int, value: string)

  predicate IdsIncreasing(rows: seq<Row>) {
    forall i, j | 0 <= i < j < |rows| :: rows[i].id < rows[j].id
  }

  /** `SELECT value FROM t WHERE id = ?`. */
  function Lookup(rows: seq<Row>, id: int): (r: Option<string>)
    ensures r.Some? <==> exists i | 0 <= i < |rows| :: rows[i].id == id
    ensures r.Some? ==> Row(id, r.value) in rows
  {
    if rows == [] then None
    else if rows[0].id == id then Some(rows[0].value)
    else
      var r := Lookup(rows[1..], id);
      assert forall i | 1 <= i < |rows| :: rows[i] == rows[1..][i - 1];
      r
  }

  lemma LookupBelowFirst(rows: seq<Row>, id: int)
    requires IdsIncreasing(rows) && rows != [] && id <= rows[0].id
    ensures Lookup(rows[1..], id) == None
  {
  }

  /** `INSERT` of `(id, value)` on conflict with an existing id: `replace`
      overwrites the value (`INSERT OR REPLACE`, `ON CONFLICT(id) DO
      UPDATE`), otherwise the old row stays (`INSERT OR IGNORE`). */
  function Put(rows: seq<Row>, id: int, value: string, replace: bool): (r: seq<Row>)
    ensures forall x | x in r :: x in rows || x == Row(id, value)
  {
    if rows == [] then [Row(id, value)]
    else if id < rows[0].id then [Row(id, value)] + rows
    else if id == rows[0].id then (if replace then [Row(id, value)] + rows[1..] else rows)
    else [rows[0]] + Put(rows[1..], id, value, replace)
  }

  /** The table stays in key order, so ids stay unique. */
  lemma {:induction false} PutKeepsOrder(rows: seq<Row>, id: int, value: string, replace: bool)
    requires IdsIncreasing(rows)
    ensures IdsIncreasing(Put(rows, id, value, replace))
  {
    if rows != [] && id > rows[0].id {
      PutKeepsOrder(rows[1..], id, value, replace);
      var tail := Put(rows[1..], id, value, replace);
      forall k | 0 <= k < |tail| ensures rows[0].id < tail[k].id {
        assert tail[k] in tail;
      }
    }
  }

  /** After the insert the key holds the new value, unless the insert is an
      IGNORE and the key was taken; every other key keeps its value. */
  lemma {:induction false} LookupPut(rows: seq<Row>, id: int, value: string, replace: bool, k: int)
    requires IdsIncreasing(rows)
    ensures Lookup(Put(rows, id, value, replace), k)
         == if k == id && (replace || Lookup(rows, id).None?) then Some(value) else Lookup(rows, k)
  {
    if rows == [] {
    } else if id < rows[0].id {
      if k == id { LookupBelowFirst(rows, id); }
    } else if id == rows[0].id {
      if replace && k != id {
        assert Lookup(rows, k) == Lookup(rows[1..], k);
      }
    } else {
      LookupPut(rows[1..], id, value, replace, k);
    }
  }

  /** Tables with the same contents are both empty or both not. */
  lemma SameLookupSameEmptiness(a: seq<Row>, b: seq<Row>)
    requires forall k :: Lookup(a, k) == Lookup(b, k)
    ensures a == [] <==> b == []
  {
    if a != [] { assert Lookup(b, a[0].id).Some?; }
    if b != [] { assert Lookup(a, b[0].id).Some?; }
  }

  /** Key-ordered tables with the same contents start with the same key. */
  lemma SameLookupSameFirst(a: seq<Row>, b: seq<Row>)
    requires IdsIncreasing(a) && IdsIncreasing(b) && a != [] && b != []
    requires forall k :: Lookup(a, k) == Lookup(b, k)
    ensures a[0] == b[0]
  {
    assert Lookup(b, a[0].id).Some?;
    assert Lookup(a, b[0].id).Some?;
    assert a[0].id == b[0].id;
    assert Lookup(a, a[0].id) == Lookup(b, a[0].id);
  }

  /** Two key-ordered tables with the same contents are the same table. */
  lemma {:induction false} SameLookupSameRows(a: seq<Row>, b: seq<Row>)
    requires IdsIncreasing(a) && IdsIncreasing(b)
    requires forall k :: Lookup(a, k) == Lookup(b, k)
    ensures a == b
  {
    SameLookupSameEmptiness(a, b);
    if a != [] {
      SameLookupSameFirst(a, b);
      SameLookupSameTails(a, b);
      SameLookupSameRows(a[1..], b[1..]);
      assert a == [a[0]] + a[1..] && b == [b[0]] + b[1..];
    }
  }

  /** Key-ordered tables with the same contents and the same first row have
      tails with the same contents. */
  lemma SameLookupSameTails(a: seq<Row>, b: seq<Row>)
    requires IdsIncreasing(a) && IdsIncreasing(b) && a != [] && b != [] && a[0] == b[0]
    requires forall k :: Lookup(a, k) == Lookup(b, k)
    ensures forall k :: Lookup(a[1..], k) == Lookup(b[1..], k)
  {
    forall k ensures Lookup(a[1..], k) == Lookup(b[1..], k) {
      if k == a[0].id {
        LookupBelowFirst(a, k);
        LookupBelowFirst(b, k);
      } else {
        assert Lookup(a, k) == Lookup(b, k);
      }
    }
  }

  /** One rowid table: `users` and `warehouses`. */
  function Ids(rows: seq<Row>): (ids: seq<int>)
    ensures |ids| == |rows|
    ensures forall i | 0 <= i < |rows| :: ids[i] == rows[i].id
  {
    seq(|rows|, i requires 0 <= i < |rows| => rows[i].id)
  }

  // ---------------------------------------------------------------------
  // Warehouses
  // ---------------------------------------------------------------------

  /** A warehouse as the supplies API lists it and the page query returns
      it (`api_reauests::Warehouse`). */
  datatype Warehouse = Warehouse(id: int, name: string)

  /** The upserts of `insert_warehouses`, in list order. */
  function PutAll(rows: seq<Row>, ws: seq<Warehouse>): seq<Row>
    decreases |ws|
  {
    if ws == [] then rows else PutAll(Put(rows, ws[0].id, ws[0].name, true), ws[1..])
  }

  /** The name the last entry with this id carries, if any. */
  function LastName(ws: seq<Warehouse>, id: int): (r: Option<string>)
    ensures r.Some? ==> Warehouse(id, r.value) in ws
    ensures r.None? ==> forall w | w in ws :: w.id != id
  {
    if ws == [] then None
    else
      var later := LastName(ws[1..], id);
      assert forall w | w in ws[1..] :: w in ws;
      assert forall w | w in ws :: w == ws[0] || w in ws[1..];
      if later.Some? then later
      else if ws[0].id == id then Some(ws[0].name)
      else None
  }

  /** After the batch a key holds the name of the last entry with that id,
      and keys the batch does not mention keep their names. */
  lemma {:induction false} LookupPutAll(rows: seq<Row>, ws: seq<Warehouse>, k: int)
    requires IdsIncreasing(rows)
    ensures IdsIncreasing(PutAll(rows, ws))
    ensures Lookup(PutAll(rows, ws), k) == if LastName(ws, k).Some? then LastName(ws, k) else Lookup(rows, k)
    decreases |ws|
  {
    if ws != [] {
      var next := Put(rows, ws[0].id, ws[0].name, true);
      PutKeepsOrder(rows, ws[0].id, ws[0].name, true);
      LookupPut(rows, ws[0].id, ws[0].name, true, k);
      LookupPutAll(next, ws[1..], k);
    }
  }

  /** Storing the same list twice leaves the table as storing it once. */
  lemma PutAllIdempotent(rows: seq<Row>, ws: seq<Warehouse>)
    requires IdsIncreasing(rows)
    ensures PutAll(PutAll(rows, ws), ws) == PutAll(rows, ws)
  {
    var once := PutAll(rows, ws);
    forall k ensures Lookup(PutAll(once, ws), k) == Lookup(once, k) {
      LookupPutAll(rows, ws, k);
      LookupPutAll(once, ws, k);
    }
    LookupPutAll(rows, ws, 0);
    LookupPutAll(once, ws, 0);
    SameLookupSameRows(PutAll(once, ws), once);
  }

  function AsWarehouse(r: Row): Warehouse {
    Warehouse(r.id, r.value)
  }

  predicate NameLe(a: Warehouse, b: Warehouse) {
    LexLe(a.name, b.name)
  }

  lemma NameLeTotalPreorder()
    ensures TotalPreorder(NameLe)
  {
    forall a: Warehouse, b: Warehouse ensures NameLe(a, b) || NameLe(b, a) {
      LexLeTotal(a.name, b.name);
    }
    forall a: Warehouse, b: Warehouse, c: Warehouse | NameLe(a, b) && NameLe(b, c) ensures NameLe(a, c) {
      LexLeTransitive(a.name, b.name, c.name);
    }
  }

  /** `SELECT id, name FROM warehouses ORDER BY name`: the key-ordered scan
      sorted by name; rows with equal names stay in key order. */
  function Listing(rows: seq<Row>): (r: seq<Warehouse>)
    ensures |r| == |rows|
  {
    SortBy(seq(|rows|, i requires 0 <= i < |rows| => AsWarehouse(rows[i])), NameLe)
  }

  /** `LIMIT limit OFFSET offset`: a negative limit means no limit and a
      negative offset counts as zero. */
  function Window<T>(s: seq<T>, offset: int, limit: int): (r: seq<T>)
    ensures limit >= 0 ==> |r| <= limit
  {
    var start := if offset < 0 then 0 else if offset > |s| then |s| else offset;
    var end := if limit < 0 || start + limit > |s| then |s| else start + limit;
    s[start..end]
  }

  /** Page `page` holds exactly the listing positions from `page * size`
      up to `page * size + size`, when that product fits an `i32`. */
  lemma WindowPositions<T>(s: seq<T>, page: int, size: int, k: int)
    requires page >= 0 && size > 0 && IsI32(page * size)
    ensures page * size <= k < page * size + size && k < |s|
        <==> 0 <= k - page * size < |Window(s, Wrap32(page * size), size)|
    ensures 0 <= k - page * size < |Window(s, Wrap32(page * size), size)|
        ==> Window(s, Wrap32(page * size), size)[k - page * size] == s[k]
  {
    assert 0 <= page * size;
  }

  /** The listing is in name order. */
  lemma ListingSorted(rows: seq<Row>)
    ensures SortedBy(Listing(rows), NameLe)
  {
    NameLeTotalPreorder();
    SortBySorted(seq(|rows|, i requires 0 <= i < |rows| => AsWarehouse(rows[i])), NameLe);
  }

  lemma WindowSorted<T>(s: seq<T>, offset: int, limit: int, le: (T, T) -> bool)
    requires SortedBy(s, le)
    ensures SortedBy(Window(s, offset, limit), le)
  {
    var w := Window(s, offset, limit);
    var start := if offset < 0 then 0 else if offset > |s| then |s| else offset;
    forall i, j | 0 <= i < j < |w| ensures le(w[i], w[j]) {
      assert w[i] == s[start + i] && w[j] == s[start + j];
    }
  }

  /** A page continues the listing where the entries before its offset
      end. */
  lemma WindowAfterPrefix<T>(s: seq<T>, offset: int, size: int)
    requires offset >= 0 && size >= 0
    ensures s[..Min(offset, |s|)] + Window(s, offset, size) == s[..Min(offset + size, |s|)]
  {
  }

  function Min(a: int, b: int): int {
    if a < b then a else b
  }

  /** The first `n` pages, one after the other. */
  function Pages<T>(s: seq<T>, n: nat, size: int): seq<T>
    requires size > 0 && IsI32(n * size)
  {
    if n == 0 then []
    else
      var offset := (n - 1) * size;
      assert offset + size == n * size;
      Pages(s, n - 1, size) + Window(s, Wrap32(offset), size)
  }

  /** Consecutive pages are disjoint and leave no gap: together they are
      the listing's first entries. */
  lemma {:induction false} PagesPartition<T>(s: seq<T>, n: nat, size: int)
    requires size > 0 && IsI32(n * size)
    ensures Pages(s, n, size) == s[..Min(n * size, |s|)]
  {
    if n > 0 {
      var offset := (n - 1) * size;
      assert offset + size == n * size;
      assert 0 <= offset;
      PagesPartition(s, n - 1, size);
      WindowAfterPrefix(s, offset, size);
    }
  }

  // ---------------------------------------------------------------------
  // Acceptance coefficients
  // ---------------------------------------------------------------------

  /** A row of `warehouses_coefficients`; `date` is in Unix seconds. */
  datatype Coefficient = Coefficient(
    date: int,
    coefficient: int,
    warehouseId: int,
    warehouseName: string,
    boxTypeName: string,
    boxTypeId: Option<int>)

  /** The table's UNIQUE constraint. */
  datatype Key = Key(date: int, warehouseId: int, boxTypeName: string)

  function KeyOf(c: Coefficient): Key {
    Key(c.date, c.warehouseId, c.boxTypeName)
  }

  predicate UniqueKeys(rows: seq<Coefficient>) {
    forall i, j | 0 <= i < j < |rows| :: KeyOf(rows[i]) != KeyOf(rows[j])
  }

  /** `INSERT … ON CONFLICT(date, warehouse_id, box_type_name) DO UPDATE
      SET coefficient = excluded.coefficient`. */
  function Upsert(rows: seq<Coefficient>, c: Coefficient): (r: seq<Coefficient>)
    ensures forall x | x in r :: x in rows || KeyOf(x) == KeyOf(c)
  {
    if rows == [] then [c]
    else if KeyOf(rows[0]) == KeyOf(c) then [rows[0].(coefficient := c.coefficient)] + rows[1..]
    else [rows[0]] + Upsert(rows[1..], c)
  }

  /** The table's keys stay unique. */
  lemma {:induction false} UpsertKeepsKeysUnique(rows: seq<Coefficient>, c: Coefficient)
    requires UniqueKeys(rows)
    ensures UniqueKeys(Upsert(rows, c))
  {
    if rows != [] && KeyOf(rows[0]) != KeyOf(c) {
      UpsertKeepsKeysUnique(rows[1..], c);
      var tail := Upsert(rows[1..], c);
      forall k | 0 <= k < |tail| ensures KeyOf(rows[0]) != KeyOf(tail[k]) {
        assert tail[k] in tail;
        if tail[k] in rows[1..] {
          var j :| 0 <= j < |rows[1..]| && rows[1..][j] == tail[k];
          assert rows[j + 1] == tail[k];
        }
      }
    } else if rows != [] {
      var r := Upsert(rows, c);
      forall i, j | 0 <= i < j < |r| ensures KeyOf(r[i]) != KeyOf(r[j]) {
        assert KeyOf(r[i]) == KeyOf(rows[i]) && KeyOf(r[j]) == KeyOf(rows[j]);
      }
    }
  }

  /** A record with a new key is appended; nothing else changes. */
  lemma {:induction false} UpsertNewKey(rows: seq<Coefficient>, c: Coefficient)
    requires forall i | 0 <= i < |rows| :: KeyOf(rows[i]) != KeyOf(c)
    ensures Upsert(rows, c) == rows + [c]
  {
    if rows != [] {
      UpsertNewKey(rows[1..], c);
      assert rows == [rows[0]] + rows[1..];
    }
  }

  /** A record whose key is taken changes only that row's `coefficient`;
      its `warehouse_name` and `box_type_id` stay as they were. */
  lemma {:induction false} UpsertExistingKey(rows: seq<Coefficient>, c: Coefficient, i: nat)
    requires UniqueKeys(rows) && i < |rows| && KeyOf(rows[i]) == KeyOf(c)
    ensures Upsert(rows, c) == rows[i := rows[i].(coefficient := c.coefficient)]
  {
    if i > 0 {
      UpsertExistingKey(rows[1..], c, i - 1);
      assert rows == [rows[0]] + rows[1..];
    }
  }

  /** The upserts of `add_or_update_warehouse_coefficents`, in list order. */
  function UpsertAll(rows: seq<Coefficient>, records: seq<Coefficient>): seq<Coefficient>
    decreases |records|
  {
    if records == [] then rows else UpsertAll(Upsert(rows, records[0]), records[1..])
  }

  lemma {:induction false} UpsertAllKeepsKeysUnique(rows: seq<Coefficient>, records: seq<Coefficient>)
    requires UniqueKeys(rows)
    ensures UniqueKeys(UpsertAll(rows, records))
    decreases |records|
  {
    if records != [] {
      UpsertKeepsKeysUnique(rows, records[0]);
      UpsertAllKeepsKeysUnique(Upsert(rows, records[0]), records[1..]);
    }
  }

  /** `DELETE FROM warehouses_coefficients WHERE date < now`: exactly the
      rows dated `now` or later remain, in their order. */
  function Unexpired(rows: seq<Coefficient>, now: int): (r: seq<Coefficient>)
    ensures forall x | x in r :: x.date >= now && x in rows
    ensures forall x | x in rows && x.date >= now :: x in r
  {
    if rows == [] then []
    else
      var tail := Unexpired(rows[1..], now);
      assert forall x | x in rows :: x == rows[0] || x in rows[1..];
      if rows[0].date >= now then [rows[0]] + tail else tail
  }

  /** Deleting rows keeps the remaining keys unique. */
  lemma {:induction false} UnexpiredKeepsKeysUnique(rows: seq<Coefficient>, now: int)
    requires UniqueKeys(rows)
    ensures UniqueKeys(Unexpired(rows, now))
  {
    if rows != [] {
      UnexpiredKeepsKeysUnique(rows[1..], now);
      var tail := Unexpired(rows[1..], now);
      if rows[0].date >= now {
        forall k | 0 <= k < |tail| ensures KeyOf(rows[0]) != KeyOf(tail[k]) {
          assert tail[k] in tail;
          var j :| 0 <= j < |rows[1..]| && rows[1..][j] == tail[k];
          assert rows[j + 1] == tail[k];
        }
      }
    }
  }

  // ---------------------------------------------------------------------
  // Box types of a warehouse
  // ---------------------------------------------------------------------

  /** The box types stored for warehouse `wid`, in scan order, repeats
      included. */
  function BoxTypesOf(rows: seq<Coefficient>, wid: int): (r: seq<string>)
    ensures forall t :: t in r <==> exists x | x in rows :: x.warehouseId == wid && x.boxTypeName == t
  {
    if rows == [] then []
    else
      var tail := BoxTypesOf(rows[1..], wid);
      assert forall x | x in rows :: x == rows[0] || x in rows[1..];
      if rows[0].warehouseId == wid then [rows[0].boxTypeName] + tail else tail
  }

  /** `DISTINCT`: each value once, at its first occurrence. */
  function Distinct(s: seq<string>): (r: seq<string>)
    ensures forall t :: multiset(r)[t] == if t in s then 1 else 0
    decreases |s|
  {
    if s == [] then []
    else
      var last := s[|s| - 1];
      var d := Distinct(s[..|s| - 1]);
      assert forall t :: t in s <==> t in s[..|s| - 1] || t == last;
      if last in d then d else d + [last]
  }

  predicate NoCaseOrder(a: string, b: string) {
    NoCaseLe(a, b)
  }

  lemma NoCaseLeTotalPreorder()
    ensures TotalPreorder(NoCaseOrder)
  {
    forall a: string, b: string ensures NoCaseOrder(a, b) || NoCaseOrder(b, a) {
      LexLeTotal(FoldAsciiString(a), FoldAsciiString(b));
    }
    forall a: string, b: string, c: string | NoCaseOrder(a, b) && NoCaseOrder(b, c) ensures NoCaseOrder(a, c) {
      LexLeTransitive(FoldAsciiString(a), FoldAsciiString(b), FoldAsciiString(c));
    }
  }

  /** `SELECT DISTINCT box_type_name … WHERE warehouse_id = ? ORDER BY
      box_type_name COLLATE NOCASE`; names equal but for ASCII case stay in
      scan order. */
  function UniqueBoxTypes(rows: seq<Coefficient>, wid: int): seq<string> {
    SortBy(Distinct(BoxTypesOf(rows, wid)), NoCaseOrder)
  }

  /** Every box type stored for the warehouse appears exactly once, no
      other name appears, and the list is in case-insensitive order. */
  lemma UniqueBoxTypesListsEachOnce(rows: seq<Coefficient>, wid: int)
    ensures var r := UniqueBoxTypes(rows, wid);
      && SortedBy(r, NoCaseOrder)
      && forall t :: multiset(r)[t] == if exists x | x in rows :: x.warehouseId == wid && x.boxTypeName == t then 1 else 0
  {
    NoCaseLeTotalPreorder();
    SortBySorted(Distinct(BoxTypesOf(rows, wid)), NoCaseOrder);
  }

  // ---------------------------------------------------------------------
  // The coefficient report of `get_warehouse_data`
  // ---------------------------------------------------------------------

  const NoSlots := "⛔️Нет доступных поставок"

  function Header(name: string, boxType: string): string {
    "📍Склад: " + name + "\n📦Тип поставки: " + boxType + "\n\n"
  }

  /** One slot: its Moscow date and time and its coefficient. */
  function Line(c: Coefficient): (s: string)
    ensures |s| >= 2 && s[|s| - 2..] == "\n\n"
  {
    "⌛️Дата: " + MoscowString(c.date) + "\n📈Коэффициент: " + IntToString(c.coefficient) + "\n\n"
  }

  function Lines(rows: seq<Coefficient>): (s: string)
    ensures rows != [] ==> |s| >= 2 && s[|s| - 2..] == "\n\n"
    decreases |rows|
  {
    if rows == [] then "" else Lines(rows[..|rows| - 1]) + Line(rows[|rows| - 1])
  }

  /** The rows the report lists: warehouse `wid`, box type `boxType`, a
      coefficient other than -1. */
  function Matching(rows: seq<Coefficient>, wid: int, boxType: string): (r: seq<Coefficient>)
    ensures forall x | x in r :: x in rows && x.warehouseId == wid && x.boxTypeName == boxType && x.coefficient != -1
    ensures forall x | x in rows && x.warehouseId == wid && x.boxTypeName == boxType && x.coefficient != -1 :: x in r
  {
    if rows == [] then []
    else
      var tail := Matching(rows[1..], wid, boxType);
      assert forall x | x in rows :: x == rows[0] || x in rows[1..];
      var x := rows[0];
      if x.warehouseId == wid && x.boxTypeName == boxType && x.coefficient != -1 then [x] + tail else tail
  }

  predicate CoefLe(a: Coefficient, b: Coefficient) {
    a.coefficient <= b.coefficient
  }

  /** `ORDER BY coefficient`, equal coefficients in scan order. */
  function ReportRows(rows: seq<Coefficient>, wid: int, boxType: string): seq<Coefficient> {
    SortBy(Matching(rows, wid, boxType), CoefLe)
  }

  /** chrono can place the date and add the three hours without failing. */
  predicate Printable(c: Coefficient) {
    Representable(c.date) && Representable(c.date + MoscowOffset)
  }

  /** The report text: the header, one entry per row, and the no-slots
      notice when there is no row. */
  function ReportText(name: string, boxType: string, rows: seq<Coefficient>): string {
    Header(name, boxType) + Lines(rows) + (if rows == [] then NoSlots else "")
  }

  /** The report of the listed rows, or the panic of the first date chrono
      cannot print. */
  function Render(name: string, boxType: string, rows: seq<Coefficient>): Result<string, Error> {
    if exists i | 0 <= i < |rows| :: !Printable(rows[i]) then Err(Panic)
    else Ok(ReportText(name, boxType, rows))
  }

  /** What `get_warehouse_data(wid, boxType)` returns. */
  function Report(warehouses: seq<Row>, coefficients: seq<Coefficient>, wid: int, boxType: string): Result<string, Error> {
    match Lookup(warehouses, wid)
    case None => Err(NoSuchWarehouse)
    case Some(name) => Render(name, boxType, ReportRows(coefficients, wid, boxType))
  }

  lemma LinesStep(rows: seq<Coefficient>, i: nat)
    requires i < |rows|
    ensures Lines(rows[..i + 1]) == Lines(rows[..i]) + Line(rows[i])
  {
    assert rows[..i + 1][..i] == rows[..i];
  }

  /** The loop of `get_warehouse_data`: the header, then one entry per row
      with a `found` flag for the no-slots notice; a date chrono cannot
      print panics. */
  method RenderReport(name: string, boxType: string, rows: seq<Coefficient>) returns (r: Result<string, Error>)
    ensures r == Render(name, boxType, rows)
  {
    var header := Header(name, boxType);
    var result := header;
    var found := false;
    var i := 0;
    while i < |rows|
      invariant 0 <= i <= |rows|
      invariant found <==> i > 0
      invariant result == header + Lines(rows[..i])
      invariant forall k | 0 <= k < i :: Printable(rows[k])
    {
      found := true;
      if !Printable(rows[i]) {
        assert Render(name, boxType, rows) == Err(Panic);
        return Err(Panic);
      }
      LinesStep(rows, i);
      ghost var before := Lines(rows[..i]);
      var line := Line(rows[i]);
      ConcatAssoc(header, before, line);
      result := result + line;
      assert forall k | 0 <= k < i + 1 :: Printable(rows[k]);
      i := i + 1;
    }
    assert rows[..|rows|] == rows;
    if !found {
      result := result + NoSlots;
    } else {
      assert result + "" == result;
    }
    assert result == ReportText(name, boxType, rows);
    r := Ok(result);
  }

  lemma ConcatAssoc<T>(a: seq<T>, b: seq<T>, c: seq<T>)
    ensures a + b + c == a + (b + c)
  {
  }

  predicate EndsWith(s: string, suffix: string) {
    |suffix| <= |s| && s[|s| - |suffix|..] == suffix
  }

  /** The listed rows are the matching ones, cheapest first, and none has
      coefficient -1. */
  lemma ReportRowsSorted(coefficients: seq<Coefficient>, wid: int, boxType: string)
    ensures var rows := ReportRows(coefficients, wid, boxType);
      && SortedBy(rows, CoefLe)
      && multiset(rows) == multiset(Matching(coefficients, wid, boxType))
      && (forall x | x in rows :: x.warehouseId == wid && x.boxTypeName == boxType && x.coefficient != -1)
  {
    var rows := ReportRows(coefficients, wid, boxType);
    assert TotalPreorder(CoefLe);
    SortBySorted(Matching(coefficients, wid, boxType), CoefLe);
    forall x | x in rows ensures x in Matching(coefficients, wid, boxType) {
      assert x in multiset(rows);
    }
  }

  /** The text opens with the header and ends with the no-slots notice
      exactly when there is no row. */
  lemma ReportTextShape(name: string, boxType: string, rows: seq<Coefficient>)
    ensures Header(name, boxType) <= ReportText(name, boxType, rows)
    ensures EndsWith(ReportText(name, boxType, rows), NoSlots) <==> rows == []
  {
    var s := ReportText(name, boxType, rows);
    var h := Header(name, boxType);
    if rows == [] {
      assert s == h + NoSlots;
      assert s[|s| - |NoSlots|..] == NoSlots;
    } else {
      var body := Lines(rows);
      assert s == h + body;
      assert s[|s| - 1] == body[|body| - 1] == '\n';
      assert NoSlots[|NoSlots| - 1] == 'к';
    }
  }

  /** `get_warehouse_data` fails exactly when the warehouse has no row or a
      listed date cannot be printed; otherwise its text is the report of
      the matching rows under the stored warehouse name. */
  lemma ReportOutcome(warehouses: seq<Row>, coefficients: seq<Coefficient>, wid: int, boxType: string)
    ensures Lookup(warehouses, wid).None? <==> Report(warehouses, coefficients, wid, boxType) == Err(NoSuchWarehouse)
    ensures Report(warehouses, coefficients, wid, boxType).Ok? <==>
      Lookup(warehouses, wid).Some? && forall x | x in ReportRows(coefficients, wid, boxType) :: Printable(x)
    ensures Report(warehouses, coefficients, wid, boxType).Ok? ==>
      Report(warehouses, coefficients, wid, boxType).value
        == ReportText(Lookup(warehouses, wid).value, boxType, ReportRows(coefficients, wid, boxType))
  {
  }

  /** Two records for one slot in one batch leave one row for that slot:
      the first record's names, or the stored row's when the slot was
      already taken, with the second record's coefficient. */
  lemma {:induction false} UpsertSameSlotTwice(rows: seq<Coefficient>, c1: Coefficient, c2: Coefficient)
    requires UniqueKeys(rows) && KeyOf(c1) == KeyOf(c2)
    ensures (forall i | 0 <= i < |rows| :: KeyOf(rows[i]) != KeyOf(c1)) ==>
      UpsertAll(rows, [c1, c2]) == rows + [c1.(coefficient := c2.coefficient)]
    ensures forall i | 0 <= i < |rows| && KeyOf(rows[i]) == KeyOf(c1) ::
      UpsertAll(rows, [c1, c2]) == rows[i := rows[i].(coefficient := c2.coefficient)]
  {
    calc {
      UpsertAll(rows, [c1, c2]);
      { assert [c1, c2][1..] == [c2]; }
      UpsertAll(Upsert(rows, c1), [c2]);
      { assert [c2][1..] == []; }
      UpsertAll(Upsert(Upsert(rows, c1), c2), []);
      Upsert(Upsert(rows, c1), c2);
    }
    UpsertKeepsKeysUnique(rows, c1);
    if forall i | 0 <= i < |rows| :: KeyOf(rows[i]) != KeyOf(c1) {
      UpsertNewKey(rows, c1);
      UpsertExistingKey(rows + [c1], c2, |rows|);
      assert (rows + [c1])[|rows| := c1.(coefficient := c2.coefficient)] == rows + [c1.(coefficient := c2.coefficient)];
    }
    forall i | 0 <= i < |rows| && KeyOf(rows[i]) == KeyOf(c1)
      ensures UpsertAll(rows, [c1, c2]) == rows[i := rows[i].(coefficient := c2.coefficient)]
    {
      UpsertExistingKey(rows, c1, i);
      UpsertExistingKey(Upsert(rows, c1), c2, i);
    }
  }

  // ---------------------------------------------------------------------
  // The store
  // ---------------------------------------------------------------------

  class Store {
    /** `users (id INTEGER PRIMARY KEY, username TEXT)`. */
    var users: seq<Row>
    /** `user_states (id INTEGER PRIMARY KEY, state INTEGER)`. */
    var states: map<int, int>
    /** `user_tokens (chat_id INTEGER PRIMARY KEY, token TEXT)`. */
    var tokens: map<int, string>
    /** `warehouses (id INTEGER PRIMARY KEY, name TEXT)`. */
    var warehouses: seq<Row>
    /** `warehouses_coefficients`, in rowid order. */
    var coefficients: seq<Coefficient>

    ghost predicate Valid()
      reads this
    {
      IdsIncreasing(users) && IdsIncreasing(warehouses) && UniqueKeys(coefficients)
    }

    /** `initialize_db` on a fresh file: every table empty. */
    constructor ()
      ensures Valid()
      ensures users == [] && states == map[] && tokens == map[] && warehouses == [] && coefficients == []
    {
      users := [];
      states := map[];
      tokens := map[];
      warehouses := [];
      coefficients := [];
    }

    /** `add_user_to_db`: `INSERT OR IGNORE`, so a known user keeps the
        username stored first. */
    method AddUser(id: int, username: string)
      requires Valid()
      modifies this
      ensures Valid()
      ensures users == Put(old(users), id, username, false)
      ensures forall k ::
                Lookup(users, k) == if k == id && Lookup(old(users), id).None? then Some(username) else Lookup(old(users), k)
      ensures states == old(states) && tokens == old(tokens)
      ensures warehouses == old(warehouses) && coefficients == old(coefficients)
    {
      PutKeepsOrder(users, id, username, false);
      forall k ensures Lookup(Put(users, id, username, false), k)
        == if k == id && Lookup(users, id).None? then Some(username) else Lookup(users, k)
      {
        LookupPut(users, id, username, false, k);
      }
      users := Put(users, id, username, false);
    }

    /** `get_user_ids`: `SELECT id FROM users`, collected row by row; the
        ids come out in ascending order, each stored user once. */
    method UserIds() returns (ids: seq<int>)
      requires Valid()
      ensures ids == Ids(users)
      ensures forall i, j | 0 <= i < j < |ids| :: ids[i] < ids[j]
      ensures forall x :: x in ids <==> Lookup(users, x).Some?
    {
      ids := [];
      var i := 0;
      while i < |users|
        invariant 0 <= i <= |users|
        invariant ids == Ids(users)[..i]
      {
        ids := ids + [users[i].id];
        i := i + 1;
      }
    }

    /** `set_user_state`: `INSERT OR REPLACE`, one row per user. */
    method SetUserState(id: int, s: State)
      requires Valid()
      modifies this
      ensures Valid()
      ensures states == old(states)[id := Code(s)]
      ensures users == old(users) && tokens == old(tokens)
      ensures warehouses == old(warehouses) && coefficients == old(coefficients)
    {
      states := states[id := Code(s)];
    }

    /** `get_user_state`: the stored code decoded by `from_i8`, `Idle`
        without a row. `from_i8` never fails, so the error arm of the source
        cannot be taken. */
    method GetUserState(id: int) returns (s: State)
      ensures s == ReadState(states, id)
      ensures id !in states ==> s == Idle
      ensures id in states && 1 <= states[id] <= 5 ==> Code(s) == states[id]
    {
      if id in states {
        var decoded := FromI8(states[id]);
        s := decoded.value;
      } else {
        s := Idle;
      }
    }

    /** `set_user_token`: `INSERT OR REPLACE`, one row per user. */
    method SetUserToken(id: int, token: string)
      requires Valid()
      modifies this
      ensures Valid()
      ensures tokens == old(tokens)[id := token]
      ensures users == old(users) && states == old(states)
      ensures warehouses == old(warehouses) && coefficients == old(coefficients)
    {
      tokens := tokens[id := token];
    }

    /** `get_user_token`: the stored token, the empty string without a
        row. */
    method GetUserToken(id: int) returns (token: string)
      ensures token == ReadToken(tokens, id)
      ensures id !in tokens ==> token == ""
    {
      if id in tokens {
        token := tokens[id];
      } else {
        token := "";
      }
    }

    /** `insert_warehouses`: one `ON CONFLICT(id) DO UPDATE` per entry, in
        list order. */
    method InsertWarehouses(ws: seq<Warehouse>)
      requires Valid()
      modifies this
      ensures Valid()
      ensures warehouses == PutAll(old(warehouses), ws)
      ensures users == old(users) && states == old(states) && tokens == old(tokens)
      ensures coefficients == old(coefficients)
    {
      var i := 0;
      while i < |ws|
        invariant 0 <= i <= |ws|
        invariant IdsIncreasing(warehouses)
        invariant PutAll(warehouses, ws[i..]) == PutAll(old(warehouses), ws)
        invariant users == old(users) && states == old(states) && tokens == old(tokens)
        invariant coefficients == old(coefficients)
      {
        PutKeepsOrder(warehouses, ws[i].id, ws[i].name, true);
        assert ws[i..][1..] == ws[i + 1..];
        warehouses := Put(warehouses, ws[i].id, ws[i].name, true);
        i := i + 1;
      }
    }

    /** `get_warehouses_page`: the `OFFSET page * page_size` (an `i32`
        product) and `LIMIT page_size` window of the name-ordered listing,
        collected row by row. */
    method GetWarehousesPage(page: int, size: int) returns (result: seq<Warehouse>)
      requires IsI32(page) && IsI32(size)
      ensures result == Window(Listing(warehouses), Wrap32(page * size), size)
      ensures size >= 0 ==> |result| <= size
      ensures SortedBy(result, NameLe)
    {
      var offset := Wrap32(page * size);
      var listing := Listing(warehouses);
      var start := if offset < 0 then 0 else Min(offset, |listing|);
      var end := if size < 0 then |listing| else Min(start + size, |listing|);
      result := [];
      var i := start;
      while i < end
        invariant start <= i <= end
        invariant result == listing[start..i]
      {
        result := result + [listing[i]];
        i := i + 1;
      }
      ListingSorted(warehouses);
      WindowSorted(listing, offset, size, NameLe);
    }

    /** `count_warehouses`: `SELECT COUNT(*) FROM warehouses`. */
    method CountWarehouses() returns (n: int)
      ensures n == |warehouses| == |Listing(warehouses)|
    {
      n := |warehouses|;
    }

    /** `delete_expired_records`: drops every slot dated before `now`. */
    method DeleteExpiredRecords(now: int)
      requires Valid()
      modifies this
      ensures Valid()
      ensures coefficients == Unexpired(old(coefficients), now)
      ensures forall x | x in coefficients :: x.date >= now
      ensures forall x | x in old(coefficients) && x.date >= now :: x in coefficients
      ensures users == old(users) && states == old(states) && tokens == old(tokens)
      ensures warehouses == old(warehouses)
    {
      UnexpiredKeepsKeysUnique(coefficients, now);
      coefficients := Unexpired(coefficients, now);
    }

    /** `add_or_update_warehouse_coefficents`: one upsert per record, in
        list order. */
    method AddOrUpdateCoefficients(records: seq<Coefficient>)
      requires Valid()
      modifies this
      ensures Valid()
      ensures coefficients == UpsertAll(old(coefficients), records)
      ensures users == old(users) && states == old(states) && tokens == old(tokens)
      ensures warehouses == old(warehouses)
    {
      var i := 0;
      while i < |records|
        invariant 0 <= i <= |records|
        invariant UniqueKeys(coefficients)
        invariant UpsertAll(coefficients, records[i..]) == UpsertAll(old(coefficients), records)
        invariant users == old(users) && states == old(states) && tokens == old(tokens)
        invariant warehouses == old(warehouses)
      {
        UpsertKeepsKeysUnique(coefficients, records[i]);
        assert records[i..][1..] == records[i + 1..];
        coefficients := Upsert(coefficients, records[i]);
        i := i + 1;
      }
    }

    /** `get_unique_box_types`: each box type stored for the warehouse once,
        in case-insensitive order. */
    method GetUniqueBoxTypes(wid: int) returns (types: seq<string>)
      ensures types == UniqueBoxTypes(coefficients, wid)
      ensures SortedBy(types, NoCaseOrder)
      ensures forall t ::
                multiset(types)[t] == if exists x | x in coefficients :: x.warehouseId == wid && x.boxTypeName == t then 1 else 0
    {
      types := UniqueBoxTypes(coefficients, wid);
      UniqueBoxTypesListsEachOnce(coefficients, wid);
    }

    /** `get_warehouse_data`: the warehouse's stored name, then the rows
        of the report query. */
    method GetWarehouseData(wid: int, boxType: string) returns (r: Result<string, Error>)
      ensures r == Report(warehouses, coefficients, wid, boxType)
    {
      var name := Lookup(warehouses, wid);
      if name.None? {
        return Err(NoSuchWarehouse);
      }
      r := RenderReport(name.value, boxType, ReportRows(coefficients, wid, boxType));
    }
  }
}
