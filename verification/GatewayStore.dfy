/** The mock gateway's in-memory store of one resource type, and looking one item up in it. */
module GatewayStore {
  import opened Json
  import opened Numerals
  import opened Collections

  /** How a value is written as text. */
  type Text = Value -> string

  ghost predicate PythonText(str: Text) {
    && (forall s :: str(Str(s)) == s)
    && (forall n :: str(Int(n)) == Decimal(n))
  }

  type Table = map<int, Fields>

  const PROTECTED: set<string> := {"id", "created", "url"}

  function NonNull(payload: Fields): Fields {
    map k | k in payload && payload[k] != Null :: payload[k]
  }

  /** A new item: its id, overlaid with everything in the payload that is not null. */
  function NewItem(id: int, payload: Fields): Fields {
    map["id" := Int(id)] + NonNull(payload)
  }

  function Patched(item: Fields, payload: Fields, allowed: Option<set<string>>): Fields {
    item + map k | k in payload && k !in PROTECTED && (allowed == None || k in allowed.value) :: payload[k]
  }

  predicate Accepts(required: seq<string>, payload: Fields) {
    forall i | 0 <= i < |required| :: Truthy(Get(payload, required[i]))
  }

  /** A list request: fields that must match, and an id or a name either of which may. */
  datatype Query = Query(all: map<string, string>, orId: Option<string>, orName: Option<string>)

  function TextOf(item: Fields, key: string, str: Text): string {
    if key in item then str(item[key]) else ""
  }

  predicate OrMatch(item: Fields, query: Query, str: Text) {
    || (query.orId != None && ParseInt(query.orId.value) != None &&
        Get(item, "id") == Int(ParseInt(query.orId.value).value))
    || (query.orName != None && TextOf(item, "name", str) == query.orName.value)
  }

  predicate Matches(item: Fields, query: Query, str: Text) {
    && (forall k | k in query.all :: TextOf(item, k, str) == query.all[k])
    && ((query.orId == None && query.orName == None) || OrMatch(item, query, str))
  }

  /** A new item field by field: the payload without its nulls, and an id that the payload may bring itself. */
  lemma NewItemFields(id: int, payload: Fields, field: string)
    ensures var item := NewItem(id, payload);
            && (field in item <==> field == "id" || (field in payload && payload[field] != Null))
            && (field in payload && payload[field] != Null ==> item[field] == payload[field])
            && (field == "id" && (field !in payload || payload[field] == Null) ==> item[field] == Int(id))
  {
  }

  /** A patched item field by field: what may change takes the payload's value, all else stays. */
  lemma PatchedFields(item: Fields, payload: Fields, allowed: Option<set<string>>, field: string)
    ensures var after := Patched(item, payload, allowed);
            var changes := field in payload && field != "id" && field != "created" && field != "url" &&
                           (allowed == None || field in allowed.value);
            && (field in after <==> field in item || changes)
            && (changes ==> after[field] == payload[field])
            && (!changes && field in item ==> after[field] == item[field])
  {
  }

  /** A create is taken when every required field is there and not blank. */
  lemma AcceptsIff(required: seq<string>, payload: Fields)
    ensures Accepts(required, payload) <==>
              forall field | field in required :: field in payload && !Blank(payload[field])
  {
    forall i | 0 <= i < |required|
      ensures Truthy(Get(payload, required[i])) <==> required[i] in payload && !Blank(payload[required[i]])
    {
      TruthyUnlessBlank(Get(payload, required[i]));
    }
    if Accepts(required, payload) {
      forall field | field in required ensures field in payload && !Blank(payload[field]) {
        var i :| 0 <= i < |required| && required[i] == field;
      }
    }
  }

  /** An item reads as a text under a key, a missing one as the empty text. */
  predicate Reads(item: Fields, key: string, text: string, str: Text) {
    if key in item then str(item[key]) == text else text == ""
  }

  /** An item matches when it has all the texts asked for, and the id or the name if one was asked for. */
  lemma MatchesIff(item: Fields, query: Query, str: Text)
    ensures Matches(item, query, str) <==>
              && (forall key | key in query.all :: Reads(item, key, query.all[key], str))
              && (|| (query.orId == None && query.orName == None)
                  || (query.orName != None && Reads(item, "name", query.orName.value, str))
                  || (query.orId != None && exists n :: ParseInt(query.orId.value) == Some(n) &&
                                                       "id" in item && item["id"] == Int(n)))
  {
    assert forall key | key in query.all :: TextOf(item, key, str) == query.all[key] <==>
                                            Reads(item, key, query.all[key], str);
  }

  /** The items, the order in which they came in, and the next id to hand out. */
  datatype Stored = Stored(items: Table, order: seq<int>, nextId: int)

  /** The order lists every item once. */
  ghost predicate InOrder(st: Stored) {
    Distinct(st.order) && forall id: int :: id in st.order <==> id in st.items
  }

  /** Storing under an id: a new one goes to the end, a known one keeps its place. */
  function Placed(st: Stored, id: int, item: Fields): Stored {
    st.(items := st.items[id := item], order := if id in st.order then st.order else st.order + [id])
  }

  function Created(st: Stored, payload: Fields): Stored {
    Placed(st, st.nextId, NewItem(st.nextId, payload)).(nextId := st.nextId + 1)
  }

  function Dropped(st: Stored, id: int): Stored {
    st.(items := st.items - {id}, order := Without(st.order, id))
  }

  lemma PlacedInOrder(st: Stored, id: int, item: Fields)
    requires InOrder(st)
    ensures InOrder(Placed(st, id, item))
  {
  }

  lemma DroppedInOrder(st: Stored, id: int)
    requires InOrder(st)
    ensures InOrder(Dropped(st, id))
  {
    WithoutDistinct(st.order, id);
    WithoutElems(st.order, id);
    forall n: int ensures n in Without(st.order, id) <==> n in st.items && n != id {
      assert n in Without(st.order, id) <==> n in Elems(Without(st.order, id));
      assert n in st.order <==> n in Elems(st.order);
    }
  }

  /** The ids that match, in the order in which the items came in. */
  function Select(items: Table, order: seq<int>, query: Query, str: Text): (ids: seq<int>)
    ensures forall i | 0 <= i < |ids| :: ids[i] in order && ids[i] in items
  {
    if order == [] then []
    else
      var n := |order| - 1;
      Select(items, order[..n], query, str) +
      if order[n] in items && Matches(items[order[n]], query, str) then [order[n]] else []
  }

  function RowsOf(items: Table, ids: seq<int>): (rows: seq<Fields>)
    requires forall i | 0 <= i < |ids| :: ids[i] in items
    ensures |rows| == |ids| && forall i | 0 <= i < |ids| :: rows[i] == items[ids[i]]
  {
    seq(|ids|, i requires 0 <= i < |ids| => items[ids[i]])
  }

  /** A selection has each matching item once. */
  lemma {:induction false} SelectionIsExact(items: Table, order: seq<int>, query: Query, str: Text)
    requires Distinct(order)
    ensures Distinct(Select(items, order, query, str))
    ensures forall id: int ::
              id in Select(items, order, query, str) <==> id in order && id in items && Matches(items[id], query, str)
  {
    if order != [] {
      var n := |order| - 1;
      SelectionIsExact(items, order[..n], query, str);
      assert order == order[..n] + [order[n]] && order[n] !in order[..n];
    }
  }

  /** Where a seeded item goes: under its own id, or under the next one. */
  function SeedId(st: Stored, raw: Fields): int
    requires "id" in raw ==> raw["id"].Int?
  {
    if "id" in raw then raw["id"].n else st.nextId
  }

  function SeededOne(st: Stored, raw: Fields): Stored
    requires "id" in raw ==> raw["id"].Int?
  {
    var id := SeedId(st, raw);
    Placed(st, id, map["id" := Int(id)] + raw).(nextId := if st.nextId > id + 1 then st.nextId else id + 1)
  }

  predicate SeedIdsAreIntegers(raws: seq<Fields>) {
    forall i | 0 <= i < |raws| :: "id" in raws[i] ==> raws[i]["id"].Int?
  }

  function SeededAll(st: Stored, raws: seq<Fields>): Stored
    requires SeedIdsAreIntegers(raws)
  {
    if raws == [] then st else SeededOne(SeededAll(st, raws[..|raws| - 1]), raws[|raws| - 1])
  }

  /** The id that the i-th seed item gets. */
  function SeedIdAt(st: Stored, raws: seq<Fields>, i: nat): int
    requires SeedIdsAreIntegers(raws) && i < |raws|
  {
    SeedId(SeededAll(st, raws[..i]), raws[i])
  }

  lemma SeedIdInPrefix(st: Stored, raws: seq<Fields>, i: nat)
    requires SeedIdsAreIntegers(raws) && i + 1 < |raws|
    ensures SeedIdAt(st, raws[..|raws| - 1], i) == SeedIdAt(st, raws, i)
  {
    assert raws[..|raws| - 1][..i] == raws[..i];
  }

  /** An id that no seed item gets keeps what it had. */
  lemma {:induction false} SeedKeepsOthers(st: Stored, raws: seq<Fields>, id: int)
    requires SeedIdsAreIntegers(raws) && forall i | 0 <= i < |raws| :: SeedIdAt(st, raws, i) != id
    ensures var after := SeededAll(st, raws);
            (id in after.items <==> id in st.items) && (id in st.items ==> after.items[id] == st.items[id])
  {
    if raws != [] {
      var n := |raws| - 1;
      forall i | 0 <= i < n ensures SeedIdAt(st, raws[..n], i) != id {
        SeedIdInPrefix(st, raws, i);
      }
      SeedKeepsOthers(st, raws[..n], id);
      assert SeedIdAt(st, raws, n) != id;
    }
  }

  /** The last seed item of an id is what is stored under it, its id laid under its own fields. */
  lemma {:induction false} SeedLastWins(st: Stored, raws: seq<Fields>, i: nat)
    requires SeedIdsAreIntegers(raws) && i < |raws|
    requires forall j | i < j < |raws| :: SeedIdAt(st, raws, j) != SeedIdAt(st, raws, i)
    ensures var id, after := SeedIdAt(st, raws, i), SeededAll(st, raws);
            id in after.items && after.items[id] == map["id" := Int(id)] + raws[i]
  {
    var n := |raws| - 1;
    if i < n {
      forall j | i <= j < n ensures SeedIdAt(st, raws[..n], j) == SeedIdAt(st, raws, j) {
        SeedIdInPrefix(st, raws, j);
      }
      SeedLastWins(st, raws[..n], i);
      assert SeedIdAt(st, raws, n) != SeedIdAt(st, raws, i);
    }
  }

  class GenericResource {
    const required: seq<string>
    const patchable: Option<set<string>>
    const str: Text
    var items: Table
    var order: seq<int>
    var nextId: int

    constructor (required: seq<string>, patchable: Option<set<string>>, startId: int, str: Text)
      ensures this.required == required && this.patchable == patchable && this.str == str
      ensures Contents() == Stored(map[], [], startId) && Valid()
    {
      this.required, this.patchable, this.str := required, patchable, str;
      items, order, nextId := map[], [], startId;
    }

    function Contents(): Stored
      reads this
    {
      Stored(items, order, nextId)
    }

    /** Ids are handed out upwards and never twice. */
    ghost predicate Valid()
      reads this
    {
      InOrder(Contents()) && forall id | id in items :: id < nextId && "id" in items[id]
    }

    /** A payload without an id of its own leaves the item's id equal to its key. */
    method Create(payload: Fields) returns (id: Option<int>)
      requires Valid()
      modifies this
      ensures Valid()
      ensures id == if Accepts(required, payload) then Some(old(nextId)) else None
      ensures id == None ==> Contents() == old(Contents())
      ensures id != None ==>
                && id.value !in old(items) && Contents() == Created(old(Contents()), payload)
                && (items[id.value]["id"] == Int(id.value) <==> Get(payload, "id") in {Null, Int(id.value)})
    {
      for i := 0 to |required|
        invariant forall j | 0 <= j < i :: Truthy(Get(payload, required[j]))
      {
        if !Truthy(Get(payload, required[i])) {
          return None;
        }
      }
      var itemId := nextId;
      nextId := nextId + 1;
      items := items[itemId := NewItem(itemId, payload)];
      order := order + [itemId];
      PlacedInOrder(old(Contents()), itemId, NewItem(itemId, payload));
      return Some(itemId);
    }

    /** The matching items, each once, in the order in which they came in. */
    method ListItems(query: Query) returns (results: seq<Fields>)
      requires Valid()
      ensures results == RowsOf(items, Select(items, order, query, str))
      ensures Distinct(Select(items, order, query, str))
      ensures forall id: int ::
                id in Select(items, order, query, str) <==> id in items && Matches(items[id], query, str)
    {
      results := [];
      for i := 0 to |order|
        invariant results == RowsOf(items, Select(items, order[..i], query, str))
      {
        var id := order[i];
        assert order[..i + 1][..i] == order[..i];
        assert id in Contents().order && id in Contents().items;
        if Matches(items[id], query, str) {
          results := results + [items[id]];
        }
      }
      assert order[..|order|] == order;
      SelectionIsExact(items, order, query, str);
    }

    method GetItem(id: int) returns (item: Option<Fields>)
      ensures item == if id in items then Some(items[id]) else None
    {
      item := if id in items then Some(items[id]) else None;
    }

    method Patch(id: int, payload: Fields) returns (item: Option<Fields>)
      requires Valid()
      modifies this
      ensures Valid()
      ensures item == if id in old(items) then Some(Patched(old(items)[id], payload, patchable)) else None
      ensures Contents() == if id in old(items) then Placed(old(Contents()), id, item.value) else old(Contents())
    {
      if id !in items {
        return None;
      }
      var patched := Patched(items[id], payload, patchable);
      items := items[id := patched];
      PlacedInOrder(old(Contents()), id, patched);
      return Some(patched);
    }

    method Delete(id: int) returns (found: bool)
      requires Valid()
      modifies this
      ensures Valid()
      ensures found == (id in old(items)) && Contents() == Dropped(old(Contents()), id)
    {
      found := id in items;
      DroppedInOrder(Contents(), id);
      items := items - {id};
      order := Without(order, id);
    }

    method SeedItem(raw: Fields)
      requires Valid() && ("id" in raw ==> raw["id"].Int?)
      modifies this
      ensures Valid() && Contents() == SeededOne(old(Contents()), raw)
    {
      var id := if "id" in raw then raw["id"].n else nextId;
      var item: Fields := map["id" := Int(id)] + raw;
      PlacedInOrder(Contents(), id, item);
      nextId := if nextId > id + 1 then nextId else id + 1;
      items := items[id := item];
      order := if id in order then order else order + [id];
    }

    /** Seed items may bring their own ids; the next id moves past them. */
    method Seed(raws: seq<Fields>)
      requires Valid() && SeedIdsAreIntegers(raws)
      modifies this
      ensures Valid() && Contents() == SeededAll(old(Contents()), raws)
    {
      for i := 0 to |raws|
        invariant Valid() && Contents() == SeededAll(old(Contents()), raws[..i])
      {
        assert raws[..i + 1][..i] == raws[..i];
        SeedItem(raws[i]);
      }
      assert raws[..|raws|] == raws;
    }
  }

  /** Every item carries its key as its id, as long as no payload brought another one. */
  ghost predicate Keyed(items: Table) {
    forall id | id in items :: Get(items[id], "id") == Int(id)
  }

  // ---------------------------------------------------------------- looking one item up

  datatype Lookup = Found(item: Fields) | Nothing | NotFoundError | Ambiguous | ConflictingSearch

  function Requested(name: string, extra: map<string, string>): Query {
    if name == "" then Query(extra, None, None)
    else match ParseInt(name)
      case Some(n) => Query(extra, Some(Decimal(n)), Some(name))
      case None => Query(extra["name" := name], None, None)
  }

  /** `ids` are the items that match, and `found` is what the search makes of them. */
  ghost predicate Resolved(items: Table, query: Query, str: Text, name: string, allowNone: bool,
                           found: Lookup, ids: seq<int>)
  {
    && Distinct(ids)
    && (forall id :: id in ids <==> id in items && Matches(items[id], query, str))
    && (|ids| == 0 ==> found == if allowNone then Nothing else NotFoundError)
    && (|ids| == 1 ==> found == Found(items[ids[0]]))
    && (|ids| > 1 ==>
          || (found == Ambiguous && (name == "" || forall id | id in ids :: str(Get(items[id], "id")) != name))
          || (name != "" && exists id | id in ids :: str(Get(items[id], "id")) == name && found == Found(items[id])))
  }

  /** The first row, if any, whose id is written as the text. */
  method RowWithId(rows: seq<Fields>, str: Text, name: string) returns (row: Option<Fields>)
    ensures row == None ==> forall i | 0 <= i < |rows| :: str(Get(rows[i], "id")) != name
    ensures row != None ==> exists i | 0 <= i < |rows| :: str(Get(rows[i], "id")) == name && row == Some(rows[i])
  {
    for i := 0 to |rows|
      invariant forall j | 0 <= j < i :: str(Get(rows[j], "id")) != name
    {
      if str(Get(rows[i], "id")) == name {
        return Some(rows[i]);
      }
    }
    return None;
  }

  /**
   The gateway module's search by name or id. `extra` are the caller's own search fields; a
   text that reads as an integer is searched as an id or a name, any other text as a name.
   */
  method GetOne(store: GenericResource, name: string, extra: map<string, string>, allowNone: bool)
    returns (found: Lookup, ghost ids: seq<int>)
    requires store.Valid()
    ensures found == ConflictingSearch <==> name != "" && "name" in extra
    ensures found != ConflictingSearch ==>
              Resolved(store.items, Requested(name, extra), store.str, name, allowNone, found, ids)
  {
    ids := [];
    if name != "" && "name" in extra {
      return ConflictingSearch, ids;
    }
    var query := Query(extra, None, None);
    if name != "" {
      var number := ParseInt(name);
      if number != None {
        query := Query(extra, Some(Decimal(number.value)), Some(name));
      } else {
        query := Query(extra["name" := name], None, None);
      }
    }
    var results := store.ListItems(query);
    ids := Select(store.items, store.order, query, store.str);
    if |results| == 0 {
      return if allowNone then Nothing else NotFoundError, ids;
    }
    if |results| == 1 {
      return Found(results[0]), ids;
    }
    if name != "" {
      var row := RowWithId(results, store.str, name);
      if row != None {
        return Found(row.value), ids;
      }
    }
    return Ambiguous, ids;
  }

  /** The items of a name. */
  ghost function Named(items: Table, name: string, str: Text): set<int> {
    set id | id in items && TextOf(items[id], "name", str) == name
  }

  /** The outcome in terms of the set of items that match. */
  lemma OutcomeOf(items: Table, query: Query, str: Text, name: string, found: Lookup, ids: seq<int>, matching: set<int>)
    requires Resolved(items, query, str, name, true, found, ids) && Keyed(items) && PythonText(str) && name != ""
    requires forall id :: id in matching <==> id in items && Matches(items[id], query, str)
    ensures |matching| == 0 ==> found == Nothing
    ensures |matching| == 1 ==> exists id | id in matching :: found == Found(items[id])
    ensures |matching| > 1 ==>
              if exists id | id in matching :: name == Decimal(id)
              then exists id | id in matching :: name == Decimal(id) && found == Found(items[id])
              else found == Ambiguous
  {
    DistinctSize(ids);
    assert forall id: int :: id in ids <==> id in matching;
    assert Elems(ids) == matching;
    assert forall id | id in ids :: str(Get(items[id], "id")) == Decimal(id);
    assert |matching| == |ids|;
    if |ids| == 1 {
      var id := ids[0];
      assert id in ids && id in matching && found == Found(items[id]);
    }
  }

  /** A text taken for a name: found if one item has it, refused if several do. */
  ghost predicate MeansName(items: Table, str: Text, name: string, found: Lookup) {
    var named := Named(items, name, str);
    && (|named| == 0 ==> found == Nothing)
    && (|named| == 1 ==> exists id | id in named :: found == Found(items[id]))
    && (|named| > 1 ==> found == Ambiguous)
  }

  /** Looking up a text that no integer is read from. */
  lemma NameLookup(items: Table, str: Text, name: string, found: Lookup, ids: seq<int>)
    requires Keyed(items) && PythonText(str) && name != "" && ParseInt(name) == None
    requires Resolved(items, Requested(name, map[]), str, name, true, found, ids)
    ensures MeansName(items, str, name, found)
  {
    var named := Named(items, name, str);
    assert forall id | id in items :: Matches(items[id], Requested(name, map[]), str) <==> id in named;
    OutcomeOf(items, Requested(name, map[]), str, name, found, ids, named);
    forall id | id in named ensures name != Decimal(id) {
      ParseDecimal(id);
    }
  }

  lemma IntegerMatches(items: Table, str: Text, name: string, n: int, id: int)
    requires Keyed(items) && PythonText(str) && ParseInt(name) == Some(n) && id in items
    ensures Matches(items[id], Requested(name, map[]), str) <==> id in Named(items, name, str) || id == n
  {
    ParseDecimal(n);
    assert name != "";
    assert Get(items[id], "id") == Int(id);
  }

  /**
   Looking up an integer: the item of that id is found unless another item has the text for
   its name, and even then when the text is the id as it is written. Without such an item the
   text is a name.
   */
  lemma IntegerLookup(items: Table, str: Text, name: string, n: int, found: Lookup, ids: seq<int>)
    requires Keyed(items) && PythonText(str) && ParseInt(name) == Some(n)
    requires Resolved(items, Requested(name, map[]), str, name, true, found, ids)
    ensures n in items ==>
              found == if Named(items, name, str) <= {n} || name == Decimal(n) then Found(items[n]) else Ambiguous
    ensures n !in items ==> MeansName(items, str, name, found)
  {
    var named := Named(items, name, str);
    var matching := named + if n in items then {n} else {};
    forall id | id in items ensures Matches(items[id], Requested(name, map[]), str) <==> id in matching {
      IntegerMatches(items, str, name, n, id);
    }
    OutcomeOf(items, Requested(name, map[]), str, name, found, ids, matching);
    forall id | id in matching && name == Decimal(id) ensures id == n {
      ParseDecimal(id);
    }
    if n !in items {
      assert matching == named;
    } else if named <= {n} {
      assert matching == {n};
    } else {
      var other := Pick(named - {n});
      assert {n, other} <= matching;
      SubsetSize({n, other}, matching);
    }
  }
}
