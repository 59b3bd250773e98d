/** The request handlers in front of the store: the create rule (validation and price
    resolution) and the not-found mapping of get, update and delete. */
module StockController {
  import opened Types
  import opened Text
  import opened Store

  /** A numeric field of a JSON body: absent (`undefined`), `null`, or a number. */
  datatype JsonNumber = Missing | Null | Number(value: real)

  /** The body of a create request. String fields and quantity are `None` when absent or null. */
  datatype CreateRequest = CreateRequest(
    userId: Option<string>,
    itemType: Option<string>,
    species: Option<string>,
    quantity: Option<real>,
    unitPrice: JsonNumber,
    buyPrice: JsonNumber,
    sellPrice: JsonNumber,
    location: Option<string>,
    notes: Option<string>)

  /** Why a create request is refused, one case per early return. */
  datatype CreateError =
    | MissingRequiredField  // 400 'All required fields must be provided: ...'
    | MissingPrice          // 400 'Either unitPrice (legacy) or sellPrice must be provided'
    | InvalidType           // 400 'Type must be either "berry" or "mushroom"'
    | InvalidQuantity       // 400 'Quantity must be greater than 0'
    | NegativeUnitPrice     // 400 'Unit price must be greater than or equal to 0'
    | NegativeBuyPrice      // 400 'Buy price must be greater than or equal to 0'
    | NegativeSellPrice     // 400 'Sell price must be greater than or equal to 0'
    | UserNotFound          // 404 'User not found'

  /** The HTTP status a refusal is answered with: not-found is kept apart from validation errors. */
  function StatusCode(e: CreateError): (code: int)
    ensures code == 404 <==> e.UserNotFound?
    ensures code == 400 || code == 404
  {
    match e
    case UserNotFound => 404
    case _ => 400
  }

  /** JavaScript truthiness of a string field: present and not empty. */
  predicate Truthy(s: Option<string>) {
    s.Some? && s.value != ""
  }

  /** JavaScript truthiness of a number: present and not 0 (null is falsy). */
  predicate TruthyQuantity(q: Option<real>) {
    q.Some? && q.value != 0.0
  }

  predicate TruthyPrice(p: JsonNumber) {
    p.Number? && p.value != 0.0
  }

  /** `p !== undefined && p < 0`; `null < 0` is false. */
  predicate IsNegative(p: JsonNumber) {
    p.Number? && p.value < 0.0
  }

  /** `p || fallback`: the number wins exactly when it is a nonzero number. */
  function OrElse(p: JsonNumber, fallback: real): (r: real)
    ensures TruthyPrice(p) <==> p.Number? && r == p.value && r != 0.0
    ensures !TruthyPrice(p) ==> r == fallback
  {
    if TruthyPrice(p) then p.value else fallback
  }

  function TypeName(t: ItemType): string {
    match t
    case Berry => "berry"
    case Mushroom => "mushroom"
  }

  /** `['berry', 'mushroom'].includes(type)`, keeping the matched member. */
  function ParseType(s: string): (r: Option<ItemType>)
    ensures r.Some? <==> s == "berry" || s == "mushroom"
    ensures r.Some? ==> TypeName(r.value) == s
  {
    if s == "berry" then Some(Berry)
    else if s == "mushroom" then Some(Mushroom)
    else None
  }

  lemma TypeNameRoundTrip(t: ItemType)
    ensures ParseType(TypeName(t)) == Some(t)
  {
  }

  datatype Prices = Prices(buy: real, sell: real, unit: real)

  /** The backward-compatible defaults: buy `buyPrice || 0`, sell `sellPrice || unitPrice || 0`,
      stored unit price `unitPrice || sell`. */
  function ResolvePrices(unitPrice: JsonNumber, buyPrice: JsonNumber, sellPrice: JsonNumber): (p: Prices)
    ensures p.sell == 0.0 <==> !TruthyPrice(sellPrice) && !TruthyPrice(unitPrice)
    ensures p.unit == 0.0 <==> p.sell == 0.0
    ensures !IsNegative(unitPrice) && !IsNegative(buyPrice) && !IsNegative(sellPrice) ==>
      p.buy >= 0.0 && p.sell >= 0.0 && p.unit >= 0.0
  {
    var sell := OrElse(sellPrice, OrElse(unitPrice, 0.0));
    Prices(OrElse(buyPrice, 0.0), sell, OrElse(unitPrice, sell))
  }

  /** Field `i` is the first truthy one. */
  predicate FirstTruthy(fields: seq<JsonNumber>, i: int) {
    0 <= i < |fields| && TruthyPrice(fields[i]) && forall j :: 0 <= j < i ==> !TruthyPrice(fields[j])
  }

  /** The first nonzero number of a list of fields, or 0: the meaning of an `a || b || 0` chain. */
  function FirstNonzero(fields: seq<JsonNumber>): (r: real)
    ensures r != 0.0 ==> exists i :: 0 <= i < |fields| && fields[i] == Number(r)
    ensures (forall i :: 0 <= i < |fields| ==> !TruthyPrice(fields[i])) ==> r == 0.0
    ensures forall i :: FirstTruthy(fields, i) ==> r == fields[i].value
  {
    if fields == [] then 0.0
    else if TruthyPrice(fields[0]) then fields[0].value
    else FirstNonzero(fields[1..])
  }

  /** Each resolved price is the first nonzero field of its fallback chain. */
  lemma {:induction false} ResolvedPricesAreFirstNonzero(unitPrice: JsonNumber, buyPrice: JsonNumber, sellPrice: JsonNumber)
    ensures var p := ResolvePrices(unitPrice, buyPrice, sellPrice);
      p.buy == FirstNonzero([buyPrice])
      && p.sell == FirstNonzero([sellPrice, unitPrice])
      && p.unit == FirstNonzero([unitPrice, sellPrice])
  {
    assert [buyPrice][1..] == [];
    assert [sellPrice, unitPrice][1..] == [unitPrice];
    assert [unitPrice, sellPrice][1..] == [sellPrice];
    assert [unitPrice][1..] == [] && [sellPrice][1..] == [];
  }

  /** The stored unit price equals the sell price except when both a legacy unit price and a
      different sell price are given (both nonzero). */
  lemma UnitPriceFollowsSellPrice(unitPrice: JsonNumber, buyPrice: JsonNumber, sellPrice: JsonNumber)
    ensures var p := ResolvePrices(unitPrice, buyPrice, sellPrice);
      p.unit != p.sell <==> TruthyPrice(unitPrice) && TruthyPrice(sellPrice) && unitPrice.value != sellPrice.value
  {
  }

  /** A legacy body with only `unitPrice: 5` sells at 5 and buys at 0; a zero sell price counts as
      absent, so the legacy price fills in for it. */
  lemma LegacyPriceExamples()
    ensures ResolvePrices(Number(5.0), Missing, Missing) == Prices(0.0, 5.0, 5.0)
    ensures ResolvePrices(Number(5.0), Missing, Number(0.0)) == Prices(0.0, 5.0, 5.0)
    ensures ResolvePrices(Missing, Number(3.0), Number(8.0)) == Prices(3.0, 8.0, 8.0)
    ensures ResolvePrices(Null, Missing, Null) == Prices(0.0, 0.0, 0.0)
  {
  }

  /** The create rule: the guards in order, the first failing one decides the error; then the
      record to append, with prices resolved and text fields trimmed. */
  function ResolveCreate(req: CreateRequest, users: seq<User>): (r: Result<NewStockItem, CreateError>)
    ensures r.Success? ==>
      && r.value.quantity > 0.0
      && r.value.buyPrice >= 0.0 && r.value.sellPrice >= 0.0 && r.value.unitPrice >= 0.0
      && r.value.buyPrice == ResolvePrices(req.unitPrice, req.buyPrice, req.sellPrice).buy
      && r.value.sellPrice == ResolvePrices(req.unitPrice, req.buyPrice, req.sellPrice).sell
      && r.value.unitPrice == ResolvePrices(req.unitPrice, req.buyPrice, req.sellPrice).unit
      && r.value.userId in UserIds(users)
      && Some(r.value.userId) == req.userId
      && Some(TypeName(r.value.itemType)) == req.itemType
      && Some(r.value.quantity) == req.quantity
      && req.species.Some? && r.value.species == Trim(req.species.value)
      && req.location.Some? && r.value.location == Trim(req.location.value)
      && (req.notes.None? <==> r.value.notes.None?)
      && (req.notes.Some? ==> r.value.notes.value == Trim(req.notes.value))
  {
    if !Truthy(req.userId) || !Truthy(req.itemType) || !Truthy(req.species)
       || !TruthyQuantity(req.quantity) || !Truthy(req.location) then
      Failure(MissingRequiredField)
    else if req.unitPrice.Missing? && req.sellPrice.Missing? then
      Failure(MissingPrice)
    else if ParseType(req.itemType.value).None? then
      Failure(InvalidType)
    else if req.quantity.value <= 0.0 then
      Failure(InvalidQuantity)
    else if IsNegative(req.unitPrice) then
      Failure(NegativeUnitPrice)
    else if IsNegative(req.buyPrice) then
      Failure(NegativeBuyPrice)
    else if IsNegative(req.sellPrice) then
      Failure(NegativeSellPrice)
    else if FindUser(users, req.userId.value).None? then
      Failure(UserNotFound)
    else
      var prices := ResolvePrices(req.unitPrice, req.buyPrice, req.sellPrice);
      Success(NewStockItem(
        req.userId.value,
        ParseType(req.itemType.value).value,
        Trim(req.species.value),
        req.quantity.value,
        prices.unit,
        prices.buy,
        prices.sell,
        Trim(req.location.value),
        if req.notes.Some? then Some(Trim(req.notes.value)) else None))
  }

  /** The guards of the create rule as a list of (fails, error) checks, in source order. */
  function Guards(req: CreateRequest, users: seq<User>): (g: seq<(bool, CreateError)>)
    ensures |g| == 8
    ensures g[7] == (req.userId.None? || req.userId.value !in UserIds(users), UserNotFound)
    ensures forall i :: 0 <= i < 7 ==> StatusCode(g[i].1) == 400
  {
    [ (!Truthy(req.userId) || !Truthy(req.itemType) || !Truthy(req.species)
         || !TruthyQuantity(req.quantity) || !Truthy(req.location), MissingRequiredField),
      (req.unitPrice.Missing? && req.sellPrice.Missing?, MissingPrice),
      (req.itemType.None? || ParseType(req.itemType.value).None?, InvalidType),
      (req.quantity.None? || req.quantity.value <= 0.0, InvalidQuantity),
      (IsNegative(req.unitPrice), NegativeUnitPrice),
      (IsNegative(req.buyPrice), NegativeBuyPrice),
      (IsNegative(req.sellPrice), NegativeSellPrice),
      (req.userId.None? || req.userId.value !in UserIds(users), UserNotFound) ]
  }

  /** The error of the first failing check, if any. */
  function FirstFailure(checks: seq<(bool, CreateError)>): (r: Option<CreateError>)
    ensures r.None? <==> forall i :: 0 <= i < |checks| ==> !checks[i].0
    ensures r.Some? ==> exists i :: 0 <= i < |checks| && checks[i] == (true, r.value)
  {
    if checks == [] then None
    else if checks[0].0 then Some(checks[0].1)
    else FirstFailure(checks[1..])
  }

  /** The create rule refuses exactly when some guard fails, with the error of the first one,
      and succeeds exactly when every guard passes. */
  lemma {:induction false} FirstFailingGuardWins(req: CreateRequest, users: seq<User>)
    ensures match FirstFailure(Guards(req, users))
      case Some(e) => ResolveCreate(req, users) == Failure(e)
      case None => ResolveCreate(req, users).Success?
  {
    var g := Guards(req, users);
    if g[0].0 { FirstFailureAt(g, 0); }
    else if g[1].0 { FirstFailureAt(g, 1); }
    else if g[2].0 { FirstFailureAt(g, 2); }
    else if g[3].0 { FirstFailureAt(g, 3); }
    else if g[4].0 { FirstFailureAt(g, 4); }
    else if g[5].0 { FirstFailureAt(g, 5); }
    else if g[6].0 { FirstFailureAt(g, 6); }
    else if g[7].0 { FirstFailureAt(g, 7); }
    else { assert forall j :: 0 <= j < |g| ==> !g[j].0; }
  }

  /** The search stops at the first failing check. */
  lemma {:induction false} FirstFailureAt(checks: seq<(bool, CreateError)>, k: nat)
    requires k < |checks| && checks[k].0
    requires forall j :: 0 <= j < k ==> !checks[j].0
    ensures FirstFailure(checks) == Some(checks[k].1)
  {
    if k > 0 {
      FirstFailureAt(checks[1..], k - 1);
    }
  }

  /** Only the last check reads the store: every earlier check, and its error, is the same
      whatever users exist. */
  lemma ValidationIgnoresUsers(req: CreateRequest, users: seq<User>, others: seq<User>)
    ensures Guards(req, users)[..7] == Guards(req, others)[..7]
  {
  }

  /** A quantity of 0 is falsy, so it is refused by the required-field guard, not the
      quantity guard. */
  lemma ZeroQuantityIsMissingField(req: CreateRequest, users: seq<User>)
    requires req.quantity == Some(0.0)
    ensures ResolveCreate(req, users) == Failure(MissingRequiredField)
  {
  }

  /** A body without a sell price and without a legacy unit price is refused once the required
      fields are there, before the user is looked up. */
  lemma NoPriceIsRefused(req: CreateRequest, users: seq<User>)
    requires Truthy(req.userId) && Truthy(req.itemType) && Truthy(req.species)
    requires TruthyQuantity(req.quantity) && Truthy(req.location)
    requires req.unitPrice.Missing? && req.sellPrice.Missing?
    ensures ResolveCreate(req, users) == Failure(MissingPrice)
  {
  }

  /** The create handler: resolve the body against the current users, and append exactly one
      record when it is accepted; a refusal leaves the store as it was. */
  method CreateStockItem(store: DataStore, req: CreateRequest, id: string, now: Timestamp)
    returns (r: Result<StockItem, CreateError>)
    requires store.Valid() && id !in ItemIds(store.stockItems)
    modifies store
    ensures store.Valid() && store.users == old(store.users)
    ensures match ResolveCreate(req, old(store.users))
      case Failure(e) => r == Failure(e) && store.stockItems == old(store.stockItems)
      case Success(data) =>
        r == Success(Stamp(data, id, now)) && store.stockItems == old(store.stockItems) + [r.value]
  {
    var resolved := ResolveCreate(req, store.users);
    match resolved
    case Failure(e) =>
      r := Failure(e);
    case Success(data) =>
      var item := store.CreateStockItem(data, id, now);
      r := Success(item);
  }

  /** What a get, update or delete handler answers: the value, or 404 'Collecting item not found'. */
  datatype Reply<T> = Ok(value: T) | NotFound

  method GetStockItemById(store: DataStore, id: string) returns (r: Reply<StockItem>)
    ensures r.NotFound? <==> id !in ItemIds(store.stockItems)
    ensures r.Ok? ==> r.value.id == id && r.value == store.stockItems[IndexOfId(store.stockItems, id)]
  {
    var item := store.GetStockItemById(id);
    if item.None? {
      return NotFound;
    }
    r := Ok(item.value);
  }

  /** An update body as it arrives. Besides the patchable fields it may carry `id`, `userId` and
      `collectedAt`. */
  datatype UpdateBody = UpdateBody(
    id: Option<string>, userId: Option<string>, collectedAt: Option<Timestamp>, patch: StockItemPatch)

  /** The update as the handler performs it: the whole body is spread over the record, so an
      `id`, `userId` or `collectedAt` in the body replaces the record's own. */
  function MergeBodyAsWritten(item: StockItem, body: UpdateBody): (r: StockItem)
    ensures r.id == body.id.GetOr(item.id) && r.userId == body.userId.GetOr(item.userId)
    ensures r.collectedAt == body.collectedAt.GetOr(item.collectedAt)
    ensures body.id.None? && body.userId.None? && body.collectedAt.None? ==> r == Merge(item, body.patch)
    ensures var m := Merge(item, body.patch); r.(id := m.id, userId := m.userId, collectedAt := m.collectedAt) == m
  {
    Merge(item, body.patch).(id := body.id.GetOr(item.id), userId := body.userId.GetOr(item.userId),
                             collectedAt := body.collectedAt.GetOr(item.collectedAt))
  }

  const Picked := StockItem("a", "u", Berry, "bilberry", 500.0, 4.0, 0.0, 4.0, "forest", 0, None)
  const Other := StockItem("b", "u", Mushroom, "chanterelle", 300.0, 9.0, 2.0, 9.0, "bog", 1, None)

  /** Updating record "a" with the body `{ id: "b" }` leaves two records with id "b". */
  lemma AsWrittenUpdateDuplicatesIds()
    ensures var before := [Picked, Other];
      var after := before[0 := MergeBodyAsWritten(Picked, UpdateBody(Some("b"), None, None, EmptyPatch))];
      UniqueItemIds(before) && !UniqueItemIds(after)
  {
    var after := [Picked, Other][0 := MergeBodyAsWritten(Picked, UpdateBody(Some("b"), None, None, EmptyPatch))];
    assert after[0].id == after[1].id;
  }

  /** The update handler, passing only the patchable fields to the store, so that a record keeps
      its id and owner and ids stay unique. */
  method UpdateStockItem(store: DataStore, id: string, body: UpdateBody) returns (r: Reply<StockItem>)
    requires store.Valid()
    modifies store
    ensures store.Valid() && store.users == old(store.users)
    ensures r.NotFound? <==> id !in ItemIds(old(store.stockItems))
    ensures r.NotFound? ==> store.stockItems == old(store.stockItems)
    ensures r.Ok? ==>
      var i := IndexOfId(old(store.stockItems), id);
      r.value == Merge(old(store.stockItems)[i], body.patch)
      && r.value.id == id && r.value.userId == old(store.stockItems)[i].userId
      && store.stockItems == old(store.stockItems)[i := r.value]
  {
    var updated := store.UpdateStockItem(id, body.patch);
    if updated.None? {
      return NotFound;
    }
    r := Ok(updated.value);
  }

  method DeleteStockItem(store: DataStore, id: string) returns (r: Reply<()>)
    requires store.Valid()
    modifies store
    ensures store.Valid() && store.users == old(store.users)
    ensures r.NotFound? <==> id !in ItemIds(old(store.stockItems))
    ensures r.NotFound? ==> store.stockItems == old(store.stockItems)
    ensures r.Ok? ==> store.stockItems == RemoveAt(old(store.stockItems), IndexOfId(old(store.stockItems), id))
  {
    var deleted := store.DeleteStockItem(id);
    if !deleted {
      return NotFound;
    }
    r := Ok(());
  }

  /** Which listing `getStockItems` asks the store for: a user's items (optionally for a year,
      still as query text), or every item. */
  datatype Listing = AllItems | UserItems(userId: string, year: Option<string>)

  function ChooseListing(userId: Option<string>, year: Option<string>): (l: Listing)
    ensures l.AllItems? <==> !Truthy(userId)
    ensures l.UserItems? ==> Some(l.userId) == userId && l.userId != ""
    ensures l.UserItems? ==> (l.year.Some? <==> Truthy(year)) && (l.year.Some? ==> l.year == year)
  {
    if Truthy(userId) then UserItems(userId.value, if Truthy(year) then year else None)
    else AllItems
  }

  /** The all-items branch of the listing handler. */
  method GetStockItems(store: DataStore, userId: Option<string>) returns (items: Option<seq<StockItem>>)
    ensures items.Some? <==> !Truthy(userId)
    ensures items.Some? ==> items.value == store.stockItems
  {
    if ChooseListing(userId, None).AllItems? {
      var all := store.GetAllStockItems();
      return Some(all);
    }
    return None;
  }

  /** The required-field guard looks at the text before trimming, so a species made only of white
      space passes it and is stored as the empty string; the same holds for the location. */
  lemma BlankTextIsStoredEmpty(req: CreateRequest, users: seq<User>)
    requires ResolveCreate(req, users).Success?
    ensures ResolveCreate(req, users).value.species == "" <==> Blank(req.species.value, 0, |req.species.value|)
    ensures ResolveCreate(req, users).value.location == "" <==> Blank(req.location.value, 0, |req.location.value|)
  {
    TrimEmptyIffBlank(req.species.value);
    TrimEmptyIffBlank(req.location.value);
  }

  /** Creating for a user that exists and a body that passes every guard, then reading the new id
      back, finds the record; a refused body leaves nothing to find. */
  lemma CreatedRecordIsFound(items: seq<StockItem>, users: seq<User>, req: CreateRequest, id: string, now: Timestamp)
    requires id !in ItemIds(items)
    requires ResolveCreate(req, users).Success?
    ensures var item := Stamp(ResolveCreate(req, users).value, id, now);
      FindItem(items + [item], id) == Some(item)
  {
    CreatedItemIsFound(items, Stamp(ResolveCreate(req, users).value, id, now));
  }
}
