/** Record shapes shared by the store and the stock controller. */
module Types {

  datatype Option<T> = None | Some(value: T) {
    /** `value ?? default` */
    function GetOr(default: T): T {
      if Some? then value else default
    }
  }

  datatype Result<T, E> = Success(value: T) | Failure(error: E)

  /** A `Date`, as milliseconds since the epoch. */
  type Timestamp = int

  /** The `'berry' | 'mushroom'` union. */
  datatype ItemType = Berry | Mushroom

  /** A user as `DataStore.createUser` builds it: an id, the given name and a creation time. */
  datatype User = User(id: string, name: string, createdAt: Timestamp)

  /** A stored collecting record, with the price fields the controller writes. */
  datatype StockItem = StockItem(
    id: string,
    userId: string,
    itemType: ItemType,
    species: string,
    quantity: real,
    unitPrice: real,
    buyPrice: real,
    sellPrice: real,
    location: string,
    collectedAt: Timestamp,
    notes: Option<string>)

  /** What `createStockItem` receives: a stock item without `id` and `collectedAt`. */
  datatype NewStockItem = NewStockItem(
    userId: string,
    itemType: ItemType,
    species: string,
    quantity: real,
    unitPrice: real,
    buyPrice: real,
    sellPrice: real,
    location: string,
    notes: Option<string>)

  /** A partial update: every field but `id`, `userId` and `collectedAt`, each optional. */
  datatype StockItemPatch = StockItemPatch(
    itemType: Option<ItemType>,
    species: Option<string>,
    quantity: Option<real>,
    unitPrice: Option<real>,
    buyPrice: Option<real>,
    sellPrice: Option<real>,
    location: Option<string>,
    notes: Option<string>)

  const EmptyPatch := StockItemPatch(None, None, None, None, None, None, None, None)
}
