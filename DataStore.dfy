/** The in-memory store: two lists, users and stock items, updated in place. */
module Store {
  import opened Types

  ghost predicate UniqueUserIds(users: seq<User>) {
    forall i, j :: 0 <= i < j < |users| ==> users[i].id != users[j].id
  }

  ghost predicate UniqueItemIds(items: seq<StockItem>) {
    forall i, j :: 0 <= i < j < |items| ==> items[i].id != items[j].id
  }

  function UserIds(users: seq<User>): set<string> {
    set u | u in users :: u.id
  }

  function ItemIds(items: seq<StockItem>): set<string> {
    set x | x in items :: x.id
  }

  /** Index of the first user with this id, or -1 when there is none. */
  function UserIndex(users: seq<User>, id: string): (r: int)
    ensures -1 <= r < |users|
    ensures r == -1 <==> id !in UserIds(users)
    ensures r != -1 ==> users[r].id == id && forall k :: 0 <= k < r ==> users[k].id != id
  {
    if users == [] then -1
    else if users[0].id == id then 0
    else
      var r := UserIndex(users[1..], id);
      if r == -1 then -1 else r + 1
  }

  /** `users.find(user => user.id === id)` */
  function FindUser(users: seq<User>, id: string): (r: Option<User>)
    ensures r.None? <==> id !in UserIds(users)
    ensures r.Some? ==> r.value in users && r.value.id == id
  {
    var i := UserIndex(users, id);
    if i == -1 then None else Some(users[i])
  }

  /** `stockItems.findIndex(item => item.id === id)`: the first match, or -1. */
  function IndexOfId(items: seq<StockItem>, id: string): (r: int)
    ensures -1 <= r < |items|
    ensures r == -1 <==> id !in ItemIds(items)
    ensures r != -1 ==> items[r].id == id && forall k :: 0 <= k < r ==> items[k].id != id
  {
    if items == [] then -1
    else if items[0].id == id then 0
    else
      var r := IndexOfId(items[1..], id);
      if r == -1 then -1 else r + 1
  }

  /** `stockItems.find(item => item.id === id)` */
  function FindItem(items: seq<StockItem>, id: string): (r: Option<StockItem>)
    ensures r.None? <==> id !in ItemIds(items)
    ensures r.Some? ==> r.value in items && r.value.id == id
  {
    var i := IndexOfId(items, id);
    if i == -1 then None else Some(items[i])
  }

  /** `stockItems.filter(item => item.userId === userId)` */
  function ItemsOfUser(items: seq<StockItem>, userId: string): (r: seq<StockItem>)
    ensures |r| <= |items|
    ensures forall x :: x in r <==> x in items && x.userId == userId
  {
    if items == [] then []
    else (if items[0].userId == userId then [items[0]] else []) + ItemsOfUser(items[1..], userId)
  }

  /** The record `createStockItem` builds: a fresh id, the data spread in, the creation time. */
  function Stamp(data: NewStockItem, id: string, now: Timestamp): (item: StockItem)
    ensures item.id == id && item.collectedAt == now
  {
    StockItem(id, data.userId, data.itemType, data.species, data.quantity, data.unitPrice,
              data.buyPrice, data.sellPrice, data.location, now, data.notes)
  }

  /** The caller-supplied part of a stored record (`Omit<StockItem, 'id' | 'collectedAt'>`). */
  function DataOf(item: StockItem): NewStockItem {
    NewStockItem(item.userId, item.itemType, item.species, item.quantity, item.unitPrice,
                 item.buyPrice, item.sellPrice, item.location, item.notes)
  }

  /** `{ ...item, ...patch }`: every field the patch carries wins; identity fields are not in a patch. */
  function Merge(item: StockItem, patch: StockItemPatch): (r: StockItem)
    ensures r.id == item.id && r.userId == item.userId && r.collectedAt == item.collectedAt
  {
    item.(itemType := patch.itemType.GetOr(item.itemType),
          species := patch.species.GetOr(item.species),
          quantity := patch.quantity.GetOr(item.quantity),
          unitPrice := patch.unitPrice.GetOr(item.unitPrice),
          buyPrice := patch.buyPrice.GetOr(item.buyPrice),
          sellPrice := patch.sellPrice.GetOr(item.sellPrice),
          location := patch.location.GetOr(item.location),
          notes := if patch.notes.Some? then patch.notes else item.notes)
  }

  /** Spreading `p` and then `q`: the fields of `q` win over those of `p`. */
  function ThenPatch(p: StockItemPatch, q: StockItemPatch): StockItemPatch {
    StockItemPatch(
      if q.itemType.Some? then q.itemType else p.itemType,
      if q.species.Some? then q.species else p.species,
      if q.quantity.Some? then q.quantity else p.quantity,
      if q.unitPrice.Some? then q.unitPrice else p.unitPrice,
      if q.buyPrice.Some? then q.buyPrice else p.buyPrice,
      if q.sellPrice.Some? then q.sellPrice else p.sellPrice,
      if q.location.Some? then q.location else p.location,
      if q.notes.Some? then q.notes else p.notes)
  }

  /** `items.splice(index, 1)` */
  function RemoveAt(items: seq<StockItem>, index: nat): (r: seq<StockItem>)
    requires index < |items|
    ensures |r| == |items| - 1
    ensures multiset(r) + multiset{items[index]} == multiset(items)
    ensures forall k :: 0 <= k < |r| ==> r[k] == items[if k < index then k else k + 1]
  {
    assert items == items[..index] + [items[index]] + items[index + 1..];
    items[..index] + items[index + 1..]
  }

  class DataStore {
    var users: seq<User>
    var stockItems: seq<StockItem>

    /** Ids are unique in both lists, as fresh uuids make them. */
    ghost predicate Valid()
      reads this
    {
      UniqueUserIds(users) && UniqueItemIds(stockItems)
    }

    constructor ()
      ensures Valid() && users == [] && stockItems == []
    {
      users := [];
      stockItems := [];
    }

    /** Appends a user with a fresh `id` (a uuid) created at `now`. */
    method CreateUser(name: string, id: string, now: Timestamp) returns (user: User)
      requires Valid() && id !in UserIds(users)
      modifies this
      ensures Valid()
      ensures user == User(id, name, now)
      ensures users == old(users) + [user] && stockItems == old(stockItems)
    {
      user := User(id, name, now);
      users := users + [user];
    }

    method GetUserById(id: string) returns (user: Option<User>)
      ensures user == FindUser(users, id)
    {
      var i := 0;
      while i < |users|
        invariant 0 <= i <= |users|
        invariant forall k :: 0 <= k < i ==> users[k].id != id
      {
        if users[i].id == id {
          return Some(users[i]);
        }
        i := i + 1;
      }
      return None;
    }

    /** `[...this.users]`: a copy that later updates of the store do not reach. */
    method GetAllUsers() returns (all: seq<User>)
      ensures all == users
    {
      all := users;
    }

    /** Appends the data as a new record with a fresh `id` (a uuid) and `collectedAt = now`. */
    method CreateStockItem(data: NewStockItem, id: string, now: Timestamp) returns (item: StockItem)
      requires Valid() && id !in ItemIds(stockItems)
      modifies this
      ensures Valid()
      ensures item == Stamp(data, id, now)
      ensures stockItems == old(stockItems) + [item] && users == old(users)
    {
      item := Stamp(data, id, now);
      stockItems := stockItems + [item];
    }

    method GetStockItemsByUser(userId: string) returns (items: seq<StockItem>)
      ensures items == ItemsOfUser(stockItems, userId)
    {
      items := [];
      var i := 0;
      while i < |stockItems|
        invariant 0 <= i <= |stockItems|
        invariant items == ItemsOfUser(stockItems[..i], userId)
      {
        assert stockItems[..i + 1] == stockItems[..i] + [stockItems[i]];
        ItemsOfUserAppend(stockItems[..i], [stockItems[i]], userId);
        if stockItems[i].userId == userId {
          items := items + [stockItems[i]];
        }
        i := i + 1;
      }
      assert stockItems[..i] == stockItems;
    }

    /** `[...this.stockItems]` */
    method GetAllStockItems() returns (all: seq<StockItem>)
      ensures all == stockItems
    {
      all := stockItems;
    }

    method IndexOf(id: string) returns (index: int)
      ensures index == IndexOfId(stockItems, id)
    {
      index := 0;
      while index < |stockItems|
        invariant 0 <= index <= |stockItems|
        invariant forall k :: 0 <= k < index ==> stockItems[k].id != id
      {
        if stockItems[index].id == id {
          return;
        }
        index := index + 1;
      }
      index := -1;
    }

    method GetStockItemById(id: string) returns (item: Option<StockItem>)
      ensures item == FindItem(stockItems, id)
    {
      var index := IndexOf(id);
      item := if index == -1 then None else Some(stockItems[index]);
    }

    /** Merges the patch into the first record with this id; `None` (null) when there is none. */
    method UpdateStockItem(id: string, patch: StockItemPatch) returns (updated: Option<StockItem>)
      requires Valid()
      modifies this
      ensures Valid() && users == old(users)
      ensures IndexOfId(old(stockItems), id) == -1 ==> updated.None? && stockItems == old(stockItems)
      ensures var i := IndexOfId(old(stockItems), id);
        i != -1 ==>
          updated == Some(Merge(old(stockItems)[i], patch)) && stockItems == old(stockItems)[i := updated.value]
    {
      var index := IndexOf(id);
      if index == -1 {
        return None;
      }
      stockItems := stockItems[index := Merge(stockItems[index], patch)];
      updated := Some(stockItems[index]);
      MergeKeepsIds(old(stockItems), index, patch);
    }

    /** Removes the first record with this id and tells whether there was one. */
    method DeleteStockItem(id: string) returns (deleted: bool)
      requires Valid()
      modifies this
      ensures Valid() && users == old(users)
      ensures var i := IndexOfId(old(stockItems), id);
        deleted == (i != -1)
        && stockItems == if i == -1 then old(stockItems) else RemoveAt(old(stockItems), i)
    {
      var index := IndexOf(id);
      if index == -1 {
        return false;
      }
      stockItems := RemoveAt(stockItems, index);
      deleted := true;
    }
  }

  /** Filtering distributes over concatenation, so it keeps the store's order. */
  lemma {:induction false} ItemsOfUserAppend(a: seq<StockItem>, b: seq<StockItem>, userId: string)
    ensures ItemsOfUser(a + b, userId) == ItemsOfUser(a, userId) + ItemsOfUser(b, userId)
  {
    if a == [] {
      assert a + b == b;
    } else {
      assert (a + b)[1..] == a[1..] + b;
      ItemsOfUserAppend(a[1..], b, userId);
    }
  }

  /** A record created for `userId` shows up last in that user's list; other users' lists do not change. */
  lemma ItemsOfUserAfterCreate(items: seq<StockItem>, item: StockItem, userId: string)
    ensures ItemsOfUser(items + [item], userId)
      == ItemsOfUser(items, userId) + (if item.userId == userId then [item] else [])
  {
    ItemsOfUserAppend(items, [item], userId);
    assert [item][1..] == [];
  }

  /** A user appended with a fresh id is what a lookup of that id finds. */
  lemma {:induction false} CreatedUserIsFound(users: seq<User>, user: User)
    requires user.id !in UserIds(users)
    ensures FindUser(users + [user], user.id) == Some(user)
  {
    var all := users + [user];
    assert all[|users|] == user;
    forall k | 0 <= k < |users| ensures all[k].id != user.id {
      assert all[k] == users[k];
    }
    assert UserIndex(all, user.id) == |users|;
  }

  /** A record appended with a fresh id is what a lookup of that id finds. */
  lemma {:induction false} CreatedItemIsFound(items: seq<StockItem>, item: StockItem)
    requires item.id !in ItemIds(items)
    ensures FindItem(items + [item], item.id) == Some(item)
  {
    var all := items + [item];
    forall k | 0 <= k < |items| ensures all[k].id != item.id {
      assert all[k] == items[k];
    }
    assert IndexOfId(all, item.id) == |items|;
  }

  /** Creating a record keeps the previous records and their ids, and the new id joins them. */
  lemma CreateKeepsIdsUnique(items: seq<StockItem>, item: StockItem)
    requires UniqueItemIds(items) && item.id !in ItemIds(items)
    ensures UniqueItemIds(items + [item])
    ensures ItemIds(items + [item]) == ItemIds(items) + {item.id}
  {
    var all := items + [item];
    forall i, j | 0 <= i < j < |all| ensures all[i].id != all[j].id {
      if j == |items| {
        assert all[i] in items;
      }
    }
  }

  /** Patching one record keeps every id where it was, so ids stay unique. */
  lemma MergeKeepsIds(items: seq<StockItem>, index: nat, patch: StockItemPatch)
    requires index < |items|
    ensures var after := items[index := Merge(items[index], patch)];
      ItemIds(after) == ItemIds(items)
      && (UniqueItemIds(items) ==> UniqueItemIds(after))
  {
    var after := items[index := Merge(items[index], patch)];
    forall x | x in ItemIds(after) ensures x in ItemIds(items) {
      var k :| 0 <= k < |after| && after[k].id == x;
      assert items[k].id == x;
    }
    forall x | x in ItemIds(items) ensures x in ItemIds(after) {
      var k :| 0 <= k < |items| && items[k].id == x;
      assert after[k].id == x;
    }
  }

  /** Deleting the record found for `id` from a list with unique ids takes exactly that id out
      and keeps the others unique. */
  lemma DeleteRemovesOnlyThatId(items: seq<StockItem>, id: string)
    requires UniqueItemIds(items) && IndexOfId(items, id) != -1
    ensures var after := RemoveAt(items, IndexOfId(items, id));
      ItemIds(after) == ItemIds(items) - {id} && UniqueItemIds(after)
  {
    var i := IndexOfId(items, id);
    RemovedIds(items, i);
    RemovedStayUnique(items, i);
  }

  /** The ids left after removing index `i` from a list with unique ids. */
  lemma RemovedIds(items: seq<StockItem>, i: nat)
    requires UniqueItemIds(items) && i < |items|
    ensures ItemIds(RemoveAt(items, i)) == ItemIds(items) - {items[i].id}
  {
    var after := RemoveAt(items, i);
    forall x | x in ItemIds(after) ensures x in ItemIds(items) - {items[i].id} {
      var k :| 0 <= k < |after| && after[k].id == x;
      var k' := if k < i then k else k + 1;
      assert after[k] == items[k'];
    }
    forall x | x in ItemIds(items) - {items[i].id} ensures x in ItemIds(after) {
      var k :| 0 <= k < |items| && items[k].id == x;
      var k' := if k < i then k else k - 1;
      assert after[k'] == items[k];
    }
  }

  /** Removing one record keeps the remaining ids pairwise distinct. */
  lemma RemovedStayUnique(items: seq<StockItem>, i: nat)
    requires UniqueItemIds(items) && i < |items|
    ensures UniqueItemIds(RemoveAt(items, i))
  {
    var after := RemoveAt(items, i);
    forall a, b | 0 <= a < b < |after| ensures after[a].id != after[b].id {
      var a' := if a < i then a else a + 1;
      var b' := if b < i then b else b + 1;
      assert after[a] == items[a'] && after[b] == items[b'];
    }
  }

  /** Without the unique-id invariant only the first match goes: the id is still present
      afterwards exactly when a later record carries it too. */
  lemma DeleteRemovesFirstMatch(items: seq<StockItem>, id: string)
    requires IndexOfId(items, id) != -1
    ensures var i := IndexOfId(items, id);
      id in ItemIds(RemoveAt(items, i)) <==> exists k :: i < k < |items| && items[k].id == id
  {
    var i := IndexOfId(items, id);
    RemovedFirstMatch(items, i, id);
  }

  lemma RemovedFirstMatch(items: seq<StockItem>, i: nat, id: string)
    requires i < |items| && items[i].id == id
    requires forall k :: 0 <= k < i ==> items[k].id != id
    ensures id in ItemIds(RemoveAt(items, i)) <==> exists k :: i < k < |items| && items[k].id == id
  {
    var after := RemoveAt(items, i);
    if id in ItemIds(after) {
      var k :| 0 <= k < |after| && after[k].id == id;
      assert k >= i;
      assert after[k] == items[k + 1];
    }
    if exists k :: i < k < |items| && items[k].id == id {
      var k :| i < k < |items| && items[k].id == id;
      assert after[k - 1] == items[k];
    }
  }

  /** The patch carrying nothing leaves the record as it is. */
  lemma MergeEmptyPatch(item: StockItem)
    ensures Merge(item, EmptyPatch) == item
  {
  }

  /** Every field the patch carries already holds that value in the record. */
  predicate Agrees(item: StockItem, patch: StockItemPatch) {
    && (patch.itemType.Some? ==> patch.itemType.value == item.itemType)
    && (patch.species.Some? ==> patch.species.value == item.species)
    && (patch.quantity.Some? ==> patch.quantity.value == item.quantity)
    && (patch.unitPrice.Some? ==> patch.unitPrice.value == item.unitPrice)
    && (patch.buyPrice.Some? ==> patch.buyPrice.value == item.buyPrice)
    && (patch.sellPrice.Some? ==> patch.sellPrice.value == item.sellPrice)
    && (patch.location.Some? ==> patch.location.value == item.location)
    && (patch.notes.Some? ==> patch.notes == item.notes)
  }

  /** A merge changes nothing exactly when the patch agrees with the record; the merged record
      always agrees with the patch, so the carried fields win, and every field the patch does not
      carry keeps its old value. */
  lemma MergeChangesOnlyCarriedFields(item: StockItem, patch: StockItemPatch)
    ensures Merge(item, patch) == item <==> Agrees(item, patch)
    ensures Agrees(Merge(item, patch), patch)
    ensures var r := Merge(item, patch);
      && (patch.itemType.None? ==> r.itemType == item.itemType)
      && (patch.species.None? ==> r.species == item.species)
      && (patch.quantity.None? ==> r.quantity == item.quantity)
      && (patch.unitPrice.None? ==> r.unitPrice == item.unitPrice)
      && (patch.buyPrice.None? ==> r.buyPrice == item.buyPrice)
      && (patch.sellPrice.None? ==> r.sellPrice == item.sellPrice)
      && (patch.location.None? ==> r.location == item.location)
      && (patch.notes.None? ==> r.notes == item.notes)
  {
  }

  /** Merging two patches in turn is merging their combination: later fields win. */
  lemma MergeThen(item: StockItem, p: StockItemPatch, q: StockItemPatch)
    ensures Merge(Merge(item, p), q) == Merge(item, ThenPatch(p, q))
  {
  }

  /** Re-applying the same patch changes nothing. */
  lemma MergeIdempotent(item: StockItem, patch: StockItemPatch)
    ensures Merge(Merge(item, patch), patch) == Merge(item, patch)
  {
  }

  /** Stamping and then taking the caller's part back gives the data; a record is its own stamp. */
  lemma StampRoundTrip(data: NewStockItem, id: string, now: Timestamp, item: StockItem)
    ensures DataOf(Stamp(data, id, now)) == data
    ensures Stamp(DataOf(item), item.id, item.collectedAt) == item
  {
  }
}
