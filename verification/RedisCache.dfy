/** The cache in front of the ledger, as a key-value store whose entries may vanish at any time. */
module RedisCacheModel {
  import opened Tables
  import opened Visibility

  datatype CacheKey =
    | InventoryKey(warehouse: WarehouseId, sku: SkuId)
    | NetworkKey(sku: SkuId)
    | SafetyStockKey(warehouse: WarehouseId, sku: SkuId)
    | RoutingKey(order: OrderId)
    | ForecastKey(warehouse: WarehouseId, sku: SkuId)

  type Entry = seq<VisibleStock>
  type Store = map<CacheKey, Entry>

  function InventoryKeys(w: WarehouseId, k: SkuId): set<CacheKey> {
    {InventoryKey(w, k), NetworkKey(k), SafetyStockKey(w, k)}
  }

  /** The keys `inv:{w}:*` matches. */
  function InventoryPattern(store: Store, w: WarehouseId): set<CacheKey> {
    set key | key in store && key.InventoryKey? && key.warehouse == w
  }

  /** The keys `netvis:*` matches. */
  function NetworkPattern(store: Store): set<CacheKey> {
    set key | key in store && key.NetworkKey?
  }

  class RedisCache {
    var store: Store

    constructor ()
      ensures store == map[]
    {
      store := map[];
    }

    method Get(key: CacheKey) returns (value: Option<Entry>)
      ensures value == if key in store then Some(store[key]) else None
    {
      value := if key in store then Some(store[key]) else None;
    }

    method Put(key: CacheKey, value: Entry)
      modifies this
      ensures store == old(store)[key := value]
    {
      store := store[key := value];
    }

    method InvalidateInventory(w: WarehouseId, k: SkuId)
      modifies this
      ensures store == old(store) - InventoryKeys(w, k)
      ensures forall key :: key in store <==>
                key in old(store) && key !in {InventoryKey(w, k), NetworkKey(k), SafetyStockKey(w, k)}
    {
      store := store - {InventoryKey(w, k), NetworkKey(k), SafetyStockKey(w, k)};
    }

    /** Scans for the matching keys, deletes each, and reports how many there were. */
    method InvalidateAll(keys: set<CacheKey>) returns (count: nat)
      requires keys <= store.Keys
      modifies this
      ensures store == old(store) - keys && count == |keys|
    {
      count := 0;
      var left := keys;
      while left != {}
        invariant left <= keys
        invariant store == old(store) - (keys - left)
        invariant count == |keys| - |left|
        decreases left
      {
        var key :| key in left;
        left := left - {key};
        store := store - {key};
        count := count + 1;
      }
    }

    method Expire(key: CacheKey)
      modifies this
      ensures store == old(store) - {key}
    {
      store := store - {key};
    }
  }
}
