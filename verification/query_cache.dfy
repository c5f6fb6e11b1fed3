/**
 * The slice of the react-query client cache the dashboard touches: entries keyed by
 * query key, each holding the last data (if any) and a staleness mark.
 */
module QueryCache {
  import opened Wrappers

  datatype QueryKey =
    | AgentsKey                        // ["agents"]
    | AgentKey(id: Option<string>)     // ["agent", id]
    | ConversationKey(id: Option<string>)
    | PrCommentsKey(url: string)       // ["pr-comments", url]
    | PrStatusKey(url: string)         // ["pr-status", url]

  datatype Entry<V> = Entry(data: Option<V>, stale: bool)

  type Cache<V> = map<QueryKey, Entry<V>>

  /** `getQueryData(key)`: the entry's data, or nothing when the key has no entry. */
  function GetQueryData<V>(cache: Cache<V>, key: QueryKey): (r: Option<V>)
    ensures r.Some? <==> key in cache && cache[key].data.Some?
    ensures r.Some? ==> r.value == cache[key].data.value
  {
    if key in cache then cache[key].data else None
  }

  /** `setQueryData(key, data)`: the key now holds fresh data and nothing else changes. */
  function SetQueryData<V>(cache: Cache<V>, key: QueryKey, data: V): (r: Cache<V>)
    ensures GetQueryData(r, key) == Some(data) && !r[key].stale
    ensures r.Keys == cache.Keys + {key}
    ensures forall k :: k in cache && k != key ==> r[k] == cache[k]
  {
    cache[key := Entry(Some(data), false)]
  }

  /** `invalidateQueries({queryKey: ["pr-status"]})`: every PR-status entry is marked stale, keeping its data. */
  function InvalidatePrStatuses<V>(cache: Cache<V>): (r: Cache<V>)
    ensures r.Keys == cache.Keys
    ensures forall k :: k in cache && k.PrStatusKey? ==> r[k] == cache[k].(stale := true)
    ensures forall k :: k in cache && !k.PrStatusKey? ==> r[k] == cache[k]
  {
    map k | k in cache :: if k.PrStatusKey? then cache[k].(stale := true) else cache[k]
  }

  /** `removeQueries({queryKey: ["pr-comments"]})`: every PR-comments entry is dropped. */
  function RemovePrComments<V>(cache: Cache<V>): (r: Cache<V>)
    ensures forall k :: k in r <==> k in cache && !k.PrCommentsKey?
    ensures forall k :: k in r ==> r[k] == cache[k]
  {
    map k | k in cache && !k.PrCommentsKey? :: cache[k]
  }
}
