/** The relay list cached on disk (lines 96-142): `fetchRelays` stores the
    list with the current time in front of it, `loadRelays` accepts it back
    only while that time is less than twelve hours old. The file, the JSON
    encoding and the clock are outside the model: the cache is the decoded
    list and the time is a parameter. */
module RelayCache {
  import opened Wrappers
  import opened RelayFilter

  /** One element of the cached JSON list. */
  datatype Item = Number(n: real) | Flag(b: bool) | Text(s: string) | Entry(relay: Relay) | Null

  /** Twelve hours, in seconds. */
  const MAX_AGE: real := 43200.0

  /** Why `loadRelays` raises (and `getRelays` fetches instead). */
  datatype LoadError = EmptyList | NotATimestamp | Stale

  /** `isinstance(x, (float, int))` and the number it stands for; a JSON
      `true` or `false` is a Python `bool`, which is an `int`. */
  function Timestamp(item: Item): Option<real>
  {
    match item
    case Number(n) => Some(n)
    case Flag(b) => Some(if b then 1.0 else 0.0)
    case _ => None
  }

  /** `loadRelays` once the file is read: check the timestamp in front, then
      delete it from the list. */
  method LoadRelays(cache: seq<Item>, now: real) returns (res: Result<seq<Item>, LoadError>)
    ensures cache == [] ==> res == Failure(EmptyList)
    ensures cache != [] && Timestamp(cache[0]).None? ==> res == Failure(NotATimestamp)
    ensures cache != [] && Timestamp(cache[0]).Some? && now - Timestamp(cache[0]).value >= MAX_AGE ==> res == Failure(Stale)
    ensures res.Success? <==> Fresh(cache, now)
    ensures res.Success? ==> |res.value| == |cache| - 1 && forall i :: 0 <= i < |res.value| ==> res.value[i] == cache[i + 1]
  {
    var relays := cache;
    if relays == [] {
      return Failure(EmptyList);
    }
    var stamp := Timestamp(relays[0]);
    if stamp.None? {
      return Failure(NotATimestamp);
    }
    if now - stamp.value >= MAX_AGE {
      return Failure(Stale);
    }
    relays := relays[1..];
    return Success(relays);
  }

  /** The cache `loadRelays` accepts. */
  predicate Fresh(cache: seq<Item>, now: real)
  {
    cache != [] && Timestamp(cache[0]).Some? && now - Timestamp(cache[0]).value < MAX_AGE
  }

  /** What `fetchRelays` writes: the time of the fetch, then the relays. */
  function StoreRelays(relays: seq<Item>, stamp: real): (cache: seq<Item>)
    ensures |cache| == |relays| + 1
    ensures Timestamp(cache[0]) == Some(stamp) && cache[1..] == relays
  {
    [Number(stamp)] + relays
  }

  /** A stored list is accepted back for exactly twelve hours after it was
      stored, and then gives the list that was stored. */
  lemma {:induction false} StoreThenLoad(relays: seq<Item>, stamp: real, now: real)
    ensures Fresh(StoreRelays(relays, stamp), now) <==> now - stamp < MAX_AGE
    ensures StoreRelays(relays, stamp)[1..] == relays
  {
  }

  /** `getRelays`: the cached list when it is accepted, the fetched one
      otherwise (a missing or unreadable file is `None`). */
  function GetRelays(file: Option<seq<Item>>, now: real, fetched: seq<Item>): (rs: seq<Item>)
    ensures (file.Some? && file.value != [] && Timestamp(file.value[0]).Some?
             && now - Timestamp(file.value[0]).value < MAX_AGE) ==> rs == file.value[1..]
    ensures (file.None? || file.value == [] || Timestamp(file.value[0]).None?
             || now - Timestamp(file.value[0]).value >= MAX_AGE) ==> rs == fetched
  {
    if file.Some? && Fresh(file.value, now) then file.value[1..] else fetched
  }

  /** Within twelve hours of a fetch, the next run reuses what was fetched;
      afterwards it fetches again. */
  lemma {:induction false} CacheReuse(relays: seq<Item>, stamp: real, now: real, fetched: seq<Item>)
    ensures GetRelays(Some(StoreRelays(relays, stamp)), now, fetched)
         == if now - stamp < MAX_AGE then relays else fetched
  {
    StoreThenLoad(relays, stamp, now);
  }
}
