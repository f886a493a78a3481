/** The keyed record store that both in-memory `Cache` types implement,
    written as transitions on the map from identifier to record, together
    with the pagination of the in-memory `GetAll`. Every mutating call
    either succeeds and changes exactly one key, or fails and changes nothing. */
module KeyedStore {
  import opened Wrappers

  /** The map after one mutating call, and the error that call returned. */
  datatype Step<T> = Step(data: map<string, T>, status: Outcome<string>)

  function AlreadyExists(id: string): string { id + " already exists" }

  function DoesNotExist(id: string): string { id + " does not exist" }

  /** `Get`: the record stored under `id`, or the store's not-found error. */
  function Lookup<T>(data: map<string, T>, id: string, notFound: string): (r: Result<T, string>)
    ensures r.Ok? <==> id in data
    ensures r.Ok? ==> r.value == data[id]
    ensures r.Err? ==> r.error == notFound
  {
    if id in data then Ok(data[id]) else Err(notFound)
  }

  /** `Insert`: a free identifier gets the new record; an occupied one is an error. */
  function Insert<T>(data: map<string, T>, id: string, e: T): (r: Step<T>)
    ensures r.status.Pass? <==> id !in data
    ensures r.status.Pass? ==> r.data.Keys == data.Keys + {id} && r.data[id] == e
    ensures r.status.Fail? ==> r.data == data && r.status.error == AlreadyExists(id)
    ensures forall k :: k in data && k != id ==> k in r.data && r.data[k] == data[k]
  {
    if id in data then Step(data, Fail(AlreadyExists(id))) else Step(data[id := e], Pass)
  }

  /** `Update`: the record under a present identifier is replaced by `e`;
      an absent identifier is an error. */
  function Overwrite<T>(data: map<string, T>, id: string, e: T): (r: Step<T>)
    ensures r.status.Pass? <==> id in data
    ensures r.status.Pass? ==> r.data.Keys == data.Keys && r.data[id] == e
    ensures r.status.Fail? ==> r.data == data && r.status.error == DoesNotExist(id)
    ensures forall k :: k in data && k != id ==> k in r.data && r.data[k] == data[k]
  {
    if id in data then Step(data[id := e], Pass) else Step(data, Fail(DoesNotExist(id)))
  }

  /** `Delete`: a present identifier is removed; an absent one is an error. */
  function Remove<T>(data: map<string, T>, id: string): (r: Step<T>)
    ensures r.status.Pass? <==> id in data
    ensures r.status.Pass? ==> r.data.Keys == data.Keys - {id}
    ensures r.status.Fail? ==> r.data == data && r.status.error == DoesNotExist(id)
    ensures forall k :: k in r.data ==> k in data && r.data[k] == data[k]
  {
    if id in data then Step(data - {id}, Pass) else Step(data, Fail(DoesNotExist(id)))
  }

  /** The number of keys rises by one on a successful insert, falls by one on
      a successful delete, and is kept by an update and by every failed call. */
  lemma KeyCount<T>(data: map<string, T>, id: string, e: T)
    ensures |Insert(data, id, e).data| == if id in data then |data| else |data| + 1
    ensures |Overwrite(data, id, e).data| == |data|
    ensures |Remove(data, id).data| == if id in data then |data| - 1 else |data|
  {
    if id in data {
      assert Overwrite(data, id, e).data.Keys == data.Keys;
      assert Remove(data, id).data.Keys == data.Keys - {id};
    } else {
      assert Insert(data, id, e).data.Keys == data.Keys + {id};
    }
  }

  /** A successful insert is seen by the next lookup. */
  lemma LookupAfterInsert<T>(data: map<string, T>, id: string, e: T, notFound: string)
    requires Insert(data, id, e).status.Pass?
    ensures Lookup(Insert(data, id, e).data, id, notFound) == Ok(e)
  {
  }

  /** After a successful delete the identifier is not found. */
  lemma LookupAfterRemove<T>(data: map<string, T>, id: string, notFound: string)
    requires Remove(data, id).status.Pass?
    ensures Lookup(Remove(data, id).data, id, notFound) == Err(notFound)
  {
  }

  /** Inserting the same identifier twice: the second call fails and the
      first record is still the one stored. */
  lemma InsertTwice<T>(data: map<string, T>, id: string, first: T, second: T, notFound: string)
    requires id !in data
    ensures var once := Insert(data, id, first).data;
            Insert(once, id, second) == Step(once, Fail(AlreadyExists(id))) &&
            Lookup(once, id, notFound) == Ok(first)
  {
  }

  /** Deleting what was just inserted restores the map. */
  lemma RemoveUndoesInsert<T>(data: map<string, T>, id: string, e: T)
    requires id !in data
    ensures Remove(Insert(data, id, e).data, id) == Step(data, Pass)
  {
    assert Insert(data, id, e).data - {id} == data;
  }

  /** Re-inserting the record just deleted restores the map. */
  lemma InsertUndoesRemove<T>(data: map<string, T>, id: string)
    requires id in data
    ensures Insert(Remove(data, id).data, id, data[id]) == Step(data, Pass)
  {
    assert (data - {id})[id := data[id]] == data;
  }

  // ---------------------------------------------------------------------
  // Pagination shared by the list operations

  /** No element occurs twice. */
  predicate Distinct<K(==)>(s: seq<K>) {
    forall i, j :: 0 <= i < j < |s| ==> s[i] != s[j]
  }

  /** `order` visits every key of `keys` exactly once: one possible
      iteration order of a Go map with those keys. */
  predicate IsEnumeration(order: seq<string>, keys: set<string>) {
    && Distinct(order) && |order| == |keys|
    && (forall k :: k in order ==> k in keys)
    && (forall k :: k in keys ==> k in order)
  }

  /** Some enumeration of `keys`; which one is left unspecified. */
  ghost function Enumerate(keys: set<string>): (order: seq<string>)
    ensures IsEnumeration(order, keys)
    decreases keys
  {
    if keys == {} then []
    else
      var k :| k in keys;
      var rest := Enumerate(keys - {k});
      assert k !in rest;
      [k] + rest
  }

  /** The records met when the keys are visited in `order`. */
  function ValuesAlong<T>(data: map<string, T>, order: seq<string>): (vs: seq<T>)
    requires forall k :: k in order ==> k in data
    ensures |vs| == |order|
    ensures forall i :: 0 <= i < |order| ==> vs[i] == data[order[i]]
  {
    seq(|order|, i requires 0 <= i < |order| => data[order[i]])
  }

  function Max(a: int, b: int): int { if a < b then b else a }

  function Min(a: int, b: int): int { if a < b then a else b }

  /** The page of `s` that skips `offset` elements (none when it is negative)
      and then keeps `limit` elements (all of them when it is negative). */
  function Page<T>(s: seq<T>, offset: int, limit: int): seq<T> {
    var start := Min(Max(offset, 0), |s|);
    var stop := if limit < 0 then |s| else Min(start + limit, |s|);
    s[start..stop]
  }

  /** For `limit >= 0` and `offset >= 0` a page of `n` records holds
      `min(limit, max(0, n - offset))` of them. */
  lemma PageLength<T>(s: seq<T>, offset: int, limit: int)
    requires offset >= 0 && limit >= 0
    ensures |Page(s, offset, limit)| == Min(limit, Max(0, |s| - offset))
  {
  }

  /** Part way through an iteration over `keys`: `visited` lists, once each,
      the keys met so far, and `remaining` holds the others. */
  ghost predicate Split(keys: set<string>, visited: seq<string>, remaining: set<string>) {
    && remaining <= keys
    && Distinct(visited)
    && (forall k :: k in visited ==> k in keys && k !in remaining)
    && (forall k :: k in keys ==> k in visited || k in remaining)
    && |visited| + |remaining| == |keys|
  }

  /** Moving one key from `remaining` to the end of `visited` keeps the split. */
  lemma SplitStep(keys: set<string>, visited: seq<string>, remaining: set<string>, k: string)
    requires Split(keys, visited, remaining) && k in remaining
    ensures Split(keys, visited + [k], remaining - {k})
  {
    DistinctConcat(visited, [k]);
  }

  /** Finishing the iteration in any order of the remaining keys enumerates them all. */
  lemma SplitFinish(keys: set<string>, visited: seq<string>, remaining: set<string>)
    requires Split(keys, visited, remaining)
    ensures IsEnumeration(visited + Enumerate(remaining), keys)
  {
    var rest := Enumerate(remaining);
    DistinctConcat(visited, rest);
  }

  /** Visiting one more key appends its record. */
  lemma ValuesAlongSnoc<T>(data: map<string, T>, order: seq<string>, k: string)
    requires forall j :: j in order ==> j in data
    requires k in data
    ensures ValuesAlong(data, order + [k]) == ValuesAlong(data, order) + [data[k]]
  {
  }

  /** The records collected from the first `n` values of `ws` after skipping
      `skipped` are the page of `ws` when either every value was visited and
      the limit was not exceeded, or the skipping was complete and the limit
      was reached. */
  lemma CollectedIsPage<T>(ws: seq<T>, n: nat, skipped: nat, offset: int, limit: int, records: seq<T>)
    requires n <= |ws| && skipped == Min(n, Max(offset, 0))
    requires records == ws[skipped..n]
    requires || (n == |ws| && (limit >= 0 ==> |records| <= limit))
             || (|records| == limit && skipped == Max(offset, 0))
    ensures records == Page(ws, offset, limit)
  {
  }

  /** The visited prefix of a listing yields the prefix of its records. */
  lemma ValuesAlongPrefix<T>(data: map<string, T>, a: seq<string>, b: seq<string>)
    requires forall k :: k in a + b ==> k in data
    ensures ValuesAlong(data, a + b)[..|a|] == ValuesAlong(data, a)
  {
  }

  /** Closes a paged listing of `data`: the keys visited so far, completed by
      an enumeration of the remaining ones, form a visiting order whose page
      is what was collected, and the page has the size pagination promises. */
  lemma ListingIsPage<T>(data: map<string, T>, visited: seq<string>, remaining: set<string>,
                         skipped: nat, offset: int, limit: int, records: seq<T>)
    requires Split(data.Keys, visited, remaining)
    requires skipped == Min(|visited|, Max(offset, 0))
    requires records == ValuesAlong(data, visited)[skipped..]
    requires || (remaining == {} && (limit >= 0 ==> |records| <= limit))
             || (|records| == limit && skipped == Max(offset, 0))
    ensures var order := visited + Enumerate(remaining);
            && IsEnumeration(order, data.Keys)
            && records == Page(ValuesAlong(data, order), offset, limit)
            && (limit >= 0 ==> |records| == Min(limit, Max(0, |data| - Max(offset, 0))))
            && (limit < 0 ==> |records| == Max(0, |data| - Max(offset, 0)))
  {
    SplitFinish(data.Keys, visited, remaining);
    var order := visited + Enumerate(remaining);
    var ws := ValuesAlong(data, order);
    ValuesAlongPrefix(data, visited, Enumerate(remaining));
    CollectedIsPage(ws, |visited|, skipped, offset, limit, records);
    assert |data| == |data.Keys|;
  }

  /** Two distinct sequences with no common element concatenate to a distinct one. */
  lemma DistinctConcat<K>(a: seq<K>, b: seq<K>)
    requires Distinct(a) && Distinct(b)
    requires forall k :: k in b ==> k !in a
    ensures Distinct(a + b)
  {
    forall i, j | 0 <= i < j < |a + b|
      ensures (a + b)[i] != (a + b)[j]
    {
      if j >= |a| && i < |a| {
        assert (a + b)[j] in b;
      }
    }
  }
}
