/** The older in-memory `Cache[T]` of the validation program
    (validation/database.go): the same keyed store, but `Get` names the
    missing identifier and `Update` stores the record it is given. */
module ValidationDatabase {
  import opened Wrappers
  import opened KeyedStore

  class Cache<T> {
    var data: map<string, T>

    /** A cache over the given map (`&Cache[User]{Data: make(...)}`). */
    constructor (data: map<string, T>)
      ensures this.data == data
    {
      this.data := data;
    }

    /** The stored record, or "<id> not found". */
    method Get(id: string) returns (r: Result<T, string>)
      ensures r == Lookup(data, id, id + " not found")
      ensures r.Ok? <==> id in data
    {
      if id !in data {
        return Err(id + " not found");
      }
      r := Ok(data[id]);
    }

    /** Inserts under a free identifier; "<id> already exists" otherwise. */
    method Insert(id: string, element: T) returns (err: Outcome<string>)
      modifies this
      ensures data == KeyedStore.Insert(old(data), id, element).data
      ensures err == KeyedStore.Insert(old(data), id, element).status
    {
      if id !in data {
        data := data[id := element];
        return Pass;
      }
      err := Fail(AlreadyExists(id));
    }

    /** Replaces the whole record under a present identifier; "<id> does not exist" otherwise. */
    method Update(id: string, element: T) returns (err: Outcome<string>)
      modifies this
      ensures data == Overwrite(old(data), id, element).data
      ensures err == Overwrite(old(data), id, element).status
    {
      if id !in data {
        return Fail(DoesNotExist(id));
      }
      data := data[id := element];
      err := Pass;
    }

    /** Removes a present identifier; "<id> does not exist" otherwise. */
    method Delete(id: string) returns (err: Outcome<string>)
      modifies this
      ensures data == Remove(old(data), id).data
      ensures err == Remove(old(data), id).status
    {
      if id !in data {
        return Fail(DoesNotExist(id));
      }
      data := data - {id};
      err := Pass;
    }
  }

  /** A caller's view of the store: a record inserted under a fresh
      identifier is what `Get` returns, updating it replaces it, and after
      `Delete` the identifier is not found; the key count follows along. */
  method InsertUpdateDelete<T>(c: Cache<T>, id: string, first: T, second: T)
    requires id !in c.data
    modifies c
    ensures c.data == old(c.data)
  {
    var n := |c.data|;
    var err := c.Insert(id, first);
    assert err == Pass;
    KeyCount(old(c.data), id, first);
    assert |c.data| == n + 1;
    var got := c.Get(id);
    assert got == Ok(first);
    err := c.Update(id, second);
    assert err == Pass;
    got := c.Get(id);
    assert got == Ok(second);
    err := c.Delete(id);
    assert err == Pass;
    got := c.Get(id);
    assert got == Err(id + " not found");
    assert c.data == old(c.data);
  }
}
