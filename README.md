# k8s-backend record store, list filters and validators in Dafny

This project models the sequential core of a small Go web service that
stores books and users behind one record-store contract
(`Database[T]`: Initialize, Close, Get, GetAll, Insert, Update, Delete).

- **In-memory store** (`Database.Cache`, database/database.go). A class holding
  `data: map<string, T>`. `Initialize` seeds the keys "0", "1" and "2" with
  zero records. `Close` empties the map. `Get` returns the stored record or
  "record not found". `Insert` fails with "<id> already exists" on an occupied
  key. `Update` fails with "<id> does not exist" on an absent key and otherwise
  resets the record to the zero value, ignoring the field map. `Delete` fails
  the same way on an absent key. `GetAll` walks the map in its unspecified
  order, skips `offset` records and collects up to `limit`.
- **Older in-memory store** (`ValidationDatabase.Cache`, validation/database.go).
  An older store with only `Get`, `Insert`, `Update` and `Delete`, the four
  operations of its own interface (validation/database.go:8-13). `Get`
  reports "<id> not found" and `Update` stores the record it is given.
- **Shared store transitions** (`KeyedStore`). Both classes follow one set of
  pure map transitions: `Lookup`, `Insert`, `Overwrite` and `Remove`. The
  lemmas that relate several calls are proved about these functions: key
  counts, get-after-insert, get-after-delete, double insert, and the
  delete/insert round trips. The pagination of the in-memory `GetAll` is
  also here.
- **Filter predicate builder** (`Database.BuildListQuery`, from
  `Postgres[T].GetAll`). The prototype record is given as an explicit list of
  fields, each with a name, an "exported" flag and a typed value; this
  replaces Go reflection. For each exported field:
  - a non-empty string selects `LOWER(Name) ILIKE '%value%'`, with the value
    lower-cased;
  - a float above zero selects `Name >= value`;
  - an int selects `name >= value` under its lower-cased name, unless that
    name is "id". This happens even when the value is 0.
  - any other type aborts with "model field data type not supported".

  A prototype that is not a struct aborts with "invalid model". The query
  orders by `sortBy + " " + order` and carries the limit and offset.
- **List request parsing** (`Services.ListFilters`, from `GetBooksHandler`).
  Missing parameters get their defaults: limit 10, offset 0, sortBy "title",
  order "ASC". The checks run in a fixed order (price, order, limit, offset)
  and the first failure decides which 400 response is sent. The price check
  rejects any text `strconv.ParseFloat` cannot parse as a 32-bit float,
  including well-formed numbers out of its range (such as `1e39`); likewise
  limit and offset fail on text `strconv.Atoi` rejects, out-of-range numbers
  included. The model receives all of these as one "malformed" case. A negative price is accepted even
  though the error text says ">= 0", and the builder then ignores it because
  it is not above zero.
- **Validators**. `ValidateBook` accepts every book. There are two user
  validators:
  - name of at least 3 bytes, email containing '@', age above 21
    (services/user.go, server/server.go, validation/server.go);
  - non-empty name, email containing '@', age above 21
    (validation/handle.go, validation/main.go).

  The copies in server/server.go and validation/main.go have the same
  messages as services/user.go and validation/handle.go, so they are modelled
  as those functions.

Go strings are byte strings. Here each `char` of a Dafny `string` stands for
one byte, so Go's `len` is `|s|`. `strings.Contains(email, "@")` is
`'@' in email`.

Behaviour of the code worth noting:

- the in-memory `Update` resets the record to the zero value; it does not
  merge the given fields;
- a negative `limit` in the in-memory `GetAll` returns every record after the
  offset;
- an int filter field is used whatever its value, 0 included;
- the unsupported-type error shows the field's value rather than its type.

## Model

| member | source | states |
|---|---|---|
| `Text.ToLower` | database/database.go:108 | Lower-casing keeps the length and lowers each ASCII capital letter, leaving other characters alone |
| `KeyedStore.Lookup` | database/database.go:185-193 | A lookup succeeds exactly for a present key and returns its record; otherwise it returns the given not-found error |
| `KeyedStore.Insert` | database/database.go:215-223 | Insert succeeds exactly when the key is absent and then adds exactly that key with that record; on a present key it fails with "<id> already exists" and changes nothing; other keys never change |
| `KeyedStore.Overwrite` | validation/database.go:40-48 | Update succeeds exactly when the key is present; the key set stays the same, only that record is replaced, and an absent key fails with "<id> does not exist" and changes nothing |
| `KeyedStore.Remove` | database/database.go:235-243 | Delete succeeds exactly when the key is present and removes exactly that key; every surviving record is unchanged; an absent key fails with "<id> does not exist" and changes nothing |
| `KeyedStore.KeyCount` | validation/database.go:30-58 | The key count rises by one on a successful insert and falls by one on a successful delete; it is unchanged by update and by every failed call |
| `KeyedStore.LookupAfterInsert` | validation/database.go:20-38 | Get right after a successful insert returns the inserted record |
| `KeyedStore.LookupAfterRemove` | validation/database.go:50-58 | Get right after a successful delete reports not found |
| `KeyedStore.InsertTwice` | database/database.go:215-223 | A second insert of the same id fails with "already exists", leaves the map unchanged and keeps the first record |
| `KeyedStore.RemoveUndoesInsert` | database/database.go:215-243 | Deleting a freshly inserted id restores the original map |
| `KeyedStore.InsertUndoesRemove` | database/database.go:215-243 | Re-inserting a just-deleted record restores the original map |
| `KeyedStore.Enumerate` | database/database.go:202 | Every finite key set has an iteration order that visits each key exactly once |
| `KeyedStore.PageLength` | database/database.go:199-212 | With limit and offset non-negative, a page of N records holds min(limit, max(0, N - offset)) of them |
| `KeyedStore.ListingIsPage` | database/database.go:199-212 | When the listing loop stops, the visited keys plus any order of the unvisited ones enumerate all keys, and the collected records are exactly that order's page with the promised size |
| `Database.Cache.constructor` | database/database.go:167-170 | A new cache is empty and remembers the zero value of its record type |
| `Database.Cache.Initialize` | database/database.go:172-179 | After Initialize the keys are exactly "0", "1" and "2", each holding the zero record; the error is nil |
| `Database.Cache.Close` | database/database.go:181-183 | Close leaves the map empty |
| `Database.Cache.Get` | database/database.go:185-193 | Get returns the stored record for a present id and the "record not found" error for an absent one |
| `Database.Cache.GetAll` | database/database.go:195-213 | The map is unchanged; there is an order visiting every key once such that the records are that order's page; their number is min(limit, max(0, N - max(offset, 0))), or max(0, N - max(offset, 0)) for a negative limit |
| `Database.Cache.Insert` | database/database.go:215-223 | The new map and error are those of `KeyedStore.Insert`: exactly one key added on an absent id, nothing changed and "<id> already exists" on a present one |
| `Database.Cache.Update` | database/database.go:225-233 | On a present id the key stays and its record becomes the zero value, whatever the field map says; on an absent id nothing changes and the error is "<id> does not exist"; other keys are untouched |
| `Database.Cache.Delete` | database/database.go:235-243 | The new map and error are those of `KeyedStore.Remove`: exactly the present id removed, or nothing changed and "<id> does not exist" |
| `Database.FieldPredicate` | database/database.go:105-120 | A string field selects an ILIKE condition with pattern "%" + lowercase(value) + "%" only when non-empty; a float selects ">=" only when above zero; an int selects ">=" on its lower-cased column unless that is "id", even for 0; any other type is the unsupported-type error; every selected condition is well formed |
| `Database.BuildListQuery` | database/database.go:82-131 | A non-struct prototype fails with "invalid model"; otherwise the query orders by "sortBy order", carries limit and offset, and holds exactly the conditions the fields select in field order, skipping fields that cannot be interfaced, or the error of the first unsupported field |
| `Database.PredicatesFailIff` | database/database.go:96-121 | Building fails exactly when some exported field has an unsupported type |
| `Database.FirstUnsupportedDecides` | database/database.go:118-119 | When building fails, the error names the first exported field of unsupported type |
| `Database.PredicatesFromFields` | database/database.go:96-121 | A condition is in the query exactly when some exported field selects it |
| `Database.PredicatesWellFormed` | database/database.go:105-117 | Every selected condition is well formed: ILIKE patterns are non-empty, lower-case and wrapped in '%'; float bounds are positive; no int condition is on "id" |
| `Database.BookConditions` | database/database.go:96-121 | A book prototype never fails and never filters on Id; in field order it selects a title match, an author match, a price bound when the price is positive, and a created-at match, each text match only when its field is non-empty |
| `Database.UserConditions` | database/database.go:114-117 | A user prototype always selects "age >= age", even for age 0, after the name and email matches |
| `ValidationDatabase.Cache.constructor` | validation/database.go:15-18 | A cache starts from the map it is given |
| `ValidationDatabase.Cache.Get` | validation/database.go:20-28 | Get returns the stored record for a present id and "<id> not found" for an absent one |
| `ValidationDatabase.Cache.Insert` | validation/database.go:30-38 | Exactly the new key is added when absent; when present the error is "<id> already exists" and the map is unchanged |
| `ValidationDatabase.Cache.Update` | validation/database.go:40-48 | On a present id that entry is replaced by the given record and nothing else changes; on an absent id the error is "<id> does not exist" and the map is unchanged |
| `ValidationDatabase.Cache.Delete` | validation/database.go:50-58 | Exactly the present id is removed; on an absent id the error is "<id> does not exist" and the map is unchanged |
| `ValidationDatabase.InsertUpdateDelete` | validation/database.go:20-58 | For any cache and fresh id, proves in its body that Insert raises the count by one and Get then returns the record, that after Update Get returns the new record, and that after Delete Get reports not found; ensures the map is restored to what it was |
| `Services.ListFilters` | services/book.go:72-110 | The filter is accepted exactly when price, order, limit and offset all pass, and the first failing check in that order decides the error. Defaults are limit 10, offset 0, sortBy "title" and order "ASC". Title and author are copied verbatim and the price only when given. Every accepted filter has limit > 0, offset >= 0 and order "ASC" or "DESC" |
| `Services.ValidateBook` | services/book.go:252-254 | Every book is accepted |
| `Services.ValidateUser` | services/user.go:63-74 | Nil exactly when the name has at least 3 bytes, the email contains '@' and the age is above 21; a short name is reported first (so an empty user gets the name error), then a bad email, then the age |
| `Services.ValidateUserCases` | services/user_test.go:18-43 | The valid user passes; the empty user fails on its name; the short-name, bad-email and young users fail |
| `Server.ValidateUser` | server/server.go:52-63 | Same verdict and message as services/user.go for every user: nil exactly when all three conditions hold, checked name, email, age |
| `ValidationServer.ValidateUser` | validation/server.go:48-59 | Nil exactly when the name has at least 3 bytes, the email contains '@' and the age is above 21, with the checks and capitalised messages in the order name, email, age |
| `ValidationServer.ValidateUserCases` | validation/server_test.go:24-48 | Only the valid user of the table passes; the empty, short-name, bad-email and young users fail |
| `ValidationHandle.ValidateUser` | validation/handle.go:39-50 | Nil exactly when the name is non-empty, the email contains '@' and the age is above 21; a one-byte name passes the name check; checks in the order name, email, age |
| `ValidationHandle.ZeroUserRejected` | validation/handle_test.go:16-27 | The zero user is rejected with the empty-name error |
| `ValidationMain.ValidateUser` | validation/main.go:46-57 | Same verdict and message as validation/handle.go for every user: nil exactly when the name is non-empty, the email contains '@' and the age is above 21 |
| `ValidationMain.VariantsCompared` | validation/main.go:46-57 | Every user the three-byte variant accepts is accepted by the non-empty variant, the two agree on names of 3+ bytes, and a one-byte name separates them |

## Left out

- Postgres connection, `AutoMigrate`, the seed loop and the Postgres `Get`, `Insert`, `Update`, `Delete` and `Close` (database/database.go:33-80, 133-165). They are thin calls into gorm and a live database.
- Execution of the built list query: ILIKE matching, ordering, limit/offset, and the "error finding records" path (database/database.go:123-128). The model stops at the query it would send.
- Reflection (database/database.go:86-104). `Database.BookPrototype` and `Database.UserPrototype` list the fields of model/model.go explicitly, in declaration order.
- The `Database[T]` interface as a type (database/database.go:17-25). Only `Database.Cache` provides its operations, by name; there is no abstract type. The older cache implements its own four-operation interface (validation/database.go:8-13), also by name.
- Concurrency: the mutexes of both caches and of `Postgres`, and the goroutine with its unbuffered channel in `GetBooksHandler` (services/book.go:112-128). Every operation is modelled as one atomic step.
- Pointers: the caches store record values. Go stores pointers, so the model does not capture a nil pointer being stored (Get, Insert, Update and Delete then treat the key as absent, yet the key stays in the map: `GetAll` still visits it, counts it toward offset and limit and returns a nil record for it, and `Delete` cannot remove it), or callers mutating a record through the pointer `Get` returned.
- A zero `Cache` whose map is nil. In Go, `Insert` on it panics until `Initialize` runs; the model's constructor starts from an empty map.
- The always-nil error of `Cache.GetAll`: `Database.Cache.GetAll` returns only the records.
- Number parsing (`strconv.ParseFloat` with 32-bit precision, `strconv.Atoi`) and float semantics: parameters arrive pre-parsed, and a price is a `real` with no rounding, NaN or infinities.
- Unicode: `Text.ToLower` lowers ASCII letters only, and lengths count bytes.
- The Redis read-through cache of `GetBookHandler` (services/book.go:131-178), the other HTTP handlers, gin/net-http wiring, JSON encoding, UUID generation, status-code mapping and main.go.
- The writes to the global user maps in `registerHandler` (validation/handle.go:30, validation/main.go:39).
- A token-bucket rate limiter: no file of the repository implements one.
- services/fleet.go, main.go's `InitDatabase` call and services/book_test.go's `Server`: these refer to types and functions the repository does not define.
