/** The `services` package: turning the query parameters of `GET /books` into
    a list filter (services/book.go), and the book and user validators. */
module Services {
  import opened Wrappers
  import opened Model

  /** A numeric query parameter after `strconv` parsing: `Absent` when the
      handler falls back to its default (for `price`: when the text is
      empty), `Malformed` for any parse failure: text that is not a number,
      or a number outside the range of a 32-bit float (price) or of Go's
      `int` (limit, offset). */
  datatype NumberParam<N> = Absent | Malformed | Number(n: N)

  /** The query parameters of a list request. `title` and `author` are ""
      when absent; `sortBy` and `order` are `None` when absent. */
  datatype ListParams = ListParams(
    title: string,
    author: string,
    price: NumberParam<real>,
    sortBy: Option<string>,
    order: Option<string>,
    limit: NumberParam<int>,
    offset: NumberParam<int>)

  /** The four 400 responses, in the order the handler checks for them. */
  datatype ListError =
    | BadPrice   // "'price' query parameter must be a number >= 0"
    | BadOrder   // "'order' query parameter must be ASC or DESC"
    | BadLimit   // "response limit must be a number greater than zero"
    | BadOffset  // "response offset must be a non-negative number"

  const DefaultLimit := 10
  const DefaultOffset := 0
  const DefaultSortBy := "title"
  const DefaultOrder := "ASC"

  function OrDefault<T>(o: Option<T>, default: T): T {
    if o.Some? then o.value else default
  }

  /** The number a parameter stands for once its default is applied. */
  function WithDefault<N>(p: NumberParam<N>, default: N): NumberParam<N> {
    if p.Absent? then Number(default) else p
  }

  predicate ValidOrder(order: string) {
    order == "ASC" || order == "DESC"
  }

  predicate PriceAccepted(q: ListParams) { !q.price.Malformed? }

  predicate OrderAccepted(q: ListParams) { ValidOrder(OrDefault(q.order, DefaultOrder)) }

  predicate LimitAccepted(q: ListParams) {
    var l := WithDefault(q.limit, DefaultLimit); l.Number? && l.n > 0
  }

  predicate OffsetAccepted(q: ListParams) {
    var o := WithDefault(q.offset, DefaultOffset); o.Number? && o.n >= 0
  }

  /** Builds the list filter of `GetBooksHandler`, checking price, order,
      limit and offset in that order; the first failing check decides the
      response. An accepted filter has a positive limit, a non-negative
      offset and an order of "ASC" or "DESC"; its prototype carries the title
      and author verbatim and the price only when one was given. */
  method ListFilters(q: ListParams) returns (r: Result<Filters<Book>, ListError>)
    ensures r.Ok? <==> PriceAccepted(q) && OrderAccepted(q) && LimitAccepted(q) && OffsetAccepted(q)
    ensures !PriceAccepted(q) ==> r == Err(BadPrice)
    ensures PriceAccepted(q) && !OrderAccepted(q) ==> r == Err(BadOrder)
    ensures PriceAccepted(q) && OrderAccepted(q) && !LimitAccepted(q) ==> r == Err(BadLimit)
    ensures PriceAccepted(q) && OrderAccepted(q) && LimitAccepted(q) && !OffsetAccepted(q) ==> r == Err(BadOffset)
    ensures r.Ok? ==> r.value.limit > 0 && r.value.offset >= 0 && ValidOrder(r.value.order)
    ensures r.Ok? ==>
      && r.value.model == ZeroBook.(title := q.title, author := q.author,
                                    price := if q.price.Number? then q.price.n else 0.0)
      && r.value.sortBy == OrDefault(q.sortBy, DefaultSortBy)
      && r.value.order == OrDefault(q.order, DefaultOrder)
      && r.value.limit == (if q.limit.Number? then q.limit.n else DefaultLimit)
      && r.value.offset == (if q.offset.Number? then q.offset.n else DefaultOffset)
  {
    var limitParam := WithDefault(q.limit, DefaultLimit);
    var offsetParam := WithDefault(q.offset, DefaultOffset);

    var filters := Filters(ZeroBook, "", "", 0, 0);
    filters := filters.(model := filters.model.(title := q.title, author := q.author));
    if q.price != Absent {
      if q.price.Malformed? {
        return Err(BadPrice);
      }
      filters := filters.(model := filters.model.(price := q.price.n));
    }

    filters := filters.(sortBy := OrDefault(q.sortBy, DefaultSortBy));
    var order := OrDefault(q.order, DefaultOrder);
    if order != "ASC" && order != "DESC" {
      return Err(BadOrder);
    }
    filters := filters.(order := order);

    if limitParam.Malformed? || limitParam.n <= 0 {
      return Err(BadLimit);
    }
    filters := filters.(limit := limitParam.n);

    if offsetParam.Malformed? || offsetParam.n < 0 {
      return Err(BadOffset);
    }
    filters := filters.(offset := offsetParam.n);
    r := Ok(filters);
  }

  /** Books are not validated: every book is accepted. */
  function ValidateBook(b: Book): (r: Outcome<string>)
    ensures r == Pass
  {
    Pass
  }

  /** A user is accepted exactly when the name has at least 3 bytes, the
      email contains '@' and the age is above 21; the checks run in that
      order and the first failure is reported. */
  function ValidateUser(u: User): (r: Outcome<string>)
    ensures r.Pass? <==> |u.name| >= 3 && '@' in u.email && u.age > 21
    ensures |u.name| < 3 ==> r == Fail("user name must have 3+ characters")
    ensures |u.name| >= 3 && '@' !in u.email ==> r == Fail("user email must be valid")
    ensures |u.name| >= 3 && '@' in u.email && u.age <= 21 ==> r == Fail("user age must be greater than 21")
  {
    if |u.name| < 3 then Fail("user name must have 3+ characters")
    else if '@' !in u.email then Fail("user email must be valid")
    else if u.age <= 21 then Fail("user age must be greater than 21")
    else Pass
  }

  /** The cases of services/user_test.go. */
  lemma ValidateUserCases()
    ensures ValidateUser(User("John", "john@work.com", 35)) == Pass
    ensures ValidateUser(ZeroUser) == Fail("user name must have 3+ characters")
    ensures ValidateUser(User("H", "john@work.com", 35)).Fail?
    ensures ValidateUser(User("John", "work.com", 35)).Fail?
    ensures ValidateUser(User("John", "john@work.com", 15)).Fail?
  {
    assert "john@work.com"[4] == '@';
  }
}
