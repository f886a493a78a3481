/** The `database` package: the in-memory `Cache[T]` backend of the record
    store contract, and the predicate selection that `Postgres[T].GetAll`
    performs before handing its query to the SQL engine. */
module Database {
  import opened Wrappers
  import opened Model
  import Text
  import opened KeyedStore

  /** The in-memory backend: a map from identifier to record. Every call that
      fails leaves the map as it was. */
  class Cache<T> {
    var data: map<string, T>
    /** The zero value of `T`, which Go's `new(T)` allocates. */
    const zero: T

    /** An empty cache over records whose zero value is `zero`. Callers pass
        `Model.ZeroBook` or `Model.ZeroUser`, the record Go's `new(T)` gives;
        the zero record of `Initialize` and `Update` is this argument. */
    constructor (zero: T)
      ensures this.zero == zero && data == map[]
    {
      this.zero := zero;
      data := map[];
    }

    /** Seeds exactly the keys "0", "1" and "2", each with a zero record; never fails. */
    method Initialize() returns (err: Outcome<string>)
      modifies this
      ensures err == Pass
      ensures data == map["0" := zero, "1" := zero, "2" := zero]
      ensures data.Keys == {"0", "1", "2"} && forall k :: k in data ==> data[k] == zero
    {
      data := map["0" := zero, "1" := zero, "2" := zero];
      err := Pass;
    }

    /** Empties the map. */
    method Close()
      modifies this
      ensures data == map[]
    {
      data := map[];
    }

    /** The stored record, or "record not found" when there is none. */
    method Get(id: string) returns (r: Result<T, string>)
      ensures r == Lookup(data, id, "record not found")
      ensures r.Ok? <==> id in data
    {
      if id !in data {
        return Err("record not found");
      }
      r := Ok(data[id]);
    }

    /** Lists the map in its (unspecified) iteration order `order`: skips
        `offset` records, then collects up to `limit` of them. A negative
        offset skips nothing; a negative limit collects everything. The
        filter's prototype is not consulted. */
    method GetAll(f: Filters<T>) returns (records: seq<T>, ghost order: seq<string>)
      ensures IsEnumeration(order, data.Keys)
      ensures records == Page(ValuesAlong(data, order), f.offset, f.limit)
      ensures f.limit >= 0 ==> |records| == Min(f.limit, Max(0, |data| - Max(f.offset, 0)))
      ensures f.limit < 0 ==> |records| == Max(0, |data| - Max(f.offset, 0))
    {
      records := [];
      var skipped := 0;
      var remaining := data.Keys;
      ghost var visited: seq<string> := [];
      while remaining != {}
        invariant Split(data.Keys, visited, remaining)
        invariant skipped == Min(|visited|, Max(f.offset, 0))
        invariant records == ValuesAlong(data, visited)[skipped..]
        invariant f.limit >= 0 ==> |records| <= f.limit
      {
        var k :| k in remaining;
        if skipped < f.offset {
          skipped := skipped + 1;
          SplitStep(data.Keys, visited, remaining, k);
          ValuesAlongSnoc(data, visited, k);
          remaining, visited := remaining - {k}, visited + [k];
          continue;
        }
        if |records| == f.limit {
          break;
        }
        SplitStep(data.Keys, visited, remaining, k);
        ValuesAlongSnoc(data, visited, k);
        records := records + [data[k]];
        remaining, visited := remaining - {k}, visited + [k];
      }
      ListingIsPage(data, visited, remaining, skipped, f.offset, f.limit, records);
      order := visited + Enumerate(remaining);
    }

    /** Inserts under a free identifier; "<id> already exists" otherwise. */
    method Insert(id: string, element: T) returns (err: Outcome<string>)
      modifies this
      ensures data == KeyedStore.Insert(old(data), id, element).data
      ensures err == KeyedStore.Insert(old(data), id, element).status
    {
      if id !in data {
        data := data[id := element];
        return Pass;
      }
      err := Fail(AlreadyExists(id));
    }

    /** Resets the record under a present identifier to the zero value (the
        field map is ignored); "<id> does not exist" otherwise. */
    method Update<V>(id: string, fields: map<string, V>) returns (err: Outcome<string>)
      modifies this
      ensures data == Overwrite(old(data), id, zero).data
      ensures err == Overwrite(old(data), id, zero).status
    {
      if id !in data {
        return Fail(DoesNotExist(id));
      }
      data := data[id := zero];
      err := Pass;
    }

    /** Removes a present identifier; "<id> does not exist" otherwise. */
    method Delete(id: string) returns (err: Outcome<string>)
      modifies this
      ensures data == Remove(old(data), id).data
      ensures err == Remove(old(data), id).status
    {
      if id !in data {
        return Fail(DoesNotExist(id));
      }
      data := data - {id};
      err := Pass;
    }
  }

  // ---------------------------------------------------------------------
  // Predicate selection of `Postgres[T].GetAll`

  /** A struct field's value as reflection sees it, by Go type; `Other` is any
      type the builder does not handle, with the value as `%v` prints it. */
  datatype Value = Str(s: string) | Float(x: real) | Int(n: int) | Other(shown: string)

  /** One field of the prototype: its Go name, whether it can be interfaced
      (it is exported), and its value. */
  datatype Field = Field(name: string, exported: bool, value: Value)

  /** The filter prototype as reflection sees it: a struct's fields in
      declaration order, or a value of some other kind. */
  datatype Prototype = Struct(fields: seq<Field>) | NonStruct(kind: string)

  /** One `WHERE` condition: `LOWER(column) ILIKE pattern` or `column >= bound`. */
  datatype Predicate =
    | ILike(column: string, pattern: string)
    | AtLeastFloat(column: string, bound: real)
    | AtLeastInt(column: string, intBound: int)

  /** The query handed to the SQL engine: `ORDER BY orderBy`, the conjunction
      of `predicates`, then `LIMIT limit OFFSET offset`. */
  datatype ListQuery = ListQuery(orderBy: string, predicates: seq<Predicate>, limit: int, offset: int)

  /** "invalid model: <kind>" and "model field data type not supported: <value>". */
  datatype QueryError = InvalidModel(kind: string) | UnsupportedField(shown: string)

  predicate NoUpperCase(s: string) {
    forall i :: 0 <= i < |s| ==> !('A' <= s[i] <= 'Z')
  }

  /** What every selected condition looks like: an ILIKE pattern is a
      lower-cased non-empty text wrapped in '%', a float bound is positive,
      and an int condition never names the "id" column. */
  predicate WellFormed(p: Predicate) {
    match p
    case ILike(_, pattern) =>
      |pattern| >= 3 && pattern[0] == '%' && pattern[|pattern| - 1] == '%' && NoUpperCase(pattern)
    case AtLeastFloat(_, bound) => bound > 0.0
    case AtLeastInt(column, _) => column != "id" && NoUpperCase(column)
  }

  /** The condition one exported field contributes, by the type of its value. */
  function FieldPredicate(f: Field): (r: Result<Option<Predicate>, QueryError>)
    ensures r.Err? <==> f.value.Other?
    ensures f.value.Other? ==> r.error == UnsupportedField(f.value.shown)
    ensures r.Ok? && r.value.Some? ==> WellFormed(r.value.value)
    ensures f.value.Str? ==>
      r == Ok(if f.value.s == "" then None else Some(ILike(f.name, "%" + Text.ToLower(f.value.s) + "%")))
    ensures f.value.Float? ==> r == Ok(if f.value.x > 0.0 then Some(AtLeastFloat(f.name, f.value.x)) else None)
    ensures f.value.Int? ==>
      r == Ok(if Text.ToLower(f.name) == "id" then None else Some(AtLeastInt(Text.ToLower(f.name), f.value.n)))
  {
    match f.value
    case Str(s) =>
      if s == "" then Ok(None)
      else
        var pattern := "%" + Text.ToLower(s) + "%";
        assert NoUpperCase(pattern) by {
          forall i | 0 <= i < |pattern| ensures !('A' <= pattern[i] <= 'Z') {
            if 0 < i < |pattern| - 1 { assert pattern[i] == Text.LowerChar(s[i - 1]); }
          }
        }
        Ok(Some(ILike(f.name, pattern)))
    case Float(x) => Ok(if x > 0.0 then Some(AtLeastFloat(f.name, x)) else None)
    case Int(n) =>
      var column := Text.ToLower(f.name);
      Ok(if column == "id" then None else Some(AtLeastInt(column, n)))
    case Other(shown) => Err(UnsupportedField(shown))
  }

  function OptionToSeq<T>(o: Option<T>): seq<T> {
    if o.Some? then [o.value] else []
  }

  /** `ps` followed by the conditions of `r`, or the error of `r`. */
  function Prepend(ps: seq<Predicate>, r: Result<seq<Predicate>, QueryError>): Result<seq<Predicate>, QueryError> {
    match r
    case Ok(qs) => Ok(ps + qs)
    case Err(e) => Err(e)
  }

  lemma PrependAssoc(a: seq<Predicate>, b: seq<Predicate>, r: Result<seq<Predicate>, QueryError>)
    ensures Prepend(a, Prepend(b, r)) == Prepend(a + b, r)
  {
    if r.Ok? {
      assert a + (b + r.value) == (a + b) + r.value;
    }
  }

  /** The conditions of a field list, in field order, skipping fields that
      cannot be interfaced; the first unsupported field aborts. */
  function Predicates(fields: seq<Field>): Result<seq<Predicate>, QueryError> {
    if fields == [] then Ok([])
    else if !fields[0].exported then Predicates(fields[1..])
    else match FieldPredicate(fields[0])
      case Err(e) => Err(e)
      case Ok(p) => Prepend(OptionToSeq(p), Predicates(fields[1..]))
  }

  /** A field the builder rejects. */
  predicate Unsupported(f: Field) {
    f.exported && f.value.Other?
  }

  /** Walks the prototype's fields, adding the condition each one selects to
      the query that orders by `sortBy order`; rejects a non-struct prototype
      and stops at the first field of an unsupported type. */
  method BuildListQuery(f: Filters<Prototype>) returns (r: Result<ListQuery, QueryError>)
    ensures f.model.NonStruct? ==> r == Err(InvalidModel(f.model.kind))
    ensures f.model.Struct? ==>
      r == match Predicates(f.model.fields)
           case Ok(ps) => Ok(ListQuery(f.sortBy + " " + f.order, ps, f.limit, f.offset))
           case Err(e) => Err(e)
  {
    if f.model.NonStruct? {
      return Err(InvalidModel(f.model.kind));
    }
    var fields := f.model.fields;
    var orderBy := f.sortBy + " " + f.order;
    var predicates: seq<Predicate> := [];
    assert fields[0..] == fields;
    assert Prepend([], Predicates(fields)) == Predicates(fields) by {
      if Predicates(fields).Ok? { assert [] + Predicates(fields).value == Predicates(fields).value; }
    }
    for i := 0 to |fields|
      invariant Predicates(fields) == Prepend(predicates, Predicates(fields[i..]))
    {
      assert fields[i..][1..] == fields[i + 1..];
      if !fields[i].exported {
        continue;
      }
      var p := FieldPredicate(fields[i]);
      if p.Err? {
        assert Predicates(fields[i..]) == Err(p.error);
        return Err(p.error);
      }
      PrependAssoc(predicates, OptionToSeq(p.value), Predicates(fields[i + 1..]));
      predicates := predicates + OptionToSeq(p.value);
    }
    assert fields[|fields|..] == [];
    assert predicates + [] == predicates;
    r := Ok(ListQuery(orderBy, predicates, f.limit, f.offset));
  }

  /** The builder fails exactly when some exported field has an unsupported type. */
  lemma {:induction false} PredicatesFailIff(fields: seq<Field>)
    ensures Predicates(fields).Err? <==> exists i :: 0 <= i < |fields| && Unsupported(fields[i])
  {
    if fields != [] {
      var tail := fields[1..];
      PredicatesFailIff(tail);
      if exists i :: 0 <= i < |tail| && Unsupported(tail[i]) {
        var i :| 0 <= i < |tail| && Unsupported(tail[i]);
        assert Unsupported(fields[i + 1]);
      }
      if exists i :: 0 <= i < |fields| && Unsupported(fields[i]) {
        var i :| 0 <= i < |fields| && Unsupported(fields[i]);
        if i > 0 {
          assert Unsupported(tail[i - 1]);
        }
      }
    }
  }

  /** The first unsupported field is the one the error names. */
  lemma {:induction false} FirstUnsupportedDecides(fields: seq<Field>, i: nat)
    requires i < |fields| && Unsupported(fields[i])
    requires forall j :: 0 <= j < i ==> !Unsupported(fields[j])
    ensures Predicates(fields) == Err(UnsupportedField(fields[i].value.shown))
  {
    if i > 0 {
      FirstUnsupportedDecides(fields[1..], i - 1);
    }
  }

  /** A condition is selected exactly when some exported field selects it. */
  lemma {:induction false} PredicatesFromFields(fields: seq<Field>, p: Predicate)
    requires Predicates(fields).Ok?
    ensures p in Predicates(fields).value <==>
            exists i :: 0 <= i < |fields| && fields[i].exported && FieldPredicate(fields[i]) == Ok(Some(p))
  {
    if fields != [] {
      var tail := fields[1..];
      PredicatesFromFields(tail, p);
      if exists i :: 0 <= i < |tail| && tail[i].exported && FieldPredicate(tail[i]) == Ok(Some(p)) {
        var i :| 0 <= i < |tail| && tail[i].exported && FieldPredicate(tail[i]) == Ok(Some(p));
        assert fields[i + 1] == tail[i];
      }
      if exists i :: 0 <= i < |fields| && fields[i].exported && FieldPredicate(fields[i]) == Ok(Some(p)) {
        var i :| 0 <= i < |fields| && fields[i].exported && FieldPredicate(fields[i]) == Ok(Some(p));
        if i > 0 {
          assert tail[i - 1] == fields[i];
        }
      }
    }
  }

  /** Every selected condition is well formed: no empty or upper-case
      pattern, no non-positive float bound, no condition on "id". */
  lemma PredicatesWellFormed(fields: seq<Field>)
    requires Predicates(fields).Ok?
    ensures forall p :: p in Predicates(fields).value ==> WellFormed(p)
  {
    forall p | p in Predicates(fields).value ensures WellFormed(p) {
      PredicatesFromFields(fields, p);
    }
  }

  /** The substring condition a string attribute selects. */
  function Matching(column: string, s: string): seq<Predicate> {
    if s == "" then [] else [ILike(column, "%" + Text.ToLower(s) + "%")]
  }

  /** The fields of `model.Book` in declaration order, as reflection lists them. */
  function BookPrototype(b: Book): Prototype {
    Struct([Field("Id", true, Int(b.id)), Field("Title", true, Str(b.title)),
            Field("Author", true, Str(b.author)), Field("Price", true, Float(b.price)),
            Field("CreatedAt", true, Str(b.createdAt))])
  }

  /** The fields of `model.User` in declaration order. */
  function UserPrototype(u: User): Prototype {
    Struct([Field("Name", true, Str(u.name)), Field("Email", true, Str(u.email)), Field("Age", true, Int(u.age))])
  }

  /** One step of `Predicates` over an exported field of a supported type. */
  lemma PredicatesStep(fields: seq<Field>)
    requires fields != [] && fields[0].exported && !fields[0].value.Other?
    ensures Predicates(fields) == Prepend(OptionToSeq(FieldPredicate(fields[0]).value), Predicates(fields[1..]))
  {
  }

  /** What an exported text field contributes. */
  lemma TextContribution(name: string, s: string)
    ensures OptionToSeq(FieldPredicate(Field(name, true, Str(s))).value) == Matching(name, s)
  {
  }

  lemma Regroup<T>(a: seq<T>, b: seq<T>, c: seq<T>, d: seq<T>)
    ensures [] + (a + (b + (c + (d + [])))) == a + b + c + d
  {
  }

  lemma Regroup3<T>(a: seq<T>, b: seq<T>, c: seq<T>)
    ensures a + (b + (c + [])) == a + b + c
  {
  }

  /** A book prototype never fails and never filters on its id: it selects a
      substring match per non-empty text attribute and a lower bound for a
      positive price. */
  lemma BookConditions(b: Book)
    ensures Predicates(BookPrototype(b).fields) ==
            Ok(Matching("Title", b.title) + Matching("Author", b.author)
               + (if b.price > 0.0 then [AtLeastFloat("Price", b.price)] else [])
               + Matching("CreatedAt", b.createdAt))
  {
    var f := BookPrototype(b).fields;
    var created := Matching("CreatedAt", b.createdAt);
    var price := if b.price > 0.0 then [AtLeastFloat("Price", b.price)] else [];
    var author := Matching("Author", b.author);
    var title := Matching("Title", b.title);
    assert f[4..][1..] == [] && f[3..][1..] == f[4..] && f[2..][1..] == f[3..] && f[1..][1..] == f[2..];
    TextContribution("CreatedAt", b.createdAt);
    TextContribution("Author", b.author);
    TextContribution("Title", b.title);
    assert OptionToSeq(FieldPredicate(f[3]).value) == price;
    assert Text.ToLower("Id") == "id";
    assert OptionToSeq(FieldPredicate(f[0]).value) == [];
    PredicatesStep(f[4..]);
    PredicatesStep(f[3..]);
    PredicatesStep(f[2..]);
    PredicatesStep(f[1..]);
    PredicatesStep(f);
    Regroup(title, author, price, created);
  }

  /** A user prototype always bounds the age, even by zero. */
  lemma UserConditions(u: User)
    ensures Predicates(UserPrototype(u).fields) ==
            Ok(Matching("Name", u.name) + Matching("Email", u.email) + [AtLeastInt("age", u.age)])
  {
    var f := UserPrototype(u).fields;
    var name := Matching("Name", u.name);
    var email := Matching("Email", u.email);
    assert f[2..][1..] == [] && f[1..][1..] == f[2..];
    assert Text.ToLower("Age") == "age";
    TextContribution("Name", u.name);
    TextContribution("Email", u.email);
    PredicatesStep(f[2..]);
    PredicatesStep(f[1..]);
    PredicatesStep(f);
    Regroup3(name, email, [AtLeastInt("age", u.age)]);
  }
}
