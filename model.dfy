/** The record types of the service (model/model.go) and the list-filter
    specification that travels from the HTTP layer to a store. */
module Model {

  /** A registered user. */
  datatype User = User(name: string, email: string, age: int)

  /** A book row; `id` is the auto-incremented primary key. */
  datatype Book = Book(id: int, title: string, author: string, price: real, createdAt: string)

  /** The zero value of `Book`, which Go's `new(Book)` produces. */
  const ZeroBook := Book(0, "", "", 0.0, "")

  /** The zero value of `User`. */
  const ZeroUser := User("", "", 0)

  /** A list request: a sparse prototype record whose non-zero attributes are
      filters, the ordering column and direction, and the page bounds.
      The fields are those the handler fills in and the store reads. */
  datatype Filters<T> = Filters(model: T, sortBy: string, order: string, limit: int, offset: int)
}

/** Byte-string helpers standing in for Go's `strings` package. */
module Text {

  /** `unicode.ToLower` restricted to ASCII letters. */
  function LowerChar(c: char): (r: char)
    ensures 'A' <= c <= 'Z' ==> 'a' <= r <= 'z' && r as int - c as int == 32
    ensures !('A' <= c <= 'Z') ==> r == c
  {
    if 'A' <= c <= 'Z' then (c as int + 32) as char else c
  }

  /** `strings.ToLower` on ASCII text: same length, every character lowered. */
  function ToLower(s: string): (r: string)
    ensures |r| == |s|
    ensures forall i :: 0 <= i < |s| ==> r[i] == LowerChar(s[i])
  {
    if s == [] then [] else [LowerChar(s[0])] + ToLower(s[1..])
  }

}
