/** The admin book routes (app/api/admin/books/route.ts): `GET` lists the
    books newest first, `POST` validates and defaults a new book and inserts
    it, `PATCH` updates the typed subset of three columns of one book. */
module AdminBooks {
  import opened JsValues
  import opened Tables
  import opened Http

  /** What a route answers: a plain reply, the inserted book
      (`{ ok: true, book }`), the updated book or `null` (`{ book }`), or the
      listing (`{ books }`). */
  datatype AdminReply = Plain(reply: Reply) | Created(book: Book) | Patched(updated: Option<Book>) | Listed(books: seq<Book>)

  datatype Outcome = Outcome(db: Db, reply: AdminReply)

  // ---------------------------------------------------------------------
  // GET

  /** Newest first by `created_at`. */
  predicate NewestFirstOrdered(s: seq<Book>) {
    forall i, j :: 0 <= i < j < |s| ==> s[i].createdAt >= s[j].createdAt
  }

  /** `b` placed before the first book that is not newer than it. */
  function InsertByAge(b: Book, s: seq<Book>): seq<Book> {
    if |s| == 0 then [b]
    else if b.createdAt >= s[0].createdAt then [b] + s
    else [s[0]] + InsertByAge(b, s[1..])
  }

  /** `.order("created_at", { ascending: false })`. The database does not
      fix the order of equal timestamps; this reading keeps table order
      among them. */
  function OrderNewestFirst(books: seq<Book>): seq<Book> {
    if |books| == 0 then [] else InsertByAge(books[0], OrderNewestFirst(books[1..]))
  }

  function ListBooks(db: Db, queryFails: bool): Outcome {
    if queryFails then Outcome(db, Plain(DbFailed(403)))
    else Outcome(db, Listed(OrderNewestFirst(db.books)))
  }

  /** No book in `s` is newer than `t`. */
  predicate NotNewerThan(s: seq<Book>, t: int) {
    forall i :: 0 <= i < |s| ==> s[i].createdAt <= t
  }

  lemma {:induction false} InsertByAgeBound(b: Book, s: seq<Book>, t: int)
    requires b.createdAt <= t && NotNewerThan(s, t)
    ensures NotNewerThan(InsertByAge(b, s), t)
  {
    if |s| > 0 && b.createdAt < s[0].createdAt {
      InsertByAgeBound(b, s[1..], t);
    }
  }

  lemma {:induction false} InsertByAgePerm(b: Book, s: seq<Book>)
    ensures multiset(InsertByAge(b, s)) == multiset(s) + multiset{b}
  {
    if |s| > 0 && b.createdAt < s[0].createdAt {
      InsertByAgePerm(b, s[1..]);
      assert s == [s[0]] + s[1..];
    }
  }

  lemma {:induction false} InsertByAgeOrdered(b: Book, s: seq<Book>)
    requires NewestFirstOrdered(s)
    ensures NewestFirstOrdered(InsertByAge(b, s))
  {
    if |s| > 0 && b.createdAt < s[0].createdAt {
      var rest := InsertByAge(b, s[1..]);
      assert NewestFirstOrdered(s[1..]) by {
        forall i, j | 0 <= i < j < |s[1..]| ensures s[1..][i].createdAt >= s[1..][j].createdAt {
          assert s[1..][i] == s[i + 1] && s[1..][j] == s[j + 1];
        }
      }
      InsertByAgeOrdered(b, s[1..]);
      InsertByAgeBound(b, s[1..], s[0].createdAt);
      var r := [s[0]] + rest;
      forall i, j | 0 <= i < j < |r| ensures r[i].createdAt >= r[j].createdAt {
        if i > 0 {
          assert r[i] == rest[i - 1] && r[j] == rest[j - 1];
        } else {
          assert r[j] == rest[j - 1];
        }
      }
    }
  }

  /** The listing holds every book exactly once, newest first. */
  lemma {:induction false} ListingIsNewestFirst(db: Db)
    ensures var o := ListBooks(db, false);
      && o.db == db
      && o.reply.Listed?
      && NewestFirstOrdered(o.reply.books)
      && multiset(o.reply.books) == multiset(db.books)
  {
    OrderNewestFirstKeeps(db.books);
  }

  lemma {:induction false} OrderNewestFirstKeeps(books: seq<Book>)
    ensures NewestFirstOrdered(OrderNewestFirst(books))
    ensures multiset(OrderNewestFirst(books)) == multiset(books)
  {
    if |books| > 0 {
      OrderNewestFirstKeeps(books[1..]);
      InsertByAgePerm(books[0], OrderNewestFirst(books[1..]));
      InsertByAgeOrdered(books[0], OrderNewestFirst(books[1..]));
      assert books == [books[0]] + books[1..];
    }
  }

  // ---------------------------------------------------------------------
  // POST

  /** The id and timestamp the database gives the new row, and whether the
      insert errs (row-level security refusing a non-admin, for one). */
  datatype CreateEnv = CreateEnv(newId: string, now: int, insertFails: bool)

  /** `body ?? {}`. */
  function CreateFields(body: JsValue): JsValue {
    Coalesce(body, Obj([]))
  }

  /** `title` and `slug` truthy and `typeof pricePerPosition === "number"`. */
  predicate RequiredPresent(v: JsValue) {
    Truthy(Get(v, "title")) && Truthy(Get(v, "slug")) && Get(v, "pricePerPosition").Num?
  }

  /** `Number(totalPositions) || 0` */
  function TotalPositions(v: JsValue): JsNumber {
    NumOr(ToNumber(Get(v, "totalPositions")), 0.0)
  }

  /** `Number(availablePositions ?? totalPositions) || 0` */
  function AvailablePositions(v: JsValue): JsNumber {
    NumOr(ToNumber(Coalesce(Get(v, "availablePositions"), Get(v, "totalPositions"))), 0.0)
  }

  /** The row inserted for `v`. */
  function NewBook(v: JsValue, env: CreateEnv): Book
    requires RequiredPresent(v) && TotalPositions(v).Finite? && AvailablePositions(v).Finite?
  {
    Book(
      env.newId, Get(v, "slug"), Get(v, "title"),
      Or(Get(v, "description"), Null), Or(Get(v, "genre"), Null),
      Or(Get(v, "coverUrl"), Null), Or(Get(v, "publicationDate"), Null),
      TotalPositions(v).r, AvailablePositions(v).r, Get(v, "pricePerPosition").n,
      Published, env.now)
  }

  /** `POST`. A count that converts to an infinity is sent as `null` and the
      not-null column refuses it: the insert errs. */
  function CreateBook(db: Db, body: RequestBody, env: CreateEnv): Outcome {
    if body.Unparseable? then Outcome(db, Plain(Caught("Server error")))
    else
      var v := CreateFields(body.value);
      if !RequiredPresent(v) then Outcome(db, Plain(Json(400, ErrorBody("Missing required fields"))))
      else if !TotalPositions(v).Finite? || !AvailablePositions(v).Finite?
              || env.insertFails || HasBookId(db.books, env.newId) then
        Outcome(db, Plain(DbFailed(403)))
      else
        var book := NewBook(v, env);
        Outcome(db.(books := db.books + [book]), Created(book))
  }

  /** A missing title or slug, or a price that is not a number (a numeric
      string included), is answered 400 with no insert; a `null` body reads
      as `{}` and is answered the same way. */
  lemma CreateRequiresFields(db: Db, v: JsValue, env: CreateEnv)
    ensures !RequiredPresent(CreateFields(v)) <==>
      CreateBook(db, Parsed(v), env) == Outcome(db, Plain(Json(400, ErrorBody("Missing required fields"))))
    ensures CreateBook(db, Parsed(Null), env) == Outcome(db, Plain(Json(400, ErrorBody("Missing required fields"))))
  {
  }

  /** An accepted insert appends one row: the database's id and timestamp,
      slug, title and price as sent, status always `published`, the
      optional texts as sent when truthy and `null` when falsy, the counts
      converted with
      `Number(...) || 0`, the available count taken from the total when it
      is absent, and the price as sent. */
  lemma CreateDefaults(db: Db, v: JsValue, env: CreateEnv)
    requires RequiredPresent(v) && TotalPositions(v).Finite? && AvailablePositions(v).Finite?
    requires !env.insertFails && !HasBookId(db.books, env.newId)
    ensures var o := CreateBook(db, Parsed(v), env);
      && o.reply.Created?
      && o.db == db.(books := db.books + [o.reply.book])
      && var b := o.reply.book;
      && b.id == env.newId && b.createdAt == env.now
      && b.slug == Get(v, "slug") && b.title == Get(v, "title")
      && b.status == Published
      && b.description == (if Truthy(Get(v, "description")) then Get(v, "description") else Null)
      && b.genre == (if Truthy(Get(v, "genre")) then Get(v, "genre") else Null)
      && b.coverImageUrl == (if Truthy(Get(v, "coverUrl")) then Get(v, "coverUrl") else Null)
      && b.publicationDate == (if Truthy(Get(v, "publicationDate")) then Get(v, "publicationDate") else Null)
      && b.totalAuthorPositions == TotalPositions(v).r
      && b.availablePositions == AvailablePositions(v).r
      && (IsNullish(Get(v, "availablePositions")) ==> b.availablePositions == b.totalAuthorPositions)
      && b.pricePerPosition == Get(v, "pricePerPosition").n
  {
    assert !IsNullish(v) by {
      assert Truthy(Get(v, "title"));
    }
  }

  /** `Number(x) || 0` turns anything non-numeric into 0, and `??` only
      replaces a missing value: an explicit 0 available stays 0 even with
      ten positions in total, while a missing one takes the total. */
  lemma CountConversionExamples()
    ensures TotalPositions(Obj([("totalPositions", Str("ten"))])) == Finite(0.0)
    ensures TotalPositions(Obj([("totalPositions", Str(" 12 "))])) == Finite(12.0)
    ensures AvailablePositions(Obj([("totalPositions", Num(10.0)), ("availablePositions", Num(0.0))])) == Finite(0.0)
    ensures AvailablePositions(Obj([("totalPositions", Num(10.0))])) == Finite(10.0)
  {
    var ten := Obj([("totalPositions", Str("ten"))]);
    assert StringToNumber("ten") == NaN by {
      assert TrimEnd(TrimStart("ten")) == "ten";
    }
    assert StringToNumber(" 12 ") == Finite(12.0) by {
      assert TrimStart(" 12 ") == "12 ";
      assert TrimEnd("12 ") == "12";
      assert DigitsValue("12") == 12;
    }
    var zero := Obj([("totalPositions", Num(10.0)), ("availablePositions", Num(0.0))]);
    assert Get(zero, "availablePositions") == Num(0.0);
    var absent := Obj([("totalPositions", Num(10.0))]);
    LookupAbsent(absent.fields, "availablePositions");
  }

  /** No bound is checked on insert: more available than total, and
      negative counts, are stored as sent. */
  lemma CreateChecksNoBounds(db: Db, env: CreateEnv)
    requires !env.insertFails && !HasBookId(db.books, env.newId)
    ensures var v := Obj([("title", Str("T")), ("slug", Str("t")), ("pricePerPosition", Num(-5.0)),
                          ("totalPositions", Num(3.0)), ("availablePositions", Num(7.0))]);
      var o := CreateBook(db, Parsed(v), env);
      && o.reply.Created?
      && o.reply.book.availablePositions == 7.0
      && o.reply.book.totalAuthorPositions == 3.0
      && o.reply.book.pricePerPosition == -5.0
  {
    var v := Obj([("title", Str("T")), ("slug", Str("t")), ("pricePerPosition", Num(-5.0)),
                  ("totalPositions", Num(3.0)), ("availablePositions", Num(7.0))]);
    LookupFound(v.fields, "title", 0);
    LookupFound(v.fields, "slug", 1);
    LookupFound(v.fields, "pricePerPosition", 2);
    LookupFound(v.fields, "totalPositions", 3);
    LookupFound(v.fields, "availablePositions", 4);
  }

  // ---------------------------------------------------------------------
  // PATCH

  /** The book with the typed subset of the request applied: a number for
      `available_positions` or `price_per_position`, a string for `status`;
      anything else is `undefined`, left out of the update. */
  function PatchFields(b: Book, v: JsValue): Book {
    var avail := Get(v, "available_positions");
    var price := Get(v, "price_per_position");
    var status := Get(v, "status");
    b.(availablePositions := if avail.Num? then avail.n else b.availablePositions,
       pricePerPosition := if price.Num? then price.n else b.pricePerPosition,
       status := if status.Str? then status.s else b.status)
  }

  /** Some field of the update object is defined: a number for
      `available_positions` or `price_per_position`, or a string for
      `status`. Otherwise every field is `undefined` and the update body
      is `{}`. */
  predicate AnyTypedField(v: JsValue) {
    Get(v, "available_positions").Num? || Get(v, "price_per_position").Num? || Get(v, "status").Str?
  }

  /** `PATCH`. The update goes through `.maybeSingle()`: no row gives
      `{ book: null }`; a statement that matched several rows errs and is
      rolled back. An empty update body sets no column, so PostgREST runs
      no `UPDATE` and returns no row: `{ book: null }` again. `updateFails`
      stands for a database error, which includes an `id` that is not a
      well-formed UUID. */
  function PatchBook(db: Db, body: RequestBody, updateFails: bool): Outcome {
    if body.Unparseable? || IsNullish(body.value) then Outcome(db, Plain(Caught("Server error")))
    else
      var v := body.value;
      var id := Get(v, "id");
      if !Truthy(id) then Outcome(db, Plain(Json(400, ErrorBody("Missing id"))))
      else if updateFails then Outcome(db, Plain(DbFailed(403)))
      else if !AnyTypedField(v) then Outcome(db, Patched(None))
      else
        var m := BookIdMatches(db.books, id);
        if |m| > 1 then Outcome(db, Plain(DbFailed(403)))
        else if |m| == 0 then Outcome(db, Patched(None))
        else
          var b := PatchFields(db.books[m[0]], v);
          Outcome(db.(books := db.books[m[0] := b]), Patched(Some(b)))
  }

  /** Without a truthy `id`: 400 and no write. */
  lemma PatchRequiresId(db: Db, v: JsValue, updateFails: bool)
    requires !IsNullish(v)
    ensures !Truthy(Get(v, "id")) <==>
      PatchBook(db, Parsed(v), updateFails) == Outcome(db, Plain(Json(400, ErrorBody("Missing id"))))
  {
  }

  /** An id that is no book's: `{ book: null }` with a success status, and
      no write. */
  lemma PatchUnknownId(db: Db, v: JsValue)
    requires !IsNullish(v) && Truthy(Get(v, "id"))
    requires forall i :: 0 <= i < |db.books| ==> Str(db.books[i].id) != Get(v, "id")
    ensures PatchBook(db, Parsed(v), false) == Outcome(db, Patched(None))
  {
    var m := BookIdMatches(db.books, Get(v, "id"));
    NoBookIdMatch(db.books, Get(v, "id"));
  }

  lemma {:induction false} NoBookIdMatch(rows: seq<Book>, v: JsValue)
    requires forall i :: 0 <= i < |rows| ==> Str(rows[i].id) != v
    ensures BookIdMatches(rows, v) == []
  {
    if |rows| > 0 {
      NoBookIdMatch(rows[..|rows| - 1], v);
    }
  }

  /** With unique ids, `.eq("id", v)` matches at most one book. */
  lemma {:induction false} AtMostOneBookIdMatch(rows: seq<Book>, v: JsValue)
    requires UniqueBookIds(rows)
    ensures |BookIdMatches(rows, v)| <= 1
  {
    if |rows| > 0 {
      var n := |rows| - 1;
      assert UniqueBookIds(rows[..n]);
      AtMostOneBookIdMatch(rows[..n], v);
      if Str(rows[n].id) == v {
        forall i | 0 <= i < n ensures Str(rows[..n][i].id) != v {
          assert rows[i].id != rows[n].id;
        }
        NoBookIdMatch(rows[..n], v);
      }
    }
  }

  /** A matched book changes in at most the three typed columns, each only
      when the request carries a value of the right type; slug, title,
      total and every other column stay; other books stay; the reply is the
      updated row. A request with no typed field writes nothing and answers
      `{ book: null }`. */
  lemma {:induction false} PatchTypedSubset(db: Db, v: JsValue, k: nat)
    requires UniqueBookIds(db.books) && !IsNullish(v)
    requires k < |db.books| && db.books[k].id != "" && Str(db.books[k].id) == Get(v, "id")
    ensures var o := PatchBook(db, Parsed(v), false);
      var old_ := db.books[k];
      && (!AnyTypedField(v) ==> o == Outcome(db, Patched(None)))
      && (AnyTypedField(v) ==>
      && o.reply.Patched? && o.reply.updated.Some?
      && var b := o.reply.updated.value;
      && o.db == db.(books := db.books[k := b])
      && b == old_.(availablePositions := b.availablePositions, pricePerPosition := b.pricePerPosition, status := b.status)
      && b.availablePositions == (if Get(v, "available_positions").Num? then Get(v, "available_positions").n else old_.availablePositions)
      && b.pricePerPosition == (if Get(v, "price_per_position").Num? then Get(v, "price_per_position").n else old_.pricePerPosition)
      && b.status == (if Get(v, "status").Str? then Get(v, "status").s else old_.status))
  {
    var m := BookIdMatches(db.books, Get(v, "id"));
    assert k in m;
    AtMostOneBookIdMatch(db.books, Get(v, "id"));
    assert m == [k];
  }

  /** A numeric string is not a number: `{ id, available_positions: "5" }`
      leaves the book as it was, and, being the only field, gives an empty
      update, answered `{ book: null }` with no write. */
  lemma PatchIgnoresNumericText(db: Db, b: Book)
    requires b.id != ""
    ensures PatchFields(b, Obj([("id", Str(b.id)), ("available_positions", Str("5"))])) == b
    ensures PatchBook(db, Parsed(Obj([("id", Str(b.id)), ("available_positions", Str("5"))])), false)
         == Outcome(db, Patched(None))
  {
    var v := Obj([("id", Str(b.id)), ("available_positions", Str("5"))]);
    LookupFound(v.fields, "id", 0);
    LookupFound(v.fields, "available_positions", 1);
    LookupAbsent(v.fields, "price_per_position");
    LookupAbsent(v.fields, "status");
  }
}
