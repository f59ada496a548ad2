/** Shared vocabulary of the backend: document ids, clock readings, optional
    values, the HTTP error kinds the route handlers raise, the id and
    created_at/updated_at fields every document inherits from `Common`, and
    the list helpers the documents use for their reference lists. */
module Common {

  /** A document id: the `str(uuid4())` string of `Common.id`. */
  type Id = string

  /** A wall-clock reading in whole seconds; `datetime.now()` is a parameter. */
  type Time = int

  datatype Option<+T> = None | Some(value: T)

  /** The `HTTPException`s of the core, by status code, with their `detail`. */
  datatype Error =
    | BadRequest(detail: string)      // 400
    | Unauthorized(detail: string)    // 401
    | NotFound(detail: string)        // 404
    | Unprocessable(detail: string)   // 422, request-body validation

  datatype Result<+T> = Ok(value: T) | Err(error: Error)

  /** The `created_at` / `updated_at` pair of every document. */
  datatype Stamps = Stamps(createdAt: Time, updatedAt: Time)

  /** Both timestamps default to the creation time. */
  function NewStamps(now: Time): (s: Stamps)
    ensures s.createdAt == now && s.updatedAt == now
  {
    Stamps(now, now)
  }

  /** `update_timestamps`: only `updated_at` moves, to now. */
  function Touched(s: Stamps, now: Time): (r: Stamps)
    ensures r.updatedAt == now
    ensures r.createdAt == s.createdAt
  {
    s.(updatedAt := now)
  }

  /** Python truthiness of an optional string: absent and "" are both false. */
  predicate Truthy(o: Option<string>)
  {
    o.Some? && o.value != ""
  }

  /** Removes every occurrence of `x`, keeping the order of the rest. */
  function Without(s: seq<Id>, x: Id): (r: seq<Id>)
    ensures forall y :: y in r <==> y in s && y != x
    ensures |r| <= |s|
    ensures x !in s ==> r == s
    ensures forall y :: y != x ==> multiset(r)[y] == multiset(s)[y]
  {
    if s == [] then []
    else
      assert s == [s[0]] + s[1..];
      if s[0] == x then Without(s[1..], x)
      else [s[0]] + Without(s[1..], x)
  }

  /** Removal distributes over concatenation, so the entries that remain
      keep their relative order. */
  lemma {:induction false} WithoutConcat(s: seq<Id>, t: seq<Id>, x: Id)
    ensures Without(s + t, x) == Without(s, x) + Without(t, x)
  {
    if s == [] {
      assert s + t == t;
    } else {
      assert (s + t)[0] == s[0];
      assert (s + t)[1..] == s[1..] + t;
      WithoutConcat(s[1..], t, x);
    }
  }

  /** The set of elements of a reference list. */
  function Elements(s: seq<Id>): (r: set<Id>)
    ensures forall y :: y in r <==> y in s
  {
    set y | y in s
  }

  /** Removing `x` after appending it is the same as removing it from the
      original list. */
  lemma {:induction false} WithoutAppended(s: seq<Id>, x: Id)
    ensures Without(s + [x], x) == Without(s, x)
  {
    if s == [] {
      assert [] + [x] == [x];
      assert Without([x], x) == Without([x][1..], x);
    } else {
      assert (s + [x])[1..] == s[1..] + [x];
      WithoutAppended(s[1..], x);
    }
  }
}
