/** Values shared by the user registry and the task board: optional document
    fields, MongoDB object identifiers, timestamps and the HTTP statuses the
    handlers answer with. */
module Documents {

  /** A document field that may be absent. JSON `null`, `undefined` and a
      missing field are all `None`: the driver stores `undefined` as null,
      and an equality query on null also matches a document without the field. */
  datatype Option<+T> = None | Some(value: T)

  /** The answer of a request handler: 200, 201, 400, 404, 409 and 500 in
      declaration order. `NoResponse` stands for an exception thrown by an
      async handler outside its `try`: Express 4 never answers. */
  datatype Status = Ok | Created | BadRequest | NotFound | Conflict | ServerError | NoResponse

  /** The status of one handler together with the collection it leaves behind. */
  datatype Outcome<S> = Outcome(status: Status, state: S)

  /** The `Date` built from a request's `modified` field; how it is parsed is
      not modelled, so the value is carried through unread. */
  datatype Stamp = Stamp(millis: int) | InvalidDate

  predicate IsHexDigit(c: char)
  {
    '0' <= c <= '9' || 'a' <= c <= 'f' || 'A' <= c <= 'F'
  }

  /** `ObjectId.isValid` on a string, which is also exactly when
      `new ObjectId(s)` does not throw: 24 hexadecimal digits. */
  predicate ValidId(s: string)
  {
    |s| == 24 && forall i | 0 <= i < |s| :: IsHexDigit(s[i])
  }

  /** A 12-byte object identifier, written as its 24 lower-case hex digits. */
  datatype ObjectId = ObjectId(hex: string)

  predicate Canonical(oid: ObjectId)
  {
    ValidId(oid.hex) && forall i | 0 <= i < |oid.hex| :: !('A' <= oid.hex[i] <= 'F')
  }

  function Lower(c: char): char
  {
    if 'A' <= c <= 'F' then (c as int + 32) as char else c
  }

  /** `new ObjectId(s)`: `None` where the constructor throws. */
  function ToObjectId(s: string): (r: Option<ObjectId>)
    ensures r.Some? <==> ValidId(s)
    ensures r.Some? ==> Canonical(r.value)
  {
    if ValidId(s) then Some(ObjectId(seq(|s|, i requires 0 <= i < |s| => Lower(s[i])))) else None
  }

  /** Two well-formed strings name the same object exactly when they agree
      digit by digit up to the case of the letters. */
  lemma SameObjectId(s: string, t: string)
    requires ValidId(s) && ValidId(t)
    ensures ToObjectId(s) == ToObjectId(t) <==> forall i | 0 <= i < 24 :: Lower(s[i]) == Lower(t[i])
  {
    if forall i | 0 <= i < 24 :: Lower(s[i]) == Lower(t[i]) {
      assert ToObjectId(s).value.hex == ToObjectId(t).value.hex;
    } else {
      var i :| 0 <= i < 24 && Lower(s[i]) != Lower(t[i]);
      assert ToObjectId(s).value.hex[i] != ToObjectId(t).value.hex[i];
    }
  }

  /** Printing an identifier and parsing it back gives the same identifier. */
  lemma CanonicalRoundTrip(oid: ObjectId)
    requires Canonical(oid)
    ensures ToObjectId(oid.hex) == Some(oid)
  {
    var h := oid.hex;
    assert forall i | 0 <= i < |h| :: Lower(h[i]) == h[i];
    assert seq(|h|, i requires 0 <= i < |h| => Lower(h[i])) == h;
  }
}
