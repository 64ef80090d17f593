/** Values shared by every handler: optional values, HTTP replies, the
    truthiness test JavaScript applies to request fields, and the shape of a
    well-formed document id. */
module Common {

  datatype Option<+T> = None | Some(value: T) {
    function GetOr(default: T): T {
      match this
      case Some(v) => v
      case None => default
    }
  }

  /** What a handler sends: a success status with its payload, or an error
      status with the message the handler writes into the JSON body. */
  datatype Reply<+T> = Ok(code: int, value: T) | Fail(code: int, message: string)

  /** The message every generic catch block answers with status 500. */
  const ServerError := "Server error"

  /** A request field written `if (field)` or `field || other` in the
      handlers: an absent field and the empty string are both falsy. */
  predicate Truthy(o: Option<string>) {
    o.Some? && o.value != ""
  }

  /** A string path declared `required` passes its validator exactly when
      its value is truthy. */
  predicate Required(o: Option<string>) {
    Truthy(o)
  }

  /** `field || fallback` for a string field: the result is truthy exactly
      when one of the two is, and it is the first truthy one. */
  function OrElse(o: Option<string>, fallback: Option<string>): (r: Option<string>)
    ensures Truthy(r) <==> Truthy(o) || Truthy(fallback)
    ensures Truthy(o) ==> r == o
    ensures !Truthy(o) ==> r == fallback
  {
    if Truthy(o) then o else fallback
  }

  predicate IsHexDigit(c: char) {
    ('0' <= c <= '9') || ('a' <= c <= 'f')
  }

  /** A well-formed document id: 24 hexadecimal digits, the canonical
      (lower-case) spelling of a 12-byte object id. */
  predicate IsObjectId(s: string) {
    |s| == 24 && forall i :: 0 <= i < |s| ==> IsHexDigit(s[i])
  }
}
