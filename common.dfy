/** Values shared by every part of the model: optional values, results and the
    errors the message and user models raise. */
module Common {

  datatype Option<+T> = None | Some(value: T)

  /** The outcome of an operation that may throw: `Ok` for a returned value,
      `Err` for a thrown error. */
  datatype Result<+T, +E> = Ok(value: T) | Err(error: E)

  /** A timestamp, either the database's `current_timestamp` (supplied by the
      caller as a clock reading) or the `date_sent` reported by the SMS gateway.
      The model only stores and compares timestamps. */
  type Time = int

  datatype Error =
    /** `rows[0].phone` read on an empty result: the JavaScript TypeError that an
        unknown username causes in `Message.create`. */
    | NoUserRow(username: string)
    /** NotFoundError about a user. */
    | UserNotFound(username: string)
    /** NotFoundError about a message id. */
    | MessageNotFound(id: int)
    /** BadRequestError built from the gateway's `error_message` and `error_code`. */
    | BadRequest(errorMessage: string, errorCode: string)
    /** The gateway client's own exception, re-thrown unchanged. */
    | TransportFailure(reason: string)
    /** ReferenceError for an undeclared variable. */
    | ReferenceError(name: string)
    /** UnauthorizedError raised by a route for the logged-in user. */
    | Unauthorized(username: string)
    /** The database's primary-key violation on `users.username`. */
    | DuplicateUser(username: string)

  /** A finite set whose elements have distinct keys has as many elements as
      there are keys. */
  lemma {:induction false} CardinalityByKey<T, K>(xs: set<T>, keys: set<K>, key: T -> K)
    requires forall x :: x in xs ==> key(x) in keys
    requires forall k :: k in keys ==> exists x :: x in xs && key(x) == k
    requires forall x, y :: x in xs && y in xs && key(x) == key(y) ==> x == y
    ensures |xs| == |keys|
    decreases xs
  {
    if xs == {} {
      assert forall k :: k in keys ==> false;
    } else {
      var x :| x in xs;
      var xs', keys' := xs - {x}, keys - {key(x)};
      forall k | k in keys' ensures exists y :: y in xs' && key(y) == k {
        var y :| y in xs && key(y) == k;
        assert y != x;
      }
      CardinalityByKey(xs', keys', key);
    }
  }
}
