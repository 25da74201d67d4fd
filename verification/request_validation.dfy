/**
 * Request validation and error responses (`backend/utils/validation.js`).
 * A route's `catch` hands whatever was thrown to `finishBadRequest`, which
 * turns it into a status code and a list of reasons.
 */
module RequestValidation {
  import opened Wrappers
  import ApiErrors

  /**
   * An element of a thrown array: an object with a `msg` key (what
   * express-validator reports), an object without one, or a primitive.
   */
  datatype Entry = MsgEntry(msg: string) | ObjectWithoutMsg | Primitive

  /**
   * A thrown value: an array of entries, an `Error` instance with its message,
   * a string, or one of the plain `{statusCode, message}` objects of
   * `backend/utils/errors.js`.
   */
  datatype Thrown =
    | ErrorArray(entries: seq<Entry>)
    | ErrorInstance(message: string)
    | Text(s: string)
    | Plain(error: ApiErrors.ApiError)

  /** The JSON body of an error response; `errors` holds the `reason` of each item. */
  datatype Body = Body(statusCode: int, message: string, errors: Option<seq<string>>)

  datatype Response = Response(status: int, body: Body)

  const FailedMessage: string := "Request validation failed"
  const UnexplainedReason: string := "An unexplained error occured"

  /** The `msg` of every entry that has one, in order; the rest are dropped. */
  function Reasons(entries: seq<Entry>): (reasons: seq<string>)
    ensures |reasons| <= |entries|
    ensures |reasons| == 0 <==> forall j :: 0 <= j < |entries| ==> !entries[j].MsgEntry?
    ensures forall i :: 0 <= i < |reasons| ==>
              exists j :: 0 <= j < |entries| && entries[j] == MsgEntry(reasons[i])
  {
    if |entries| == 0 then []
    else
      var rest := Reasons(entries[1..]);
      assert forall i :: 0 <= i < |rest| ==>
        exists j :: 0 <= j < |entries| && entries[j] == MsgEntry(rest[i]) by {
        forall i | 0 <= i < |rest|
          ensures exists j :: 0 <= j < |entries| && entries[j] == MsgEntry(rest[i])
        {
          var j :| 0 <= j < |entries[1..]| && entries[1..][j] == MsgEntry(rest[i]);
          assert entries[j + 1] == MsgEntry(rest[i]);
        }
      }
      match entries[0]
      case MsgEntry(m) => [m] + rest
      case _ => rest
  }

  /** When every entry carries a `msg`, the reasons are exactly the msgs, in order. */
  lemma {:induction false} ReasonsOfMessages(entries: seq<Entry>)
    requires forall j :: 0 <= j < |entries| ==> entries[j].MsgEntry?
    ensures |Reasons(entries)| == |entries|
    ensures forall i :: 0 <= i < |entries| ==> Reasons(entries)[i] == entries[i].msg
  {
    if |entries| > 0 {
      ReasonsOfMessages(entries[1..]);
    }
  }

  /** The entries `finishBadRequest` maps over once non-arrays are wrapped. */
  function EntriesOf(thrown: Thrown): seq<Entry>
    requires !thrown.Plain?
  {
    match thrown
    case ErrorArray(entries) => entries
    // `{ reason: message }` carries no `msg`
    case ErrorInstance(_) => [ObjectWithoutMsg]
    case Text(_) => [ObjectWithoutMsg]
  }

  /**
   * `finishBadRequest(res, thrown)`. A plain error object is excluded: the
   * source calls `.map` on it, which throws inside the `catch` block.
   */
  function FinishBadRequest(thrown: Thrown): (r: Response)
    requires !thrown.Plain?
    ensures r.status == r.body.statusCode
    ensures r.body.message == FailedMessage
    ensures r.status == 400 || r.status == 500
    ensures r.body.errors.Some? && |r.body.errors.value| >= 1
    ensures r.status == 400 <==> thrown.ErrorArray? && |Reasons(thrown.entries)| > 0
    ensures r.status == 400 ==> r.body.errors.value == Reasons(thrown.entries)
    ensures r.status == 500 ==> r.body.errors.value == [UnexplainedReason]
  {
    var status := if thrown.ErrorInstance? then 500 else 400;
    var reasons := Reasons(EntriesOf(thrown));
    if |reasons| == 0 then Response(500, Body(500, FailedMessage, Some([UnexplainedReason])))
    else Response(status, Body(status, FailedMessage, Some(reasons)))
  }

  /** An array of `{msg}` entries becomes a 400 whose reasons are the msgs in order. */
  lemma BadRequestOfMessages(entries: seq<Entry>)
    requires |entries| > 0
    requires forall j :: 0 <= j < |entries| ==> entries[j].MsgEntry?
    ensures FinishBadRequest(ErrorArray(entries)).status == 400
    ensures |FinishBadRequest(ErrorArray(entries)).body.errors.value| == |entries|
    ensures forall i :: 0 <= i < |entries| ==>
              FinishBadRequest(ErrorArray(entries)).body.errors.value[i] == entries[i].msg
  {
    ReasonsOfMessages(entries);
  }

  /** Errors and strings never carry a `msg`, so they end as the unexplained 500. */
  lemma ErrorsAndStringsAreUnexplained(thrown: Thrown)
    requires thrown.ErrorInstance? || thrown.Text?
    ensures FinishBadRequest(thrown) == Response(500, Body(500, FailedMessage, Some([UnexplainedReason])))
  {
  }

  /** `finishNotFound(resourceType, res)` */
  function FinishNotFound(resourceType: string): (r: Response)
    ensures r.status == 404 && r.body.statusCode == 404
    ensures r.body.errors.None?
    ensures r.body.message == ApiErrors.NotFound(resourceType).message
  {
    Response(404, Body(404, resourceType + " was not be found", None))
  }

  /**
   * `validateRequest` as written: it throws the validation errors when there
   * are any and otherwise resolves to nothing.
   */
  function ValidateRequestAsWritten(errors: seq<Entry>): (r: Result<(), Thrown>)
    ensures r.Err? <==> |errors| > 0
    ensures r.Err? ==> r.error == ErrorArray(errors)
  {
    if |errors| > 0 then Err(ErrorArray(errors)) else Ok(())
  }

  /**
   * `validateRequest` as its callers use it: it throws the validation errors
   * when there are any and otherwise yields the request body, which the
   * callers destructure.
   */
  function ValidateRequest<B>(body: B, errors: seq<Entry>): (r: Result<B, Thrown>)
    ensures r.Err? <==> |errors| > 0
    ensures r.Err? ==> r.error == ErrorArray(errors)
    ensures r.Ok? ==> r.value == body
  {
    if |errors| > 0 then Err(ErrorArray(errors)) else Ok(body)
  }

  /** The message of the `TypeError` raised by destructuring `undefined`. */
  const DestructureUndefined: string := "Cannot destructure property of undefined"
}
