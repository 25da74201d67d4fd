/**
 * The error objects `backend/utils/errors.js` builds: a status code plus a
 * message. The four constructors are `Raise` applied to an `ErrorKind`, and
 * `Recover` reads the kind back from status and message.
 */
module ApiErrors {
  import opened Wrappers
  import opened Strings

  datatype ApiError = ApiError(statusCode: int, message: string)

  datatype ErrorKind =
    | NotAllowedKind
    | NotRecognizedKind
    | NotFoundKind(name: string)
    | ConflictKind(email: string)

  const NotAllowedMessage: string := "The user does not have access"
  const NotRecognizedMessage: string := "The user is not recognized"
  const NotFoundSuffix: string := " was not be found"
  const ConflictSuffix: string := " already in use."

  function NotAllowed(): (e: ApiError)
    ensures e.statusCode == 403 && e.message == NotAllowedMessage
  {
    ApiError(403, NotAllowedMessage)
  }

  function NotRecognized(): (e: ApiError)
    ensures e.statusCode == 401 && e.message == NotRecognizedMessage
  {
    ApiError(401, NotRecognizedMessage)
  }

  /** The message starts with the resource name. */
  function NotFound(name: string): (e: ApiError)
    ensures e.statusCode == 404
    ensures IsPrefix(name, e.message) && IsSuffix(NotFoundSuffix, e.message)
    ensures |e.message| == |name| + |NotFoundSuffix|
  {
    ApiError(404, name + NotFoundSuffix)
  }

  /** The message embeds the email address in front of " already in use.". */
  function Conflict(email: string): (e: ApiError)
    ensures e.statusCode == 409
    ensures IsPrefix(email, e.message) && IsSuffix(ConflictSuffix, e.message)
    ensures |e.message| == |email| + |ConflictSuffix|
  {
    ApiError(409, email + ConflictSuffix)
  }

  function Raise(k: ErrorKind): ApiError {
    match k
    case NotAllowedKind => NotAllowed()
    case NotRecognizedKind => NotRecognized()
    case NotFoundKind(name) => NotFound(name)
    case ConflictKind(email) => Conflict(email)
  }

  /** Reads back which constructor built an error, and with which argument. */
  function Recover(e: ApiError): Option<ErrorKind> {
    if e.statusCode == 403 && e.message == NotAllowedMessage then Some(NotAllowedKind)
    else if e.statusCode == 401 && e.message == NotRecognizedMessage then Some(NotRecognizedKind)
    else if e.statusCode == 404 && IsSuffix(NotFoundSuffix, e.message) then
      Some(NotFoundKind(e.message[..|e.message| - |NotFoundSuffix|]))
    else if e.statusCode == 409 && IsSuffix(ConflictSuffix, e.message) then
      Some(ConflictKind(e.message[..|e.message| - |ConflictSuffix|]))
    else None
  }

  /**
   * Every error the constructors build is distinguishable: the kind and its
   * argument (resource name, email) can be read back from the object.
   */
  lemma RecoverRaise(k: ErrorKind)
    ensures Recover(Raise(k)) == Some(k)
  {
    match k
    case NotFoundKind(name) => RecoverNotFound(name);
    case ConflictKind(email) => RecoverConflict(email);
    case _ =>
  }

  lemma RecoverNotFound(name: string)
    ensures Recover(NotFound(name)) == Some(NotFoundKind(name))
  {
    var m := NotFound(name).message;
    assert m[..|m| - |NotFoundSuffix|] == name;
  }

  lemma RecoverConflict(email: string)
    ensures Recover(Conflict(email)) == Some(ConflictKind(email))
  {
    var m := Conflict(email).message;
    assert m[..|m| - |ConflictSuffix|] == email;
  }

  /** Distinct kinds give distinct error objects. */
  lemma RaiseInjective(k1: ErrorKind, k2: ErrorKind)
    requires Raise(k1) == Raise(k2)
    ensures k1 == k2
  {
    RecoverRaise(k1);
    RecoverRaise(k2);
  }
}
