/**
 * The client's error handling (`frontend/src/store/reducers/utils/errors.js`):
 * `handleApiErrors` turns a JSON error response into issues tracked by an
 * items reducer, `getIdForError` numbers them from the clock, and
 * `dismissErrors` builds the global dismiss action.
 */
module ErrorIssues {
  import opened Wrappers
  import opened Strings
  import opened JsValues
  import ItemsReducer
  import ActionTypes
  import RequestValidation

  /** The type of `dismissErrors()`. */
  const DismissAllType: string := "all-errors/reset"

  /**
   * `dismissErrors()`: the reset action of the "all-errors" prefix, which
   * empties an items reducer with that prefix.
   */
  function DismissErrors(): (a: ItemsReducer.Action<JsValue>)
    ensures ItemsReducer.WellFormed("all-errors", a)
    ensures forall s: ItemsReducer.State<JsValue> :: ItemsReducer.Reduce("all-errors", s, a) == map[]
  {
    assert DismissAllType == ActionTypes.ResetType("all-errors");
    ItemsReducer.Action(DismissAllType, ItemsReducer.NoPayload)
  }

  /**
   * The items reducers of the error lists take only a prefix, so the dismiss
   * action resets none of them unless its prefix is "all-errors".
   */
  lemma DismissErrorsIgnoredByErrorLists(prefix: string, state: ItemsReducer.State<JsValue>)
    requires prefix != "all-errors"
    ensures ItemsReducer.WellFormed(prefix, DismissErrors())
    ensures ItemsReducer.Reduce(prefix, state, DismissErrors()) == state
  {
    assert DismissAllType == ActionTypes.ResetType("all-errors");
    ItemsReducer.OtherPrefixIgnored(prefix, "all-errors", state, DismissErrors());
  }

  // ---------------------------------------------------------------- ids

  /**
   * The module-level `lastTimestamp` and `previousId`; both start unset
   * (`undefined` and `null`).
   */
  datatype IdGen = IdGen(lastTimestamp: Option<nat>, previousId: Option<int>)

  function InitialGen(): IdGen { IdGen(None, None) }

  /** `!lastTimestamp`: unset or zero. */
  predicate HasTimestamp(g: IdGen) {
    g.lastTimestamp.Some? && g.lastTimestamp.value != 0
  }

  /** What the generator maintains: once a timestamp is set, an id at least that large is too. */
  predicate ValidGen(g: IdGen) {
    g.lastTimestamp.Some? ==> g.previousId.Some? && g.previousId.value >= g.lastTimestamp.value
  }

  datatype Issued = Issued(id: int, gen: IdGen)

  /**
   * `getIdForError()` reading `now` from the clock: a new (or first, or zero)
   * timestamp becomes the id; within the same timestamp the previous id is
   * incremented (`null + 1` being 1).
   */
  function NextId(g: IdGen, now: nat): (r: Issued)
    ensures r.gen.lastTimestamp == Some(now) && r.gen.previousId == Some(r.id)
    ensures !(HasTimestamp(g) && g.lastTimestamp.value == now) ==> r.id == now
    ensures HasTimestamp(g) && g.lastTimestamp.value == now && g.previousId.Some? ==>
              r.id == g.previousId.value + 1
  {
    if !HasTimestamp(g) || g.lastTimestamp.value != now then Issued(now, IdGen(Some(now), Some(now)))
    else
      var id := (match g.previousId case Some(p) => p case None => 0) + 1;
      Issued(id, IdGen(g.lastTimestamp, Some(id)))
  }

  /** Every id handed out is at least the clock reading, and the generator stays valid. */
  lemma NextIdKeepsValid(g: IdGen, now: nat)
    requires ValidGen(g)
    ensures ValidGen(NextId(g, now).gen)
    ensures NextId(g, now).id >= now
  {
  }

  /** Within one nonzero millisecond, each id is one more than the one before. */
  lemma SameMillisecondIncreases(g: IdGen, now: nat)
    requires now != 0
    ensures var first := NextId(g, now);
            NextId(first.gen, now).id == first.id + 1
  {
  }

  /**
   * Ids are not unique: two ids issued within millisecond t are t and t + 1,
   * and the first one of millisecond t + 1 is t + 1 again.
   */
  lemma IdsCollideAcrossMilliseconds(t: nat)
    requires t != 0
    ensures var a := NextId(InitialGen(), t);
            var b := NextId(a.gen, t);
            var c := NextId(b.gen, t + 1);
            a.id == t && b.id == t + 1 && c.id == t + 1
  {
  }

  // ------------------------------------------------------------- issues

  type Issue = ItemsReducer.Entry<JsValue>

  /** One issue per content, in order, each numbered by `getIdForError` at clock reading `clock(k + i)`. */
  function BuildIssues(g: IdGen, clock: nat -> nat, k: nat, contents: seq<JsValue>): (r: (seq<Issue>, IdGen))
    ensures |r.0| == |contents|
    ensures forall i :: 0 <= i < |contents| ==> r.0[i].data == contents[i]
    ensures |contents| > 0 ==> r.0[0].id == NextId(g, clock(k)).id
    ensures forall i :: 0 < i < |contents| && clock(k + i) == clock(k + i - 1) && clock(k + i) != 0 ==>
              r.0[i].id == r.0[i - 1].id + 1
    ensures |contents| == 0 ==> r.1 == g
    decreases |contents|
  {
    if |contents| == 0 then ([], g)
    else
      var first := NextId(g, clock(k));
      var rest := BuildIssues(first.gen, clock, k + 1, contents[1..]);
      ([ItemsReducer.Entry(first.id, contents[0])] + rest.0, rest.1)
  }

  /**
   * Within one response, three reasons read at clock times t, t and t + 1
   * receive the ids t, t + 1 and t + 1.
   */
  lemma BatchIdsCollide(t: nat, a: JsValue, b: JsValue, c: JsValue)
    requires t != 0
    ensures var r := BuildIssues(InitialGen(), i => if i < 2 then t else t + 1, 0, [a, b, c]).0;
            r[0].id == t && r[1].id == t + 1 && r[2].id == t + 1
  {
    var clock := i => if i < 2 then t else t + 1;
    var r := BuildIssues(InitialGen(), clock, 0, [a, b, c]);
    var g1 := NextId(InitialGen(), t);
    var r1 := BuildIssues(g1.gen, clock, 1, [b, c]);
    assert [a, b, c][1..] == [b, c];
    assert r.0 == [ItemsReducer.Entry(t, a)] + r1.0;
    var g2 := NextId(g1.gen, t);
    var r2 := BuildIssues(g2.gen, clock, 2, [c]);
    assert [b, c][1..] == [c];
    assert r1.0 == [ItemsReducer.Entry(t + 1, b)] + r2.0;
    assert r2.0[0].id == NextId(g2.gen, t + 1).id == t + 1;
  }

  /**
   * What the handler iterates over: the reasons, or the message alone when
   * `reasons.length` is falsy. `None` when reading or iterating `reasons`
   * throws a TypeError (`null`/`undefined`, or a plain object with a truthy
   * `length`). A string is iterated character by character.
   */
  function IssueContents(message: JsValue, reasons: JsValue): (r: Option<seq<JsValue>>)
    ensures r.Some? ==> |r.value| >= 1
    ensures reasons.Arr? ==> r == Some(if |reasons.items| == 0 then [message] else reasons.items)
    ensures r.None? <==> reasons.Null? || reasons.Undefined? || (reasons.Obj? && Truthy(Field(reasons, "length")))
    ensures r.Some? && !reasons.Arr? && !reasons.Str? ==> r.value == [message]
    ensures reasons == Str("") ==> r == Some([message])
    ensures reasons.Str? && reasons.s != "" ==>
              && r.Some? && |r.value| == |reasons.s|
              && forall i :: 0 <= i < |reasons.s| ==> r.value[i] == Str([reasons.s[i]])
  {
    match reasons
    case Undefined => None
    case Null => None
    case Arr(items) => Some(if |items| == 0 then [message] else items)
    case Str(s) => Some(if |s| == 0 then [message] else seq(|s|, i requires 0 <= i < |s| => Str([s[i]])))
    case Obj(_) => if Truthy(Field(reasons, "length")) then None else Some([message])
    case _ => Some([message])
  }

  /** A caught value: a `Response`, or anything else. */
  datatype Caught =
    | ResponseError(contentType: Option<string>, handled: bool, body: JsValue)
    | OtherError(value: JsValue)

  /** How `handleApiErrors` rejects: with the caught value, or with a TypeError of its own. */
  datatype Rejection = RethrowCaught | TypeErrorThrown

  /** The caught value afterwards, the generator, the action dispatched if any, and the rejection. */
  datatype Outcome = Outcome(caught: Caught, gen: IdGen, dispatched: Option<ItemsReducer.Action<JsValue>>, thrown: Rejection)

  /** `"message" in body && "reasons" in body` for a JSON object or array. */
  predicate HasMessageAndReasons(body: JsValue) {
    body.Obj? && "message" in body.fields && "reasons" in body.fields
  }

  /**
   * `handleApiErrors(caught, dispatch, errors)` for the items reducer with
   * `prefix`. The response body arrives parsed; `clock(i)` is the i-th
   * reading of `Date.now()`.
   */
  function HandleApiErrors(caught: Caught, prefix: string, g: IdGen, clock: nat -> nat): (r: Outcome)
    ensures r.dispatched.Some? ==>
              && caught.ResponseError? && caught.contentType.Some?
              && Contains(caught.contentType.value, "application/json")
              && !caught.handled && HasMessageAndReasons(caught.body)
              && r.dispatched.value.kind == ItemsReducer.TrackedType(prefix)
    ensures r.dispatched.Some? <==>
              && IsJsonResponse(caught) && !caught.handled && HasMessageAndReasons(caught.body)
              && IssueContents(caught.body.fields["message"], caught.body.fields["reasons"]).Some?
    ensures r.thrown == TypeErrorThrown ==> r.dispatched.None?
    ensures r.dispatched.None? ==> r.gen == g
    ensures caught.OtherError? ==> r == Outcome(caught, g, None, RethrowCaught)
  {
    match caught
    case OtherError(_) => Outcome(caught, g, None, RethrowCaught)
    case ResponseError(contentType, handled, body) =>
      if contentType.None? then Outcome(caught, g, None, TypeErrorThrown)
      else if !Contains(contentType.value, "application/json") || handled then Outcome(caught, g, None, RethrowCaught)
      else
        var marked := caught.(handled := true);
        if !(body.Obj? || body.Arr?) then Outcome(marked, g, None, TypeErrorThrown)
        else if !HasMessageAndReasons(body) then Outcome(marked, g, None, RethrowCaught)
        else match IssueContents(body.fields["message"], body.fields["reasons"])
          case None => Outcome(marked, g, None, TypeErrorThrown)
          case Some(contents) =>
            var built := BuildIssues(g, clock, 0, contents);
            Outcome(marked, built.1, Some(ItemsReducer.TrackItems(prefix, built.0)), RethrowCaught)
  }

  /** A JSON response the handler reads: content type present and naming JSON. */
  predicate IsJsonResponse(c: Caught) {
    c.ResponseError? && c.contentType.Some? && Contains(c.contentType.value, "application/json")
  }

  /** A response already handled is rethrown untouched, with nothing dispatched. */
  lemma HandledResponseIgnored(caught: Caught, prefix: string, g: IdGen, clock: nat -> nat)
    requires IsJsonResponse(caught) && caught.handled
    ensures HandleApiErrors(caught, prefix, g, clock) == Outcome(caught, g, None, RethrowCaught)
  {
  }

  /** Processing a JSON response marks it handled, so a second pass ignores it. */
  lemma ProcessingMarksHandled(caught: Caught, prefix: string, g: IdGen, clock: nat -> nat)
    requires IsJsonResponse(caught) && !caught.handled
    ensures var r := HandleApiErrors(caught, prefix, g, clock);
            && r.caught == caught.(handled := true)
            && HandleApiErrors(r.caught, prefix, r.gen, clock).dispatched.None?
  {
  }

  /** Only a missing content type or an unusable body replaces the rethrow with a TypeError. */
  lemma RethrownUnlessTypeError(caught: Caught, prefix: string, g: IdGen, clock: nat -> nat)
    ensures HandleApiErrors(caught, prefix, g, clock).thrown == TypeErrorThrown <==>
              && caught.ResponseError?
              && (|| caught.contentType.None?
                  || (IsJsonResponse(caught) && !caught.handled &&
                      (|| !IsObject(caught.body) || caught.body.Null?
                       || (HasMessageAndReasons(caught.body) &&
                           IssueContents(caught.body.fields["message"], caught.body.fields["reasons"]).None?))))
  {
  }

  /**
   * Empty reasons yield exactly one issue, carrying the message, for any
   * content type naming JSON (Express sends "application/json; charset=utf-8").
   */
  lemma EmptyReasonsGiveMessage(fields: map<string, JsValue>, ct: string, prefix: string, g: IdGen, clock: nat -> nat)
    requires Contains(ct, "application/json")
    requires "message" in fields && "reasons" in fields && fields["reasons"] == Arr([])
    ensures var r := HandleApiErrors(ResponseError(Some(ct), false, Obj(fields)), prefix, g, clock);
            && r.dispatched.Some? && r.dispatched.value.payload.Items?
            && |r.dispatched.value.payload.items| == 1
            && r.dispatched.value.payload.items[0].data == fields["message"]
  {
  }

  /** Non-empty array reasons yield one issue per reason, in order, for any content type naming JSON. */
  lemma ReasonsGiveOneIssueEach(fields: map<string, JsValue>, reasons: seq<JsValue>, ct: string, prefix: string, g: IdGen, clock: nat -> nat)
    requires Contains(ct, "application/json")
    requires "message" in fields && "reasons" in fields && fields["reasons"] == Arr(reasons) && |reasons| > 0
    ensures var r := HandleApiErrors(ResponseError(Some(ct), false, Obj(fields)), prefix, g, clock);
            && r.dispatched.Some? && r.dispatched.value.payload.Items?
            && |r.dispatched.value.payload.items| == |reasons|
            && forall i :: 0 <= i < |reasons| ==> r.dispatched.value.payload.items[i].data == reasons[i]
  {
  }

  /** The JSON the backend sends for an error response: `errors` items are `{reason}` objects. */
  function BackendBody(b: RequestValidation.Body): (j: JsValue)
    ensures j.Obj? && "reasons" !in j.fields
    ensures "message" in j.fields && j.fields["message"] == Str(b.message)
  {
    var base := map["statusCode" := Int(b.statusCode), "message" := Str(b.message)];
    match b.errors
    case None => Obj(base)
    case Some(reasons) =>
      Obj(base["errors" := Arr(seq(|reasons|, i requires 0 <= i < |reasons| => Obj(map["reason" := Str(reasons[i])])))])
  }

  /**
   * The backend names its list `errors`, not `reasons`, so none of its error
   * responses ever becomes an issue, whatever its content type.
   */
  lemma BackendBodiesYieldNoIssues(b: RequestValidation.Body, ct: Option<string>, handled: bool, prefix: string, g: IdGen, clock: nat -> nat)
    ensures HandleApiErrors(ResponseError(ct, handled, BackendBody(b)), prefix, g, clock).dispatched.None?
  {
  }
}
