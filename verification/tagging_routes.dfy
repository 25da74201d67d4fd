/**
 * The tagging routes every entity router mounts (`backend/utils/tagging.js`):
 * the ownership gate `maybeGetTagging` and the create, list, read and delete
 * handlers, over the tagging table as a map. The authenticated user's id is
 * a parameter; so are the outcomes of the tag lookup and of the target
 * lookup, which the create handler delegates to other modules.
 */
module TaggingRoutes {
  import opened Wrappers
  import opened ApiErrors
  import opened TaggingModel
  import opened RequestValidation

  /** Which foreign key a router writes: `addTaggingRoutes(router, foreignKey, …)`. */
  datatype ForeignKey = CardKey | IconKey | LanyardKey

  /**
   * `maybeGetTagging(req, authorId)`: a missing row is "Tagging was not be
   * found"; a defined `authorId` that differs from the row's author is "not
   * allowed"; an undefined `authorId` skips the ownership check.
   */
  function MaybeGetTagging(store: TaggingStore, id: nat, authorId: Option<int>): (r: Result<Tagging, ApiError>)
    ensures id !in store ==> r == Err(NotFound("Tagging"))
    ensures id in store && authorId.None? ==> r == Ok(store[id])
    ensures id in store && authorId.Some? && store[id].authorId != authorId ==> r == Err(NotAllowed())
    ensures r.Ok? <==> id in store && (authorId.None? || store[id].authorId == authorId)
    ensures r.Ok? ==> r.value == store[id]
  {
    if id in store then
      if authorId.Some? && authorId != store[id].authorId then Err(NotAllowed())
      else Ok(store[id])
    else Err(NotFound("Tagging"))
  }

  const InstanceIdMessage: string := "Tagging request must have an instanceId"

  /** `check("instanceId").exists({ checkFalsy: true })` */
  function InstanceIdErrors(instanceId: Option<int>): (errors: seq<Entry>)
    ensures |errors| == 0 <==> IsSet(instanceId)
  {
    if IsSet(instanceId) then [] else [MsgEntry(InstanceIdMessage)]
  }

  /** The new row: caller as author, the resolved tag, and only the router's key set. */
  function NewTagging(key: ForeignKey, caller: int, tagId: int, instanceId: int): Tagging {
    match key
    case CardKey => Tagging(Some(caller), Some(tagId), Some(instanceId), None, None)
    case IconKey => Tagging(Some(caller), Some(tagId), None, Some(instanceId), None)
    case LanyardKey => Tagging(Some(caller), Some(tagId), None, None, Some(instanceId))
  }

  /** The key `NewTagging` fills in for a router. */
  function TargetOf(key: ForeignKey, t: Tagging): Option<int> {
    match key
    case CardKey => t.cardId
    case IconKey => t.iconId
    case LanyardKey => t.lanyardId
  }

  /**
   * `POST /tagging/:id` with the request's `instanceId` validated and
   * returned by `validateRequest`. `tag` and `target` are the outcomes of the
   * tag lookup and of the router's `maybeGetInstance`; when both fail the tag
   * lookup's error is reported. `newId` is the primary key the insert assigns.
   */
  function CreateTagging(
    store: TaggingStore, caller: int, key: ForeignKey, instanceId: Option<int>,
    tag: Result<int, Thrown>, target: Result<(), Thrown>, newId: nat)
    : (r: Result<(TaggingStore, Tagging), Thrown>)
    requires newId !in store
    ensures r.Ok? <==> IsSet(instanceId) && tag.Ok? && target.Ok?
    ensures !IsSet(instanceId) ==> r == Err(ErrorArray([MsgEntry(InstanceIdMessage)]))
    ensures r.Ok? ==> var t := r.value.1;
              && r.value.0 == store[newId := t]
              && t.authorId == Some(caller)
              && t.tagId == Some(tag.value)
              && TargetOf(key, t) == instanceId
              && Valid(t) && References(t) == 1
  {
    var id :- ValidateRequest(instanceId, InstanceIdErrors(instanceId));
    var tagId :- tag;
    var _ :- target;
    var t := NewTagging(key, caller, tagId, id.value);
    match Create(store, newId, t)
    case Ok(written) => Ok((written, t))
    case Err(_) => Err(ErrorInstance("Validation error"))
  }

  /**
   * The create handler as written: `validateRequest` resolves to nothing, so
   * destructuring `instanceId` from its result throws a `TypeError` whenever
   * validation passes.
   */
  function CreateTaggingAsWritten(
    store: TaggingStore, caller: int, key: ForeignKey, instanceId: Option<int>,
    tag: Result<int, Thrown>, target: Result<(), Thrown>, newId: nat)
    : (r: Result<(TaggingStore, Tagging), Thrown>)
    requires newId !in store
    ensures !IsSet(instanceId) ==> r == Err(ErrorArray([MsgEntry(InstanceIdMessage)]))
    ensures IsSet(instanceId) ==> r == Err(ErrorInstance(DestructureUndefined))
  {
    var _ :- ValidateRequestAsWritten(InstanceIdErrors(instanceId));
    Err(ErrorInstance(DestructureUndefined))
  }

  /** No request can create a tagging through the handler as written. */
  lemma CreateTaggingAsWrittenNeverSucceeds(
    store: TaggingStore, caller: int, key: ForeignKey, instanceId: Option<int>,
    tag: Result<int, Thrown>, target: Result<(), Thrown>, newId: nat)
    requires newId !in store
    ensures CreateTaggingAsWritten(store, caller, key, instanceId, tag, target, newId).Err?
    ensures IsSet(instanceId) ==>
              FinishBadRequest(CreateTaggingAsWritten(store, caller, key, instanceId, tag, target, newId).error).status == 500
  {
  }

  /** A created tagging keeps "every row references exactly one target". */
  lemma CreatePreservesAllSingleTarget(
    store: TaggingStore, caller: int, key: ForeignKey, instanceId: Option<int>,
    tag: Result<int, Thrown>, target: Result<(), Thrown>, newId: nat)
    requires newId !in store
    requires AllSingleTarget(store)
    ensures var r := CreateTagging(store, caller, key, instanceId, tag, target, newId);
            r.Ok? ==> AllSingleTarget(r.value.0)
  {
  }

  /** `GET /taggings`: the rows whose author is the caller. */
  function ListTaggings(store: TaggingStore, caller: int): (r: TaggingStore)
    ensures forall id :: id in r <==> id in store && store[id].authorId == Some(caller)
    ensures forall id :: id in r ==> r[id] == store[id]
  {
    map id | id in store && store[id].authorId == Some(caller) :: store[id]
  }

  /** A tagging is listed for the caller exactly when the caller may read it by id. */
  lemma ListedIffReadable(store: TaggingStore, caller: int, id: nat)
    ensures id in ListTaggings(store, caller) <==> MaybeGetTagging(store, id, Some(caller)).Ok?
  {
  }

  /** `GET /tagging/:id` */
  function GetTagging(store: TaggingStore, id: nat, caller: int): (r: Result<Tagging, Thrown>)
    ensures r.Ok? <==> id in store && store[id].authorId == Some(caller)
    ensures r.Ok? ==> r.value == store[id]
    ensures id !in store ==> r == Err(Plain(NotFound("Tagging")))
  {
    match MaybeGetTagging(store, id, Some(caller))
    case Ok(t) => Ok(t)
    case Err(e) => Err(Plain(e))
  }

  /** `DELETE /tagging/:id`: only the tagging's author gets past the gate. */
  function DeleteTagging(store: TaggingStore, id: nat, caller: int): (r: Result<TaggingStore, Thrown>)
    ensures r.Ok? <==> id in store && store[id].authorId == Some(caller)
    ensures r.Ok? ==> r.value == store - {id}
    ensures r.Err? ==> r.error.Plain?
  {
    match MaybeGetTagging(store, id, Some(caller))
    case Ok(_) => Ok(store - {id})
    case Err(e) => Err(Plain(e))
  }

  /** Deleting leaves every other tagging in place. */
  lemma DeleteTouchesOnlyTarget(store: TaggingStore, id: nat, caller: int, other: nat)
    requires DeleteTagging(store, id, caller).Ok?
    requires other != id
    ensures other in DeleteTagging(store, id, caller).value <==> other in store
    ensures other in store ==> DeleteTagging(store, id, caller).value[other] == store[other]
  {
  }
}
