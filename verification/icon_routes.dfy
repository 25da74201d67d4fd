/**
 * The icon routes (`backend/routes/api/icons.js`) over the `icons` table as a
 * map: the gate `maybeGetIcon`, the body filter `getIconValues`, and the
 * create, list, read, update and delete handlers. The authenticated user's id
 * is a parameter, and so are the errors express-validator reports for a body.
 */
module IconRoutes {
  import opened Wrappers
  import opened JsValues
  import opened ApiErrors
  import opened Policy
  import opened RequestValidation

  /** An icon row. `name` and `imageUrl` are non-null STRING columns. */
  datatype Icon = Icon(authorId: int, name: JsValue, imageUrl: JsValue)

  type IconStore = map<nat, Icon>

  /** A parsed JSON request body. */
  type RequestBody = map<string, JsValue>

  /**
   * `maybeGetIcon(instanceId, userId)`: a missing row is "Icon was not be
   * found"; a row the caller may not view is "not allowed".
   */
  function MaybeGetIcon(store: IconStore, id: nat, userId: Option<int>): (r: Result<Icon, ApiError>)
    ensures id !in store ==> r == Err(NotFound("Icon"))
    ensures id in store && !UserCanViewItem(userId, store[id].authorId) ==> r == Err(NotAllowed())
    ensures r.Ok? <==> id in store && UserCanViewItem(userId, store[id].authorId)
    ensures r.Ok? ==> r.value == store[id]
  {
    if id in store then
      if !UserCanViewItem(userId, store[id].authorId) then Err(NotAllowed())
      else Ok(store[id])
    else Err(NotFound("Icon"))
  }

  const IconFields: set<string> := {"name", "imageUrl"}

  /** `getIconValues(req)`: the `name` and `imageUrl` keys the body has, and nothing else. */
  function GetIconValues(body: RequestBody): (values: RequestBody)
    ensures values.Keys == body.Keys * IconFields
    ensures forall k :: k in values ==> values[k] == body[k]
  {
    map k | k in body && k in IconFields :: body[k]
  }

  /**
   * What a non-null Sequelize STRING column accepts on save: a string or a
   * number. `null` fails the not-null check; anything else fails the type check.
   */
  predicate Storable(v: JsValue) {
    v.Str? || v.Int? || v.Float?
  }

  const ModelValidationMessage: string := "Validation error"

  /** `instance.update(values)` for the icon columns. */
  function ApplyIconValues(icon: Icon, values: RequestBody): Icon {
    icon.(name := if "name" in values then values["name"] else icon.name,
          imageUrl := if "imageUrl" in values then values["imageUrl"] else icon.imageUrl)
  }

  /**
   * `PATCH /instance/:id`: body validation, the view gate, then an update of
   * `name` and `imageUrl` only.
   */
  function PatchIcon(store: IconStore, id: nat, caller: int, body: RequestBody, bodyErrors: seq<Entry>)
    : (r: Result<IconStore, Thrown>)
    ensures |bodyErrors| > 0 ==> r == Err(ErrorArray(bodyErrors))
    ensures |bodyErrors| == 0 && id !in store ==> r == Err(Plain(NotFound("Icon")))
    ensures |bodyErrors| == 0 && id in store && !UserCanViewItem(Some(caller), store[id].authorId) ==>
              r == Err(Plain(NotAllowed()))
    ensures r.Ok? <==> && |bodyErrors| == 0 && id in store && UserCanViewItem(Some(caller), store[id].authorId)
                       && forall k :: k in body && k in IconFields ==> Storable(body[k])
    ensures r.Ok? ==> r.value.Keys == store.Keys
    ensures r.Ok? ==> forall other :: other in store && other != id ==> r.value[other] == store[other]
    ensures r.Ok? ==> r.value[id].authorId == store[id].authorId
    ensures r.Ok? ==> r.value[id].name == (if "name" in body then body["name"] else store[id].name)
    ensures r.Ok? ==> r.value[id].imageUrl == (if "imageUrl" in body then body["imageUrl"] else store[id].imageUrl)
  {
    var _ :- ValidateRequest((), bodyErrors);
    match MaybeGetIcon(store, id, Some(caller))
    case Err(e) => Err(Plain(e))
    case Ok(icon) =>
      var values := GetIconValues(body);
      if exists k :: k in values && !Storable(values[k]) then Err(ErrorInstance(ModelValidationMessage))
      else Ok(store[id := ApplyIconValues(icon, values)])
  }

  /** `DELETE /instance/:id`: the view gate, then removal of the row. */
  function DeleteIcon(store: IconStore, id: nat, caller: int): (r: Result<IconStore, Thrown>)
    ensures r.Ok? <==> id in store && UserCanViewItem(Some(caller), store[id].authorId)
    ensures r.Ok? ==> r.value == store - {id}
    ensures r.Err? ==> r.error.Plain?
  {
    match MaybeGetIcon(store, id, Some(caller))
    case Err(e) => Err(Plain(e))
    case Ok(_) => Ok(store - {id})
  }

  /**
   * Update and delete are gated by view permission only, so any signed-in
   * caller may change or remove a system-authored icon.
   */
  lemma SystemIconsMutableByAnyone(store: IconStore, id: nat, caller: int, body: RequestBody)
    requires id in store && store[id].authorId == SystemAuthorId
    requires forall k :: k in body && k in IconFields ==> Storable(body[k])
    ensures DeleteIcon(store, id, caller).Ok?
    ensures PatchIcon(store, id, caller, body, []).Ok?
  {
  }

  /** `GET /instance/:id` */
  function GetIcon(store: IconStore, id: nat, caller: int): (r: Result<Icon, Thrown>)
    ensures r.Ok? <==> id in store && UserCanViewItem(Some(caller), store[id].authorId)
    ensures r.Ok? ==> r.value == store[id]
  {
    match MaybeGetIcon(store, id, Some(caller))
    case Err(e) => Err(Plain(e))
    case Ok(icon) => Ok(icon)
  }

  /** `GET /`: the icons authored by the system or by the caller. */
  function ListIcons(store: IconStore, caller: int): (r: IconStore)
    ensures forall id :: id in r ==> id in store && r[id] == store[id]
    ensures forall id :: id in r ==> store[id].authorId == SystemAuthorId || (caller != 0 && store[id].authorId == caller)
    ensures forall id :: id in store && store[id].authorId == SystemAuthorId ==> id in r
  {
    map id | id in store && store[id].authorId in ByUserOrSystem(Some(caller)) :: store[id]
  }

  /** For a truthy caller id, the listing holds exactly the icons the caller may read by id. */
  lemma ListedIffReadable(store: IconStore, caller: int, id: nat)
    requires caller != 0
    ensures id in ListIcons(store, caller) <==> GetIcon(store, id, caller).Ok?
  {
    if id in store {
      ScopeMatchesVisibility(caller, store[id].authorId);
    }
  }

  /**
   * `POST /` with `validateRequest` yielding the body: the new icon's author
   * is the caller, whatever the body says, and its columns come from the body.
   */
  function CreateIcon(store: IconStore, caller: int, body: RequestBody, bodyErrors: seq<Entry>, newId: nat)
    : (r: Result<(IconStore, Icon), Thrown>)
    requires newId !in store
    ensures |bodyErrors| > 0 ==> r == Err(ErrorArray(bodyErrors))
    ensures r.Ok? <==> |bodyErrors| == 0 && Storable(Field(Obj(body), "name")) && Storable(Field(Obj(body), "imageUrl"))
    ensures r.Ok? ==> r.value.1 == Icon(caller, body["name"], body["imageUrl"])
    ensures r.Ok? ==> r.value.0 == store[newId := r.value.1]
  {
    var validated :- ValidateRequest(body, bodyErrors);
    var name := Field(Obj(validated), "name");
    var imageUrl := Field(Obj(validated), "imageUrl");
    if !Storable(name) || !Storable(imageUrl) then Err(ErrorInstance(ModelValidationMessage))
    else
      var icon := Icon(caller, name, imageUrl);
      Ok((store[newId := icon], icon))
  }

  /** An `authorId` in the body has no effect on who authors the new icon. */
  lemma CreateIgnoresBodyAuthor(store: IconStore, caller: int, body: RequestBody, forged: JsValue, newId: nat)
    requires newId !in store
    requires CreateIcon(store, caller, body[("authorId") := forged], [], newId).Ok?
    ensures CreateIcon(store, caller, body[("authorId") := forged], [], newId).value.1.authorId == caller
    ensures CreateIcon(store, caller, body[("authorId") := forged], [], newId) == CreateIcon(store, caller, body, [], newId)
  {
  }

  /**
   * The create handler as written: `validateRequest` resolves to nothing, so
   * destructuring `{ name, imageUrl }` from it throws a `TypeError`.
   */
  function CreateIconAsWritten(store: IconStore, caller: int, body: RequestBody, bodyErrors: seq<Entry>, newId: nat)
    : (r: Result<(IconStore, Icon), Thrown>)
    requires newId !in store
    ensures |bodyErrors| > 0 ==> r == Err(ErrorArray(bodyErrors))
    ensures |bodyErrors| == 0 ==> r == Err(ErrorInstance(DestructureUndefined))
  {
    var _ :- ValidateRequestAsWritten(bodyErrors);
    Err(ErrorInstance(DestructureUndefined))
  }

  /**
   * As written, a body that passes validation is answered with the
   * unexplained 500, and no icon is ever created.
   */
  lemma CreateIconAsWrittenAlwaysFails(store: IconStore, caller: int, body: RequestBody, newId: nat)
    requires newId !in store
    ensures CreateIconAsWritten(store, caller, body, [], newId).Err?
    ensures FinishBadRequest(CreateIconAsWritten(store, caller, body, [], newId).error)
              == Response(500, Body(500, FailedMessage, Some([UnexplainedReason])))
  {
  }

  /** The corrected handler does create the icon for a valid body. */
  lemma CreateIconSucceedsOnValidBody(store: IconStore, caller: int, name: string, url: string, newId: nat)
    requires newId !in store
    ensures var body := map["name" := Str(name), "imageUrl" := Str(url)];
            && CreateIcon(store, caller, body, [], newId).Ok?
            && newId in CreateIcon(store, caller, body, [], newId).value.0
  {
  }
}
