/**
 * The Tagging record (`backend/db/models/tagging.js`): a link from one tag to
 * a card, an icon or a lanyard, with the model validator that rejects more
 * than one reference and the `afterUpdate` hook that destroys a tagging left
 * with none. Ids are JavaScript numbers: a reference counts when it is
 * present and not 0, as `Boolean(id)` decides.
 */
module TaggingModel {
  import opened Wrappers

  datatype Tagging = Tagging(
    authorId: Option<int>,
    tagId: Option<int>,
    cardId: Option<int>,
    iconId: Option<int>,
    lanyardId: Option<int>)

  /** The rows of the `taggings` table, by primary key. */
  type TaggingStore = map<nat, Tagging>

  /** `Boolean(id)` for a nullable numeric column. */
  predicate IsSet(id: Option<int>) {
    id.Some? && id.value != 0
  }

  /** `[cardId, iconId, lanyardId].filter(Boolean).length` */
  function References(t: Tagging): (n: nat)
    ensures n <= 3
    ensures n == 0 <==> !IsSet(t.cardId) && !IsSet(t.iconId) && !IsSet(t.lanyardId)
  {
    (if IsSet(t.cardId) then 1 else 0)
    + (if IsSet(t.iconId) then 1 else 0)
    + (if IsSet(t.lanyardId) then 1 else 0)
  }

  const MultipleReferencesMessage: string := "Tagging entries must reference exactly one object"
  const AuthorNullMessage: string := "Tagging.authorId cannot be null"
  const TagNullMessage: string := "Tagging.tagId cannot be null"

  /**
   * The messages model validation reports, in order: the not-null checks of
   * the `authorId` and `tagId` foreign keys, then `onlyReferencesOneObject`.
   * An empty list means the row is accepted. The three target keys may be null.
   */
  function Validate(t: Tagging): (errors: seq<string>)
    ensures |errors| == 0 <==> t.authorId.Some? && t.tagId.Some? && References(t) <= 1
    ensures MultipleReferencesMessage in errors <==> References(t) > 1
    ensures AuthorNullMessage in errors <==> t.authorId.None?
    ensures TagNullMessage in errors <==> t.tagId.None?
  {
    (if t.authorId.None? then [AuthorNullMessage] else [])
    + (if t.tagId.None? then [TagNullMessage] else [])
    + (if References(t) > 1 then [MultipleReferencesMessage] else [])
  }

  predicate Valid(t: Tagging) {
    |Validate(t)| == 0
  }

  /** The store invariant validation maintains: every row passed validation. */
  predicate AllValid(store: TaggingStore) {
    forall id :: id in store ==> Valid(store[id])
  }

  /**
   * The invariant the validator's message names ("Tagging entries must
   * reference exactly one object"): every row references exactly one target.
   */
  predicate AllSingleTarget(store: TaggingStore) {
    forall id :: id in store ==> Valid(store[id]) && References(store[id]) == 1
  }

  /** Field changes passed to `instance.update`; `None` leaves a field as it is. */
  datatype Patch = Patch(
    authorId: Option<Option<int>>,
    tagId: Option<Option<int>>,
    cardId: Option<Option<int>>,
    iconId: Option<Option<int>>,
    lanyardId: Option<Option<int>>)

  function Pick(change: Option<Option<int>>, current: Option<int>): Option<int> {
    match change
    case Some(v) => v
    case None => current
  }

  function Apply(t: Tagging, p: Patch): Tagging {
    Tagging(
      Pick(p.authorId, t.authorId),
      Pick(p.tagId, t.tagId),
      Pick(p.cardId, t.cardId),
      Pick(p.iconId, t.iconId),
      Pick(p.lanyardId, t.lanyardId))
  }

  /**
   * `Tagging.create(values)`: validation, then the insert. There is no hook on
   * create, so a row with no reference at all is stored.
   */
  function Create(store: TaggingStore, id: nat, t: Tagging): (r: Result<TaggingStore, seq<string>>)
    requires id !in store
    ensures r.Ok? <==> Valid(t)
    ensures r.Err? ==> r.error == Validate(t) && |r.error| > 0
    ensures r.Ok? ==> r.value == store[id := t]
    ensures AllValid(store) && r.Ok? ==> AllValid(r.value)
  {
    var errors := Validate(t);
    if |errors| > 0 then Err(errors) else Ok(store[id := t])
  }

  /**
   * `instance.update(patch)` on the row `id`: validation, the write, and then
   * the `afterUpdate` hook, which destroys the row when no reference is left.
   */
  function Update(store: TaggingStore, id: nat, p: Patch): (r: Result<TaggingStore, seq<string>>)
    requires id in store
    ensures r.Err? <==> !Valid(Apply(store[id], p))
    ensures r.Err? ==> r.error == Validate(Apply(store[id], p))
    ensures r.Ok? ==> r.value.Keys <= store.Keys
    ensures r.Ok? ==> forall other :: other in store && other != id ==>
              other in r.value && r.value[other] == store[other]
    ensures r.Ok? ==> (id in r.value <==> References(Apply(store[id], p)) > 0)
    ensures r.Ok? && id in r.value ==> r.value[id] == Apply(store[id], p)
  {
    var t := Apply(store[id], p);
    var errors := Validate(t);
    if |errors| > 0 then Err(errors)
    else
      var written := store[id := t];
      if References(t) == 0 then Ok(written - {id}) else Ok(written)
  }

  /**
   * The composed invariant: after a successful update, the tagging either is
   * gone or references exactly one target, and the whole store stays valid.
   */
  lemma UpdateKeepsSingleTarget(store: TaggingStore, id: nat, p: Patch)
    requires id in store
    requires AllValid(store)
    ensures Update(store, id, p).Ok? ==> AllValid(Update(store, id, p).value)
    ensures Update(store, id, p).Ok? && id in Update(store, id, p).value ==>
              References(Update(store, id, p).value[id]) == 1
  {
  }

  /** Updates preserve "every row references exactly one target". */
  lemma UpdatePreservesAllSingleTarget(store: TaggingStore, id: nat, p: Patch)
    requires id in store
    requires AllSingleTarget(store)
    ensures Update(store, id, p).Ok? ==> AllSingleTarget(Update(store, id, p).value)
  {
    var r := Update(store, id, p);
    if r.Ok? {
      forall other | other in r.value
        ensures Valid(r.value[other]) && References(r.value[other]) == 1
      {
        if other != id {
          assert r.value[other] == store[other];
        }
      }
    }
  }

  /** Two or three references are rejected, with the "exactly one" message. */
  lemma ValidatorRejectsSeveral(t: Tagging)
    requires References(t) >= 2
    ensures !Valid(t) && MultipleReferencesMessage in Validate(t)
  {
  }

  /**
   * Despite its message, the validator accepts a tagging with no reference:
   * it only counts references above one.
   */
  lemma ValidatorAcceptsNone(author: int, tag: int)
    ensures Valid(Tagging(Some(author), Some(tag), None, None, None))
    ensures References(Tagging(Some(author), Some(tag), None, None, None)) == 0
  {
  }

  /** An update that clears the last reference destroys the tagging. */
  lemma ClearingLastReferenceDestroys(store: TaggingStore, id: nat, p: Patch)
    requires id in store
    requires Valid(Apply(store[id], p)) && References(Apply(store[id], p)) == 0
    ensures Update(store, id, p).Ok? && id !in Update(store, id, p).value
  {
  }

  /** An update that leaves a reference keeps the written row untouched by the hook. */
  lemma HookKeepsReferencedRow(store: TaggingStore, id: nat, p: Patch)
    requires id in store
    requires Valid(Apply(store[id], p)) && References(Apply(store[id], p)) >= 1
    ensures Update(store, id, p) == Ok(store[id := Apply(store[id], p)])
  {
  }
}
