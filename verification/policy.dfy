/**
 * Ownership and visibility (`backend/utils/misc.js`). A caller is an optional
 * user id: `undefined` and `null` are `None`, which the source replaces by
 * -Infinity, a value no author id equals.
 */
module Policy {
  import opened Wrappers

  /** The author id of the public, pre-seeded assets. */
  const SystemAuthorId: int := -1

  /**
   * `userCanViewItem(userId, authorId)`: the system's items are visible to
   * everyone, any other item only to its author.
   */
  function UserCanViewItem(userId: Option<int>, authorId: int): (visible: bool)
    ensures authorId == SystemAuthorId ==> visible
    ensures visible && authorId != SystemAuthorId ==> userId == Some(authorId)
    ensures userId == Some(authorId) ==> visible
  {
    if authorId == SystemAuthorId then true
    else match userId
      case None => false
      case Some(u) => u == authorId
  }

  /**
   * The author ids `byUserOrSystem(userId)` lets a query match:
   * `[systemAuthorId, userId].filter(Boolean)`. Falsy ids (absent, or 0) are dropped.
   */
  function ByUserOrSystem(userId: Option<int>): (ids: seq<int>)
    ensures |ids| >= 1 && ids[0] == SystemAuthorId
    ensures SystemAuthorId in ids
    ensures userId.None? || userId == Some(0) ==> ids == [SystemAuthorId]
    ensures userId.Some? && userId.value != 0 ==> ids == [SystemAuthorId, userId.value]
  {
    match userId
    case Some(u) => if u != 0 then [SystemAuthorId, u] else [SystemAuthorId]
    case None => [SystemAuthorId]
  }

  /** System-authored items are visible to every caller, anonymous ones included. */
  lemma SystemItemsVisibleToAll(userId: Option<int>)
    ensures UserCanViewItem(userId, SystemAuthorId)
  {
  }

  /** For a non-system author, visibility is exactly identity of caller and author. */
  lemma OwnerOnlyVisibility(userId: Option<int>, authorId: int)
    requires authorId != SystemAuthorId
    ensures UserCanViewItem(userId, authorId) <==> userId == Some(authorId)
  {
  }

  /** An anonymous caller sees no item that is not the system's. */
  lemma AnonymousSeesOnlySystem(authorId: int)
    ensures UserCanViewItem(None, authorId) <==> authorId == SystemAuthorId
  {
  }

  /** Every defined id may view its own items. */
  lemma ViewIsReflexive(a: int)
    ensures UserCanViewItem(Some(a), a)
  {
  }

  /**
   * For a truthy user id, the list query scope and the per-item check agree:
   * an author id is in scope exactly when the user may view its items.
   */
  lemma ScopeMatchesVisibility(u: int, authorId: int)
    requires u != 0
    ensures authorId in ByUserOrSystem(Some(u)) <==> UserCanViewItem(Some(u), authorId)
  {
  }

  /**
   * The two disagree for user id 0: the item check lets user 0 view its own
   * items, while the falsy id is filtered out of the query scope.
   */
  lemma ZeroUserScopeMismatch()
    ensures UserCanViewItem(Some(0), 0)
    ensures 0 !in ByUserOrSystem(Some(0))
  {
  }
}
