/**
 * The selectors over the items, selection and session state
 * (`frontend/src/store/selectors.js`).
 */
module Selectors {
  import opened Wrappers
  import opened JsValues
  import ItemsReducer
  import SelectionReducer
  import Session

  /** `getItems(state)[id]`: the entry stored under id, or `undefined`. */
  function SelectItem<D>(state: ItemsReducer.State<D>, id: ItemsReducer.Key): (r: Option<ItemsReducer.Entry<D>>)
    ensures r.Some? <==> id in state
    ensures r.Some? ==> r.value == state[id]
  {
    if id in state then Some(state[id]) else None
  }

  /**
   * `Object.values(getItems(state))`: every stored entry, each once. The
   * order (ascending numeric key) is not modelled.
   */
  function SelectItems<D(==)>(state: ItemsReducer.State<D>): (r: set<ItemsReducer.Entry<D>>)
    ensures forall k :: k in state ==> state[k] in r
    ensures forall e :: e in r ==> exists k :: k in state && state[k] == e
  {
    set k | k in state :: state[k]
  }

  /** `!!getSelections(state)[id]` */
  predicate SelectionStatus(state: SelectionReducer.Selections, id: SelectionReducer.Key) {
    id in state && state[id]
  }

  /** `Object.keys(getSelections(state))`, as a set of ids. */
  function SelectSelections(state: SelectionReducer.Selections): (r: set<SelectionReducer.Key>)
    ensures forall k :: k in r <==> k in state
  {
    state.Keys
  }

  /** `!!selectSession(state)` */
  predicate AuthStatus(session: JsValue) {
    Truthy(session)
  }

  /** After TRACKED, the item selector returns the last payload entry with that id. */
  lemma SelectAfterTrack<D(!new)>(prefix: string, state: ItemsReducer.State<D>, x: ItemsReducer.Entry<D>)
    ensures SelectItem(ItemsReducer.Reduce(prefix, state, ItemsReducer.TrackItem(prefix, x)), x.id) == Some(x)
  {
    ItemsReducer.TrackItemStoresOne(prefix, state, x);
  }

  /** After UNTRACKED, the item selector finds nothing under that id. */
  lemma SelectAfterUntrack<D(!new)>(prefix: string, state: ItemsReducer.State<D>, id: ItemsReducer.Key)
    ensures SelectItem(ItemsReducer.Reduce(prefix, state, ItemsReducer.UntrackItem(prefix, id)), id) == None
  {
    ItemsReducer.UntrackedRemovesIds(prefix, state, [id]);
  }

  /** In a keyed state, the listed entries are exactly those the item selector can return. */
  lemma ListedIffSelectable<D>(state: ItemsReducer.State<D>, e: ItemsReducer.Entry<D>)
    requires ItemsReducer.Keyed(state)
    ensures e in SelectItems(state) <==> SelectItem(state, e.id) == Some(e)
  {
  }

  /**
   * Selection status is true after `pick(id)` and false after `forget(id)`;
   * it is membership in the selections list.
   */
  lemma StatusFollowsPickAndForget(prefix: string, alias: SelectionReducer.ResetAlias, state: SelectionReducer.Selections, id: SelectionReducer.Key)
    requires !SelectionReducer.AliasMatches(alias, SelectionReducer.SelectedType(prefix))
    requires !SelectionReducer.AliasMatches(alias, SelectionReducer.DeselectedType(prefix))
    ensures SelectionStatus(SelectionReducer.Reduce(prefix, alias, state, SelectionReducer.Pick(prefix, id)), id)
    ensures !SelectionStatus(SelectionReducer.Reduce(prefix, alias, state, SelectionReducer.Forget(prefix, id)), id)
  {
    SelectionReducer.PickSelects(prefix, alias, state, id);
    SelectionReducer.ForgetRemovesOnly(prefix, alias, state, id);
  }

  /** In an all-true state, the status of an id is its membership in the selections list. */
  lemma StatusIsMembership(state: SelectionReducer.Selections, id: SelectionReducer.Key)
    requires SelectionReducer.AllTrue(state)
    ensures SelectionStatus(state, id) <==> id in SelectSelections(state)
  {
  }

  /** Signed in after LOGIN with a truthy user; signed out after LOGOUT. */
  lemma AuthStatusFollowsSession(state: JsValue, u: JsValue)
    ensures AuthStatus(Session.Reduce(state, Session.TrackSession(u))) <==> Truthy(u)
    ensures !AuthStatus(Session.Reduce(state, Session.UntrackSession()))
    ensures !AuthStatus(Session.Initial())
  {
  }
}
