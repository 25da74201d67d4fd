/**
 * The selection-set reducer `createSelectionReducer(prefix, OTHER_RESET)`
 * (`frontend/src/store/reducers/utils/selection.js`) and `deselectAll`.
 * Selected ids map to `true`; the optional extra reset type makes a second
 * action clear the set.
 */
module SelectionReducer {
  import opened Wrappers
  import opened ActionTypes

  type Key = int

  type Selections = map<Key, bool>

  datatype SelectionAction = SelectionAction(kind: string, payload: Option<Key>)

  /**
   * The value passed as `OTHER_RESET`: nothing, an action type, or an array
   * of action types (which `===` never equates with a type string).
   */
  datatype ResetAlias = NoAlias | AliasType(kind: string) | AliasList(kinds: seq<string>)

  /** The type of the `deselectAll()` action. */
  const DeselectAllType: string := "all-selections/reset"

  /**
   * `deselectAll()`: it clears any selection list built with DESELECT_ALL as
   * its extra reset type, whatever that list's prefix.
   */
  function DeselectAll(): (a: SelectionAction)
    ensures forall p :: WellFormed(p, AliasType(DeselectAllType), a)
    ensures forall p, s: Selections :: Reduce(p, AliasType(DeselectAllType), s, a) == map[]
  {
    SelectionAction(DeselectAllType, None)
  }

  // With the shared reset type, the three types of a prefix differ in length.
  function SelectedType(prefix: string): (t: string)
    ensures |t| == |prefix| + 9
  {
    prefix + "/selected"
  }

  function DeselectedType(prefix: string): (t: string)
    ensures |t| == |prefix| + 11
  {
    prefix + "/deselected"
  }

  /** `!!OTHER_RESET && type === OTHER_RESET`: only a non-empty type string can match. */
  predicate AliasMatches(alias: ResetAlias, kind: string) {
    alias.AliasType? && alias.kind != "" && kind == alias.kind
  }

  /**
   * SELECTED and DESELECTED index the state with their payload; the
   * creators always supply one.
   */
  predicate WellFormed(prefix: string, alias: ResetAlias, a: SelectionAction) {
    !AliasMatches(alias, a.kind) && a.kind in {SelectedType(prefix), DeselectedType(prefix)} ==> a.payload.Some?
  }

  /** The reducer for `prefix` with extra reset type `alias`. */
  function Reduce(prefix: string, alias: ResetAlias, state: Selections, a: SelectionAction): (r: Selections)
    requires WellFormed(prefix, alias, a)
    ensures AliasMatches(alias, a.kind) ==> r == map[]
  {
    var kind := if AliasMatches(alias, a.kind) then ResetType(prefix) else a.kind;
    if kind == ResetType(prefix) then map[]
    else if kind == SelectedType(prefix) then state[a.payload.value := true]
    else if kind == DeselectedType(prefix) then state - {a.payload.value}
    else state
  }

  /** `reset()`: the reducer of its prefix clears every selection, whatever the alias. */
  function Reset(prefix: string): (a: SelectionAction)
    ensures forall alias :: WellFormed(prefix, alias, a)
    ensures forall alias, s: Selections :: Reduce(prefix, alias, s, a) == map[]
  {
    SelectionAction(ResetType(prefix), None)
  }

  /** `pick(id)`: unless the alias resets it, the reducer of its prefix maps `id` to true. */
  function Pick(prefix: string, id: Key): (a: SelectionAction)
    ensures forall alias :: WellFormed(prefix, alias, a)
    ensures forall alias, s: Selections :: !AliasMatches(alias, a.kind) ==> Reduce(prefix, alias, s, a) == s[id := true]
  {
    SelectionAction(SelectedType(prefix), Some(id))
  }

  /** `forget(id)`: unless the alias resets it, the reducer of its prefix drops `id`. */
  function Forget(prefix: string, id: Key): (a: SelectionAction)
    ensures forall alias :: WellFormed(prefix, alias, a)
    ensures forall alias, s: Selections :: !AliasMatches(alias, a.kind) ==> Reduce(prefix, alias, s, a) == s - {id}
  {
    SelectionAction(DeselectedType(prefix), Some(id))
  }

  /** Every stored value is `true`: the state is a set of ids. */
  predicate AllTrue(state: Selections) {
    forall k :: k in state ==> state[k]
  }

  /** `pick(id)` maps id to true and leaves every other key as it was. */
  lemma PickSelects(prefix: string, alias: ResetAlias, state: Selections, id: Key)
    requires !AliasMatches(alias, SelectedType(prefix))
    ensures var r := Reduce(prefix, alias, state, Pick(prefix, id));
            && id in r && r[id]
            && r.Keys == state.Keys + {id}
            && forall k :: k in state && k != id ==> r[k] == state[k]
  {
  }

  /** Picking twice is picking once. */
  lemma PickIdempotent(prefix: string, alias: ResetAlias, state: Selections, id: Key)
    requires !AliasMatches(alias, SelectedType(prefix))
    ensures var once := Reduce(prefix, alias, state, Pick(prefix, id));
            Reduce(prefix, alias, once, Pick(prefix, id)) == once
  {
  }

  /** `forget(id)` removes id and nothing else; forgetting an absent id changes nothing. */
  lemma ForgetRemovesOnly(prefix: string, alias: ResetAlias, state: Selections, id: Key)
    requires !AliasMatches(alias, DeselectedType(prefix))
    ensures var r := Reduce(prefix, alias, state, Forget(prefix, id));
            && id !in r
            && r.Keys == state.Keys - {id}
            && forall k :: k in r ==> r[k] == state[k]
    ensures id !in state ==> Reduce(prefix, alias, state, Forget(prefix, id)) == state
  {
  }

  /** RESET clears every selection. */
  lemma ResetClears(prefix: string, alias: ResetAlias, state: Selections)
    ensures Reduce(prefix, alias, state, Reset(prefix)) == map[]
  {
  }

  /** Every transition keeps all stored values `true`. */
  lemma ReducePreservesAllTrue(prefix: string, alias: ResetAlias, state: Selections, a: SelectionAction)
    requires WellFormed(prefix, alias, a) && AllTrue(state)
    ensures AllTrue(Reduce(prefix, alias, state, a))
  {
  }

  /**
   * A type string that ends in "/reset" cannot be one of the prefix's
   * SELECTED or DESELECTED types, which end in 'd'.
   */
  lemma ResetSuffixNotPickOrForget(prefix: string, kind: string)
    requires |kind| >= 6 && kind[|kind| - 6..] == "/reset"
    ensures kind != SelectedType(prefix) && kind != DeselectedType(prefix)
  {
    assert kind[|kind| - 1] == 't';
    assert SelectedType(prefix)[|SelectedType(prefix)| - 1] == 'd';
    assert DeselectedType(prefix)[|DeselectedType(prefix)| - 1] == 'd';
  }

  /** Without an extra reset type, DESELECT_ALL leaves a differently prefixed state as it was. */
  lemma DeselectAllIgnoredWithoutAlias(prefix: string, state: Selections)
    requires prefix != "all-selections"
    ensures WellFormed(prefix, NoAlias, DeselectAll())
    ensures Reduce(prefix, NoAlias, state, DeselectAll()) == state
  {
    var kind := DeselectAllType;
    assert kind[|kind| - 6..] == "/reset";
    ResetSuffixNotPickOrForget(prefix, kind);
  }

  /** With the type itself as the extra reset, that action clears everything. */
  lemma AliasTypeClears(prefix: string, kind: string, state: Selections, payload: Option<Key>)
    requires kind != ""
    ensures Reduce(prefix, AliasType(kind), state, SelectionAction(kind, payload)) == map[]
  {
  }

  /** An array passed as the extra reset never matches, so it behaves like none. */
  lemma AliasListIsNoAlias(prefix: string, kinds: seq<string>, state: Selections, a: SelectionAction)
    requires WellFormed(prefix, NoAlias, a)
    ensures WellFormed(prefix, AliasList(kinds), a)
    ensures Reduce(prefix, AliasList(kinds), state, a) == Reduce(prefix, NoAlias, state, a)
  {
  }

  /** The card selections' prefix. */
  const CardSelectionsPrefix: string := "card-selections"

  /** The extra reset the card selections are built with: the array `[DESELECT_ALL]`. */
  function CardSelectionsAliasAsWritten(): ResetAlias { AliasList([DeselectAllType]) }

  /** The extra reset that lets `deselectAll()` clear the card selections. */
  function CardSelectionsAlias(): ResetAlias { AliasType(DeselectAllType) }

  /** As built, `deselectAll()` leaves the card selections untouched. */
  lemma DeselectAllIgnoredByCardSelections(state: Selections)
    ensures WellFormed(CardSelectionsPrefix, CardSelectionsAliasAsWritten(), DeselectAll())
    ensures Reduce(CardSelectionsPrefix, CardSelectionsAliasAsWritten(), state, DeselectAll()) == state
  {
    DeselectAllIgnoredWithoutAlias(CardSelectionsPrefix, state);
  }

  /** With the type itself as the alias, `deselectAll()` clears the card selections. */
  lemma DeselectAllClearsCardSelections(state: Selections)
    ensures Reduce(CardSelectionsPrefix, CardSelectionsAlias(), state, DeselectAll()) == map[]
  {
  }
}
