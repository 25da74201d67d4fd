/**
 * The single-selection effect of `useSingleSelected`
 * (`frontend/src/hooks/single-selected.js`), as a state transition: when more
 * than one id is selected, every id of the previous snapshot is forgotten,
 * and the snapshot becomes the current selection.
 */
module SingleSelected {
  import opened SelectionReducer

  /** `selected` lists the keys of `state`, each once, as `Object.keys` does. */
  predicate Enumerates(selected: seq<Key>, state: Selections) {
    && (forall k :: k in state ==> k in selected)
    && (forall k :: k in selected ==> k in state)
    && (forall i, j :: 0 <= i < j < |selected| ==> selected[i] != selected[j])
  }

  /** The hook's state after an effect run: the selections and the new snapshot. */
  datatype Step = Step(selections: Selections, previous: seq<Key>)

  /** Dispatching `forget(id)` for each id in order. */
  function ForgetAll(prefix: string, alias: ResetAlias, state: Selections, ids: seq<Key>): (r: Selections)
    ensures !AliasMatches(alias, DeselectedType(prefix)) ==> r == state - (set i | i in ids)
    decreases |ids|
  {
    if |ids| == 0 then state
    else
      var next := Reduce(prefix, alias, state, Forget(prefix, ids[0]));
      var r := ForgetAll(prefix, alias, next, ids[1..]);
      assert !AliasMatches(alias, DeselectedType(prefix)) ==> next == state - {ids[0]} by {
        if !AliasMatches(alias, DeselectedType(prefix)) {
          ForgetRemovesOnly(prefix, alias, state, ids[0]);
        }
      }
      assert (set i | i in ids) == {ids[0]} + (set i | i in ids[1..]) by {
        assert ids == [ids[0]] + ids[1..];
      }
      r
  }

  /** One run of the effect, with the previous snapshot and the current selection. */
  function Effect(prefix: string, alias: ResetAlias, previous: seq<Key>, selected: seq<Key>, state: Selections): (r: Step)
    requires Enumerates(selected, state)
    ensures r.previous == selected
    ensures |selected| <= 1 ==> r.selections == state
    ensures |selected| > 1 && !AliasMatches(alias, DeselectedType(prefix)) ==>
              r.selections == state - (set i | i in previous)
  {
    if |selected| > 1 then Step(ForgetAll(prefix, alias, state, previous), selected)
    else Step(state, selected)
  }

  /** Ids that were not in the previous snapshot are never forgotten. */
  lemma NewIdsSurvive(prefix: string, alias: ResetAlias, previous: seq<Key>, selected: seq<Key>, state: Selections, k: Key)
    requires Enumerates(selected, state)
    requires !AliasMatches(alias, DeselectedType(prefix))
    requires k in state && k !in previous
    ensures k in Effect(prefix, alias, previous, selected, state).selections
  {
  }

  /** From previous {a} and current {a, b}, only b stays selected. */
  lemma SecondPickReplacesFirst(prefix: string, alias: ResetAlias, a: Key, b: Key)
    requires a != b
    requires !AliasMatches(alias, DeselectedType(prefix))
    ensures Enumerates([a, b], map[a := true, b := true])
    ensures Effect(prefix, alias, [a], [a, b], map[a := true, b := true]).selections == map[b := true]
  {
    assert (set i | i in [a]) == {a};
  }

  /**
   * The effect does not guarantee a single selection: with an empty
   * previous snapshot, two ids selected together both stay.
   */
  lemma EmptySnapshotKeepsBoth(prefix: string, alias: ResetAlias, a: Key, b: Key)
    requires a != b
    requires !AliasMatches(alias, DeselectedType(prefix))
    ensures Enumerates([a, b], map[a := true, b := true])
    ensures Effect(prefix, alias, [], [a, b], map[a := true, b := true]).selections == map[a := true, b := true]
  {
    assert (set i: Key | i in []) == {};
  }

  /**
   * The snapshot starts as the selection at mount, so a first run that sees
   * more than one id forgets all of them.
   */
  lemma FirstRunClearsSeveral(prefix: string, alias: ResetAlias, selected: seq<Key>, state: Selections)
    requires Enumerates(selected, state) && |selected| > 1
    requires !AliasMatches(alias, DeselectedType(prefix))
    ensures Effect(prefix, alias, selected, selected, state).selections == map[]
  {
    var r := Effect(prefix, alias, selected, selected, state).selections;
    assert r == state - (set i | i in selected);
    forall k | k in state
      ensures k !in r
    {
      assert k in selected;
    }
    assert r.Keys == {};
  }
}
