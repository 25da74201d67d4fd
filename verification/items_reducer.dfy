/**
 * The keyed-map reducer `createItemsReducer(prefix)`
 * (`frontend/src/store/reducers/utils/items.js`) and its action creators.
 * Each entry is stored under its own id; action types are namespaced by the
 * prefix.
 */
module ItemsReducer {
  import opened Wrappers
  import opened ActionTypes

  /** A stored item: its id and the rest of its fields. */
  datatype Entry<D> = Entry(id: Key, data: D)

  datatype Payload<D> = NoPayload | Items(items: seq<Entry<D>>) | Ids(ids: seq<Key>)

  datatype Action<D> = Action(kind: string, payload: Payload<D>)

  type State<D> = map<Key, Entry<D>>

  // With the shared reset type, the three types of a prefix differ in length.
  function TrackedType(prefix: string): (t: string)
    ensures |t| == |prefix| + 8
  {
    prefix + "/tracked"
  }

  function UntrackedType(prefix: string): (t: string)
    ensures |t| == |prefix| + 10
  {
    prefix + "/untracked"
  }

  /** The payload shape each recognised type iterates over (`for … of payload`). */
  predicate WellFormed<D>(prefix: string, a: Action<D>) {
    && (a.kind == TrackedType(prefix) ==> a.payload.Items?)
    && (a.kind == UntrackedType(prefix) ==> a.payload.Ids?)
  }

  /** The last entry of `items` whose id is `k`, if any. */
  function LastWithId<D>(items: seq<Entry<D>>, k: Key): Option<Entry<D>> {
    if |items| == 0 then None
    else if items[|items| - 1].id == k then Some(items[|items| - 1])
    else LastWithId(items[..|items| - 1], k)
  }

  /** Item ids, as the backend issues them. */
  type Key = int

  /**
   * `for (const item of payload) nextState[item.id] = item`: every entry is
   * stored under its id, a later entry overwriting an earlier one, and every
   * other key keeps its entry.
   */
  function Track<D>(state: State<D>, items: seq<Entry<D>>): (r: State<D>)
    ensures forall k :: k in r <==> k in state || LastWithId(items, k).Some?
    ensures forall k :: k in r ==>
              r[k] == (match LastWithId(items, k) case Some(e) => e case None => state[k])
    decreases |items|
  {
    if |items| == 0 then state
    else
      var last := items[|items| - 1];
      Track(state, items[..|items| - 1])[last.id := last]
  }

  /** `for (const id of payload) delete nextState[id]` */
  function Untrack<D>(state: State<D>, ids: seq<Key>): (r: State<D>)
    ensures r.Keys == state.Keys - (set i | i in ids)
    ensures forall k :: k in r ==> r[k] == state[k]
  {
    map k | k in state && k !in ids :: state[k]
  }

  /**
   * The reducer for `prefix`: RESET empties the map, TRACKED adds the
   * payload's ids, UNTRACKED removes the payload's ids, and any other type
   * leaves the state as it is.
   */
  function Reduce<D>(prefix: string, state: State<D>, a: Action<D>): (r: State<D>)
    requires WellFormed(prefix, a)
    ensures a.kind == ResetType(prefix) ==> r == map[]
    ensures a.kind == TrackedType(prefix) ==> r.Keys == state.Keys + (set e | e in a.payload.items :: e.id)
    ensures a.kind == UntrackedType(prefix) ==> r == state - (set i | i in a.payload.ids)
    ensures a.kind !in {ResetType(prefix), TrackedType(prefix), UntrackedType(prefix)} ==> r == state
  {
    if a.kind == ResetType(prefix) then map[]
    else if a.kind == TrackedType(prefix) then
      TrackKeys(state, a.payload.items);
      Track(state, a.payload.items)
    else if a.kind == UntrackedType(prefix) then Untrack(state, a.payload.ids)
    else state
  }

  /** TRACKED adds exactly the payload's ids to the keys. */
  lemma TrackKeys<D>(state: State<D>, items: seq<Entry<D>>)
    ensures Track(state, items).Keys == state.Keys + (set e | e in items :: e.id)
  {
    forall k
      ensures k in Track(state, items) <==> k in state || k in (set e | e in items :: e.id)
    {
      LastWithIdFound(items, k);
    }
  }

  /** Tracking one entry stores it under its id and changes nothing else. */
  lemma TrackOne<D(!new)>(prefix: string, x: Entry<D>)
    ensures forall s: State<D> :: Reduce(prefix, s, TrackItems(prefix, [x])) == s[x.id := x]
  {
    assert [x][..0] == [];
    forall s: State<D> ensures Reduce(prefix, s, TrackItems(prefix, [x])) == s[x.id := x] {
      assert Track(s, [x]) == Track(s, [])[x.id := x];
    }
  }

  /** `reset()`: the reducer of its prefix empties the map. */
  function Reset<D(!new)>(prefix: string): (a: Action<D>)
    ensures WellFormed(prefix, a)
    ensures forall s: State<D> :: Reduce(prefix, s, a) == map[]
  {
    Action(ResetType(prefix), NoPayload)
  }

  /** `trackItems(items)`: the reducer of its prefix adds every item's id. */
  function TrackItems<D(!new)>(prefix: string, items: seq<Entry<D>>): (a: Action<D>)
    ensures WellFormed(prefix, a)
    ensures forall s: State<D> :: Reduce(prefix, s, a).Keys == s.Keys + (set e | e in items :: e.id)
  {
    Action(TrackedType(prefix), Items(items))
  }

  /** `trackItem(item)`: the reducer of its prefix stores the item under its id and changes nothing else. */
  function TrackItem<D(!new)>(prefix: string, item: Entry<D>): (a: Action<D>)
    ensures WellFormed(prefix, a)
    ensures forall s: State<D> :: Reduce(prefix, s, a) == s[item.id := item]
  {
    TrackOne(prefix, item);
    TrackItems(prefix, [item])
  }

  /** `untrackItems(ids)`: the reducer of its prefix removes exactly those ids. */
  function UntrackItems<D(!new)>(prefix: string, ids: seq<Key>): (a: Action<D>)
    ensures WellFormed(prefix, a)
    ensures forall s: State<D> :: Reduce(prefix, s, a) == s - (set i | i in ids)
  {
    Action(UntrackedType(prefix), Ids(ids))
  }

  /** `untrackItem(id)`: the reducer of its prefix removes that id and nothing else. */
  function UntrackItem<D(!new)>(prefix: string, id: Key): (a: Action<D>)
    ensures WellFormed(prefix, a)
    ensures forall s: State<D> :: Reduce(prefix, s, a) == s - {id}
  {
    assert (set i | i in [id]) == {id};
    UntrackItems(prefix, [id])
  }

  /** RESET empties the state. */
  lemma ResetEmpties<D(!new)>(prefix: string, state: State<D>)
    ensures Reduce(prefix, state, Reset(prefix)) == map[]
  {
  }

  /**
   * TRACKED stores each payload entry under its id, the later of two entries
   * with one id winning; keys absent from the payload keep their entries.
   */
  lemma TrackedStoresEntries<D(!new)>(prefix: string, state: State<D>, items: seq<Entry<D>>, k: Key)
    ensures var r := Reduce(prefix, state, TrackItems(prefix, items));
            && (k in r <==> k in state || exists e :: e in items && e.id == k)
            && (LastWithId(items, k).None? && k in state ==> r[k] == state[k])
  {
    LastWithIdFound(items, k);
  }

  lemma {:induction false} LastWithIdFound<D>(items: seq<Entry<D>>, k: Key)
    ensures LastWithId(items, k).Some? <==> exists e :: e in items && e.id == k
    ensures LastWithId(items, k).Some? ==> LastWithId(items, k).value in items
    ensures LastWithId(items, k).Some? ==> LastWithId(items, k).value.id == k
    decreases |items|
  {
    if |items| > 0 {
      var init := items[..|items| - 1];
      LastWithIdFound(init, k);
      assert items == init + [items[|items| - 1]];
    }
  }

  /** Of two entries with the same id in one payload, the later one is stored. */
  lemma LaterDuplicateWins<D(!new)>(prefix: string, state: State<D>, first: Entry<D>, second: Entry<D>)
    requires first.id == second.id
    ensures Reduce(prefix, state, TrackItems(prefix, [first, second]))[first.id] == second
  {
  }

  /** `trackItem(x)` stores `x` under its id and changes nothing else. */
  lemma TrackItemStoresOne<D(!new)>(prefix: string, state: State<D>, x: Entry<D>)
    ensures Reduce(prefix, state, TrackItem(prefix, x)) == state[x.id := x]
  {
    assert [x][..0] == [];
    assert Track(state, [x]) == Track(state, [])[x.id := x];
  }

  /** UNTRACKED removes exactly the listed ids; an absent id changes nothing. */
  lemma UntrackedRemovesIds<D(!new)>(prefix: string, state: State<D>, ids: seq<Key>)
    ensures Reduce(prefix, state, UntrackItems(prefix, ids)) == state - (set i | i in ids)
  {
  }

  lemma UntrackAbsentIsNoop<D(!new)>(prefix: string, state: State<D>, id: Key)
    requires id !in state
    ensures Reduce(prefix, state, UntrackItem(prefix, id)) == state
  {
    var r := Reduce(prefix, state, UntrackItem(prefix, id));
    assert r.Keys == state.Keys;
  }

  /** Tracking and then untracking an id leaves it absent. */
  lemma TrackThenUntrack<D(!new)>(prefix: string, state: State<D>, x: Entry<D>)
    ensures x.id !in Reduce(prefix, Reduce(prefix, state, TrackItem(prefix, x)), UntrackItem(prefix, x.id))
  {
  }

  /** Action types of two different prefixes never coincide. */
  lemma {:induction false} PrefixedTypesDiffer(p: string, q: string, sp: string, sq: string)
    requires p != q
    requires sp in {"/reset", "/tracked", "/untracked"} && sq in {"/reset", "/tracked", "/untracked"}
    ensures p + sp != q + sq
  {
    var a, b := p + sp, q + sq;
    if |a| == |b| {
      if sp == sq {
        // equal suffixes: the prefixes have one length and differ somewhere
        var i :| 0 <= i < |p| && p[i] != q[i];
        assert a[i] != b[i];
      } else if sp == "/reset" || sq == "/reset" {
        // "/reset" ends in 't', the other two in 'd'
        assert a[|a| - 1] != b[|b| - 1];
      } else {
        // "/tracked" has its '/' where "/untracked" has its 'n'
        assert a[|a| - 8] != b[|b| - 8];
      }
    }
  }

  /** A reducer ignores every action built by another prefix's creators. */
  lemma OtherPrefixIgnored<D>(p: string, q: string, state: State<D>, a: Action<D>)
    requires p != q
    requires a.kind in {ResetType(q), TrackedType(q), UntrackedType(q)}
    ensures WellFormed(p, a)
    ensures Reduce(p, state, a) == state
  {
    var sq := a.kind[|q|..];
    assert a.kind == q + sq;
    PrefixedTypesDiffer(p, q, "/reset", sq);
    PrefixedTypesDiffer(p, q, "/tracked", sq);
    PrefixedTypesDiffer(p, q, "/untracked", sq);
  }

  /** Every entry sits under its own id, as TRACKED stores it. */
  predicate Keyed<D>(state: State<D>) {
    forall k :: k in state ==> state[k].id == k
  }

  /** The reducer keeps every entry under its own id. */
  lemma ReducePreservesKeyed<D>(prefix: string, state: State<D>, a: Action<D>)
    requires WellFormed(prefix, a) && Keyed(state)
    ensures Keyed(Reduce(prefix, state, a))
  {
    if a.kind == TrackedType(prefix) && a.kind != ResetType(prefix) {
      var r := Track(state, a.payload.items);
      forall k | k in r
        ensures r[k].id == k
      {
        LastWithIdFound(a.payload.items, k);
      }
    }
  }

  /** Any action type the reducer does not recognise leaves the contents as they are. */
  lemma UnknownTypeKeepsState<D>(prefix: string, state: State<D>, a: Action<D>)
    requires a.kind !in {ResetType(prefix), TrackedType(prefix), UntrackedType(prefix)}
    ensures Reduce(prefix, state, a) == state
  {
  }
}
