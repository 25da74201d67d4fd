/**
 * Action types shared by the reducer factories of
 * `frontend/src/store/reducers/utils/`: both `createItemsReducer` and
 * `createSelectionReducer` namespace their types as `${prefix}/<verb>`, and
 * both name the clearing type `${prefix}/reset`.
 */
module ActionTypes {
  // The reset type is longer than its prefix by exactly "/reset".
  function ResetType(prefix: string): (t: string)
    ensures |t| == |prefix| + 6
  {
    prefix + "/reset"
  }
}
