/** Optional values and error results shared by the model. */
module Outcomes {

  datatype Option<+T> = None | Some(value: T)

  /** The ways one action of the quick-selection window can fail. */
  datatype Failure =
    | EmptySelection          // `selection[0]` on an empty scene selection (IndexError)
    | NoHighlight             // no nickname highlighted in the list widget
    | UnknownModifier(radio: int) // a radio value with no flag assignment (unbound local)
    | MissingKey(name: string)    // `mainSelDict[name]` / `del mainSelDict[name]` on an absent key

  datatype Result<+T> = Ok(value: T) | Err(failure: Failure)
}
