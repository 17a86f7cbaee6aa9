/** The JavaScript `null`-or-value fields of the components (`winner`,
    `winnerIndex`) are modelled with this option type. */
module Wrappers {

  datatype Option<+T> = None | Some(value: T)
}
