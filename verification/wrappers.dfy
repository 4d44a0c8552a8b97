/** Optional values, used where the modelled code either produces something or
    declines to (a payload that cannot be decoded, a hand-off that is skipped). */
module Wrappers {

  datatype Option<+T> = None | Some(value: T)

}
