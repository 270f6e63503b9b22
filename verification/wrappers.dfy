/** Optional values: used for the C side effects that may or may not happen
    (an errno that is set or left alone, an output pointer that is assigned
    or left alone) and for parsers that may reject their input. */
module Wrappers {

  datatype Option<+T> = None | Some(value: T)
}
