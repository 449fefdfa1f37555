/** Optional values, used wherever the C and C++ code returns NULL,
    std::nullopt or "no record". */
module Wrappers {

  datatype Option<+T> = None | Some(value: T)
}
