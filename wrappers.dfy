/** Optional values. In the labyrinth model `None` stands for an infinite
    (unknown or unreachable) distance. */
module Wrappers {

  datatype Option<+T> = None | Some(value: T)

}
