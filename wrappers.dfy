/** The optional value used wherever the scraper tests an attribute or a lookup for `None`. */
module Wrappers {

  datatype Option<+T> = None | Some(value: T)
}
