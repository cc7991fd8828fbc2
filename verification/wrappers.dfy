/** An optional value: a column that may hold NULL, a request field that may
    be absent, a query that may return no row. */
module Wrappers {

  datatype Option<+T> = None | Some(value: T)
}
