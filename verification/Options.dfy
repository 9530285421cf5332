/** An optional value: a nullable column, or a query that may find nothing. */
module Options {

  datatype Option<T> = None | Some(value: T)
}
