/** The value of a storage lookup that may find nothing (`null` in the browser's API). */
module Optional {
  datatype Option<T> = None | Some(value: T)
}
