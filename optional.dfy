/** The Java `null` of an optional reference, made explicit. */
module Optional {

  datatype Option<T> = None | Some(value: T)
}
