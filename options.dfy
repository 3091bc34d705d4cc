/** The optional value both converters read from the PDF reader (a missing size, font or text). */
module Options {

  datatype Option<T> = None | Some(value: T)
}
