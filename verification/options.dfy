/** The optional value returned where the differ answers "no result" (Python's None). */
module Options {

  datatype Option<+T> = None | Some(value: T)
}
