/** The optional value used wherever the program either produces a result or
    raises: `None` stands for the raised exception. */
module Options {

  datatype Option<+T> = None | Some(value: T)

}
