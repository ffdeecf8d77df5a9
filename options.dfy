/** The optional value used throughout the model: `None` stands for JavaScript's
    `undefined`/`null`/`NaN` results, `Some` for a real value. */
module Options {

  datatype Option<+T> = None | Some(value: T)

}
