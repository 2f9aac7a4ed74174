/** The optional value used throughout the model: `None` stands for JavaScript's
    `undefined` in a form field and for `NaN` as the result of a failed parse. */
module Options {
  datatype Option<+T> = None | Some(value: T)
}
