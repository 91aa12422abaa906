/** An optional value: stands for JavaScript's `undefined`, `null` and `NaN`
    where the script checks for them. */
module Options {

  datatype Option<+T> = None | Some(value: T)

}
