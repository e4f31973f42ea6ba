/** An optional value: `None` stands for JavaScript's `undefined`, `null` or `NaN`
    wherever the dashboard produces one of those instead of a value. */
module Optional {

  datatype Option<+T> = None | Some(value: T)
}
