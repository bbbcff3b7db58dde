/** The value-or-nothing wrapper used for the table's unset cells (Python `None`). */
module Optional {

  datatype Option<+T> = None | Some(value: T)

}
