/** Presence or absence of a value: the model of a C# nullable (`T?`) argument. */
module Options {

  datatype Option<+T> = None | Some(value: T)

}
