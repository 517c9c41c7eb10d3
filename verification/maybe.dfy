/** An optional value: the model's stand-in for a JavaScript early `return`
    with nothing, or for a lookup that finds nothing. */
module Maybe {

  datatype Option<+T> = None | Some(value: T)

}
