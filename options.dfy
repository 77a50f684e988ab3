/** The optional value used wherever the parser may find nothing: a regular
    expression that does not match, a key missing from a table, a capture group
    that did not take part in a match. */
module Options {

  datatype Option<+T> = None | Some(value: T)
}
