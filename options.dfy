/** The optional value shared by the three components: an absent DOM element,
    a missing touch point, a face that `find` does not match, a null timer handle. */
module Options {
  datatype Option<+T> = None | Some(value: T)
}
