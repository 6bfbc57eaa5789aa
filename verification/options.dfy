/** The conventional Some/None datatype, used for optional fields of the
    sitemap data model and for results that may be absent. */
module Options {

  datatype Option<+T> = None | Some(value: T)
}
