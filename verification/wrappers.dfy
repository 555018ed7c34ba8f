/** The nullable references of the source (a missing lookup result, an
    optional map URL, an optional parking zone id) become `Option`. */
module Wrappers {

  datatype Option<+T> = None | Some(value: T)
}
