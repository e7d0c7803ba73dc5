/** The absent-or-present value used for the builder's `parentId`
    (`string | null` in the component) and for search results. */
module Optional {

  datatype Option<+T> = None | Some(value: T)
}
