/** Optional values. The workflow refers to scene nodes through fields that are
    `None` until a stage fills them; `Option<NodeId>` stands for such a field. */
module Options {

  datatype Option<+T> = None | Some(value: T)
}
