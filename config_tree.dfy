/**
 * The value `yaml.safe_load` hands to the transcriber: a tree whose inner
 * nodes are mappings and whose leaves are scalars.
 */
module ConfigTree {

  /**
   * A configuration tree. `Map` keeps its entries in the order in which the
   * dictionary's `keys()` yields them; a dictionary has distinct keys, but
   * nothing below depends on that. `Null` is YAML's empty value (Python's
   * `None`), which the transcriber renders like any other scalar.
   */
  datatype Node =
    | Map(entries: seq<(string, Node)>)
    | Str(s: string)
    | Int(i: int)
    | Bool(b: bool)
    | Null
}
