/** The rule tree a rule builder edits: leaf conditions combined by nested
    `all`/`any` groups, and how a builder instance picks its parent id. */
module RuleTree {

  datatype Option<+T> = None | Some(value: T)

  /** A node of a builder's ordered rule list. In the component a node is a
      plain object, and it counts as a leaf exactly when it has a `field`
      property; here that test is the constructor tag. `parentId` is optional
      because the root envelope written by the final submit has none. */
  datatype Node =
    | Leaf(id: int, field: string, operator: string, value: string, parentId: Option<int>)
    | Group(id: int, criteria: string, rules: seq<Node>, parentId: Option<int>)

  /** `generateId`: the floor of a random draw from [0, 1), which is always 0. */
  function GenerateId(draw: real): (id: int)
    requires 0.0 <= draw < 1.0
    ensures id == 0
  {
    draw.Floor
  }

  /** The parent id of a builder: its `parentId` prop when that prop is truthy,
      a generated id otherwise. Since the generated id is 0 and a prop of 0 is
      falsy, the result is the prop whenever one is given. */
  function BuilderParentId(prop: Option<int>, draw: real): (p: int)
    requires 0.0 <= draw < 1.0
    ensures p == if prop.Some? then prop.value else 0
  {
    if prop.Some? && prop.value != 0 then prop.value else GenerateId(draw)
  }

  /** A builder whose `parentId` prop is falsy (absent or 0) empties the store
      every time its body runs. */
  predicate ResetsStore(prop: Option<int>)
  {
    prop.None? || prop.value == 0
  }

  /** The store-resetting builders are exactly those whose parent id is 0,
      whatever the random draw. */
  lemma ResetsStoreIffRootId(prop: Option<int>, draw: real)
    requires 0.0 <= draw < 1.0
    ensures ResetsStore(prop) <==> BuilderParentId(prop, draw) == 0
  {
  }
}
