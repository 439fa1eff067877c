# RuleBuilder rule-list model

A Dafny model of the rule-list logic of the `RuleBuilder` React component
(`src/pages/RuleBuilder.js`). A builder holds a group criteria (`all` or `any`)
and an ordered list of rule nodes. A node is either a leaf condition
(`id`, `field`, `operator`, `value`, `parentId`) or a nested group (`id`,
`criteria`, `rules`, `parentId`). The builder's handlers produce new lists:
append a leaf, append a group, edit one attribute of the nodes with a given
id, or filter a node out. Two submit handlers write a new sequence into a
global rule store. `convertToRuleObject` turns a rule list into a nested
dictionary.

Modules:

- `RuleTree` (`rule_tree.dfy`): the node datatype. A node is a leaf exactly
  when it has a `field` property, and here the constructor tag plays that
  role. The module also holds `generateId`, the choice of a builder's
  `parentId` and the test that decides whether a builder resets the store.
- `RuleHandlers` (`rule_handlers.dfy`): each handler as a pure function on
  sequences, with the lemmas that relate the handlers to one another.
- `RuleObject` (`rule_object.dfy`): `convertToRuleObject`. It is a method
  whose loop updates a map and recurses into groups. It is proved equal to
  the recursive function `ToRuleObject`, and the lemmas are about that
  function.
- `RuleBuilder` (`rule_builder.dfy`): a `Builder` class whose `criteria` and
  `rules` fields are replaced by the handler methods, and a shared
  `RuleStore` class whose `allRules` field the submit methods and the reset
  replace. Each method is specified by the corresponding `RuleHandlers`
  function.

Points where the model follows the code:

- `generateId` is `Math.floor(Math.random())`, so it is always 0. A builder's
  `parentId` is therefore its prop when one is given and 0 otherwise.
  `parentId` is recomputed in the component body on every render, but it
  always has the same value, so the model fixes it once as a constant.
- The `ResetAllRules` dispatch is in the component body, not in an effect.
  It therefore runs on every render of a builder whose `parentId` prop is
  falsy, not only when that builder mounts. The model represents one run of
  the body with `Builder.Render`. The constructor calls it once; any other
  re-render must be an explicit call (see "Left out").
- Nested group ids are `parentId + 1`. Two groups added by the same builder
  therefore share an id, and removing one of them removes both. Both facts
  are stated as lemmas.
- `finalSubmit` writes an empty root envelope. That envelope has no
  `parentId` property, which is why `parentId` is an `Option` in both node
  constructors. The builder's local rules are not written.
- `handleLogicalOperatorChange` and `convertToRuleObject` are defined in the
  component but never called. The JSX wires no control to the first, and the
  only call to the second is commented out. Both are modelled anyway.

## Model

| member | source | states |
|---|---|---|
| `RuleTree.GenerateId` | src/pages/RuleBuilder.js:25-27 | the floor of a random draw in [0, 1) is always 0 |
| `RuleTree.BuilderParentId` | src/pages/RuleBuilder.js:25-28 | the builder's parent id equals its prop whenever a prop is given (a prop of 0 and the generated id agree), and is 0 otherwise |
| `RuleTree.ResetsStoreIffRootId` | src/pages/RuleBuilder.js:20-28 | a builder resets the store exactly when its parent id is 0 |
| `RuleHandlers.AddRule` | src/pages/RuleBuilder.js:37-46 | the old list is kept as a prefix, and one leaf is appended with the given id, the builder's parent id and empty field, operator and value |
| `RuleHandlers.AddNestedRule` | src/pages/RuleBuilder.js:48-56 | the old list is kept as a prefix, and one group is appended with id `parentId + 1`, the current criteria, no children and the builder's parent id |
| `RuleHandlers.NestedRulesShareId` | src/pages/RuleBuilder.js:48-56 | two nested groups added in a row get the same id, `parentId + 1` |
| `RuleHandlers.ChangeLogicalOperator` | src/pages/RuleBuilder.js:58-69 | length and ids are kept, and nodes with other ids are identical; a matching group takes the new criteria and keeps its children and parent |
| `RuleHandlers.ChangeField` | src/pages/RuleBuilder.js:75-87 | length and ids are kept, and nodes with other ids are identical; a matching leaf takes the field, its operator is cleared, and its value and parent are kept |
| `RuleHandlers.ChangeOperator` | src/pages/RuleBuilder.js:89-100 | length and ids are kept, and nodes with other ids are identical; a matching leaf takes the operator and keeps its field, value and parent |
| `RuleHandlers.ChangeValue` | src/pages/RuleBuilder.js:102-113 | length and ids are kept, and nodes with other ids are identical; a matching leaf takes the value and keeps its field, operator and parent |
| `RuleHandlers.FieldChangeClearsOperator` | src/pages/RuleBuilder.js:75-100 | after an operator change and then a field change, every matching leaf has the new field and an empty operator. This is a corollary of `ChangeField`'s contract, stated for the order in which the component's editors are used |
| `RuleHandlers.RemoveRule` | src/pages/RuleBuilder.js:71-73 | no node with the id is left, a node is kept exactly when it was present and has another id, and the list does not grow |
| `RuleHandlers.RemoveRuleAppend` | src/pages/RuleBuilder.js:71-73 | removal distributes over concatenation, so the kept nodes stay in their original relative order |
| `RuleHandlers.RemoveRuleAbsent` | src/pages/RuleBuilder.js:71-73 | a list without the id is returned unchanged |
| `RuleHandlers.RemoveRuleIdempotent` | src/pages/RuleBuilder.js:71-73 | removing an id twice gives the same list as removing it once |
| `RuleHandlers.RemoveRuleCounts` | src/pages/RuleBuilder.js:71-73 | every node with another id keeps its number of occurrences, and nodes with the id occur zero times |
| `RuleHandlers.RemoveAfterAddRule` | src/pages/RuleBuilder.js:37-73 | adding a leaf with an unused id and then removing that id restores the original list |
| `RuleHandlers.RemoveNestedTwins` | src/pages/RuleBuilder.js:48-73 | removing the id of two back-to-back nested groups removes both of them |
| `RuleHandlers.RemoveRuleForgetsEdits` | src/pages/RuleBuilder.js:71-73 | two lists that differ only at nodes with the id become equal once that id is removed |
| `RuleHandlers.RemoveAfterEdit` | src/pages/RuleBuilder.js:58-113 | editing any attribute of the nodes with an id and then removing that id is the same as removing it directly |
| `RuleHandlers.Submitted` | src/pages/RuleBuilder.js:127-133 | the store becomes the old store followed by the local list: nothing is reordered, dropped or merged, and the multisets add up |
| `RuleHandlers.FinalSubmitted` | src/pages/RuleBuilder.js:135-146 | the store grows by exactly one node in front: the empty root group with the builder's id and criteria and no parent id. Every other node comes from the old store |
| `RuleHandlers.SubmitOneLeaf` | src/pages/RuleBuilder.js:37-133 | adding a leaf, setting it to `age > 18` and submitting it to an empty store leaves exactly that leaf, with its id and parent id |
| `RuleObject.ConvertToRuleObject` | src/pages/RuleBuilder.js:115-125 | the in-place loop with recursion into groups computes the recursive left-to-right dictionary `ToRuleObject` |
| `RuleObject.ToRuleObjectKeys` | src/pages/RuleBuilder.js:115-125 | the keys of the dictionary are exactly the leaves' fields and the groups' criteria, so an empty list gives an empty dictionary |
| `RuleObject.ToRuleObjectLastWins` | src/pages/RuleBuilder.js:115-125 | a node that no later node overwrites has its own value under its key: a leaf's value text, or a group's converted children |
| `RuleObject.ToRuleObjectAppend` | src/pages/RuleBuilder.js:115-125 | converting a concatenation merges the two dictionaries, with the later one winning on shared keys |
| `RuleObject.SingleNode` | src/pages/RuleBuilder.js:117-122 | a single leaf converts to `field ↦ value`, and a single group converts to `criteria ↦` its children's dictionary |
| `RuleBuilder.RuleStore.AddToRules` | src/pages/RuleBuilder.js:131-132 | the store's collection is replaced by the dispatched sequence |
| `RuleBuilder.RuleStore.ResetAllRules` | src/pages/RuleBuilder.js:20-22 | the store's collection becomes empty |
| `RuleBuilder.Builder.constructor` | src/pages/RuleBuilder.js:12-28 | a new builder starts with criteria `all`, no rules and the computed parent id, and it empties the store when its prop is falsy. It resets the store exactly when its parent id is 0 (`Valid`) |
| `RuleBuilder.Builder.Render` | src/pages/RuleBuilder.js:20-22 | each run of the body of a root builder empties the store; other builders leave the store alone |
| `RuleBuilder.Builder.HandleCriteriaChange` | src/pages/RuleBuilder.js:30-32 | the criteria becomes the given string, and nothing else changes |
| `RuleBuilder.Builder.HandleAddRule` | src/pages/RuleBuilder.js:37-46 | the rules become `AddRule` of the old rules, with the clock reading as the leaf id |
| `RuleBuilder.Builder.HandleNestedRule` | src/pages/RuleBuilder.js:48-56 | the rules become `AddNestedRule` of the old rules with the current criteria |
| `RuleBuilder.Builder.HandleLogicalOperatorChange` | src/pages/RuleBuilder.js:58-69 | the rules become `ChangeLogicalOperator` of the old rules |
| `RuleBuilder.Builder.HandleRemoveRule` | src/pages/RuleBuilder.js:71-73 | the rules become `RemoveRule` of the old rules |
| `RuleBuilder.Builder.HandleFieldChange` | src/pages/RuleBuilder.js:75-87 | the rules become `ChangeField` of the old rules |
| `RuleBuilder.Builder.HandleOperatorChange` | src/pages/RuleBuilder.js:89-100 | the rules become `ChangeOperator` of the old rules |
| `RuleBuilder.Builder.HandleValueChange` | src/pages/RuleBuilder.js:102-113 | the rules become `ChangeValue` of the old rules |
| `RuleBuilder.Builder.HandleSubmit` | src/pages/RuleBuilder.js:127-133 | the store becomes `Submitted` of the old store and the local rules, and the builder is unchanged |
| `RuleBuilder.Builder.FinalSubmit` | src/pages/RuleBuilder.js:135-146 | callable only on a root builder, as the button at lines 264-270 is rendered only there. The store becomes `FinalSubmitted` of the old store with envelope id 0, and the local rules are not written |
| `RuleBuilder.NestedGroupKeepsCriteria` | src/pages/RuleBuilder.js:12-146 | a root builder's run, rendering after each store write. The local list is the one nested group, which keeps the `any` criteria it copied after the criteria changes back. The submit writes exactly that list. The render that follows empties the store, so the final submit writes only the `Group(0, "all", [], None)` envelope. The next render empties the store again |

## Left out

- Rendering is not modelled: the JSX, the styled components, the MUI button and the hard-coded field and operator options. This includes the field dropdown, which lists the fetched parameter names followed by `name`, `age` and `dateOfBirth`. All of this is presentation.
- The parameter fetch in the `useEffect` is not modelled. It is asynchronous I/O against a service that is not part of this model, and `parameterList` only feeds the dropdown.
- The clock reading `new Date().getTime()` is left out; the leaf id is a parameter of `AddRule`. The random draw is left out too, as a parameter restricted to [0, 1).
- The Redux slice is not part of this model. `AddToRules` is modelled as replacing the collection and `ResetAllRules` as emptying it. The submit handlers read the store's current contents; in the component they read the `allRules` snapshot from the last render.
- RuleBuilder.Builder.Render: the model runs the component body only when `Render` is called: once from the constructor, and wherever a client calls it. The component re-runs its body after every state update (`setRules`, `setCriteria`) and after every write to the store slice it selects. For a root builder each such run empties the store. The handler and submit methods therefore do not re-render by themselves, and a client sequence without `Render` calls describes runs the component does not perform.
- React's update scheduling is left out: batching, and handlers that read a `rules` value captured at an earlier render. Each handler call is modelled as a complete update of the current state.
- The nested `<RuleBuilder parentId={parentId + 1}/>` rendered for each group is not modelled. Its state is independent of the group node's `rules`, so it is not a tree operation.
- `console.log` calls are not modelled.
- RuleHandlers.ChangeField: a group whose id matches is left unchanged. In the component the spread adds `field` and `operator` to it, and the `hasOwnProperty('field')` test then treats it as a leaf with no `value`. For this to happen a leaf's millisecond timestamp id would have to equal a group's small `parentId + 1` id.
- RuleHandlers.ChangeOperator: a group whose id matches is left unchanged. In the component it gains an `operator` property, which nothing reads for a group.
- RuleHandlers.ChangeValue: a group whose id matches is left unchanged. In the component it gains a `value` property, which nothing reads for a group.
- RuleHandlers.ChangeLogicalOperator: a leaf whose id matches is left unchanged. In the component it gains a `criteria` property, which nothing reads for a leaf.
- RuleObject.ConvertToRuleObject: the result is an unordered map. It does not capture the key order of a JavaScript object, or what assigning to the special `__proto__` key does.
