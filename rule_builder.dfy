/** A rule builder instance and the global rule store it writes to. The
    builder's state setters and the store's actions replace whole fields;
    every new value is the one the pure handlers compute. */
module RuleBuilder {
  import opened RuleTree
  import opened RuleHandlers

  /** The process-wide rule collection: a flat ordered sequence of top-level
      nodes, shared by every builder. */
  class RuleStore {
    var allRules: seq<Node>

    constructor ()
      ensures allRules == []
    {
      allRules := [];
    }

    /** `AddToRules`: replace the collection by the given sequence. */
    method AddToRules(newRules: seq<Node>)
      modifies this
      ensures allRules == newRules
    {
      allRules := newRules;
    }

    /** `ResetAllRules`: empty the collection. */
    method ResetAllRules()
      modifies this
      ensures allRules == []
    {
      allRules := [];
    }
  }

  /** One builder: its group criteria and local rule list, the parent id it
      fixed when it was created, and the store it shares with the others. */
  class Builder {
    var criteria: string
    var rules: seq<Node>
    const parentId: int
    const isRoot: bool
    const store: RuleStore

    /** A builder resets the store exactly when its parent id is 0. */
    predicate Valid()
    {
      isRoot <==> parentId == 0
    }

    /** Mounting a builder: criteria `all`, no rules, the parent id taken from
        the prop or generated, and a first run of the body, which empties the
        store when the prop is falsy. */
    constructor (prop: Option<int>, draw: real, store: RuleStore)
      requires 0.0 <= draw < 1.0
      modifies store
      ensures Valid()
      ensures this.store == store && criteria == "all" && rules == []
      ensures parentId == BuilderParentId(prop, draw) && isRoot == ResetsStore(prop)
      ensures store.allRules == if isRoot then [] else old(store.allRules)
    {
      criteria := "all";
      rules := [];
      parentId := BuilderParentId(prop, draw);
      isRoot := ResetsStore(prop);
      this.store := store;
      ResetsStoreIffRootId(prop, draw);
      new;
      Render();
    }

    /** A run of the component body: a root builder dispatches the store
        reset every time, not only on its first run. */
    method Render()
      modifies store
      ensures store.allRules == if isRoot then [] else old(store.allRules)
    {
      if isRoot {
        store.ResetAllRules();
      }
    }

    /** `handleCriteriaChange`: any string is accepted; the rules are untouched,
        so groups already added keep the criteria they copied. */
    method HandleCriteriaChange(newCriteria: string)
      modifies this`criteria
      ensures criteria == newCriteria
    {
      criteria := newCriteria;
    }

    /** `handleAddRule`, with the clock reading `now` as the new leaf's id. */
    method HandleAddRule(now: int)
      modifies this`rules
      ensures rules == AddRule(old(rules), now, parentId)
    {
      rules := AddRule(rules, now, parentId);
    }

    /** `handleNestedRule`. */
    method HandleNestedRule()
      modifies this`rules
      ensures rules == AddNestedRule(old(rules), parentId, criteria)
    {
      rules := AddNestedRule(rules, parentId, criteria);
    }

    /** `handleLogicalOperatorChange`. */
    method HandleLogicalOperatorChange(ruleId: int, newOperator: string)
      modifies this`rules
      ensures rules == ChangeLogicalOperator(old(rules), ruleId, newOperator)
    {
      rules := ChangeLogicalOperator(rules, ruleId, newOperator);
    }

    /** `handleRemoveRule`. */
    method HandleRemoveRule(ruleId: int)
      modifies this`rules
      ensures rules == RemoveRule(old(rules), ruleId)
    {
      rules := RemoveRule(rules, ruleId);
    }

    /** `handleFieldChange`. */
    method HandleFieldChange(field: string, ruleId: int)
      modifies this`rules
      ensures rules == ChangeField(old(rules), field, ruleId)
    {
      rules := ChangeField(rules, field, ruleId);
    }

    /** `handleOperatorChange`. */
    method HandleOperatorChange(operator: string, ruleId: int)
      modifies this`rules
      ensures rules == ChangeOperator(old(rules), operator, ruleId)
    {
      rules := ChangeOperator(rules, operator, ruleId);
    }

    /** `handleValueChange`. */
    method HandleValueChange(value: string, ruleId: int)
      modifies this`rules
      ensures rules == ChangeValue(old(rules), value, ruleId)
    {
      rules := ChangeValue(rules, value, ruleId);
    }

    /** `handleSubmit`: the store becomes its old contents followed by the
        local rules; the builder itself is unchanged. */
    method HandleSubmit()
      modifies store
      ensures store.allRules == Submitted(old(store.allRules), rules)
    {
      store.AddToRules(Submitted(store.allRules, rules));
    }

    /** `finalSubmit`, offered only by a builder without a parent id prop: the
        store becomes a new empty root group with id 0 in front of its old
        contents; the local rules are not written. */
    method FinalSubmit()
      requires Valid() && isRoot
      modifies store
      ensures store.allRules == FinalSubmitted(old(store.allRules), 0, criteria)
    {
      store.AddToRules(FinalSubmitted(store.allRules, parentId, criteria));
    }
  }

  /** A root builder, with the body re-run after each store write as the
      component re-renders on every change of the store it selects: add a
      nested group while the criteria is `any`, switch the criteria back to
      `all`, then add a leaf (its clock id is not the group's id 1) and remove
      it again. The group keeps `any`; the submit writes it to the emptied
      store and the render that follows wipes it; the final submit then writes
      the root envelope alone, and the next render wipes that too. */
  method NestedGroupKeepsCriteria(store: RuleStore, draw: real, now: int)
      returns (local: seq<Node>, submitted: seq<Node>, finalized: seq<Node>)
    requires 0.0 <= draw < 1.0
    requires now != 1
    modifies store
    ensures local == [Group(1, "any", [], Some(0))]
    ensures submitted == local
    ensures finalized == [Group(0, "all", [], None)]
    ensures store.allRules == []
  {
    var b := new Builder(None, draw, store);
    b.HandleCriteriaChange("any");
    b.HandleNestedRule();
    b.HandleCriteriaChange("all");
    b.HandleAddRule(now);
    b.HandleRemoveRule(now);
    RemoveAfterAddRule([Group(1, "any", [], Some(0))], now, 0);
    local := b.rules;
    b.HandleSubmit();
    submitted := store.allRules;
    b.Render();
    b.FinalSubmit();
    finalized := store.allRules;
    b.Render();
  }
}
