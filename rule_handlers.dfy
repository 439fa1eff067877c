/** The rule-list handlers of a builder. Each one computes a new list (or a new
    store sequence) from the old one, as the component's handlers do with
    spread, `map` and `filter` before handing the result to a state setter. */
module RuleHandlers {
  import opened RuleTree

  /** `b` is `a` with only nodes whose id is `ruleId` touched: same length,
      same id at every position, and every other node identical. */
  predicate AgreeOutside(a: seq<Node>, b: seq<Node>, ruleId: int)
  {
    && |a| == |b|
    && (forall i :: 0 <= i < |a| ==> a[i].id == b[i].id)
    && (forall i :: 0 <= i < |a| && a[i].id != ruleId ==> a[i] == b[i])
  }

  /** No node of the list carries `ruleId`. */
  predicate Absent(rules: seq<Node>, ruleId: int)
  {
    forall i :: 0 <= i < |rules| ==> rules[i].id != ruleId
  }

  // ---------------------------------------------------------------- adding

  /** `handleAddRule`: append an empty leaf whose id is the clock value `now`. */
  function AddRule(rules: seq<Node>, now: int, parentId: int): (r: seq<Node>)
    ensures |r| == |rules| + 1 && r[..|rules|] == rules
    ensures r[|rules|].Leaf? && r[|rules|].id == now && r[|rules|].parentId == Some(parentId)
    ensures r[|rules|].field == "" && r[|rules|].operator == "" && r[|rules|].value == ""
  {
    rules + [Leaf(now, "", "", "", Some(parentId))]
  }

  /** `handleNestedRule`: append an empty group whose id is `parentId + 1` and
      whose criteria is a copy of the builder's current criteria. */
  function AddNestedRule(rules: seq<Node>, parentId: int, criteria: string): (r: seq<Node>)
    ensures |r| == |rules| + 1 && r[..|rules|] == rules
    ensures r[|rules|].Group? && r[|rules|].id == parentId + 1 && r[|rules|].parentId == Some(parentId)
    ensures r[|rules|].criteria == criteria && r[|rules|].rules == []
  {
    rules + [Group(parentId + 1, criteria, [], Some(parentId))]
  }

  /** Two nested groups added one after the other from the same builder get
      the same id, whatever the criteria in between. */
  lemma NestedRulesShareId(rules: seq<Node>, parentId: int, c1: string, c2: string)
    ensures var r := AddNestedRule(AddNestedRule(rules, parentId, c1), parentId, c2);
      |r| == |rules| + 2 && r[|rules|].id == r[|rules| + 1].id == parentId + 1
  {
  }

  // ---------------------------------------------------------------- editing

  /** `handleLogicalOperatorChange`: every group with that id takes the new
      criteria; its children and parent are kept. */
  function ChangeLogicalOperator(rules: seq<Node>, ruleId: int, newOperator: string): (r: seq<Node>)
    ensures AgreeOutside(rules, r, ruleId)
    ensures forall i :: 0 <= i < |rules| && rules[i].id == ruleId && rules[i].Group? ==>
      r[i].Group? && r[i].criteria == newOperator &&
      r[i].rules == rules[i].rules && r[i].parentId == rules[i].parentId
    ensures forall i :: 0 <= i < |rules| && rules[i].Leaf? ==> r[i] == rules[i]
  {
    seq(|rules|, i requires 0 <= i < |rules| =>
      if rules[i].id == ruleId && rules[i].Group? then rules[i].(criteria := newOperator) else rules[i])
  }

  /** `handleFieldChange`: every leaf with that id takes the new field and has
      its operator cleared; its value and parent are kept. */
  function ChangeField(rules: seq<Node>, field: string, ruleId: int): (r: seq<Node>)
    ensures AgreeOutside(rules, r, ruleId)
    ensures forall i :: 0 <= i < |rules| && rules[i].id == ruleId && rules[i].Leaf? ==>
      r[i].Leaf? && r[i].field == field && r[i].operator == "" &&
      r[i].value == rules[i].value && r[i].parentId == rules[i].parentId
    ensures forall i :: 0 <= i < |rules| && rules[i].Group? ==> r[i] == rules[i]
  {
    seq(|rules|, i requires 0 <= i < |rules| =>
      if rules[i].id == ruleId && rules[i].Leaf? then rules[i].(field := field, operator := "") else rules[i])
  }

  /** `handleOperatorChange`: every leaf with that id takes the new operator;
      its field, value and parent are kept. */
  function ChangeOperator(rules: seq<Node>, operator: string, ruleId: int): (r: seq<Node>)
    ensures AgreeOutside(rules, r, ruleId)
    ensures forall i :: 0 <= i < |rules| && rules[i].id == ruleId && rules[i].Leaf? ==>
      r[i].Leaf? && r[i].operator == operator && r[i].field == rules[i].field &&
      r[i].value == rules[i].value && r[i].parentId == rules[i].parentId
    ensures forall i :: 0 <= i < |rules| && rules[i].Group? ==> r[i] == rules[i]
  {
    seq(|rules|, i requires 0 <= i < |rules| =>
      if rules[i].id == ruleId && rules[i].Leaf? then rules[i].(operator := operator) else rules[i])
  }

  /** `handleValueChange`: every leaf with that id takes the new value; its
      field, operator and parent are kept. */
  function ChangeValue(rules: seq<Node>, value: string, ruleId: int): (r: seq<Node>)
    ensures AgreeOutside(rules, r, ruleId)
    ensures forall i :: 0 <= i < |rules| && rules[i].id == ruleId && rules[i].Leaf? ==>
      r[i].Leaf? && r[i].value == value && r[i].field == rules[i].field &&
      r[i].operator == rules[i].operator && r[i].parentId == rules[i].parentId
    ensures forall i :: 0 <= i < |rules| && rules[i].Group? ==> r[i] == rules[i]
  {
    seq(|rules|, i requires 0 <= i < |rules| =>
      if rules[i].id == ruleId && rules[i].Leaf? then rules[i].(value := value) else rules[i])
  }

  /** An operator never survives a change of field: whatever operator a
      matching leaf was given before, the field change clears it. A corollary
      of `ChangeField`'s contract, stated for the sequence the component goes
      through (operator chosen, then field changed). */
  lemma FieldChangeClearsOperator(rules: seq<Node>, operator: string, field: string, ruleId: int)
    ensures var r := ChangeField(ChangeOperator(rules, operator, ruleId), field, ruleId);
      forall i :: 0 <= i < |r| && r[i].id == ruleId && r[i].Leaf? ==> r[i].operator == "" && r[i].field == field
  {
  }

  // ---------------------------------------------------------------- removing

  /** `handleRemoveRule`: keep, in order, the nodes whose id differs. */
  function RemoveRule(rules: seq<Node>, ruleId: int): (r: seq<Node>)
    ensures Absent(r, ruleId)
    ensures forall n :: n in r <==> n in rules && n.id != ruleId
    ensures |r| <= |rules|
  {
    if rules == [] then []
    else if rules[0].id == ruleId then RemoveRule(rules[1..], ruleId)
    else [rules[0]] + RemoveRule(rules[1..], ruleId)
  }

  /** Filtering a concatenation filters each part in place: together with the
      one-node cases this pins the result down to the kept nodes in their
      original order. */
  lemma {:induction false} RemoveRuleAppend(a: seq<Node>, b: seq<Node>, ruleId: int)
    ensures RemoveRule(a + b, ruleId) == RemoveRule(a, ruleId) + RemoveRule(b, ruleId)
  {
    if a == [] {
      assert a + b == b;
    } else {
      assert (a + b)[1..] == a[1..] + b;
      RemoveRuleAppend(a[1..], b, ruleId);
    }
  }

  /** A list without the id is left as it is. */
  lemma {:induction false} RemoveRuleAbsent(rules: seq<Node>, ruleId: int)
    requires Absent(rules, ruleId)
    ensures RemoveRule(rules, ruleId) == rules
  {
    if rules != [] {
      RemoveRuleAbsent(rules[1..], ruleId);
    }
  }

  /** Removing the same id twice is the same as removing it once. */
  lemma RemoveRuleIdempotent(rules: seq<Node>, ruleId: int)
    ensures RemoveRule(RemoveRule(rules, ruleId), ruleId) == RemoveRule(rules, ruleId)
  {
  }

  /** Nothing but the id is dropped: every other node keeps its number of
      occurrences, duplicates included. */
  lemma {:induction false} RemoveRuleCounts(rules: seq<Node>, ruleId: int, n: Node)
    ensures multiset(RemoveRule(rules, ruleId))[n] == if n.id == ruleId then 0 else multiset(rules)[n]
  {
    if rules != [] {
      RemoveRuleCounts(rules[1..], ruleId, n);
      assert rules == [rules[0]] + rules[1..];
    }
  }

  /** Removing a freshly added leaf whose id was unused restores the list. */
  lemma RemoveAfterAddRule(rules: seq<Node>, now: int, parentId: int)
    requires Absent(rules, now)
    ensures RemoveRule(AddRule(rules, now, parentId), now) == rules
  {
    RemoveRuleAppend(rules, [Leaf(now, "", "", "", Some(parentId))], now);
    RemoveRuleAbsent(rules, now);
  }

  /** Removing the id of one of two back-to-back nested groups removes both,
      since they share that id. */
  lemma RemoveNestedTwins(rules: seq<Node>, parentId: int, c1: string, c2: string)
    ensures RemoveRule(AddNestedRule(AddNestedRule(rules, parentId, c1), parentId, c2), parentId + 1)
         == RemoveRule(rules, parentId + 1)
  {
    var g1 := Group(parentId + 1, c1, [], Some(parentId));
    var g2 := Group(parentId + 1, c2, [], Some(parentId));
    RemoveRuleAppend(rules + [g1], [g2], parentId + 1);
    RemoveRuleAppend(rules, [g1], parentId + 1);
  }

  /** Lists that differ only at nodes with the id are the same once that id is
      removed. */
  lemma {:induction false} RemoveRuleForgetsEdits(a: seq<Node>, b: seq<Node>, ruleId: int)
    requires AgreeOutside(a, b, ruleId)
    ensures RemoveRule(b, ruleId) == RemoveRule(a, ruleId)
  {
    if a != [] {
      assert AgreeOutside(a[1..], b[1..], ruleId);
      RemoveRuleForgetsEdits(a[1..], b[1..], ruleId);
    }
  }

  /** Editing a node and then removing it is the same as removing it. */
  lemma RemoveAfterEdit(rules: seq<Node>, field: string, operator: string, value: string, criteria: string, ruleId: int)
    ensures RemoveRule(ChangeField(rules, field, ruleId), ruleId) == RemoveRule(rules, ruleId)
    ensures RemoveRule(ChangeOperator(rules, operator, ruleId), ruleId) == RemoveRule(rules, ruleId)
    ensures RemoveRule(ChangeValue(rules, value, ruleId), ruleId) == RemoveRule(rules, ruleId)
    ensures RemoveRule(ChangeLogicalOperator(rules, ruleId, criteria), ruleId) == RemoveRule(rules, ruleId)
  {
    RemoveRuleForgetsEdits(rules, ChangeField(rules, field, ruleId), ruleId);
    RemoveRuleForgetsEdits(rules, ChangeOperator(rules, operator, ruleId), ruleId);
    RemoveRuleForgetsEdits(rules, ChangeValue(rules, value, ruleId), ruleId);
    RemoveRuleForgetsEdits(rules, ChangeLogicalOperator(rules, ruleId, criteria), ruleId);
  }

  // ---------------------------------------------------------------- submitting

  /** `handleSubmit`: the store followed by the local list, with nothing
      reordered, dropped or merged. */
  function Submitted(allRules: seq<Node>, rules: seq<Node>): (r: seq<Node>)
    ensures |r| == |allRules| + |rules|
    ensures r[..|allRules|] == allRules && r[|allRules|..] == rules
    ensures multiset(r) == multiset(allRules) + multiset(rules)
  {
    allRules + rules
  }

  /** `finalSubmit`: a new empty root group, without a parent id, in front of
      the store. The builder's local list is not part of it. */
  function FinalSubmitted(allRules: seq<Node>, parentId: int, criteria: string): (r: seq<Node>)
    ensures |r| == |allRules| + 1 && r[1..] == allRules
    ensures r[0] == Group(parentId, criteria, [], None)
    ensures forall n :: n in r <==> n == Group(parentId, criteria, [], None) || n in allRules
  {
    [Group(parentId, criteria, [], None)] + allRules
  }

  /** Filling in a new leaf and submitting it to an empty store leaves exactly
      that leaf in the store, with its generated id and parent id. */
  lemma SubmitOneLeaf(now: int, parentId: int)
    ensures var rules := AddRule([], now, parentId);
      var edited := ChangeValue(ChangeOperator(ChangeField(rules, "age", now), ">", now), "18", now);
      Submitted([], edited) == [Leaf(now, "age", ">", "18", Some(parentId))]
  {
  }
}
