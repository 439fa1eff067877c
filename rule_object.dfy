/** `convertToRuleObject`: the rule tree turned into a nested dictionary, each
    leaf writing `field -> value` and each group `criteria -> its children
    converted`. */
module RuleObject {
  import opened RuleTree

  /** A value of the converted dictionary: a leaf's value text, or the
      dictionary a group's children convert to. */
  datatype RuleValue = Text(text: string) | Object(entries: map<string, RuleValue>)

  /** The key a node writes: a leaf's field, a group's criteria. */
  function KeyOf(n: Node): string
  {
    if n.Leaf? then n.field else n.criteria
  }

  /** The functional meaning of the conversion: the nodes are written left to
      right, so the dictionary for a list is the one for all but its last node
      with the last node's entry written over it. */
  function ToRuleObject(rules: seq<Node>): map<string, RuleValue>
    decreases rules
  {
    if rules == [] then map[]
    else ToRuleObject(rules[..|rules| - 1])[KeyOf(rules[|rules| - 1]) := ValueOf(rules[|rules| - 1])]
  }

  /** The value a node writes under its key. */
  function ValueOf(n: Node): RuleValue
    decreases n
  {
    match n
    case Leaf(_, _, _, value, _) => Text(value)
    case Group(_, _, children, _) => Object(ToRuleObject(children))
  }

  /** The imperative conversion: a dictionary updated in place by a loop over
      the nodes, recursing into each group. */
  method ConvertToRuleObject(rulesArray: seq<Node>) returns (resultObject: map<string, RuleValue>)
    ensures resultObject == ToRuleObject(rulesArray)
    decreases rulesArray
  {
    resultObject := map[];
    for i := 0 to |rulesArray|
      invariant resultObject == ToRuleObject(rulesArray[..i])
    {
      var rule := rulesArray[i];
      assert rulesArray[..i + 1][..i] == rulesArray[..i];
      match rule {
        case Leaf(_, field, _, value, _) =>
          resultObject := resultObject[field := Text(value)];
        case Group(_, criteria, children, _) =>
          var nested := ConvertToRuleObject(children);
          resultObject := resultObject[criteria := Object(nested)];
      }
    }
    assert rulesArray[..|rulesArray|] == rulesArray;
  }

  /** The keys the nodes of a list write. */
  function KeysWritten(rules: seq<Node>): set<string>
  {
    set i | 0 <= i < |rules| :: KeyOf(rules[i])
  }

  /** The keys of the dictionary are exactly the keys the nodes write; in
      particular an empty list gives an empty dictionary. */
  lemma {:induction false} ToRuleObjectKeys(rules: seq<Node>)
    ensures ToRuleObject(rules).Keys == KeysWritten(rules)
  {
    if rules != [] {
      var prefix := rules[..|rules| - 1];
      ToRuleObjectKeys(prefix);
      var last := |rules| - 1;
      forall k | k in KeysWritten(rules)
        ensures k in KeysWritten(prefix) + {KeyOf(rules[last])}
      {
        var i :| 0 <= i < |rules| && KeyOf(rules[i]) == k;
        if i < last {
          assert KeyOf(prefix[i]) == k;
        }
      }
      forall k | k in KeysWritten(prefix)
        ensures k in KeysWritten(rules)
      {
        var i :| 0 <= i < |prefix| && KeyOf(prefix[i]) == k;
        assert KeyOf(rules[i]) == k;
      }
      assert KeysWritten(rules) == KeysWritten(prefix) + {KeyOf(rules[last])};
    }
  }

  /** When two nodes write the same key the later one wins: a node that no
      later node overwrites has its own value in the dictionary. */
  lemma {:induction false} ToRuleObjectLastWins(rules: seq<Node>, j: int)
    requires 0 <= j < |rules|
    requires forall k :: j < k < |rules| ==> KeyOf(rules[k]) != KeyOf(rules[j])
    ensures KeyOf(rules[j]) in ToRuleObject(rules)
    ensures ToRuleObject(rules)[KeyOf(rules[j])] == ValueOf(rules[j])
  {
    if j < |rules| - 1 {
      var prefix := rules[..|rules| - 1];
      assert prefix[j] == rules[j];
      ToRuleObjectLastWins(prefix, j);
    }
  }

  /** Converting a concatenation merges the two dictionaries, the second
      overriding the first on a shared key. */
  lemma {:induction false} ToRuleObjectAppend(a: seq<Node>, b: seq<Node>)
    ensures ToRuleObject(a + b) == ToRuleObject(a) + ToRuleObject(b)
  {
    if b == [] {
      assert a + b == a;
    } else {
      var b' := b[..|b| - 1];
      assert (a + b)[..|a + b| - 1] == a + b';
      ToRuleObjectAppend(a, b');
    }
  }

  /** A leaf on its own converts to its field mapped to its value, and a group
      on its own to its criteria mapped to its children's dictionary. */
  lemma SingleNode(n: Node)
    ensures n.Leaf? ==> ToRuleObject([n]) == map[n.field := Text(n.value)]
    ensures n.Group? ==> ToRuleObject([n]) == map[n.criteria := Object(ToRuleObject(n.rules))]
  {
  }
}
