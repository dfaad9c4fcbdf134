/**
 * A chain of checks `if (!rule1) report msg1 else if (!rule2) report msg2 ...`,
 * as both the login handler and the add-employee password check write it,
 * described once as "the message of the first rule that fails".
 */
module Rules {
  import opened Forms

  /** One check of a chain: whether it holds, and what is reported when it does not. */
  datatype Rule = Rule(holds: bool, message: string)

  /** Index of the first failing rule, or `|rules|` when every rule holds. */
  function FirstFailingIndex(rules: seq<Rule>): (k: nat)
    ensures k <= |rules|
    ensures forall j | 0 <= j < k :: rules[j].holds
    ensures k < |rules| ==> !rules[k].holds
  {
    if rules == [] || !rules[0].holds then 0
    else 1 + FirstFailingIndex(rules[1..])
  }

  /** The message of the first failing rule; None exactly when every rule holds. */
  function FirstFailing(rules: seq<Rule>): (r: Option<string>)
    ensures r == None <==> forall j | 0 <= j < |rules| :: rules[j].holds
  {
    var k := FirstFailingIndex(rules);
    if k == |rules| then None else Some(rules[k].message)
  }

  /**
   * The first failing rule is unique: if rule `k` fails and all rules before it hold,
   * the chain reports rule `k`'s message.
   */
  lemma FirstFailingAt(rules: seq<Rule>, k: nat)
    requires k < |rules| && !rules[k].holds
    requires forall j | 0 <= j < k :: rules[j].holds
    ensures FirstFailing(rules) == Some(rules[k].message)
  {
  }
}
