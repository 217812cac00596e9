/** `BusinessStrategiesFactory`: wraps the three tables of one loaded result into strategies. */
module StrategiesFactory {
  import opened Strategies
  import opened RuleLoader

  /**
   * `CreateStrategies`: exactly three strategies, in the order type, status,
   * PIN, each holding the matching table of the one `RuleTables` value the
   * factory received from a single `LoadRules` call.
   */
  function CreateStrategies(rules: RuleTables): (r: seq<Strategy>)
    ensures |r| == 3
    ensures r[0].CardTypeStrategy? && r[0].cardTypeRules == rules.cardTypeRules
    ensures r[1].CardStatusStrategy? && r[1].cardStatusRules == rules.cardStatusRules
    ensures r[2].PinStrategy? && r[2].pinRules == rules.pinRules
  {
    [CardTypeStrategy(rules.cardTypeRules), CardStatusStrategy(rules.cardStatusRules), PinStrategy(rules.pinRules)]
  }
}
