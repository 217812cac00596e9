/**
 * The older registration code: `LoadRulesFromConfig`, which repeats the JSON
 * loader's section handling and flattening loop on the text of a file, and
 * the order in which `AddBusinessServices` registers the strategies.
 */
module ServiceRegistration {
  import opened Wrappers
  import opened Strategies
  import opened RuleLoader
  import opened StrategiesFactory

  /** The strategies registered one by one, in registration order: the factory's list. */
  function RegisteredStrategies(rules: RuleTables): (r: seq<Strategy>)
    ensures r == CreateStrategies(rules)
  {
    [CardTypeStrategy(rules.cardTypeRules), CardStatusStrategy(rules.cardStatusRules), PinStrategy(rules.pinRules)]
  }

  /** `LoadRulesFromConfig` on the deserialized file: the same tables and failures as `LoadRules`. */
  method LoadRulesFromConfig(config: JsonConfig) returns (r: Result<RuleTables, LoadError>)
    ensures r == LoadedRules(config)
  {
    if config.cardTypeRules.Missing? {
      return Failure(MissingSection("CardTypeRules"));
    } else if config.cardStatusRules.Missing? {
      return Failure(MissingSection("CardStatusRules"));
    } else if config.pinRules.Missing? {
      return Failure(MissingSection("PinRules"));
    }
    var pinRules := if config.pinRules.Null? then [] else config.pinRules.value;
    var pinConvertedRules := FlattenPinRules(pinRules);
    r := Success(RuleTables(OrEmpty(config.cardTypeRules), OrEmpty(config.cardStatusRules), pinConvertedRules));
  }
}
