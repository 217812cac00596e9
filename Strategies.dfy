/**
 * The rule strategies. The source's `IActionStrategy` interface and its three
 * implementations become one closed datatype with a variant per
 * implementation; each variant holds the read-only table its constructor was
 * given. Both operations are functions of the strategy and the card alone.
 */
module Strategies {
  import opened Models

  /** An action identifier, such as "ACTION6". */
  type Action = string

  /** The key a strategy derives from a card, tagged with the dimension it belongs to. */
  datatype RuleKey =
    | TypeKey(cardType: CardType)
    | StatusKey(cardStatus: CardStatus)
    | PinKey(isPinSet: bool, cardStatus: CardStatus)

  datatype Strategy =
    | CardTypeStrategy(cardTypeRules: map<CardType, seq<Action>>)
    | CardStatusStrategy(cardStatusRules: map<CardStatus, seq<Action>>)
    | PinStrategy(pinRules: map<(bool, CardStatus), seq<Action>>)
  {
    /** The key this strategy looks a card up by; it never involves the card number. */
    function Key(card: CardDetails): RuleKey
    {
      match this
      case CardTypeStrategy(_) => TypeKey(card.cardType)
      case CardStatusStrategy(_) => StatusKey(card.cardStatus)
      case PinStrategy(_) => PinKey(card.isPinSet, card.cardStatus)
    }

    /**
     * `IsApplicable`: the card's key is present in the table. Total: it is a
     * plain membership test and has no precondition.
     */
    predicate IsApplicable(card: CardDetails)
    {
      match this
      case CardTypeStrategy(t) => card.cardType in t
      case CardStatusStrategy(t) => card.cardStatus in t
      case PinStrategy(t) => (card.isPinSet, card.cardStatus) in t
    }

    /**
     * `GetBlockedActions`: the list stored under the card's key, unchanged
     * (it may hold duplicates). The source's indexer throws on an absent key,
     * so the operation requires applicability.
     */
    function GetBlockedActions(card: CardDetails): seq<Action>
      requires IsApplicable(card)
    {
      match this
      case CardTypeStrategy(t) => t[card.cardType]
      case CardStatusStrategy(t) => t[card.cardStatus]
      case PinStrategy(t) => t[(card.isPinSet, card.cardStatus)]
    }
  }

  /** Two cards with the same key get the same answers from a strategy. */
  lemma SameKeySameAnswers(s: Strategy, c1: CardDetails, c2: CardDetails)
    requires s.Key(c1) == s.Key(c2)
    ensures s.IsApplicable(c1) == s.IsApplicable(c2)
    ensures s.IsApplicable(c1) ==> s.GetBlockedActions(c1) == s.GetBlockedActions(c2)
  {
  }

  /** No strategy reads the card number. */
  lemma IgnoresCardNumber(s: Strategy, card: CardDetails, number: string)
    ensures s.IsApplicable(card) == s.IsApplicable(card.(cardNumber := number))
    ensures s.IsApplicable(card) ==> s.GetBlockedActions(card) == s.GetBlockedActions(card.(cardNumber := number))
  {
    SameKeySameAnswers(s, card, card.(cardNumber := number));
  }

  /**
   * The type strategy is applicable exactly when the card's type is a key of
   * its table, and then blocks exactly the stored list; status, PIN and
   * number do not matter.
   */
  lemma CardTypeStrategyAnswers(rules: map<CardType, seq<Action>>, card: CardDetails, other: CardDetails)
    requires other.cardType == card.cardType
    ensures CardTypeStrategy(rules).IsApplicable(other) <==> card.cardType in rules
    ensures card.cardType in rules ==> CardTypeStrategy(rules).GetBlockedActions(other) == rules[card.cardType]
  {
  }

  /**
   * The status strategy is applicable exactly when the card's status is a key
   * of its table, and then blocks exactly the stored list; type, PIN and
   * number do not matter. An absent status is "not applicable", never an error.
   */
  lemma CardStatusStrategyAnswers(rules: map<CardStatus, seq<Action>>, card: CardDetails, other: CardDetails)
    requires other.cardStatus == card.cardStatus
    ensures CardStatusStrategy(rules).IsApplicable(other) <==> card.cardStatus in rules
    ensures card.cardStatus in rules ==> CardStatusStrategy(rules).GetBlockedActions(other) == rules[card.cardStatus]
  {
  }

  /**
   * The PIN strategy is applicable exactly when the pair (PIN set, status) is
   * a key of its table, and then blocks exactly the stored list; type and
   * number do not matter.
   */
  lemma PinStrategyAnswers(rules: map<(bool, CardStatus), seq<Action>>, card: CardDetails, other: CardDetails)
    requires other.isPinSet == card.isPinSet && other.cardStatus == card.cardStatus
    ensures PinStrategy(rules).IsApplicable(other) <==> (card.isPinSet, card.cardStatus) in rules
    ensures (card.isPinSet, card.cardStatus) in rules ==>
              PinStrategy(rules).GetBlockedActions(other) == rules[(card.isPinSet, card.cardStatus)]
  {
  }
}
