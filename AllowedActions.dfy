/**
 * `AllowedActionsService`: the engine. It holds a list of strategies, fixed
 * at construction, and answers which catalog actions a card may perform:
 * the catalog, minus every action blocked by a strategy applicable to the card.
 */
module AllowedActions {
  import opened Wrappers
  import opened Text
  import opened Models
  import opened Strategies
  import opened RuleLoader
  import opened StrategiesFactory

  /** `$"ACTION{i}"`. */
  function ActionName(i: nat): Action
  {
    "ACTION" + NatToString(i)
  }

  /** The catalog, `Enumerable.Range(1, 13).Select(i => $"ACTION{i}")`: hard-coded, not configured. */
  function Catalog(): seq<Action>
  {
    seq(13, i requires 0 <= i < 13 => ActionName(i + 1))
  }

  predicate NoDuplicates<T(==)>(s: seq<T>)
  {
    forall i, j :: 0 <= i < j < |s| ==> s[i] != s[j]
  }

  /** The catalog is the literal list ACTION1 .. ACTION13. */
  lemma CatalogLiteral()
    ensures Catalog() == ["ACTION1", "ACTION2", "ACTION3", "ACTION4", "ACTION5", "ACTION6", "ACTION7",
                          "ACTION8", "ACTION9", "ACTION10", "ACTION11", "ACTION12", "ACTION13"]
  {
    var literal := ["ACTION1", "ACTION2", "ACTION3", "ACTION4", "ACTION5", "ACTION6", "ACTION7",
                    "ACTION8", "ACTION9", "ACTION10", "ACTION11", "ACTION12", "ACTION13"];
    forall i | 0 <= i < 13 ensures Catalog()[i] == literal[i] {
      if i >= 9 {
        assert NatToString(i + 1) == NatToString((i + 1) / 10) + [DigitChar((i + 1) % 10)];
      }
    }
  }

  /** The catalog has thirteen distinct entries. */
  lemma CatalogDistinct()
    ensures |Catalog()| == 13 && NoDuplicates(Catalog())
  {
    forall i, j | 0 <= i < j < 13 ensures Catalog()[i] != Catalog()[j] {
      if Catalog()[i] == Catalog()[j] {
        PrefixCancel("ACTION", NatToString(i + 1), NatToString(j + 1));
        NatToStringInjective(i + 1, j + 1);
      }
    }
  }

  /**
   * LINQ `Except`: the elements of `xs` that are not in `excluded`, each at
   * its first occurrence, in the order of `xs`. (.NET seeds a hash set with
   * the second sequence and yields each element of the first whose insertion
   * succeeds.)
   */
  function Except(xs: seq<Action>, excluded: set<Action>): (r: seq<Action>)
    ensures forall a :: a in r <==> a in xs && a !in excluded
    ensures NoDuplicates(r)
    ensures |r| <= |xs|
  {
    if xs == [] then []
    else if xs[0] in excluded then Except(xs[1..], excluded)
    else [xs[0]] + Except(xs[1..], excluded + {xs[0]})
  }

  /** `Except` of a duplicate-free sequence and a set disjoint from it returns the sequence itself. */
  lemma {:induction false} ExceptKeepsDistinct(xs: seq<Action>, excluded: set<Action>)
    requires NoDuplicates(xs)
    requires forall a :: a in xs ==> a !in excluded
    ensures Except(xs, excluded) == xs
  {
    if xs != [] {
      assert forall a :: a in xs[1..] ==> a != xs[0];
      ExceptKeepsDistinct(xs[1..], excluded + {xs[0]});
    }
  }

  /** `Except` depends only on which elements of `xs` are excluded. */
  lemma {:induction false} ExceptOnlyReadsElements(xs: seq<Action>, e1: set<Action>, e2: set<Action>)
    requires forall a :: a in xs ==> (a in e1 <==> a in e2)
    ensures Except(xs, e1) == Except(xs, e2)
  {
    if xs != [] {
      ExceptOnlyReadsElements(xs[1..], e1 + {xs[0]}, e2 + {xs[0]});
      ExceptOnlyReadsElements(xs[1..], e1, e2);
    }
  }

  /**
   * The `Where(IsApplicable).SelectMany(GetBlockedActions)` pipeline: the
   * blocked lists of the applicable strategies, concatenated in order.
   * `GetBlockedActions` is only reached for a strategy that is applicable.
   */
  function BlockedActions(strategies: seq<Strategy>, card: CardDetails): (r: seq<Action>)
    ensures forall a :: a in r <==>
              exists i :: 0 <= i < |strategies| && strategies[i].IsApplicable(card) && a in strategies[i].GetBlockedActions(card)
  {
    if strategies == [] then []
    else
      var rest := BlockedActions(strategies[1..], card);
      assert forall i :: 1 <= i < |strategies| ==> strategies[i] == strategies[1..][i - 1];
      if strategies[0].IsApplicable(card) then strategies[0].GetBlockedActions(card) + rest else rest
  }

  /** The engine: a strategy list given once at construction and never changed. */
  datatype AllowedActionsService = AllowedActionsService(strategies: seq<Strategy>)
  {
    /**
     * `GetAllowedActions`: the catalog actions that no applicable strategy
     * blocks, in catalog order, without duplicates.
     */
    function GetAllowedActions(card: CardDetails): (r: seq<Action>)
      ensures forall a :: a in r <==>
                a in Catalog() &&
                forall i :: 0 <= i < |strategies| && strategies[i].IsApplicable(card) ==> a !in strategies[i].GetBlockedActions(card)
      ensures NoDuplicates(r)
      ensures |r| <= 13
    {
      var blocked := BlockedActions(strategies, card);
      Except(Catalog(), set a | a in blocked)
    }
  }

  /**
   * The live constructor `AllowedActionsService(IRuleLoader)`: one
   * `LoadRules` call, whose failure propagates, then the factory.
   */
  method NewFromRuleLoader(config: JsonConfig) returns (r: Result<AllowedActionsService, LoadError>)
    ensures r.Failure? <==> LoadedRules(config).Failure?
    ensures r.Failure? ==> r.error == LoadedRules(config).error
    ensures r.Success? ==> r.value.strategies == CreateStrategies(LoadedRules(config).value)
  {
    var rules := LoadRules(config);
    if rules.Failure? {
      return Failure(rules.error);
    }
    r := Success(AllowedActionsService(CreateStrategies(rules.value)));
  }

  /** The permitted list seen through the blocked list: a catalog action is permitted exactly when it is not blocked. */
  lemma PermittedIffNotBlocked(service: AllowedActionsService, card: CardDetails, a: Action)
    ensures a in service.GetAllowedActions(card) <==> a in Catalog() && a !in BlockedActions(service.strategies, card)
  {
  }

  /** With no applicable strategy the whole catalog is permitted, in catalog order (fail-open). */
  lemma FailOpen(service: AllowedActionsService, card: CardDetails)
    requires forall i :: 0 <= i < |service.strategies| ==> !service.strategies[i].IsApplicable(card)
    ensures service.GetAllowedActions(card) == Catalog()
  {
    CatalogDistinct();
    ExceptKeepsDistinct(Catalog(), set a | a in BlockedActions(service.strategies, card));
  }

  /** Blocked strings outside the catalog, such as "ACTION99", have no effect on the result. */
  lemma OnlyCatalogBlocksMatter(s1: AllowedActionsService, s2: AllowedActionsService, card: CardDetails)
    requires forall a :: a in Catalog() ==>
               (a in BlockedActions(s1.strategies, card) <==> a in BlockedActions(s2.strategies, card))
    ensures s1.GetAllowedActions(card) == s2.GetAllowedActions(card)
  {
    ExceptOnlyReadsElements(Catalog(), set a | a in BlockedActions(s1.strategies, card),
                                       set a | a in BlockedActions(s2.strategies, card));
  }

  /** `s2` blocks at least what `s1` blocks, for every card. */
  ghost predicate BlocksAtLeast(s1: Strategy, s2: Strategy)
  {
    forall card: CardDetails :: s1.IsApplicable(card) ==>
      s2.IsApplicable(card) && forall a :: a in s1.GetBlockedActions(card) ==> a in s2.GetBlockedActions(card)
  }

  /** Monotonicity: making any strategy block more can only remove actions from the result. */
  lemma Monotonic(s1: AllowedActionsService, s2: AllowedActionsService, card: CardDetails)
    requires |s1.strategies| == |s2.strategies|
    requires forall i :: 0 <= i < |s1.strategies| ==> BlocksAtLeast(s1.strategies[i], s2.strategies[i])
    ensures forall a :: a in s2.GetAllowedActions(card) ==> a in s1.GetAllowedActions(card)
  {
  }

  /** Through the factory: an action is blocked exactly when one of the three tables blocks it for the card's key. */
  lemma FactoryBlocked(rules: RuleTables, card: CardDetails, a: Action)
    ensures a in BlockedActions(CreateStrategies(rules), card) <==>
              (card.cardType in rules.cardTypeRules && a in rules.cardTypeRules[card.cardType]) ||
              (card.cardStatus in rules.cardStatusRules && a in rules.cardStatusRules[card.cardStatus]) ||
              ((card.isPinSet, card.cardStatus) in rules.pinRules && a in rules.pinRules[(card.isPinSet, card.cardStatus)])
  {
    var ss := CreateStrategies(rules);
    if a in BlockedActions(ss, card) {
      var i :| 0 <= i < 3 && ss[i].IsApplicable(card) && a in ss[i].GetBlockedActions(card);
      assert i == 0 || i == 1 || i == 2;
    }
  }

  /**
   * A strategy that is not applicable to the card contributes nothing:
   * removing it leaves the result unchanged (it is never an error).
   */
  lemma NotApplicableIsTransparent(service: AllowedActionsService, i: nat, card: CardDetails)
    requires i < |service.strategies| && !service.strategies[i].IsApplicable(card)
    ensures service.GetAllowedActions(card) ==
              AllowedActionsService(service.strategies[..i] + service.strategies[i + 1..]).GetAllowedActions(card)
  {
    var ss := service.strategies;
    var rest := ss[..i] + ss[i + 1..];
    forall a ensures a in BlockedActions(ss, card) <==> a in BlockedActions(rest, card) {
      if a in BlockedActions(ss, card) {
        var j :| 0 <= j < |ss| && ss[j].IsApplicable(card) && a in ss[j].GetBlockedActions(card);
        var j' := if j < i then j else j - 1;
        assert rest[j'] == ss[j];
      }
      if a in BlockedActions(rest, card) {
        var j' :| 0 <= j' < |rest| && rest[j'].IsApplicable(card) && a in rest[j'].GetBlockedActions(card);
        var j := if j' < i then j' else j' + 1;
        assert rest[j'] == ss[j];
      }
    }
    OnlyCatalogBlocksMatter(service, AllowedActionsService(rest), card);
  }

  /** Two cards that differ only in their number get the same permitted list. */
  lemma PermittedIgnoresCardNumber(service: AllowedActionsService, card: CardDetails, number: string)
    ensures service.GetAllowedActions(card) == service.GetAllowedActions(card.(cardNumber := number))
  {
    var ss := service.strategies;
    var other := card.(cardNumber := number);
    forall i | 0 <= i < |ss|
      ensures ss[i].IsApplicable(card) == ss[i].IsApplicable(other)
      ensures ss[i].IsApplicable(card) ==> ss[i].GetBlockedActions(card) == ss[i].GetBlockedActions(other)
    {
      IgnoresCardNumber(ss[i], card, number);
    }
    ExceptOnlyReadsElements(Catalog(), set a | a in BlockedActions(ss, card), set a | a in BlockedActions(ss, other));
  }
}
