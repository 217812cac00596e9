/** Concrete facts about the test configuration and the sample card store. */
module Scenarios {
  import opened Wrappers
  import opened Text
  import opened Models
  import opened Strategies
  import opened RuleLoader
  import opened StrategiesFactory
  import opened AllowedActions
  import opened CardStore

  /** The type rules of the service test's configuration. */
  function TestTypeRules(): map<CardType, seq<Action>>
  {
    map[Prepaid := ["ACTION5"], Debit := ["ACTION6"], Credit := []]
  }

  /** The status rules of the service test's configuration. */
  function TestStatusRules(): map<CardStatus, seq<Action>>
  {
    map[
      Ordered := ["ACTION1", "ACTION2"],
      Inactive := ["ACTION1"],
      Active := ["ACTION2"],
      Restricted := ["ACTION1", "ACTION2", "ACTION6", "ACTION7"],
      Blocked := ["ACTION6", "ACTION7"],
      Expired := ["ACTION10", "ACTION11", "ACTION12", "ACTION13"],
      Closed := ["ACTION10", "ACTION11", "ACTION12", "ACTION13"]]
  }

  /** The raw PIN section of the service test's configuration, buckets in document order. */
  function TestPinBuckets(): seq<PinBucket>
  {
    [("NoPin", [("Ordered", ["ACTION6"]), ("Inactive", ["ACTION6"]), ("Active", ["ACTION6"])]),
     ("WithPin", [("Ordered", ["ACTION7"]), ("Blocked", ["ACTION6", "ACTION7"])])]
  }

  /** The configuration document of the service test, deserialized. */
  function TestConfig(): JsonConfig
  {
    JsonConfig(
      Present(["ACTION1", "ACTION2", "ACTION3", "ACTION4", "ACTION5", "ACTION6", "ACTION7",
               "ACTION8", "ACTION9", "ACTION10", "ACTION11", "ACTION12", "ACTION13"]),
      Present(TestTypeRules()), Present(TestStatusRules()), Present(TestPinBuckets()))
  }

  /** The PIN table flattened from the test configuration's two buckets. */
  function TestPinRules(): map<(bool, CardStatus), seq<Action>>
  {
    map[(false, Ordered) := ["ACTION6"], (false, Inactive) := ["ACTION6"], (false, Active) := ["ACTION6"],
        (true, Ordered) := ["ACTION7"], (true, Blocked) := ["ACTION6", "ACTION7"]]
  }

  /** What the loader returns for the test configuration. */
  lemma TestRulesLoaded()
    ensures LoadedRules(TestConfig()) == Success(RuleTables(TestTypeRules(), TestStatusRules(), TestPinRules()))
  {
    var bs := TestPinBuckets();
    var e0 := PinEntry(false, "Ordered", ["ACTION6"]);
    var e1 := PinEntry(false, "Inactive", ["ACTION6"]);
    var e2 := PinEntry(false, "Active", ["ACTION6"]);
    var e3 := PinEntry(true, "Ordered", ["ACTION7"]);
    var e4 := PinEntry(true, "Blocked", ["ACTION6", "ACTION7"]);
    assert bs[..1][..0] == [];
    assert Entries(bs[..1]) == [e0, e1, e2];
    assert bs[..|bs| - 1] == bs[..1];
    var es := Entries(bs);
    assert es == [e0, e1, e2, e3, e4];
    assert es[..1] == [e0] && es[..2] == [e0, e1] && es[..3] == [e0, e1, e2] && es[..4] == [e0, e1, e2, e3];
    assert Flatten([e0]) == map[(false, Ordered) := ["ACTION6"]] by {
      assert [e0][..0] == [];
    }
    assert Flatten(es[..2]) == Step(Flatten([e0]), e1) by { assert es[..2][..1] == [e0]; }
    assert Flatten(es[..3]) == Step(Flatten(es[..2]), e2) by { assert es[..3][..2] == es[..2]; }
    assert Flatten(es[..4]) == Step(Flatten(es[..3]), e3) by { assert es[..4][..3] == es[..3]; }
    assert Flatten(es) == Step(Flatten(es[..4]), e4);
  }

  /** The engine built from the test configuration by the loader and the factory. */
  function TestService(): AllowedActionsService
  {
    AllowedActionsService(CreateStrategies(RuleTables(TestTypeRules(), TestStatusRules(), TestPinRules())))
  }

  /** The loader-based constructor yields exactly that engine. */
  method TestServiceFromLoader() returns (r: Result<AllowedActionsService, LoadError>)
    ensures r == Success(TestService())
  {
    TestRulesLoaded();
    r := NewFromRuleLoader(TestConfig());
  }

  /** The test card: Prepaid, Ordered, no PIN. */
  function TestCard(): CardDetails
  {
    CardDetails("1234567890123456", Prepaid, Ordered, false)
  }

  /** The actions blocked for the test card: ACTION5 by type, ACTION1 and ACTION2 by status, ACTION6 by PIN. */
  lemma TestCardBlocked(a: Action)
    ensures a in BlockedActions(TestService().strategies, TestCard()) <==> a in {"ACTION1", "ACTION2", "ACTION5", "ACTION6"}
  {
    assert Prepaid in TestTypeRules() && TestTypeRules()[Prepaid] == ["ACTION5"];
    assert Ordered in TestStatusRules() && TestStatusRules()[Ordered] == ["ACTION1", "ACTION2"];
    assert (false, Ordered) in TestPinRules() && TestPinRules()[(false, Ordered)] == ["ACTION6"];
    var rules := RuleTables(TestTypeRules(), TestStatusRules(), TestPinRules());
    assert TestService().strategies == CreateStrategies(rules);
    FactoryBlocked(rules, TestCard(), a);
    assert a in BlockedActions(CreateStrategies(rules), TestCard()) <==>
             a in ["ACTION5"] || a in ["ACTION1", "ACTION2"] || a in ["ACTION6"];
  }

  /** Helper: when exactly catalog positions 0, 1, 4 and 5 are blocked, the other positions are permitted. */
  lemma PermittedPositions(service: AllowedActionsService, card: CardDetails, a: Action)
    requires forall b :: b in BlockedActions(service.strategies, card) <==>
                         b in {Catalog()[0], Catalog()[1], Catalog()[4], Catalog()[5]}
    ensures a in service.GetAllowedActions(card) <==>
              a in Catalog() && a !in {Catalog()[0], Catalog()[1], Catalog()[4], Catalog()[5]}
  {
    PermittedIffNotBlocked(service, card, a);
  }

  /** Helper: in a duplicate-free catalog, leaving out positions 0, 1, 4 and 5 leaves the other nine. */
  lemma CatalogWithoutPositions(a: Action)
    ensures a in Catalog() && a !in {Catalog()[0], Catalog()[1], Catalog()[4], Catalog()[5]} <==>
              a in [Catalog()[2], Catalog()[3], Catalog()[6], Catalog()[7], Catalog()[8], Catalog()[9],
                    Catalog()[10], Catalog()[11], Catalog()[12]]
  {
    CatalogDistinct();
    var c := Catalog();
    var kept := [c[2], c[3], c[6], c[7], c[8], c[9], c[10], c[11], c[12]];
    if a in c && a !in {c[0], c[1], c[4], c[5]} {
      var i :| 0 <= i < 13 && c[i] == a;
      assert a in kept by {
        assert i != 0 && i != 1 && i != 4 && i != 5;
      }
    }
    if a in kept {
      var i :| 0 <= i < 9 && kept[i] == a;
      var n := if i < 2 then i + 2 else i + 4;
      assert c[n] == a;
      assert a != c[0] && a != c[1] && a != c[4] && a != c[5];
    }
  }

  /**
   * The service test: the permitted set is the catalog minus ACTION1,
   * ACTION2, ACTION5 and ACTION6, compared as sets.
   */
  lemma TestCardPermitted(a: Action)
    ensures a in TestService().GetAllowedActions(TestCard()) <==>
              a in ["ACTION3", "ACTION4", "ACTION7", "ACTION8", "ACTION9", "ACTION10", "ACTION11", "ACTION12", "ACTION13"]
  {
    CatalogLiteral();
    forall b ensures b in BlockedActions(TestService().strategies, TestCard()) <==>
                     b in {Catalog()[0], Catalog()[1], Catalog()[4], Catalog()[5]} {
      TestCardBlocked(b);
    }
    PermittedPositions(TestService(), TestCard(), a);
    CatalogWithoutPositions(a);
  }

  /** A credit card, blocked, with a PIN: only ACTION6 and ACTION7 are withheld. */
  lemma CreditBlockedWithPinPermitted(number: string, a: Action)
    ensures a in TestService().GetAllowedActions(CardDetails(number, Credit, Blocked, true)) <==>
              a in Catalog() && a != "ACTION6" && a != "ACTION7"
  {
    var card := CardDetails(number, Credit, Blocked, true);
    assert Credit in TestTypeRules() && TestTypeRules()[Credit] == [];
    assert Blocked in TestStatusRules() && TestStatusRules()[Blocked] == ["ACTION6", "ACTION7"];
    assert (true, Blocked) in TestPinRules() && TestPinRules()[(true, Blocked)] == ["ACTION6", "ACTION7"];
    var rules := RuleTables(TestTypeRules(), TestStatusRules(), TestPinRules());
    assert TestService().strategies == CreateStrategies(rules);
    FactoryBlocked(rules, card, a);
  }

  /** Flipping only the PIN flag changes the PIN strategy's answer: ACTION6 without a PIN, ACTION7 with one. */
  lemma PinFlipOrdered()
    ensures PinStrategy(TestPinRules()).GetBlockedActions(TestCard()) == ["ACTION6"]
    ensures PinStrategy(TestPinRules()).GetBlockedActions(TestCard().(isPinSet := true)) == ["ACTION7"]
  {
  }

  /** `"Credit": []`: the type strategy is applicable to a credit card and blocks nothing. */
  lemma CreditBlocksNothing(card: CardDetails)
    requires card.cardType == Credit
    ensures CardTypeStrategy(TestTypeRules()).IsApplicable(card)
    ensures CardTypeStrategy(TestTypeRules()).GetBlockedActions(card) == []
  {
  }

  /** A string outside the catalog: "ACTION99" is `$"ACTION{99}"`, which no catalog entry equals. */
  lemma Action99NotInCatalog()
    ensures "ACTION99" == ActionName(99)
    ensures "ACTION99" !in Catalog()
  {
    assert NatToString(99) == NatToString(9) + [DigitChar(9)];
    assert ActionName(99) == "ACTION99";
    if "ACTION99" in Catalog() {
      var i :| 0 <= i < 13 && Catalog()[i] == "ACTION99";
      assert ActionName(i + 1) == ActionName(99);
      PrefixCancel("ACTION", NatToString(i + 1), NatToString(99));
      NatToStringInjective(i + 1, 99);
    }
  }

  /** Blocking "ACTION99" as well for prepaid cards leaves the test card's permitted list as it was. */
  lemma Action99HasNoEffect()
    ensures AllowedActionsService(CreateStrategies(RuleTables(TestTypeRules()[Prepaid := ["ACTION5", "ACTION99"]],
                                                              TestStatusRules(), TestPinRules())))
              .GetAllowedActions(TestCard()) ==
            TestService().GetAllowedActions(TestCard())
  {
    var rules := RuleTables(TestTypeRules(), TestStatusRules(), TestPinRules());
    var rules' := rules.(cardTypeRules := TestTypeRules()[Prepaid := ["ACTION5", "ACTION99"]]);
    Action99NotInCatalog();
    forall a | a in Catalog()
      ensures a in BlockedActions(CreateStrategies(rules), TestCard()) <==> a in BlockedActions(CreateStrategies(rules'), TestCard())
    {
      FactoryBlocked(rules, TestCard(), a);
      FactoryBlocked(rules', TestCard(), a);
    }
    OnlyCatalogBlocksMatter(AllowedActionsService(CreateStrategies(rules')), TestService(), TestCard());
  }

  /**
   * A raw PIN section showing the three flattening rules: a bucket named
   * "withPin" (not exactly "WithPin") counts as "no PIN", so it collides
   * with "NoPin" and, visited later, wins; an unknown status name is dropped.
   */
  function OverwriteBuckets(): seq<PinBucket>
  {
    [("NoPin", [("Blocked", ["ACTION1"]), ("Suspended", ["ACTION3"])]),
     ("withPin", [("Blocked", ["ACTION2"])])]
  }

  lemma OverwriteExample()
    ensures PinTable(OverwriteBuckets()) == map[(false, Blocked) := ["ACTION2"]]
  {
    var bs := OverwriteBuckets();
    var e0 := PinEntry(false, "Blocked", ["ACTION1"]);
    var e1 := PinEntry(false, "Suspended", ["ACTION3"]);
    var e2 := PinEntry(false, "Blocked", ["ACTION2"]);
    assert "withPin" != WithPin by { assert "withPin"[0] != WithPin[0]; }
    assert bs[..1][..0] == [];
    assert Entries(bs[..1]) == [e0, e1];
    assert bs[..|bs| - 1] == bs[..1];
    var es := Entries(bs);
    assert es == [e0, e1, e2];
    assert es[..1] == [e0] && es[..2] == [e0, e1];
    assert Flatten([e0]) == map[(false, Blocked) := ["ACTION1"]] by {
      assert [e0][..0] == [];
    }
    assert ParseStatus("Suspended") == None;
    assert Flatten(es[..2]) == Step(Flatten([e0]), e1) by { assert es[..2][..1] == [e0]; }
    assert Flatten(es) == Step(Flatten(es[..2]), e2);
  }

  /** The first user's cards from the provider test. */
  lemma SampleStoreFirstUser(provider: InMemoryCardProvider)
    requires HoldsUsers(provider.userCards, 3)
    ensures provider.GetCardDetails("User1", "Card11") == Some(CardDetails("Card11", Prepaid, Ordered, false))
    ensures provider.GetCardDetails("User1", "Card14") == Some(CardDetails("Card14", Prepaid, Restricted, true))
    ensures provider.GetCardDetails("User1", "Card18") == Some(CardDetails("Card18", Debit, Ordered, true))
  {
    assert UserId(1) == "User1";
    assert CardNumber(1, 1) == "Card11" && CardNumber(1, 4) == "Card14" && CardNumber(1, 8) == "Card18";
    provider.SampleAt(1, 1);
    provider.SampleAt(1, 4);
    provider.SampleAt(1, 8);
  }

  /** Two-digit card positions of the other users: Card219 is credit/blocked, Card317 credit/active. */
  lemma SampleStoreOtherUsers(provider: InMemoryCardProvider)
    requires HoldsUsers(provider.userCards, 3)
    ensures provider.GetCardDetails("User2", "Card219") == Some(CardDetails("Card219", Credit, Blocked, false))
    ensures provider.GetCardDetails("User3", "Card317") == Some(CardDetails("Card317", Credit, Active, false))
  {
    assert NatToString(19) == NatToString(1) + [DigitChar(9)];
    assert NatToString(17) == NatToString(1) + [DigitChar(7)];
    assert UserId(2) == "User2" && UserId(3) == "User3";
    assert CardNumber(2, 19) == "Card219" && CardNumber(3, 17) == "Card317";
    provider.SampleAt(2, 19);
    provider.SampleAt(3, 17);
  }

  /** An unknown user gets nothing, whatever the card number. */
  lemma SampleStoreUnknownUser(provider: InMemoryCardProvider, cardNumber: string)
    requires HoldsUsers(provider.userCards, 3)
    ensures provider.GetCardDetails("FakeUser", cardNumber) == None
  {
    provider.SampleLookup("FakeUser", cardNumber);
    forall i | 1 <= i <= 3 ensures "FakeUser" != UserId(i) {
      assert UserId(i)[0] == 'U';
    }
  }
}
