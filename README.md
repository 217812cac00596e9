# Card-action rule engine

A Dafny model of the rule engine in CardActionMicroservice. The engine decides which actions from a fixed catalog (`ACTION1` … `ACTION13`) a payment card may perform.

Three rule strategies each look up the card in one read-only table:
- the card-type strategy uses the card type;
- the card-status strategy uses the card status;
- the PIN strategy uses the pair (PIN set?, status).

A strategy is *applicable* when the card's key is in its table. The engine removes from the catalog every action that some applicable strategy blocks.

The model also covers:
- how the three tables are built from the deserialized configuration, including the loop that flattens the nested PIN section into a table keyed by (bool, status);
- the factory that wraps the three tables as strategies;
- the in-memory sample card store, with its generating loops and its lookup.

Modules, one per part of the program:

| module | models |
|---|---|
| `Wrappers` | `Option` (a C# `null` result) and `Result` (an exception that ends the operation) |
| `Text` | decimal rendering of naturals, used by the interpolated strings `$"ACTION{i}"`, `$"Card{i}{k}"` and `$"User{i}"` |
| `Models` | the `CardType` and `CardStatus` enums, the `CardDetails` record, enum ordinals and declaration order, and parsing a status name |
| `Strategies` | the `IActionStrategy` capability, as a closed datatype with one variant per strategy class |
| `RuleLoader` | `JsonRuleLoader.LoadRules` on an already-deserialized configuration; the PIN flattening loop is an imperative method proved against a specification function |
| `StrategiesFactory` | `BusinessStrategiesFactory.CreateStrategies` |
| `AllowedActions` | `AllowedActionsService`: the strategy-list form of the service, and the loader-based constructor as load, then factory, then service |
| `ServiceRegistration` | the older `LoadRulesFromConfig` duplicate of the loader, and the order in which the strategies are registered |
| `CardStore` | `InMemoryCardProvider`: the sample-data loops as a method, the closed form of the data they build, and the lookup |
| `Scenarios` | the worked configuration and cards of the unit tests, as lemmas about the model |

The JSON document is the input `JsonConfig`. Each top-level section is either `Missing`, `Null` (the JSON literal `null`) or `Present`. The PIN section is a sequence of buckets in document order, and each bucket holds a sequence of (status name, actions) pairs. These sequences stand for deserialized dictionaries, so the bucket names are meant to be distinct, and so are the status names within one bucket. The model does not require this: with a repeated name the entries are simply visited in sequence order. Writing these as ordered sequences makes the iteration order, and so which entry overwrites which, explicit.

## Model

| member | source | states |
|---|---|---|
| Models.TypeOrdinal | AllCode.cs:534-539 | the three card types have ordinals below 3 |
| Models.StatusOrdinal | CardActionMicroservice/Models/Enums/CardStatus.cs:3-12 | the seven statuses have ordinals below 7 |
| Models.AllCardTypes | AllCode.cs:534-539 | there are exactly three card types; position n in enumeration order holds the type whose ordinal is n (Prepaid=0, Debit=1, Credit=2), and every type appears |
| Models.AllCardStatuses | CardActionMicroservice/Models/Enums/CardStatus.cs:5-11 | there are exactly seven statuses, enumerated in declaration order (Ordered=0 … Closed=6), and every status appears |
| Models.ParseStatus | CardActionMicroservice/Infrastructure/JsonRuleLoader.cs:36 | a successful parse returns the status whose name is the given string |
| Models.ParseStatusExact | CardActionMicroservice/Models/Enums/CardStatus.cs:5-11 | in both directions: a name parses to s exactly when it is s's declared name |
| Models.ParseStatusNone | CardActionMicroservice/Infrastructure/JsonRuleLoader.cs:36 | in both directions: parsing fails exactly when the string is none of the seven names |
| Strategies.SameKeySameAnswers | CardActionMicroservice/Business/Strategies/IActionStrategy.cs:7-8 | both operations of a strategy depend only on the key the strategy derives from the card |
| Strategies.IgnoresCardNumber | CardActionMicroservice/Models/CardDetails.cs:6 | no strategy reads the card number: applicability and the blocked list are unchanged when only the number changes |
| Strategies.CardTypeStrategyAnswers | CardActionMicroservice/Business/Strategies/CardTypeStrategy.cs:15-21 | applicable exactly when the card type is a key of the table; the blocked list is then exactly the stored list; status, PIN and number are ignored |
| Strategies.CardStatusStrategyAnswers | CardActionMicroservice/Business/Strategies/CardStatusStrategy.cs:15-19 | applicable exactly when the status is a key; the blocked list is then exactly the stored list; type, PIN and number are ignored |
| Strategies.PinStrategyAnswers | CardActionMicroservice/Business/Strategies/PinStrategy.cs:15-21 | applicable exactly when (PIN set, status) is a key; the blocked list is then exactly the stored list; the card type is ignored |
| RuleLoader.BucketEntries | CardActionMicroservice/Infrastructure/JsonRuleLoader.cs:33-34 | one entry per (status name, actions) pair of the bucket, in order, flagged true exactly when the bucket is named "WithPin" |
| RuleLoader.StepAt | CardActionMicroservice/Infrastructure/JsonRuleLoader.cs:36-39 | one iteration of the inner loop: a parseable entry sets its key to its list, and every other key keeps its value; an unparseable entry changes nothing |
| RuleLoader.FlattenKeys | CardActionMicroservice/Infrastructure/JsonRuleLoader.cs:31-40 | in both directions: a key is in the flattened table exactly when some entry's flag and parsed status make that key |
| RuleLoader.FlattenLastWins | CardActionMicroservice/Infrastructure/JsonRuleLoader.cs:38 | a present key holds the list of the last entry that makes the key, unchanged; no later entry makes it |
| RuleLoader.EntriesMembership | CardActionMicroservice/Infrastructure/JsonRuleLoader.cs:31-34 | in both directions: the entries visited are exactly the (bucket, position) pairs of the input |
| RuleLoader.PinTableKeys | CardActionMicroservice/Infrastructure/JsonRuleLoader.cs:31-40 | in both directions: key (b, s) is in the table exactly when some bucket whose "is named WithPin" equals b holds a name that parses to s |
| RuleLoader.PinTableValues | CardActionMicroservice/Infrastructure/JsonRuleLoader.cs:38 | a stored value is one of the input lists, copied whole, taken from an entry that makes its key |
| RuleLoader.FlattenPinRules | CardActionMicroservice/Infrastructure/JsonRuleLoader.cs:30-41 | the nested loop builds exactly the flattened PIN table of the buckets |
| RuleLoader.OrEmpty | CardActionMicroservice/Infrastructure/JsonRuleLoader.cs:21-28 | a section present as null gives the empty table; a present section gives its own table |
| RuleLoader.LoadedRules | CardActionMicroservice/Infrastructure/JsonRuleLoader.cs:15-44 | in both directions: loading fails exactly when one of the three rule sections is missing, and then names the first missing one in reading order (type, status, PIN); otherwise it returns the type and status tables (empty when null) and the flattened PIN table |
| RuleLoader.LoadRules | CardActionMicroservice/Infrastructure/JsonRuleLoader.cs:15-44 | the statement-by-statement loader returns the result `LoadedRules` specifies |
| RuleLoader.CatalogNotLoaded | CardActionMicroservice/Infrastructure/IRuleLoader.cs:7-8 | the loaded tables do not depend on the `AllActions` section |
| StrategiesFactory.CreateStrategies | CardActionMicroservice/Business/Strategies/BusinessStrategiesFactory.cs:13-22 | exactly three strategies, in the order type, status, PIN, each holding the matching table of the one loaded result |
| AllowedActions.CatalogLiteral | CardActionMicroservice/Business/Services/AllowedActionsService.cs:30 | the catalog is the literal list "ACTION1" … "ACTION13" |
| AllowedActions.CatalogDistinct | CardActionMicroservice/Business/Services/AllowedActionsService.cs:30 | the thirteen catalog names are pairwise distinct |
| AllowedActions.Except | CardActionMicroservice/Business/Services/AllowedActionsService.cs:31 | for every string: it is in the result exactly when it is in the first list and not excluded; the result has no duplicates and is no longer than the first list |
| AllowedActions.ExceptKeepsDistinct | CardActionMicroservice/Business/Services/AllowedActionsService.cs:31 | a duplicate-free list with nothing excluded comes back unchanged, in its own order |
| AllowedActions.ExceptOnlyReadsElements | CardActionMicroservice/Business/Services/AllowedActionsService.cs:31 | the result depends only on which elements of the first list are excluded |
| AllowedActions.BlockedActions | CardActionMicroservice/Business/Services/AllowedActionsService.cs:25-28 | in both directions: a string is blocked exactly when some applicable strategy's list contains it; no other strategy is asked for its list |
| AllowedActions.AllowedActionsService.GetAllowedActions | CardActionMicroservice/Business/Services/AllowedActionsService.cs:23-31 | in both directions: a is permitted exactly when a is in ACTION1..ACTION13 and no applicable strategy blocks it; no duplicates; at most 13 actions |
| AllowedActions.PermittedIffNotBlocked | CardActionMicroservice/Business/Services/AllowedActionsService.cs:25-31 | in both directions: a catalog action is permitted exactly when it is not in the concatenated blocked lists |
| AllowedActions.NewFromRuleLoader | CardActionMicroservice/Business/Services/AllowedActionsService.cs:11-14 | the loader-based constructor fails exactly when loading fails, with the same error; otherwise the service holds the factory's three strategies for the loaded tables |
| AllowedActions.FailOpen | CardActionMicroservice/Business/Services/AllowedActionsService.cs:26-31 | with no applicable strategy the result is the whole catalog, in catalog order |
| AllowedActions.OnlyCatalogBlocksMatter | CardActionMicroservice/Business/Services/AllowedActionsService.cs:31 | two services that block the same catalog actions give the same result, whatever else they block |
| AllowedActions.Monotonic | CardActionMicroservice/Business/Services/AllowedActionsService.cs:25-31 | strategies that block at least as much give a result contained in the original one |
| AllowedActions.FactoryBlocked | CardActionMicroservice/Business/Strategies/BusinessStrategiesFactory.cs:17-22 | in both directions: through the factory, an action is blocked exactly when the type table, the status table or the PIN table blocks it for the card's key |
| AllowedActions.NotApplicableIsTransparent | CardActionMicroservice/Business/Services/AllowedActionsService.cs:26 | removing a strategy that is not applicable to the card leaves the result unchanged |
| AllowedActions.PermittedIgnoresCardNumber | CardActionMicroservice/Models/CardDetails.cs:6 | two cards that differ only in their number get the same permitted list |
| ServiceRegistration.RegisteredStrategies | CardActionMicroservice/Extensions/ServiceCellectionExtensions.cs:15-17 | the registered strategies are one of each, in the order type, status, PIN, the same list the factory builds |
| ServiceRegistration.LoadRulesFromConfig | CardActionMicroservice/Extensions/ServiceCellectionExtensions.cs:24-52 | the older loader (the same section checks, and a flattening loop textually identical to the live one, modelled by reusing `FlattenPinRules`) returns exactly what `JsonRuleLoader.LoadRules` does |
| CardStore.SampleCard | CardActionMicroservice/DataProviders/InMemoryProvider.cs:40-46 | card k of user i is numbered "Card{i}{k}", has type ordinal (k-1)/7 and status ordinal (k-1)%7, and has a PIN exactly when k is even |
| CardStore.UserIdInjective | CardActionMicroservice/DataProviders/InMemoryProvider.cs:50-51 | different users get different ids, so `userCards.Add` never throws |
| CardStore.CardNumberInjective | CardActionMicroservice/DataProviders/InMemoryProvider.cs:40-41 | different positions of one user give different card numbers, so `cards.Add` never throws |
| CardStore.AddNextCard | CardActionMicroservice/DataProviders/InMemoryProvider.cs:40-47 | after n cards, the next card's number is not yet a key, and adding it gives the first n+1 sample cards |
| CardStore.AddNextUser | CardActionMicroservice/DataProviders/InMemoryProvider.cs:50-51 | after n users, the next user's id is not yet a key, and adding that user's 21 cards gives the first n+1 users |
| CardStore.NextCardIsSample | CardActionMicroservice/DataProviders/InMemoryProvider.cs:36-47 | the (type, status) pair that the nested loops are at when the counter is cardIndex is the closed-form sample card cardIndex |
| CardStore.CreateSampleUserCards | CardActionMicroservice/DataProviders/InMemoryProvider.cs:29-54 | the three nested loops build exactly: users User1..User3, each holding the 21 cards Card{i}1..Card{i}21 of the closed form |
| CardStore.InMemoryCardProvider.constructor | CardActionMicroservice/DataProviders/InMemoryProvider.cs:10-13 | the table is built once, in the constructor, and holds exactly the sample users and cards |
| CardStore.InMemoryCardProvider.GetCardDetails | CardActionMicroservice/DataProviders/InMemoryProvider.cs:15-27 | in both directions: a card is returned exactly when the user exists and has that card number, and it is the stored card; otherwise nothing |
| CardStore.InMemoryCardProvider.SampleAt | CardActionMicroservice/DataProviders/InMemoryProvider.cs:20-23 | looking up user i's id and card k's number returns the closed-form card |
| CardStore.InMemoryCardProvider.SampleLookup | CardActionMicroservice/DataProviders/InMemoryProvider.cs:15-27 | in both directions: the sample store answers exactly for user ids User1..User3 with card numbers Card{i}1..Card{i}21; the answer is the closed-form card, and its number is the queried number |
| Scenarios.TestRulesLoaded | CardActionMicroservice.Tests/Business/Services/AllowedActionsServiceTests.cs:46-87 | the test configuration loads to its type and status tables and a five-entry PIN table |
| Scenarios.TestServiceFromLoader | CardActionMicroservice.Tests/Business/Services/AllowedActionsServiceTests.cs:19-23 | building the service from the test configuration succeeds and gives the expected three strategies |
| Scenarios.TestCardBlocked | CardActionMicroservice.Tests/Business/Services/AllowedActionsServiceTests.cs:25-37 | a Prepaid, Ordered card with no PIN is blocked exactly ACTION1, ACTION2, ACTION5 and ACTION6 |
| Scenarios.TestCardPermitted | CardActionMicroservice.Tests/Business/Services/AllowedActionsServiceTests.cs:25-41 | in both directions: that card is permitted exactly ACTION3, ACTION4 and ACTION7 … ACTION13 (compared as sets) |
| Scenarios.CreditBlockedWithPinPermitted | CardActionMicroservice.Tests/Business/Services/AllowedActionsServiceTests.cs:62-85 | under the test configuration, a Credit, Blocked card with a PIN is permitted the whole catalog except ACTION6 and ACTION7 |
| Scenarios.PinFlipOrdered | CardActionMicroservice.Tests/Business/Services/AllowedActionsServiceTests.cs:77-84 | for an Ordered card, changing only the PIN flag changes the PIN strategy's list from ACTION6 to ACTION7 |
| Scenarios.CreditBlocksNothing | CardActionMicroservice.Tests/Business/Services/AllowedActionsServiceTests.cs:65 | `"Credit": []`: the type strategy is applicable to every credit card and blocks nothing |
| Scenarios.Action99NotInCatalog | CardActionMicroservice/Business/Services/AllowedActionsService.cs:30 | "ACTION99" is not a catalog name |
| Scenarios.Action99HasNoEffect | CardActionMicroservice/Business/Services/AllowedActionsService.cs:31 | also blocking "ACTION99" for prepaid cards leaves the test card's result unchanged |
| Scenarios.OverwriteExample | CardActionMicroservice/Infrastructure/JsonRuleLoader.cs:33-38 | a bucket named "withPin" counts as no PIN, collides with "NoPin", and wins because it comes later; an unknown status name is dropped |
| Scenarios.SampleStoreFirstUser | CardActionMicroservice.Tests/DataProvider/InMemoryProviderTests.cs:20-22 | User1's Card11, Card14 and Card18 are Prepaid/Ordered/no PIN, Prepaid/Restricted/PIN and Debit/Ordered/PIN |
| Scenarios.SampleStoreOtherUsers | CardActionMicroservice.Tests/DataProvider/InMemoryProviderTests.cs:23-24 | User2's Card219 is Credit/Blocked (status ordinal 4) with no PIN; User3's Card317 is Credit/Active (ordinal 2) with no PIN |
| Scenarios.SampleStoreUnknownUser | CardActionMicroservice.Tests/DataProvider/InMemoryProviderTests.cs:40-46 | an unknown user such as "FakeUser" gets no card, whatever the card number |

AllCode.cs is a concatenated snapshot of the program. Some parts of it are the same code as the files cited above, so the members above model them too:
- the strategy-list service at AllCode.cs:65-86 (`GetAllowedActions`);
- the flattening loop at AllCode.cs:473-484 (`FlattenPinRules`);
- the sample store at AllCode.cs:353-378 (`CreateSampleUserCards`);
- the test scenario at AllCode.cs:687-703 (`TestCardPermitted`).

In the provider test (CardActionMicroservice.Tests/DataProvider/InMemoryProviderTests.cs:23-24), the comments on two rows name the wrong statuses. The integers in those rows are right:
- Card219 has status 4, which is Blocked; the comment says Expired.
- Card317 has status 2, which is Active; the comment says Inactive.

The model follows the code and the integers.

Two behaviours that the configuration file might suggest otherwise; the model follows the code:
- The catalog is the literal ACTION1..ACTION13 in `AllowedActionsService.cs:30`. The `AllActions` configuration section is never read.
- A missing rule section makes loading fail. A section present as null gives an empty table.

## Left out

- JSON deserialization (`JsonSerializer.Deserialize`, `GetProperty`, enum-key conversion): library code. The model starts from the deserialized sections. A section whose JSON has the wrong shape is not modelled.
- Models.ParseStatus: `Enum.TryParse<CardStatus>(name, out status)` is the case-sensitive overload, and the model matches the seven names exactly, case included. Three .NET parsing forms are modelled as failures: numeric strings ("3", "99"), surrounding whitespace, and comma-separated flag lists.
- The enums are closed in the model. In C# a `CardType` or `CardStatus` can hold an undefined integer, and `"99"` parses to one; the model has no such values.
- Null buckets in the PIN section: the model has no null bucket. In the source, a null bucket makes the inner `foreach` throw.
- AllowedActions.AllowedActionsService.GetAllowedActions: null action lists are not modelled in any section (for example `"Prepaid": null`). The loader stores such a list as is. For a card whose key maps to it, the source's `SelectMany` (AllowedActionsService.cs:27) throws. The model's engine is total because its types exclude null.
- `Dictionary` enumeration order: the PIN section is an explicit sequence in document order. .NET does not promise that order for a deserialized dictionary.
- The lazy LINQ pipeline: the result is modelled as an eager sequence in catalog order. The `Distinct` before `Except` is not modelled, because `Except` builds its own set and so the result does not change.
- `Task.Delay` and `async` in `GetCardDetails`: timing only, with no logic. Both `ICardProvider` interfaces are signatures only.
- ServiceRegistration.LoadRulesFromConfig: the file read (`File.ReadAllText`, ServiceCellectionExtensions.cs:27) and its exceptions are not modelled. The model starts from the deserialized sections.
- HTTP controller, `Program.cs` and the DI container: framework plumbing. Only the registration order of the strategies is stated.
- `CardDetailsValidator` and `CardRequestValidator`: declarative rules of a validation library that is not part of this model.
- Repeated calls give the same answer, and the tables are never written after construction: these hold in the model because everything is immutable. No separate lemma states them.
- `LoadRules` being called once per factory call: the factory is modelled as a function of one loaded result.
