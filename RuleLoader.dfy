/**
 * The rule source: the three tables `LoadRules` returns, and the JSON rule
 * loader. JSON parsing itself is outside the model: a configuration arrives
 * already deserialized, with each section either absent, `null`, or present.
 * The PIN section arrives as ordered pairs, so that the order in which the
 * loader visits its buckets and entries is explicit.
 */
module RuleLoader {
  import opened Wrappers
  import opened Models
  import opened Strategies

  /** The three independent tables of `IRuleLoader.LoadRules`; the action catalog is not one of them. */
  datatype RuleTables = RuleTables(
    cardTypeRules: map<CardType, seq<Action>>,
    cardStatusRules: map<CardStatus, seq<Action>>,
    pinRules: map<(bool, CardStatus), seq<Action>>)

  /** A top-level property of the configuration document. */
  datatype Section<T> = Missing | Null | Present(value: T)

  /** One bucket of the raw PIN section: its name and its (status name, actions) entries, in order. */
  type PinBucket = (string, seq<(string, seq<Action>)>)

  /** The deserialized configuration document. */
  datatype JsonConfig = JsonConfig(
    allActions: Section<seq<Action>>,
    cardTypeRules: Section<map<CardType, seq<Action>>>,
    cardStatusRules: Section<map<CardStatus, seq<Action>>>,
    pinRules: Section<seq<PinBucket>>)

  /** `GetProperty` throws on a missing property; the name says which one was read first and missing. */
  datatype LoadError = MissingSection(name: string)

  /** The only bucket name that means "PIN set". */
  const WithPin: string := "WithPin"

  /** One PIN entry as the flattening loop sees it: the bucket's flag, the status name, the actions. */
  datatype PinEntry = PinEntry(isPinSet: bool, statusName: string, actions: seq<Action>)

  /** The entries of one bucket, in order, each carrying `bucketName == "WithPin"`. */
  function BucketEntries(b: PinBucket): (r: seq<PinEntry>)
    ensures |r| == |b.1|
    ensures forall j :: 0 <= j < |r| ==> r[j] == PinEntry(b.0 == WithPin, b.1[j].0, b.1[j].1)
  {
    seq(|b.1|, j requires 0 <= j < |b.1| => PinEntry(b.0 == WithPin, b.1[j].0, b.1[j].1))
  }

  /** All entries of all buckets, in the order the nested loops visit them. */
  function Entries(bs: seq<PinBucket>): seq<PinEntry>
  {
    if bs == [] then [] else Entries(bs[..|bs| - 1]) + BucketEntries(bs[|bs| - 1])
  }

  /** One iteration of the inner loop: store the actions under the parsed key, or skip the entry. */
  function Step(m: map<(bool, CardStatus), seq<Action>>, e: PinEntry): map<(bool, CardStatus), seq<Action>>
  {
    match ParseStatus(e.statusName)
    case None => m
    case Some(status) => m[(e.isPinSet, status) := e.actions]
  }

  /** What one step does to a key: a matching entry sets it, any other entry leaves it alone. */
  lemma StepAt(m: map<(bool, CardStatus), seq<Action>>, e: PinEntry, k: (bool, CardStatus))
    ensures Matches(e, k) ==> k in Step(m, e) && Step(m, e)[k] == e.actions
    ensures !Matches(e, k) ==> (k in Step(m, e) <==> k in m) && (k in m ==> Step(m, e)[k] == m[k])
  {
  }

  /** The table the loop builds from a sequence of entries, starting from an empty table. */
  function Flatten(es: seq<PinEntry>): map<(bool, CardStatus), seq<Action>>
  {
    if es == [] then map[] else Step(Flatten(es[..|es| - 1]), es[|es| - 1])
  }

  /** The flattened PIN table of a raw PIN section. */
  function PinTable(bs: seq<PinBucket>): map<(bool, CardStatus), seq<Action>>
  {
    Flatten(Entries(bs))
  }

  /** An entry that the loop stores under key `k`. */
  predicate Matches(e: PinEntry, k: (bool, CardStatus))
  {
    e.isPinSet == k.0 && ParseStatus(e.statusName) == Some(k.1)
  }

  /** A key is in the flattened table exactly when some entry parses to it. */
  lemma {:induction false} FlattenKeys(es: seq<PinEntry>, k: (bool, CardStatus))
    ensures k in Flatten(es) <==> exists j :: 0 <= j < |es| && Matches(es[j], k)
  {
    if es != [] {
      var init := es[..|es| - 1];
      FlattenKeys(init, k);
      if exists j :: 0 <= j < |init| && Matches(init[j], k) {
        var j :| 0 <= j < |init| && Matches(init[j], k);
        assert Matches(es[j], k);
      }
      if exists j :: 0 <= j < |es| && Matches(es[j], k) {
        var j :| 0 <= j < |es| && Matches(es[j], k);
        if j < |init| {
          assert Matches(init[j], k);
        }
      }
    }
  }

  /** The value stored under a key is that of the last entry that parses to it, copied unchanged. */
  lemma {:induction false} FlattenLastWins(es: seq<PinEntry>, k: (bool, CardStatus))
    requires k in Flatten(es)
    ensures exists j :: 0 <= j < |es| && Matches(es[j], k) && Flatten(es)[k] == es[j].actions &&
                        forall j' :: j < j' < |es| ==> !Matches(es[j'], k)
  {
    var n := |es| - 1;
    var init := es[..n];
    StepAt(Flatten(init), es[n], k);
    if Matches(es[n], k) {
      assert Flatten(es)[k] == es[n].actions;
    } else {
      FlattenLastWins(init, k);
      var j :| 0 <= j < |init| && Matches(init[j], k) && Flatten(init)[k] == init[j].actions &&
               forall j' :: j < j' < |init| ==> !Matches(init[j'], k);
      LaterEntriesMiss(es, init, j, k);
    }
  }

  /** Helper: an entry of the prefix that no later prefix entry matches, and a non-matching last entry. */
  lemma LaterEntriesMiss(es: seq<PinEntry>, init: seq<PinEntry>, j: nat, k: (bool, CardStatus))
    requires |es| > 0 && init == es[..|es| - 1] && j < |init|
    requires !Matches(es[|es| - 1], k)
    requires forall j' :: j < j' < |init| ==> !Matches(init[j'], k)
    ensures es[j] == init[j]
    ensures forall j' :: j < j' < |es| ==> !Matches(es[j'], k)
  {
    forall j' | j < j' < |es| ensures !Matches(es[j'], k) {
      if j' < |init| { assert es[j'] == init[j']; }
    }
  }

  /** The entry that bucket `i`, entry `j` of a raw PIN section turns into. */
  function EntryAt(bs: seq<PinBucket>, i: nat, j: nat): PinEntry
    requires i < |bs| && j < |bs[i].1|
  {
    PinEntry(bs[i].0 == WithPin, bs[i].1[j].0, bs[i].1[j].1)
  }

  /** The entries of a raw PIN section are exactly its (bucket, entry) pairs. */
  lemma {:induction false} EntriesMembership(bs: seq<PinBucket>, e: PinEntry)
    ensures e in Entries(bs) <==> exists i, j :: 0 <= i < |bs| && 0 <= j < |bs[i].1| && e == EntryAt(bs, i, j)
  {
    if bs != [] {
      var n := |bs| - 1;
      var init := bs[..n];
      EntriesMembership(init, e);
      assert Entries(bs) == Entries(init) + BucketEntries(bs[n]);
      if e in Entries(bs) {
        if e in Entries(init) {
          var i, j :| 0 <= i < |init| && 0 <= j < |init[i].1| && e == EntryAt(init, i, j);
          assert e == EntryAt(bs, i, j);
        } else {
          var j :| 0 <= j < |BucketEntries(bs[n])| && BucketEntries(bs[n])[j] == e;
          assert e == EntryAt(bs, n, j);
        }
      }
      if exists i, j :: 0 <= i < |bs| && 0 <= j < |bs[i].1| && e == EntryAt(bs, i, j) {
        var i, j :| 0 <= i < |bs| && 0 <= j < |bs[i].1| && e == EntryAt(bs, i, j);
        if i < n {
          assert e == EntryAt(init, i, j);
        } else {
          assert BucketEntries(bs[n])[j] == e;
        }
      }
    }
  }

  /**
   * The keys of the PIN table: `(bucketName == "WithPin", status)` for every
   * entry whose status name parses, and nothing else.
   */
  lemma PinTableKeys(bs: seq<PinBucket>, k: (bool, CardStatus))
    ensures k in PinTable(bs) <==>
              exists i, j :: 0 <= i < |bs| && 0 <= j < |bs[i].1| &&
                             (bs[i].0 == WithPin) == k.0 && ParseStatus(bs[i].1[j].0) == Some(k.1)
  {
    var es := Entries(bs);
    FlattenKeys(es, k);
    if k in PinTable(bs) {
      var n :| 0 <= n < |es| && Matches(es[n], k);
      EntriesMembership(bs, es[n]);
      var i, j :| 0 <= i < |bs| && 0 <= j < |bs[i].1| && es[n] == EntryAt(bs, i, j);
    }
    if exists i, j :: 0 <= i < |bs| && 0 <= j < |bs[i].1| &&
                      (bs[i].0 == WithPin) == k.0 && ParseStatus(bs[i].1[j].0) == Some(k.1) {
      var i, j :| 0 <= i < |bs| && 0 <= j < |bs[i].1| &&
                  (bs[i].0 == WithPin) == k.0 && ParseStatus(bs[i].1[j].0) == Some(k.1);
      EntriesMembership(bs, EntryAt(bs, i, j));
      var n :| 0 <= n < |es| && es[n] == EntryAt(bs, i, j);
      assert Matches(es[n], k);
    }
  }

  /** Every stored action list is one of the input lists, unchanged: no deduplication, no filtering. */
  lemma PinTableValues(bs: seq<PinBucket>, k: (bool, CardStatus))
    requires k in PinTable(bs)
    ensures exists i, j :: 0 <= i < |bs| && 0 <= j < |bs[i].1| &&
                           (bs[i].0 == WithPin) == k.0 && ParseStatus(bs[i].1[j].0) == Some(k.1) &&
                           PinTable(bs)[k] == bs[i].1[j].1
  {
    var es := Entries(bs);
    FlattenLastWins(es, k);
    var n :| 0 <= n < |es| && Matches(es[n], k) && Flatten(es)[k] == es[n].actions &&
             forall j' :: n < j' < |es| ==> !Matches(es[j'], k);
    EntriesMembership(bs, es[n]);
    var i, j :| 0 <= i < |bs| && 0 <= j < |bs[i].1| && es[n] == EntryAt(bs, i, j);
  }

  /** `Entries` of a prefix one bucket longer appends that bucket's entries. */
  lemma EntriesSnoc(bs: seq<PinBucket>, i: nat)
    requires i < |bs|
    ensures Entries(bs[..i + 1]) == Entries(bs[..i]) + BucketEntries(bs[i])
  {
    assert bs[..i + 1][..i] == bs[..i];
  }

  /** `Flatten` of a sequence one entry longer takes one more step. */
  lemma FlattenSnoc(es: seq<PinEntry>, e: PinEntry)
    ensures Flatten(es + [e]) == Step(Flatten(es), e)
  {
    assert (es + [e])[..|es|] == es;
  }

  /** Extending the visited entries by the next entry of the current bucket takes one more step. */
  lemma FlattenOneMore(done: seq<PinEntry>, bucket: seq<PinEntry>, j: nat)
    requires j < |bucket|
    ensures Flatten(done + bucket[..j + 1]) == Step(Flatten(done + bucket[..j]), bucket[j])
  {
    assert bucket[..j + 1] == bucket[..j] + [bucket[j]];
    assert done + bucket[..j + 1] == (done + bucket[..j]) + [bucket[j]];
    FlattenSnoc(done + bucket[..j], bucket[j]);
  }

  /** The PIN-bucket flattening loop of `LoadRules`, filling a table in place. */
  method FlattenPinRules(pinRules: seq<PinBucket>) returns (pinConvertedRules: map<(bool, CardStatus), seq<Action>>)
    ensures pinConvertedRules == PinTable(pinRules)
  {
    pinConvertedRules := map[];
    var i := 0;
    while i < |pinRules|
      invariant 0 <= i <= |pinRules|
      invariant pinConvertedRules == Flatten(Entries(pinRules[..i]))
    {
      var (bucketName, statusRules) := pinRules[i];
      var isPinSet := bucketName == WithPin;
      ghost var done := Entries(pinRules[..i]);
      ghost var bucket := BucketEntries(pinRules[i]);
      var j := 0;
      assert done + bucket[..0] == done;
      while j < |statusRules|
        invariant 0 <= j <= |statusRules|
        invariant pinConvertedRules == Flatten(done + bucket[..j])
      {
        var (statusName, actions) := statusRules[j];
        var status := ParseStatus(statusName);
        if status.Some? {
          pinConvertedRules := pinConvertedRules[(isPinSet, status.value) := actions];
        }
        assert bucket[j] == PinEntry(isPinSet, statusName, actions);
        FlattenOneMore(done, bucket, j);
        j := j + 1;
      }
      assert bucket[..j] == bucket;
      EntriesSnoc(pinRules, i);
      i := i + 1;
    }
    assert pinRules[..i] == pinRules;
  }

  /** A section's table, or the empty table when the section is `null`. */
  function OrEmpty<K, V>(s: Section<map<K, V>>): (r: map<K, V>)
    requires !s.Missing?
    ensures s.Null? ==> r == map[]
    ensures s.Present? ==> r == s.value
  {
    if s.Present? then s.value else map[]
  }

  /**
   * What `LoadRules` returns for a configuration: a failure naming the first
   * of the three sections, in reading order, that is missing; otherwise the
   * type and status tables as given (empty for `null`) and the flattened PIN
   * table. The `AllActions` property is never read.
   */
  function LoadedRules(config: JsonConfig): (r: Result<RuleTables, LoadError>)
    ensures r.Failure? <==> config.cardTypeRules.Missing? || config.cardStatusRules.Missing? || config.pinRules.Missing?
    ensures r.Failure? ==> r.error.name in {"CardTypeRules", "CardStatusRules", "PinRules"}
    ensures config.cardTypeRules.Missing? ==> r == Failure(MissingSection("CardTypeRules"))
    ensures !config.cardTypeRules.Missing? && config.cardStatusRules.Missing? ==>
              r == Failure(MissingSection("CardStatusRules"))
    ensures !config.cardTypeRules.Missing? && !config.cardStatusRules.Missing? && config.pinRules.Missing? ==>
              r == Failure(MissingSection("PinRules"))
    ensures r.Success? ==>
              r.value.cardTypeRules == OrEmpty(config.cardTypeRules) &&
              r.value.cardStatusRules == OrEmpty(config.cardStatusRules) &&
              r.value.pinRules == PinTable(if config.pinRules.Present? then config.pinRules.value else [])
  {
    if config.cardTypeRules.Missing? then Failure(MissingSection("CardTypeRules"))
    else if config.cardStatusRules.Missing? then Failure(MissingSection("CardStatusRules"))
    else if config.pinRules.Missing? then Failure(MissingSection("PinRules"))
    else
      var pinRules := if config.pinRules.Present? then config.pinRules.value else [];
      Success(RuleTables(OrEmpty(config.cardTypeRules), OrEmpty(config.cardStatusRules), PinTable(pinRules)))
  }

  /** `JsonRuleLoader.LoadRules`, after deserialization. */
  method LoadRules(config: JsonConfig) returns (r: Result<RuleTables, LoadError>)
    ensures r == LoadedRules(config)
  {
    if config.cardTypeRules.Missing? {
      return Failure(MissingSection("CardTypeRules"));
    }
    var cardTypeRules := OrEmpty(config.cardTypeRules);
    if config.cardStatusRules.Missing? {
      return Failure(MissingSection("CardStatusRules"));
    }
    var cardStatusRules := OrEmpty(config.cardStatusRules);
    if config.pinRules.Missing? {
      return Failure(MissingSection("PinRules"));
    }
    var pinRules := if config.pinRules.Present? then config.pinRules.value else [];
    var pinConvertedRules := FlattenPinRules(pinRules);
    r := Success(RuleTables(cardTypeRules, cardStatusRules, pinConvertedRules));
  }

  /** The loader's result does not depend on the `AllActions` property. */
  lemma CatalogNotLoaded(config: JsonConfig, allActions: Section<seq<Action>>)
    ensures LoadedRules(config.(allActions := allActions)) == LoadedRules(config)
  {
  }
}
