/**
 * `InMemoryCardProvider`: a fixed table of sample cards, built once by nested
 * loops and then only read, and the nested lookup of `GetCardDetails`.
 */
module CardStore {
  import opened Wrappers
  import opened Text
  import opened Models

  /** `$"User{i}"`. */
  function UserId(i: nat): string
  {
    "User" + NatToString(i)
  }

  /** `$"Card{i}{k}"`: user number followed by card index. */
  function CardNumber(i: nat, k: nat): string
  {
    "Card" + NatToString(i) + NatToString(k)
  }

  /** The k-th sample card of user i (k from 1 to 21), in closed form. */
  function SampleCard(i: nat, k: nat): (c: CardDetails)
    requires 1 <= k <= 21
    ensures c.cardNumber == CardNumber(i, k)
    ensures TypeOrdinal(c.cardType) == (k - 1) / 7
    ensures StatusOrdinal(c.cardStatus) == (k - 1) % 7
    ensures c.isPinSet <==> k % 2 == 0
  {
    CardDetails(CardNumber(i, k), AllCardTypes()[(k - 1) / 7], AllCardStatuses()[(k - 1) % 7], k % 2 == 0)
  }

  /** `cards` holds exactly the first `n` sample cards of user `i`. */
  ghost predicate HoldsCards(i: nat, cards: map<string, CardDetails>, n: nat)
    requires n <= 21
  {
    && cards.Keys == (set k | 1 <= k <= n :: CardNumber(i, k))
    && forall k :: 1 <= k <= n ==> cards[CardNumber(i, k)] == SampleCard(i, k)
  }

  /** `userCards` holds exactly users 1 to `n`, each with their 21 sample cards. */
  ghost predicate HoldsUsers(userCards: map<string, map<string, CardDetails>>, n: nat)
  {
    && userCards.Keys == (set u | 1 <= u <= n :: UserId(u))
    && forall u :: 1 <= u <= n ==> HoldsCards(u, userCards[UserId(u)], 21)
  }

  lemma UserIdInjective(u: nat, v: nat)
    requires UserId(u) == UserId(v)
    ensures u == v
  {
    PrefixCancel("User", NatToString(u), NatToString(v));
    NatToStringInjective(u, v);
  }

  lemma CardNumberInjective(i: nat, k: nat, l: nat)
    requires CardNumber(i, k) == CardNumber(i, l)
    ensures k == l
  {
    assert CardNumber(i, k) == ("Card" + NatToString(i)) + NatToString(k);
    assert CardNumber(i, l) == ("Card" + NatToString(i)) + NatToString(l);
    PrefixCancel("Card" + NatToString(i), NatToString(k), NatToString(l));
    NatToStringInjective(k, l);
  }

  /** Adding the next card keeps `HoldsCards`; its number is new, so `Dictionary.Add` does not throw. */
  lemma AddNextCard(i: nat, cards: map<string, CardDetails>, n: nat)
    requires n < 21 && HoldsCards(i, cards, n)
    ensures CardNumber(i, n + 1) !in cards
    ensures HoldsCards(i, cards[CardNumber(i, n + 1) := SampleCard(i, n + 1)], n + 1)
  {
    if CardNumber(i, n + 1) in cards {
      var k :| 1 <= k <= n && CardNumber(i, k) == CardNumber(i, n + 1);
      CardNumberInjective(i, k, n + 1);
    }
  }

  /** Adding the next user keeps `HoldsUsers`; the id is new, so `Dictionary.Add` does not throw. */
  lemma AddNextUser(userCards: map<string, map<string, CardDetails>>, n: nat, cards: map<string, CardDetails>)
    requires HoldsUsers(userCards, n) && HoldsCards(n + 1, cards, 21)
    ensures UserId(n + 1) !in userCards
    ensures HoldsUsers(userCards[UserId(n + 1) := cards], n + 1)
  {
    if UserId(n + 1) in userCards {
      var u :| 1 <= u <= n && UserId(u) == UserId(n + 1);
      UserIdInjective(u, n + 1);
    }
  }

  /** The card the loops build for type position t and status position s is the closed-form sample card. */
  lemma NextCardIsSample(i: nat, t: nat, s: nat, cardIndex: nat, card: CardDetails)
    requires t < 3 && s < 7 && cardIndex == 1 + 7 * t + s
    requires card == CardDetails(CardNumber(i, cardIndex), AllCardTypes()[t], AllCardStatuses()[s], cardIndex % 2 == 0)
    ensures card == SampleCard(i, cardIndex)
  {
    assert (cardIndex - 1) / 7 == t && (cardIndex - 1) % 7 == s;
  }

  /** `CreateSampleUserCards`: three users, each with one card per (type, status) pair, in enum order. */
  method CreateSampleUserCards() returns (userCards: map<string, map<string, CardDetails>>)
    ensures HoldsUsers(userCards, 3)
  {
    userCards := map[];
    var i := 1;
    while i <= 3
      invariant 1 <= i <= 4
      invariant HoldsUsers(userCards, i - 1)
    {
      var cards: map<string, CardDetails> := map[];
      var cardIndex := 1;
      var cardTypes := AllCardTypes();
      var t := 0;
      while t < |cardTypes|
        invariant 0 <= t <= 3
        invariant cardIndex == 1 + 7 * t
        invariant HoldsCards(i, cards, cardIndex - 1)
      {
        var cardStatuses := AllCardStatuses();
        var s := 0;
        while s < |cardStatuses|
          invariant 0 <= s <= 7
          invariant cardIndex == 1 + 7 * t + s
          invariant HoldsCards(i, cards, cardIndex - 1)
        {
          var cardNumber := CardNumber(i, cardIndex);
          var card := CardDetails(cardNumber, cardTypes[t], cardStatuses[s], cardIndex % 2 == 0);
          NextCardIsSample(i, t, s, cardIndex, card);
          AddNextCard(i, cards, cardIndex - 1);
          assert cardNumber !in cards;
          cards := cards[cardNumber := card];
          cardIndex := cardIndex + 1;
          s := s + 1;
        }
        t := t + 1;
      }
      var userId := UserId(i);
      AddNextUser(userCards, i - 1, cards);
      assert userId !in userCards;
      userCards := userCards[userId := cards];
      i := i + 1;
    }
  }

  class InMemoryCardProvider {
    /** The read-only card table, `user id -> card number -> card`. */
    const userCards: map<string, map<string, CardDetails>>

    constructor ()
      ensures HoldsUsers(userCards, 3)
    {
      var sample := CreateSampleUserCards();
      userCards := sample;
    }

    /**
     * `GetCardDetails` without the simulated delay: the stored card when the
     * user exists and holds that card number, `None` (the source's `null`)
     * otherwise.
     */
    function GetCardDetails(userId: string, cardNumber: string): (r: Option<CardDetails>)
      ensures r.Some? <==> userId in userCards && cardNumber in userCards[userId]
      ensures r.Some? ==> r.value == userCards[userId][cardNumber]
    {
      if userId in userCards && cardNumber in userCards[userId] then Some(userCards[userId][cardNumber]) else None
    }

    /** The card at position `k` of user `i` is found under that user's id and its own number. */
    lemma SampleAt(i: nat, k: nat)
      requires HoldsUsers(userCards, 3)
      requires 1 <= i <= 3 && 1 <= k <= 21
      ensures GetCardDetails(UserId(i), CardNumber(i, k)) == Some(SampleCard(i, k))
    {
      assert HoldsCards(i, userCards[UserId(i)], 21);
    }

    /**
     * On the sample table, a lookup succeeds exactly for user i in 1..3 and
     * card number `"Card" + i + k` with k in 1..21, and returns that card,
     * whose number is the one asked for.
     */
    lemma SampleLookup(userId: string, cardNumber: string)
      requires HoldsUsers(userCards, 3)
      ensures GetCardDetails(userId, cardNumber).Some? <==>
                exists i, k :: 1 <= i <= 3 && 1 <= k <= 21 && userId == UserId(i) && cardNumber == CardNumber(i, k)
      ensures forall i, k :: 1 <= i <= 3 && 1 <= k <= 21 && userId == UserId(i) && cardNumber == CardNumber(i, k) ==>
                GetCardDetails(userId, cardNumber) == Some(SampleCard(i, k))
      ensures GetCardDetails(userId, cardNumber).Some? ==> GetCardDetails(userId, cardNumber).value.cardNumber == cardNumber
    {
      if GetCardDetails(userId, cardNumber).Some? {
        var i :| 1 <= i <= 3 && userId == UserId(i);
        assert HoldsCards(i, userCards[userId], 21);
        var k :| 1 <= k <= 21 && cardNumber == CardNumber(i, k);
      }
    }
  }
}
