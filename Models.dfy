/**
 * The card model: the two enumerations and the immutable card record.
 * A Dafny datatype is an immutable value with structural equality, which is
 * what a C# positional record gives: no operation of the model can change a card.
 */
module Models {
  import opened Wrappers

  /** The card types, in declaration order (ordinals 0, 1, 2). */
  datatype CardType = Prepaid | Debit | Credit

  /** The card statuses, in declaration order (ordinals 0 to 6). */
  datatype CardStatus = Ordered | Inactive | Active | Restricted | Blocked | Expired | Closed

  /** A card snapshot: exactly the four fields of the record. */
  datatype CardDetails = CardDetails(cardNumber: string, cardType: CardType, cardStatus: CardStatus, isPinSet: bool)

  /** The integer value of a card type, as `(int)cardType` gives it. */
  function TypeOrdinal(t: CardType): (n: nat)
    ensures n < 3
  {
    match t
    case Prepaid => 0
    case Debit => 1
    case Credit => 2
  }

  /** The integer value of a card status, as `(int)cardStatus` gives it. */
  function StatusOrdinal(s: CardStatus): (n: nat)
    ensures n < 7
  {
    match s
    case Ordered => 0
    case Inactive => 1
    case Active => 2
    case Restricted => 3
    case Blocked => 4
    case Expired => 5
    case Closed => 6
  }

  /** The values of `CardType` in the order `Enum.GetValues` yields them. */
  function AllCardTypes(): (r: seq<CardType>)
    ensures |r| == 3
    ensures forall n :: 0 <= n < |r| ==> TypeOrdinal(r[n]) == n
    ensures forall t: CardType :: r[TypeOrdinal(t)] == t
  {
    [Prepaid, Debit, Credit]
  }

  /** The values of `CardStatus` in the order `Enum.GetValues` yields them. */
  function AllCardStatuses(): (r: seq<CardStatus>)
    ensures |r| == 7
    ensures forall n :: 0 <= n < |r| ==> StatusOrdinal(r[n]) == n
    ensures forall s: CardStatus :: r[StatusOrdinal(s)] == s
  {
    [Ordered, Inactive, Active, Restricted, Blocked, Expired, Closed]
  }

  /** The declared name of a status, the text configuration keys are compared with. */
  function StatusName(s: CardStatus): string
  {
    match s
    case Ordered => "Ordered"
    case Inactive => "Inactive"
    case Active => "Active"
    case Restricted => "Restricted"
    case Blocked => "Blocked"
    case Expired => "Expired"
    case Closed => "Closed"
  }

  /**
   * `Enum.TryParse<CardStatus>`, restricted to exact matches of the seven
   * declared names: `Some(status)` on a match, `None` otherwise.
   */
  function ParseStatus(name: string): (r: Option<CardStatus>)
    ensures r.Some? ==> StatusName(r.value) == name
  {
    if name == "Ordered" then Some(Ordered)
    else if name == "Inactive" then Some(Inactive)
    else if name == "Active" then Some(Active)
    else if name == "Restricted" then Some(Restricted)
    else if name == "Blocked" then Some(Blocked)
    else if name == "Expired" then Some(Expired)
    else if name == "Closed" then Some(Closed)
    else None
  }

  /** A name parses to a status exactly when it is that status's declared name. */
  lemma ParseStatusExact(name: string, s: CardStatus)
    ensures ParseStatus(name) == Some(s) <==> name == StatusName(s)
  {
  }

  /** A name parses at all exactly when it is one of the seven declared names. */
  lemma ParseStatusNone(name: string)
    ensures ParseStatus(name).None? <==> forall s: CardStatus :: name != StatusName(s)
  {
    if ParseStatus(name).None? {
      forall s: CardStatus ensures name != StatusName(s) {
        ParseStatusExact(name, s);
      }
    }
  }
}
