/** The card domain and the record shapes the contract returns. */
module Types {
  import opened Outcomes

  /** The fourteen card values: thirteen ranks and the joker. */
  datatype Card =
    | ACE | TWO | THREE | FOUR | FIVE | SIX | SEVEN
    | EIGHT | NINE | TEN | JACK | QUEEN | KING | JOKER

  /** The fixed card order; a card's index here is its sort key. */
  const CardOptions: seq<Card> :=
    [ACE, TWO, THREE, FOUR, FIVE, SIX, SEVEN, EIGHT, NINE, TEN, JACK, QUEEN, KING, JOKER]

  /** The string literal that stands for `c` on the wire. */
  function CardName(c: Card): string {
    match c
    case ACE => "ACE"
    case TWO => "TWO"
    case THREE => "THREE"
    case FOUR => "FOUR"
    case FIVE => "FIVE"
    case SIX => "SIX"
    case SEVEN => "SEVEN"
    case EIGHT => "EIGHT"
    case NINE => "NINE"
    case TEN => "TEN"
    case JACK => "JACK"
    case QUEEN => "QUEEN"
    case KING => "KING"
    case JOKER => "JOKER"
  }

  /** `CARD_OPTIONS.indexOf(c)`. */
  function Rank(c: Card): (i: nat)
    ensures i < |CardOptions| && CardOptions[i] == c
  {
    match c
    case ACE => 0
    case TWO => 1
    case THREE => 2
    case FOUR => 3
    case FIVE => 4
    case SIX => 5
    case SEVEN => 6
    case EIGHT => 7
    case NINE => 8
    case TEN => 9
    case JACK => 10
    case QUEEN => 11
    case KING => 12
    case JOKER => 13
  }

  /** The wire names of all cards, in `CardOptions` order: fourteen distinct
      strings, each of which parses back to the card at its position. */
  function CardNames(): (names: seq<string>)
    ensures |names| == |CardOptions|
    ensures forall i :: 0 <= i < |CardOptions| ==> names[i] == CardName(CardOptions[i])
    ensures forall i :: 0 <= i < |names| ==> ParseCard(names[i]) == Some(CardOptions[i])
    ensures forall i, j :: 0 <= i < j < |names| ==> names[i] != names[j]
  {
    NamesParseBack();
    seq(|CardOptions|, i requires 0 <= i < |CardOptions| => CardName(CardOptions[i]))
  }

  /** Every entry of `CardOptions` is named by a string that parses back to
      it, so distinct entries have distinct names. */
  lemma NamesParseBack()
    ensures forall i :: 0 <= i < |CardOptions| ==> ParseCard(CardName(CardOptions[i])) == Some(CardOptions[i])
    ensures forall i, j :: 0 <= i < j < |CardOptions| ==> CardName(CardOptions[i]) != CardName(CardOptions[j])
  {
    CardOptionsAreTheCards();
    forall i | 0 <= i < |CardOptions| ensures ParseCard(CardName(CardOptions[i])) == Some(CardOptions[i]) {
      ParseCardName(CardOptions[i]);
    }
  }

  /** The card a string names, if it is one of the fourteen literals. */
  function ParseCard(s: string): (r: Option<Card>)
    ensures r.Some? ==> CardName(r.value) == s
  {
    if s == "ACE" then Some(ACE)
    else if s == "TWO" then Some(TWO)
    else if s == "THREE" then Some(THREE)
    else if s == "FOUR" then Some(FOUR)
    else if s == "FIVE" then Some(FIVE)
    else if s == "SIX" then Some(SIX)
    else if s == "SEVEN" then Some(SEVEN)
    else if s == "EIGHT" then Some(EIGHT)
    else if s == "NINE" then Some(NINE)
    else if s == "TEN" then Some(TEN)
    else if s == "JACK" then Some(JACK)
    else if s == "QUEEN" then Some(QUEEN)
    else if s == "KING" then Some(KING)
    else if s == "JOKER" then Some(JOKER)
    else None
  }

  /** `CardOptions` holds exactly the fourteen cards, each once, in the order
      ACE, TWO, …, KING, JOKER, and its index is `Rank`. */
  lemma CardOptionsAreTheCards()
    ensures |CardOptions| == 14
    ensures forall c: Card :: c in CardOptions
    ensures forall i :: 0 <= i < |CardOptions| ==> Rank(CardOptions[i]) == i
    ensures forall i, j :: 0 <= i < j < |CardOptions| ==> CardOptions[i] != CardOptions[j]
    ensures CardOptions[0] == ACE && CardOptions[12] == KING && CardOptions[13] == JOKER
  {
    forall c: Card ensures c in CardOptions {
      assert CardOptions[Rank(c)] == c;
    }
    forall i, j | 0 <= i < j < |CardOptions| ensures CardOptions[i] != CardOptions[j] {
      assert Rank(CardOptions[i]) == i;
    }
  }

  /** Every card's name is parsed back to that card. */
  lemma ParseCardName(c: Card)
    ensures ParseCard(CardName(c)) == Some(c)
  {
    match c
    case ACE =>
    case TWO =>
    case THREE =>
    case FOUR =>
    case FIVE =>
    case SIX =>
    case SEVEN =>
    case EIGHT =>
    case NINE =>
    case TEN =>
    case JACK =>
    case QUEEN =>
    case KING =>
    case JOKER =>
  }

  /** A string is accepted as a card exactly when it is one of the names in
      `CardOptions`, and the names and cards correspond one to one. */
  lemma CardNamesAreTheUnion(s: string)
    ensures ParseCard(s).Some? <==> s in CardNames()
    ensures forall c: Card :: ParseCard(CardName(c)) == Some(c)
  {
    var names := CardNames();
    if s in names {
      var i :| 0 <= i < |names| && names[i] == s;
      ParseCardName(CardOptions[i]);
    }
    if ParseCard(s).Some? {
      var c := ParseCard(s).value;
      assert names[Rank(c)] == s;
    }
    forall c: Card ensures ParseCard(CardName(c)) == Some(c) {
      ParseCardName(c);
    }
  }

  /** How many copies of `c` the sequence holds (`s.filter(x => x === c).length`). */
  function Count(s: seq<Card>, c: Card): nat {
    multiset(s)[c]
  }

  datatype User = User(userId: string, bio: string, balance: real, cards: seq<Card>)

  datatype Stake = Stake(userId: string, cards: seq<Card>)

  datatype Hand = Hand(handId: string, creator: string, claimedCard: Card, isResolved: bool, stakes: seq<Stake>)

  /** An offer; `currentBid` and `currentBidderId` are each optional. */
  datatype Offer = Offer(
    creatorId: string,
    cards: seq<Card>,
    initialPrice: real,
    currentBid: Option<real>,
    currentBidderId: Option<string>,
    isResolved: bool)

  /** The record shape does not tie the bid fields to each other or to
      `isResolved`: every combination is a well-formed offer. */
  lemma OfferBidFieldsAreIndependent(bid: Option<real>, bidder: Option<string>, resolved: bool)
    ensures exists o: Offer :: o.currentBid == bid && o.currentBidderId == bidder && o.isResolved == resolved
  {
    var o := Offer("", [], 1.0, bid, bidder, resolved);
    assert o.currentBid == bid && o.currentBidderId == bidder && o.isResolved == resolved;
  }
}
