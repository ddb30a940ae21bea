/**
 * The cards of the Solitaire app: suits, ranks and their values, the ordered
 * 52-card deck and its Fisher-Yates shuffle, the placement rules for
 * foundations and tableau columns, and the triangular deal.
 */
module Cards {
  import opened Strings

  datatype Suit = Spades | Hearts | Diamonds | Clubs
  datatype Rank = Ace | Two | Three | Four | Five | Six | Seven | Eight | Nine | Ten | Jack | Queen | King
  datatype Color = Red | Black

  /** A card as the app builds it: its colour and id are derived from the suit
      and rank. */
  datatype Card = Card(suit: Suit, rank: Rank, color: Color, id: string)

  /** The order in which `createDeck` walks the suits and the ranks. */
  const Suits: seq<Suit> := [Spades, Hearts, Diamonds, Clubs]
  const Ranks: seq<Rank> := [Ace, Two, Three, Four, Five, Six, Seven, Eight, Nine, Ten, Jack, Queen, King]

  function SuitSymbol(suit: Suit): string {
    match suit
    case Spades => "♠"
    case Hearts => "♥"
    case Diamonds => "♦"
    case Clubs => "♣"
  }

  function RankText(rank: Rank): string {
    match rank
    case Ace => "A"
    case Two => "2"
    case Three => "3"
    case Four => "4"
    case Five => "5"
    case Six => "6"
    case Seven => "7"
    case Eight => "8"
    case Nine => "9"
    case Ten => "10"
    case Jack => "J"
    case Queen => "Q"
    case King => "K"
  }

  /** The card `createDeck` pushes for a suit and a rank: red exactly for hearts
      and diamonds, with id the suit symbol followed by the rank. */
  function MakeCard(suit: Suit, rank: Rank): (c: Card)
    ensures c.suit == suit && c.rank == rank
    ensures c.color == Red <==> (suit == Hearts || suit == Diamonds)
    ensures c.id == SuitSymbol(suit) + RankText(rank)
  {
    Card(suit, rank, if suit == Hearts || suit == Diamonds then Red else Black, SuitSymbol(suit) + RankText(rank))
  }

  /** `getRankValue`: the court cards and the ace by name, the others by
      `parseInt` of their text. */
  function RankValue(rank: Rank): nat {
    match rank
    case Ace => 1
    case Jack => 11
    case Queen => 12
    case King => 13
    case _ => DigitsValue(RankText(rank))
  }

  /** The rank map: the value of a rank is its position in the rank order, one
      based, so the ranks run A=1 through K=13 without gaps. */
  lemma RankValues()
    ensures forall i :: 0 <= i < |Ranks| ==> RankValue(Ranks[i]) == i + 1
  {
    assert DigitsValue("10") == 10 by {
      assert "10"[..1] == "1";
    }
  }

  function SuitIndex(suit: Suit): (i: nat)
    ensures i < |Suits| && Suits[i] == suit
  {
    match suit
    case Spades => 0
    case Hearts => 1
    case Diamonds => 2
    case Clubs => 3
  }

  function RankIndex(rank: Rank): (i: nat)
    ensures i < |Ranks| && Ranks[i] == rank
  {
    match rank
    case Ace => 0
    case Two => 1
    case Three => 2
    case Four => 3
    case Five => 4
    case Six => 5
    case Seven => 6
    case Eight => 7
    case Nine => 8
    case Ten => 9
    case Jack => 10
    case Queen => 11
    case King => 12
  }

  /** The deck before shuffling: suit by suit, each suit in rank order. */
  function OrderedDeck(): seq<Card> {
    seq(52, k requires 0 <= k < 52 => MakeCard(Suits[k / 13], Ranks[k % 13]))
  }

  /** The 52 cards are pairwise distinct, and every suit and rank has its card. */
  lemma DeckIsEveryCardOnce(suit: Suit, rank: Rank)
    ensures forall i, j :: 0 <= i < j < 52 ==> OrderedDeck()[i] != OrderedDeck()[j]
    ensures MakeCard(suit, rank) in OrderedDeck()
  {
    var deck := OrderedDeck();
    forall i, j | 0 <= i < j < 52
      ensures deck[i] != deck[j]
    {
      if i / 13 == j / 13 {
        assert i == 13 * (i / 13) + i % 13 && j == 13 * (j / 13) + j % 13;
        RanksDistinct(i % 13, j % 13);
      } else {
        SuitsDistinct(i / 13, j / 13);
      }
    }
    var k := 13 * SuitIndex(suit) + RankIndex(rank);
    assert k / 13 == SuitIndex(suit) && k % 13 == RankIndex(rank);
    assert deck[k] == MakeCard(suit, rank);
  }

  lemma SuitsDistinct(i: nat, j: nat)
    requires i < |Suits| && j < |Suits| && i != j
    ensures Suits[i] != Suits[j]
  {
  }

  lemma RanksDistinct(i: nat, j: nat)
    requires i < |Ranks| && j < |Ranks| && i != j
    ensures Ranks[i] != Ranks[j]
  {
  }

  /** The two nested `forEach` loops of `createDeck`, before the shuffle. */
  method NewDeck() returns (newDeck: seq<Card>)
    ensures newDeck == OrderedDeck()
  {
    newDeck := [];
    for s := 0 to |Suits|
      invariant newDeck == OrderedDeck()[..13 * s]
    {
      for r := 0 to |Ranks|
        invariant newDeck == OrderedDeck()[..13 * s + r]
      {
        DeckAt(s, r);
        newDeck := newDeck + [MakeCard(Suits[s], Ranks[r])];
      }
    }
  }

  lemma DeckAt(s: nat, r: nat)
    requires s < |Suits| && r < |Ranks|
    ensures OrderedDeck()[..13 * s + r + 1] == OrderedDeck()[..13 * s + r] + [MakeCard(Suits[s], Ranks[r])]
  {
    var k := 13 * s + r;
    var deck := OrderedDeck();
    DivThirteen(s, r);
    assert deck[k] == MakeCard(Suits[s], Ranks[r]);
    SliceExtends(deck, 0, k);
  }

  /** Position `13 * s + r` of the deck is suit `s`, rank `r`. */
  lemma DivThirteen(s: nat, r: nat)
    requires s < 4 && r < 13
    ensures (13 * s + r) / 13 == s && (13 * s + r) % 13 == r
  {
    if s == 0 {
    } else if s == 1 {
    } else if s == 2 {
    } else {
    }
  }

  /** `Math.floor(Math.random() * (i + 1))` for a draw in [0, 1): an index in [0, i]. */
  lemma FloorIndex(draw: real, i: nat)
    requires 0.0 <= draw < 1.0
    ensures 0 <= (draw * (i + 1) as real).Floor <= i
  {
    var x := draw * (i + 1) as real;
    assert x < (i + 1) as real;
    assert 0.0 <= x;
    assert x.Floor as real <= x;
  }

  function SwapIndex(draw: real, i: nat): (j: nat)
    requires 0.0 <= draw < 1.0
    ensures j <= i
  {
    FloorIndex(draw, i);
    (draw * (i + 1) as real).Floor
  }

  /** `[shuffled[i], shuffled[j]] = [shuffled[j], shuffled[i]]`. */
  method Swap(a: array<Card>, i: nat, j: nat)
    requires i < a.Length && j < a.Length
    modifies a
    ensures a[..] == old(a[..])[i := old(a[j])][j := old(a[i])]
    ensures multiset(a[..]) == multiset(old(a[..]))
  {
    a[i], a[j] := a[j], a[i];
  }

  /** `shuffleDeck`: Fisher-Yates on a copy of the deck, from the last index down
      to 1, each swap partner drawn from `random` in turn. */
  method ShuffleDeck(deck: seq<Card>, random: seq<real>) returns (shuffled: seq<Card>)
    requires |random| + 1 >= |deck|
    requires forall k :: 0 <= k < |random| ==> 0.0 <= random[k] < 1.0
    ensures |shuffled| == |deck| && multiset(shuffled) == multiset(deck)
  {
    var a := new Card[|deck|](k requires 0 <= k < |deck| => deck[k]);
    assert a[..] == deck;
    var i := |deck| - 1;
    var draw := 0;
    while i > 0
      invariant -1 <= i < |deck| && draw + i + 1 == |deck|
      invariant a.Length == |deck| && multiset(a[..]) == multiset(deck)
    {
      var j := SwapIndex(random[draw], i);
      Swap(a, i, j);
      i := i - 1;
      draw := draw + 1;
    }
    shuffled := a[..];
  }

  /** `createDeck`: every one of the 52 cards exactly once, in shuffled order. */
  method CreateDeck(random: seq<real>) returns (deck: seq<Card>)
    requires |random| >= 51
    requires forall k :: 0 <= k < |random| ==> 0.0 <= random[k] < 1.0
    ensures |deck| == 52 && multiset(deck) == multiset(OrderedDeck())
  {
    var newDeck := NewDeck();
    deck := ShuffleDeck(newDeck, random);
  }

  // ----------------------------------------------------------- placement

  /** `canPlaceOnFoundation`: an ace on an empty pile, otherwise the next rank
      of the top card's suit; so an ace goes only on an empty pile and nothing
      goes on a king. */
  predicate CanPlaceOnFoundation(card: Card, foundation: seq<Card>)
    ensures CanPlaceOnFoundation(card, foundation) ==> (card.rank == Ace <==> |foundation| == 0)
    ensures |foundation| > 0 && foundation[|foundation| - 1].rank == King ==> !CanPlaceOnFoundation(card, foundation)
  {
    RankValuePlace(card.rank);
    if |foundation| == 0 then card.rank == Ace
    else
      RankValuePlace(foundation[|foundation| - 1].rank);
      (card.suit == foundation[|foundation| - 1].suit
        && RankValue(card.rank) == RankValue(foundation[|foundation| - 1].rank) + 1)
  }

  /** `canPlaceOnTableau`: a king on an empty column, otherwise the rank below
      the top card in the other colour; so a king goes only on an empty column
      and nothing goes on an ace. */
  predicate CanPlaceOnTableau(card: Card, column: seq<Card>)
    ensures CanPlaceOnTableau(card, column) ==> (card.rank == King <==> |column| == 0)
    ensures |column| > 0 && column[|column| - 1].rank == Ace ==> !CanPlaceOnTableau(card, column)
  {
    RankValuePlace(card.rank);
    if |column| == 0 then card.rank == King
    else
      RankValuePlace(column[|column| - 1].rank);
      (card.color != column[|column| - 1].color
        && RankValue(card.rank) == RankValue(column[|column| - 1].rank) - 1)
  }

  /** A foundation built by legal placements: one suit, ace upward. */
  predicate FoundationBuilt(foundation: seq<Card>) {
    forall i :: 0 <= i < |foundation| ==>
      foundation[i].suit == foundation[0].suit && RankValue(foundation[i].rank) == i + 1
  }

  /** A rank's value is its one-based place in the rank order, so it lies
      between 1 and 13 and gives the rank back. */
  lemma RankValuePlace(rank: Rank)
    ensures 1 <= RankValue(rank) <= |Ranks| && Ranks[RankValue(rank) - 1] == rank
  {
    RankValues();
    assert RankValue(Ranks[RankIndex(rank)]) == RankIndex(rank) + 1;
  }

  /** A legal placement keeps a foundation one suit in ascending order, so a
      foundation never holds more than the 13 cards of its suit. */
  lemma FoundationStaysBuilt(card: Card, foundation: seq<Card>)
    requires FoundationBuilt(foundation) && CanPlaceOnFoundation(card, foundation)
    ensures FoundationBuilt(foundation + [card])
    ensures |foundation + [card]| <= 13
  {
    RankValues();
    RankValuePlace(card.rank);
    var f := foundation + [card];
    if |foundation| > 0 {
      assert f[0] == foundation[0];
    }
  }

  /** A column in which each card is one rank below the card under it, in the
      other colour. */
  predicate AlternatingRun(column: seq<Card>) {
    forall i :: 0 < i < |column| ==>
      column[i].color != column[i - 1].color && RankValue(column[i].rank) + 1 == RankValue(column[i - 1].rank)
  }

  /** Legal placements extend a run, and a column started on an empty pile starts
      with a king. */
  lemma RunStaysAlternating(card: Card, column: seq<Card>)
    requires AlternatingRun(column) && CanPlaceOnTableau(card, column)
    ensures AlternatingRun(column + [card])
    ensures (column + [card])[0].rank == King || column != []
  {
    var extended := column + [card];
    forall i | 0 < i < |extended|
      ensures extended[i].color != extended[i - 1].color
      ensures RankValue(extended[i].rank) + 1 == RankValue(extended[i - 1].rank)
    {
      if i < |column| {
        assert extended[i] == column[i] && extended[i - 1] == column[i - 1];
      } else {
        assert extended[i] == card && extended[i - 1] == column[|column| - 1];
      }
    }
  }

  // ----------------------------------------------------------------- deal

  /** The number of cards dealt to the first `c` columns: 0, 1, 3, 6, ... */
  function Dealt(c: nat): nat {
    if c == 0 then 0 else Dealt(c - 1) + c
  }

  /** The columns dealt in order, column `c` taking the next `c + 1` cards. */
  function DealtColumns(deck: seq<Card>, n: nat): (columns: seq<seq<Card>>)
    requires Dealt(n) <= |deck|
    ensures |columns| == n
  {
    if n == 0 then [] else DealtColumns(deck, n - 1) + [deck[Dealt(n - 1)..Dealt(n)]]
  }

  lemma DealtBound(c: nat)
    requires c <= 7
    ensures Dealt(c) <= 28 && Dealt(7) == 28
  {
    if c > 0 {
      DealtBound(c - 1);
    }
  }

  /** The deal loop of `newGame`: column `col` gets `col + 1` cards, pushed in deck
      order; what is left is the stock. */
  method Deal(deck: seq<Card>) returns (tableau: seq<seq<Card>>, stock: seq<Card>)
    requires |deck| >= 28
    ensures tableau == DealtColumns(deck, 7)
    ensures stock == deck[28..]
  {
    DealtBound(7);
    tableau := [[], [], [], [], [], [], []];
    var deckIndex := 0;
    for col := 0 to 7
      invariant |tableau| == 7 && deckIndex == Dealt(col)
      invariant tableau[..col] == DealtColumns(deck, col)
      invariant forall c :: col <= c < 7 ==> tableau[c] == []
    {
      DealtBound(col + 1);
      for row := 0 to col + 1
        invariant |tableau| == 7 && deckIndex == Dealt(col) + row
        invariant tableau[..col] == DealtColumns(deck, col)
        invariant tableau[col] == deck[Dealt(col)..deckIndex]
        invariant forall c :: col < c < 7 ==> tableau[c] == []
      {
        assert Dealt(col + 1) == Dealt(col) + col + 1;
        SliceExtends(deck, Dealt(col), deckIndex);
        PushKeepsOthers(tableau, col, deck[deckIndex]);
        tableau := tableau[col := tableau[col] + [deck[deckIndex]]];
        deckIndex := deckIndex + 1;
      }
      assert tableau[..col + 1] == tableau[..col] + [tableau[col]];
      assert DealtColumns(deck, col + 1) == DealtColumns(deck, col) + [deck[Dealt(col)..Dealt(col + 1)]];
    }
    stock := deck[deckIndex..];
  }

  lemma SliceExtends(deck: seq<Card>, from: nat, to: nat)
    requires from <= to < |deck|
    ensures deck[from..to + 1] == deck[from..to] + [deck[to]]
  {
  }

  /** Pushing onto column `col` leaves the columns before and after it alone. */
  lemma PushKeepsOthers(tableau: seq<seq<Card>>, col: nat, card: Card)
    requires col < |tableau|
    ensures tableau[col := tableau[col] + [card]][..col] == tableau[..col]
    ensures forall c :: 0 <= c < |tableau| && c != col ==> tableau[col := tableau[col] + [card]][c] == tableau[c]
  {
    var t := tableau[col := tableau[col] + [card]];
    assert forall c :: 0 <= c < col ==> t[..col][c] == tableau[..col][c];
  }

  /** The piles of a list of piles, one after the other. */
  function Flatten(piles: seq<seq<Card>>): seq<Card> {
    if |piles| == 0 then [] else Flatten(piles[..|piles| - 1]) + piles[|piles| - 1]
  }

  /** The deal partitions the deck: the columns read in order, then the stock,
      are the deck, so column `c` holds `c + 1` cards and the stock 24. */
  lemma {:induction false} DealPartitions(deck: seq<Card>, n: nat)
    requires Dealt(n) <= |deck|
    ensures Flatten(DealtColumns(deck, n)) == deck[..Dealt(n)]
    ensures forall c :: 0 <= c < n ==> |DealtColumns(deck, n)[c]| == c + 1
  {
    if n > 0 {
      DealPartitions(deck, n - 1);
      var columns := DealtColumns(deck, n);
      assert columns[..n - 1] == DealtColumns(deck, n - 1);
      assert deck[..Dealt(n)] == deck[..Dealt(n - 1)] + deck[Dealt(n - 1)..Dealt(n)];
      forall c | 0 <= c < n
        ensures |columns[c]| == c + 1
      {
        if c < n - 1 {
          assert columns[c] == DealtColumns(deck, n - 1)[c];
        }
      }
    }
  }

  /** So a deal from a full deck uses each card once. */
  lemma DealUsesEveryCard(deck: seq<Card>)
    requires |deck| == 52
    ensures Flatten(DealtColumns(deck, 7)) + deck[28..] == deck
    ensures |deck[28..]| == 24
  {
    DealPartitions(deck, 7);
    DealtBound(7);
    assert deck[..28] + deck[28..] == deck;
  }
}
