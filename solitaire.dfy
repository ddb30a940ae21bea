/**
 * The Klondike game state of the Solitaire app and its handlers: new game,
 * drawing from the stock, card clicks, moves and win detection.
 *
 * Each handler reads the state of the render it runs in and updates it through
 * React state setters, which take effect together before the next event; a
 * handler is therefore one atomic method here. The piles a handler may name
 * are those the board renders: the waste, tableau columns 0-6 and foundations
 * 0-3.
 */
module Solitaire {
  import opened Wrappers
  import opened Cards

  /** The piles a click names (`'waste'`, `` `tableau${i}` ``, `` `foundation${i}` ``). */
  datatype Pile = WastePile | TableauPile(column: nat) | FoundationPile(index: nat)

  predicate ValidPile(p: Pile) {
    match p
    case WastePile => true
    case TableauPile(c) => c < 7
    case FoundationPile(f) => f < 4
  }

  /** `selectedCard`, and the `{ pile, index }` a click passes. */
  datatype Selection = Selection(pile: Pile, index: nat)

  /** The cards of a game: four foundations, seven tableau columns, the waste and
      the stock, each pile listed bottom to top. */
  datatype Layout = Layout(foundations: seq<seq<Card>>, tableau: seq<seq<Card>>, waste: seq<Card>, stock: seq<Card>)

  predicate WellShaped(l: Layout) {
    |l.foundations| == 4 && |l.tableau| == 7
  }

  /** The cards of pile `p`. */
  function PileCards(l: Layout, p: Pile): seq<Card>
    requires WellShaped(l) && ValidPile(p)
  {
    match p
    case WastePile => l.waste
    case TableauPile(c) => l.tableau[c]
    case FoundationPile(f) => l.foundations[f]
  }

  /** Every card of the layout. */
  function AllCards(l: Layout): seq<Card> {
    Flatten(l.foundations) + Flatten(l.tableau) + l.waste + l.stock
  }

  /** The thirteen piles in one list: foundations, tableau, waste, stock. */
  function Piles(l: Layout): seq<seq<Card>> {
    l.foundations + l.tableau + [l.waste, l.stock]
  }

  /** Where pile `p` sits in `Piles`. */
  function PileIndex(p: Pile): nat
    requires ValidPile(p)
  {
    match p
    case FoundationPile(f) => f
    case TableauPile(c) => 4 + c
    case WastePile => 11
  }

  /** The cards of a list of piles, counted with multiplicity. */
  function PilesContents(piles: seq<seq<Card>>): multiset<Card> {
    if |piles| == 0 then multiset{} else PilesContents(piles[..|piles| - 1]) + multiset(piles[|piles| - 1])
  }

  /** The cards of the layout, counted with multiplicity. */
  function Contents(l: Layout): multiset<Card> {
    PilesContents(Piles(l))
  }

  lemma {:induction false} PilesContentsConcat(a: seq<seq<Card>>, b: seq<seq<Card>>)
    ensures PilesContents(a + b) == PilesContents(a) + PilesContents(b)
  {
    if |b| > 0 {
      var n := |b| - 1;
      assert (a + b)[..|a + b| - 1] == a + b[..n];
      PilesContentsConcat(a, b[..n]);
    } else {
      assert a + b == a;
    }
  }

  /** The contents, pile group by pile group. */
  lemma ContentsByGroup(l: Layout)
    ensures Contents(l)
      == PilesContents(l.foundations) + PilesContents(l.tableau) + multiset(l.waste) + multiset(l.stock)
  {
    var ends := [l.waste, l.stock];
    PilesContentsConcat(l.foundations + l.tableau, ends);
    PilesContentsConcat(l.foundations, l.tableau);
    assert PilesContents(ends) == multiset(l.waste) + multiset(l.stock) by {
      assert ends[..1] == [l.waste] && ends[1] == l.stock;
      assert PilesContents(ends) == PilesContents([l.waste]) + multiset(l.stock);
      assert [l.waste][..0] == [];
      assert PilesContents([l.waste]) == PilesContents([]) + multiset(l.waste);
    }
  }

  lemma {:induction false} PilesContentsFlatten(piles: seq<seq<Card>>)
    ensures PilesContents(piles) == multiset(Flatten(piles))
  {
    if |piles| > 0 {
      PilesContentsFlatten(piles[..|piles| - 1]);
    }
  }

  /** The contents are the cards of every pile. */
  lemma ContentsAreAllCards(l: Layout)
    ensures Contents(l) == multiset(AllCards(l))
  {
    ContentsByGroup(l);
    PilesContentsFlatten(l.foundations);
    PilesContentsFlatten(l.tableau);
  }

  /** The layout holds each of the 52 cards exactly once. */
  predicate Conserved(l: Layout) {
    Contents(l) == multiset(OrderedDeck())
  }

  function DropLast(s: seq<Card>): seq<Card> {
    if |s| == 0 then [] else s[..|s| - 1]
  }

  // ---------------------------------------------------------------- moves

  /** The card a move takes from its source: the top card of the waste or of a
      tableau column, and only when the selection names that top card. */
  function SourceCard(l: Layout, from: Selection): (r: Option<Card>)
    requires WellShaped(l) && ValidPile(from.pile)
    ensures r.Some? <==> !from.pile.FoundationPile? && from.index + 1 == |PileCards(l, from.pile)|
    ensures r.Some? ==> r.value == PileCards(l, from.pile)[|PileCards(l, from.pile)| - 1]
  {
    match from.pile
    case WastePile => if from.index + 1 == |l.waste| then Some(l.waste[from.index]) else None
    case TableauPile(c) => if from.index + 1 == |l.tableau[c]| then Some(l.tableau[c][from.index]) else None
    case FoundationPile(_) => None
  }

  /** The layout after putting `card` on top of foundation or tableau pile `to`. */
  function Place(l: Layout, to: Pile, card: Card): (r: Layout)
    requires WellShaped(l) && ValidPile(to)
    ensures WellShaped(r)
  {
    match to
    case FoundationPile(f) => l.(foundations := l.foundations[f := l.foundations[f] + [card]])
    case TableauPile(t) => l.(tableau := l.tableau[t := l.tableau[t] + [card]])
    case WastePile => l
  }

  /** The layout after taking the top card off the source pile. */
  function RemoveSource(l: Layout, from: Pile): (r: Layout)
    requires WellShaped(l) && ValidPile(from)
    ensures WellShaped(r)
  {
    match from
    case WastePile => l.(waste := DropLast(l.waste))
    case TableauPile(c) => l.(tableau := l.tableau[c := DropLast(l.tableau[c])])
    case FoundationPile(_) => l
  }

  /** Whether `card` may go onto pile `to`. */
  predicate Accepts(l: Layout, to: Pile, card: Card)
    requires WellShaped(l) && ValidPile(to)
  {
    match to
    case FoundationPile(f) => CanPlaceOnFoundation(card, l.foundations[f])
    case TableauPile(t) => CanPlaceOnTableau(card, l.tableau[t])
    case WastePile => false
  }

  /** `moveCard(from, to)`: the new layout and whether the move was made (and
      counted). The source card is placed on the destination and then removed
      from its source; an illegal move, a missing source card, or a destination
      that is neither a foundation nor a tableau column changes nothing. */
  function Move(l: Layout, from: Selection, to: Selection): (r: (Layout, bool))
    requires WellShaped(l) && ValidPile(from.pile) && ValidPile(to.pile)
    ensures WellShaped(r.0)
  {
    var card := SourceCard(l, from);
    if card.None? || !Accepts(l, to.pile, card.value) then (l, false)
    else (RemoveSource(Place(l, to.pile, card.value), from.pile), true)
  }

  /** The top card of a column never goes back onto that column: it is not one
      rank below itself. */
  lemma TopNotPlaceableOnOwnColumn(column: seq<Card>)
    requires |column| > 0
    ensures !CanPlaceOnTableau(column[|column| - 1], column)
  {
  }

  /** A move takes the top card of a tableau column or the waste, never a card
      from the pile it is placed on. */
  lemma SourceIsNotDestination(l: Layout, from: Selection, to: Selection)
    requires WellShaped(l) && ValidPile(from.pile) && ValidPile(to.pile)
    requires SourceCard(l, from).Some? && Accepts(l, to.pile, SourceCard(l, from).value)
    ensures from.pile != to.pile
  {
    match to.pile
    case TableauPile(t) =>
      if |l.tableau[t]| > 0 {
        TopNotPlaceableOnOwnColumn(l.tableau[t]);
      }
    case FoundationPile(_) =>
  }

  /** A made move puts the source's top card on top of the destination, takes it
      off the source and leaves every other pile and the stock alone; a move not
      made leaves the layout alone. A move is made exactly when the selection
      names the top card of a waste or tableau pile and the destination accepts
      it. */
  lemma MoveEffect(l: Layout, from: Selection, to: Selection, other: Pile)
    requires WellShaped(l) && ValidPile(from.pile) && ValidPile(to.pile) && ValidPile(other)
    ensures var (l', moved) := Move(l, from, to);
      && (moved <==> SourceCard(l, from).Some? && Accepts(l, to.pile, SourceCard(l, from).value))
      && (!moved ==> l' == l)
      && (moved ==>
            && |PileCards(l, from.pile)| > 0
            && PileCards(l', to.pile) == PileCards(l, to.pile) + [PileCards(l, from.pile)[|PileCards(l, from.pile)| - 1]]
            && PileCards(l', from.pile) == PileCards(l, from.pile)[..|PileCards(l, from.pile)| - 1]
            && (other != from.pile && other != to.pile ==> PileCards(l', other) == PileCards(l, other))
            && l'.stock == l.stock)
  {
    var card := SourceCard(l, from);
    if card.Some? && Accepts(l, to.pile, card.value) {
      SourceIsNotDestination(l, from, to);
    }
  }

  /** Putting a card on one pile of a list of piles adds exactly that card. */
  lemma {:induction false} PushCard(piles: seq<seq<Card>>, f: nat, card: Card)
    requires f < |piles|
    ensures PilesContents(piles[f := piles[f] + [card]]) == PilesContents(piles) + multiset{card}
  {
    var n := |piles| - 1;
    var updated := piles[f := piles[f] + [card]];
    if f < n {
      assert updated[..n] == piles[..n][f := piles[..n][f] + [card]];
      assert updated[n] == piles[n];
      PushCard(piles[..n], f, card);
    } else {
      assert updated[..n] == piles[..n];
      assert updated[n] == piles[n] + [card];
    }
  }

  /** Taking the top card off one pile of a list of piles removes exactly that
      card. */
  lemma PopCard(piles: seq<seq<Card>>, f: nat)
    requires f < |piles| && |piles[f]| > 0
    ensures PilesContents(piles[f := DropLast(piles[f])]) + multiset{piles[f][|piles[f]| - 1]}
      == PilesContents(piles)
  {
    var updated := piles[f := DropLast(piles[f])];
    var top := piles[f][|piles[f]| - 1];
    assert DropLast(piles[f]) + [top] == piles[f];
    assert updated[f := updated[f] + [top]] == piles;
    PushCard(updated, f, top);
  }

  /** Placing a card changes one entry of `Piles`. */
  lemma PlacePiles(l: Layout, to: Pile, card: Card)
    requires WellShaped(l) && ValidPile(to) && !to.WastePile?
    ensures PileIndex(to) < |Piles(l)|
    ensures Piles(Place(l, to, card)) == Piles(l)[PileIndex(to) := PileCards(l, to) + [card]]
  {
    var k := PileIndex(to);
    var updated := Piles(l)[k := PileCards(l, to) + [card]];
    assert Piles(Place(l, to, card)) == updated by {
      assert |Piles(Place(l, to, card))| == |updated|;
      forall i | 0 <= i < |updated| ensures Piles(Place(l, to, card))[i] == updated[i] {
      }
    }
  }

  /** Taking a top card changes one entry of `Piles`. */
  lemma RemovePiles(l: Layout, from: Pile)
    requires WellShaped(l) && ValidPile(from) && !from.FoundationPile?
    ensures PileIndex(from) < |Piles(l)| && Piles(l)[PileIndex(from)] == PileCards(l, from)
    ensures Piles(RemoveSource(l, from)) == Piles(l)[PileIndex(from) := DropLast(PileCards(l, from))]
  {
    var k := PileIndex(from);
    var updated := Piles(l)[k := DropLast(PileCards(l, from))];
    assert Piles(RemoveSource(l, from)) == updated by {
      assert |Piles(RemoveSource(l, from))| == |updated|;
      forall i | 0 <= i < |updated| ensures Piles(RemoveSource(l, from))[i] == updated[i] {
      }
    }
  }

  /** Putting a card on a pile adds exactly that card to the layout. */
  lemma PlaceAdds(l: Layout, to: Pile, card: Card)
    requires WellShaped(l) && ValidPile(to) && !to.WastePile?
    ensures Contents(Place(l, to, card)) == Contents(l) + multiset{card}
  {
    PlacePiles(l, to, card);
    assert Piles(l)[PileIndex(to)] == PileCards(l, to);
    PushCard(Piles(l), PileIndex(to), card);
  }

  /** Taking the top card off a non-empty waste or tableau pile removes exactly
      that card from the layout. */
  lemma RemoveTakes(l: Layout, from: Pile)
    requires WellShaped(l) && ValidPile(from) && !from.FoundationPile? && |PileCards(l, from)| > 0
    ensures var pile := PileCards(l, from);
      Contents(RemoveSource(l, from)) + multiset{pile[|pile| - 1]} == Contents(l)
  {
    RemovePiles(l, from);
    PopCard(Piles(l), PileIndex(from));
  }

  /** Placing `card` on one pile and then taking the top card off another adds
      `card` and loses that top card. */
  lemma PlaceThenRemove(l: Layout, to: Pile, card: Card, from: Pile)
    requires WellShaped(l) && ValidPile(to) && ValidPile(from) && !to.WastePile? && !from.FoundationPile?
    requires to != from && |PileCards(l, from)| > 0
    ensures var pile := PileCards(l, from);
      Contents(RemoveSource(Place(l, to, card), from)) + multiset{pile[|pile| - 1]}
        == Contents(l) + multiset{card}
  {
    var placed := Place(l, to, card);
    var pile := PileCards(l, from);
    assert Contents(placed) == Contents(l) + multiset{card} by {
      PlaceAdds(l, to, card);
    }
    assert Contents(RemoveSource(placed, from)) + multiset{pile[|pile| - 1]} == Contents(placed) by {
      assert PileCards(placed, from) == pile;
      RemoveTakes(placed, from);
    }
  }

  /** A move neither creates nor loses a card. */
  lemma MoveConserves(l: Layout, from: Selection, to: Selection)
    requires WellShaped(l) && ValidPile(from.pile) && ValidPile(to.pile)
    ensures Contents(Move(l, from, to).0) == Contents(l)
  {
    var card := SourceCard(l, from);
    if card.Some? && Accepts(l, to.pile, card.value) {
      SourceIsNotDestination(l, from, to);
      assert card.value == PileCards(l, from.pile)[|PileCards(l, from.pile)| - 1];
      PlaceThenRemove(l, to.pile, card.value, from.pile);
      CancelCard(Contents(Move(l, from, to).0), Contents(l), card.value);
    }
  }

  lemma CancelCard(a: multiset<Card>, b: multiset<Card>, card: Card)
    requires a + multiset{card} == b + multiset{card}
    ensures a == b
  {
    forall x ensures a[x] == b[x] {
      assert (a + multiset{card})[x] == (b + multiset{card})[x];
    }
  }

  // -------------------------------------------------------- as written

  /** The source card as `moveCard` reads it: `waste[from.index]` or
      `tableau[i][from.index]`, whatever card that index names now. */
  function SourceCardAsWritten(l: Layout, from: Selection): (r: Option<Card>)
    requires WellShaped(l) && ValidPile(from.pile)
    ensures r.Some? <==> !from.pile.FoundationPile? && from.index < |PileCards(l, from.pile)|
    ensures r.Some? ==> r.value == PileCards(l, from.pile)[from.index]
    ensures SourceCard(l, from).Some? ==> r == SourceCard(l, from)
  {
    match from.pile
    case WastePile => if from.index < |l.waste| then Some(l.waste[from.index]) else None
    case TableauPile(c) => if from.index < |l.tableau[c]| then Some(l.tableau[c][from.index]) else None
    case FoundationPile(_) => None
  }

  /** `moveCard` as written: it places the card the index names but removes the
      top card of the source. */
  function MoveAsWritten(l: Layout, from: Selection, to: Selection): (r: (Layout, bool))
    requires WellShaped(l) && ValidPile(from.pile) && ValidPile(to.pile)
    ensures WellShaped(r.0)
  {
    var card := SourceCardAsWritten(l, from);
    if card.None? || !Accepts(l, to.pile, card.value) then (l, false)
    else (RemoveSource(Place(l, to.pile, card.value), from.pile), true)
  }

  /** As written, a made move from the waste adds the selected card and loses the
      waste's top card: when the selection is not the top, a card is duplicated
      and another lost. */
  lemma MoveAsWrittenFromWaste(l: Layout, index: nat, to: Selection)
    requires WellShaped(l) && ValidPile(to.pile)
    ensures var from := Selection(WastePile, index);
      MoveAsWritten(l, from, to).1 ==>
        Contents(MoveAsWritten(l, from, to).0) + multiset{l.waste[|l.waste| - 1]}
          == Contents(l) + multiset{l.waste[index]}
  {
    var from := Selection(WastePile, index);
    if MoveAsWritten(l, from, to).1 {
      PlaceThenRemove(l, to.pile, l.waste[index], WastePile);
    }
  }

  /** The layouts in which the finding shows: one ace on the waste, another card
      first in the stock, and an empty first foundation. */
  predicate StaleSetup(l: Layout) {
    && WellShaped(l) && l.foundations[0] == [] && |l.waste| == 1 && l.waste[0].rank == Ace
    && |l.stock| > 0 && l.stock[0] != l.waste[0]
  }

  /** Drawing keeps a pending waste selection, so it can name a card below the
      top: select the ace that is the waste's top card, draw, then click the empty
      first foundation. As written the ace is copied onto the foundation and the
      drawn card is lost; the corrected move refuses the stale selection. */
  lemma StaleWasteSelection(l: Layout)
    requires StaleSetup(l)
    ensures var drawn := Draw(l).0;
      var from, to := Selection(WastePile, 0), Selection(FoundationPile(0), 0);
      && SourceCard(l, from) == Some(l.waste[0])
      && drawn.waste == [l.waste[0], l.stock[0]]
      && MoveAsWritten(drawn, from, to).1
      && Contents(MoveAsWritten(drawn, from, to).0) != Contents(drawn)
      && Move(drawn, from, to) == (drawn, false)
  {
    var ace, next := l.waste[0], l.stock[0];
    var drawn := Draw(l).0;
    var from, to := Selection(WastePile, 0), Selection(FoundationPile(0), 0);
    assert drawn.waste == [ace, next];
    assert MoveAsWritten(drawn, from, to).1;
    MoveAsWrittenFromWaste(drawn, 0, to);
    var after := Contents(MoveAsWritten(drawn, from, to).0);
    assert after + multiset{next} == Contents(drawn) + multiset{ace};
    assert (after + multiset{next})[next] == (Contents(drawn) + multiset{ace})[next];
  }

  /** A concrete such layout: the ace of spades on the waste and the two of hearts
      in the stock. */
  lemma StaleSetupExample()
    ensures StaleSetup(Layout([[], [], [], []], [[], [], [], [], [], [], []],
                              [MakeCard(Spades, Ace)], [MakeCard(Hearts, Two)]))
  {
  }

  // ----------------------------------------------------------------- draw

  function Reverse(s: seq<Card>): (r: seq<Card>)
    ensures |r| == |s| && forall k :: 0 <= k < |s| ==> r[k] == s[|s| - 1 - k]
  {
    if |s| == 0 then [] else [s[|s| - 1]] + Reverse(s[..|s| - 1])
  }

  /** `drawFromStock`: the new layout and whether a move was counted. */
  function Draw(l: Layout): (r: (Layout, bool))
    ensures r.1 <==> |l.stock| + |l.waste| > 0
    ensures !r.1 ==> r.0 == l
    ensures |l.stock| > 0 ==> |r.0.waste| > 0 && r.0.waste[|r.0.waste| - 1] == l.stock[0]
    ensures |l.stock| == 0 ==> r.0.waste == [] && |r.0.stock| == |l.waste|
  {
    if |l.stock| > 0 then (l.(waste := l.waste + [l.stock[0]], stock := l.stock[1..]), true)
    else if |l.waste| > 0 then (l.(stock := Reverse(l.waste), waste := []), true)
    else (l, false)
  }

  lemma {:induction false} ReverseMultiset(s: seq<Card>)
    ensures multiset(Reverse(s)) == multiset(s)
  {
    if |s| > 0 {
      var init := s[..|s| - 1];
      ReverseMultiset(init);
      assert Reverse(s) == [s[|s| - 1]] + Reverse(init);
      assert s == init + [s[|s| - 1]];
    }
  }

  /** Drawing moves cards only between the stock and the waste and loses none of
      them; the foundations and the tableau are untouched. */
  lemma DrawMovesStockAndWaste(l: Layout)
    ensures var l' := Draw(l).0;
      && multiset(l'.waste) + multiset(l'.stock) == multiset(l.waste) + multiset(l.stock)
      && |l'.stock| + |l'.waste| == |l.stock| + |l.waste|
      && l'.foundations == l.foundations && l'.tableau == l.tableau
  {
    var l' := Draw(l).0;
    if |l.stock| > 0 {
      assert l.stock == [l.stock[0]] + l.stock[1..];
      assert multiset(l'.waste) == multiset(l.waste) + multiset{l.stock[0]};
      assert multiset(l.stock) == multiset{l.stock[0]} + multiset(l'.stock);
    } else if |l.waste| > 0 {
      ReverseMultiset(l.waste);
    }
  }

  /** Drawing neither creates nor loses a card. */
  lemma DrawConserves(l: Layout)
    ensures Contents(Draw(l).0) == Contents(l)
  {
    var l' := Draw(l).0;
    DrawMovesStockAndWaste(l);
    ContentsByGroup(l);
    ContentsByGroup(l');
    forall x ensures Contents(l')[x] == Contents(l)[x] {
      assert (multiset(l'.waste) + multiset(l'.stock))[x] == (multiset(l.waste) + multiset(l.stock))[x];
    }
  }

  /** The layout after drawing `n` times. */
  function DrawTimes(l: Layout, n: nat): Layout
    decreases n
  {
    if n == 0 then l else DrawTimes(Draw(l).0, n - 1)
  }

  /** Drawing the whole stock one card at a time lays it on the waste in order;
      one more draw turns the waste back into the stock, top card first. */
  lemma {:induction false} DrawWholeStock(l: Layout)
    ensures DrawTimes(l, |l.stock|).waste == l.waste + l.stock
    ensures DrawTimes(l, |l.stock|).stock == []
    ensures |l.waste + l.stock| > 0 ==>
      Draw(DrawTimes(l, |l.stock|)).0.stock == Reverse(l.waste + l.stock)
      && Draw(DrawTimes(l, |l.stock|)).0.waste == []
    decreases |l.stock|
  {
    if |l.stock| > 0 {
      var next := Draw(l).0;
      DrawWholeStock(next);
      assert next.waste + next.stock == l.waste + l.stock by {
        assert l.stock == [l.stock[0]] + l.stock[1..];
      }
    }
  }

  // ----------------------------------------------------------------- win

  function Total(piles: seq<seq<Card>>): nat {
    if |piles| == 0 then 0 else Total(piles[..|piles| - 1]) + |piles[|piles| - 1]|
  }

  lemma {:induction false} FlattenLength(piles: seq<seq<Card>>)
    ensures |Flatten(piles)| == Total(piles)
    ensures Total(piles) == 0 <==> forall k :: 0 <= k < |piles| ==> piles[k] == []
  {
    if |piles| > 0 {
      FlattenLength(piles[..|piles| - 1]);
      assert forall k :: 0 <= k < |piles| - 1 ==> piles[..|piles| - 1][k] == piles[k];
    }
  }

  /** The foundations hold 52 cards exactly when every card is on them: with all
      cards accounted for, the win condition means the stock, the waste and every
      tableau column are empty. */
  lemma WonMeansAllOnFoundations(l: Layout)
    requires Conserved(l)
    ensures Total(l.foundations) == 52 <==>
      l.stock == [] && l.waste == [] && forall k :: 0 <= k < |l.tableau| ==> l.tableau[k] == []
  {
    FlattenLength(l.foundations);
    FlattenLength(l.tableau);
    ContentsAreAllCards(l);
    assert |AllCards(l)| == |Contents(l)| == |multiset(OrderedDeck())| == 52;
  }

  /** The layout a new game deals from `deck`. */
  function DealtLayout(deck: seq<Card>): (l: Layout)
    requires |deck| >= 28
    ensures WellShaped(l)
  {
    Layout([[], [], [], []], DealtColumns(deck, 7), [], deck[28..])
  }

  /** Dealing a full deck lays out every card exactly once, with the foundations
      and the waste empty. */
  lemma DealtConserved(deck: seq<Card>)
    requires |deck| == 52 && multiset(deck) == multiset(OrderedDeck())
    ensures Conserved(DealtLayout(deck))
  {
    var l := DealtLayout(deck);
    DealUsesEveryCard(deck);
    FlattenLength(l.foundations);
    assert AllCards(l) == deck;
    ContentsAreAllCards(l);
  }

  // ---------------------------------------------------------------- class

  /** The component's state: the piles, the pending selection, the move counter
      and the win flag. */
  class Game {
    var foundations: seq<seq<Card>>
    var tableau: seq<seq<Card>>
    var waste: seq<Card>
    var stock: seq<Card>
    var selected: Option<Selection>
    var moves: nat
    var won: bool

    function Board(): Layout
      reads this
    {
      Layout(foundations, tableau, waste, stock)
    }

    /** Four foundations, seven columns, and a selection, when there is one, of a
        waste or tableau pile. */
    predicate Valid()
      reads this
    {
      |foundations| == 4 && |tableau| == 7
      && (selected.Some? ==> ValidPile(selected.value.pile) && !selected.value.pile.FoundationPile?)
    }

    /** The initial `useState` values, before the first deal. */
    constructor()
      ensures Valid()
      ensures foundations == [[], [], [], []] && tableau == [[], [], [], [], [], [], []]
      ensures waste == [] && stock == [] && selected == None && moves == 0 && !won
    {
      foundations := [[], [], [], []];
      tableau := [[], [], [], [], [], [], []];
      waste := [];
      stock := [];
      selected := None;
      moves := 0;
      won := false;
    }

    /** `newGame`: a shuffled deck, dealt 1..7 cards to the columns in deck
        order, the remaining 24 to the stock; everything else reset. */
    method NewGame(random: seq<real>) returns (deck: seq<Card>)
      requires |random| >= 51
      requires forall k :: 0 <= k < |random| ==> 0.0 <= random[k] < 1.0
      modifies this
      ensures |deck| == 52 && multiset(deck) == multiset(OrderedDeck())
      ensures Valid() && Board() == DealtLayout(deck) && Conserved(Board())
      ensures tableau == DealtColumns(deck, 7) && stock == deck[28..]
      ensures waste == [] && foundations == [[], [], [], []]
      ensures selected == None && moves == 0 && !won
    {
      deck := CreateDeck(random);
      var newTableau, newStock := Deal(deck);
      DealtConserved(deck);
      tableau := newTableau;
      stock := newStock;
      waste := [];
      foundations := [[], [], [], []];
      selected := None;
      moves := 0;
      won := false;
    }

    /** `drawFromStock`. The pending selection is kept. */
    method DrawFromStock()
      requires Valid()
      modifies this
      ensures Valid()
      ensures Board() == Draw(old(Board())).0
      ensures moves == old(moves) + (if Draw(old(Board())).1 then 1 else 0)
      ensures selected == old(selected) && won == old(won)
      ensures old(Conserved(Board())) ==> Conserved(Board())
    {
      DrawConserves(Board());
      if |stock| > 0 {
        waste, stock := waste + [stock[0]], stock[1..];
        moves := moves + 1;
      } else if |waste| > 0 {
        stock, waste := Reverse(waste), [];
        moves := moves + 1;
      }
    }

    /** `moveCard`, with the source card resolved only when the selection names
        the top card of its pile. */
    method MoveCard(from: Selection, to: Selection)
      requires Valid() && ValidPile(from.pile) && ValidPile(to.pile)
      modifies this
      ensures Valid()
      ensures Board() == Move(old(Board()), from, to).0
      ensures moves == old(moves) + (if Move(old(Board()), from, to).1 then 1 else 0)
      ensures selected == old(selected) && won == old(won)
      ensures old(Conserved(Board())) ==> Conserved(Board())
    {
      MoveConserves(Board(), from, to);
      var card := SourceCard(Board(), from);
      if card.Some? && Accepts(Board(), to.pile, card.value) {
        var placed := Place(Board(), to.pile, card.value);
        var taken := RemoveSource(placed, from.pile);
        foundations, tableau, waste := taken.foundations, taken.tableau, taken.waste;
        moves := moves + 1;
      }
    }

    /** The effect that watches the foundations: 52 cards on them win the game.
        Nothing sets `gameWon` back but a new game. */
    method CheckWin()
      requires Valid()
      modifies this
      ensures Valid() && Board() == old(Board()) && selected == old(selected) && moves == old(moves)
      ensures won == (old(won) || Total(foundations) == 52)
    {
      if Total(foundations) == 52 {
        won := true;
      }
    }

    /** Whether a click with nothing selected selects: only the top card of the
        waste or of a tableau column. */
    static predicate Selectable(l: Layout, pile: Pile, index: nat)
      requires WellShaped(l) && ValidPile(pile)
      ensures Selectable(l, pile, index) <==> SourceCard(l, Selection(pile, index)).Some?
    {
      match pile
      case WastePile => index + 1 == |l.waste|
      case TableauPile(c) => index + 1 == |l.tableau[c]|
      case FoundationPile(_) => false
    }

    /** `handleCardClick`: with a selection pending, try the move and clear the
        selection whatever happened; otherwise select the clicked card if it is a
        top card. The win effect runs after the foundations change. */
    method HandleCardClick(pile: Pile, index: nat)
      requires Valid() && ValidPile(pile)
      modifies this
      ensures Valid()
      ensures old(selected).Some? ==>
        && Board() == Move(old(Board()), old(selected).value, Selection(pile, index)).0
        && moves == old(moves) + (if Move(old(Board()), old(selected).value, Selection(pile, index)).1 then 1 else 0)
        && selected == None
        && won == (old(won) || Total(foundations) == 52)
      ensures old(selected).None? ==>
        && Board() == old(Board()) && moves == old(moves) && won == old(won)
        && selected == (if Selectable(old(Board()), pile, index) then Some(Selection(pile, index)) else None)
      ensures old(Conserved(Board())) ==> Conserved(Board())
    {
      if selected.Some? {
        MoveCard(selected.value, Selection(pile, index));
        selected := None;
        CheckWin();
      } else if Selectable(Board(), pile, index) {
        selected := Some(Selection(pile, index));
      }
    }
  }
}
