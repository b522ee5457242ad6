/** calculate_equity_fast: the cache-aware Monte Carlo estimate of the hero's
    share of the pot. The random shuffles are given as index permutations,
    one per trial, applied in turn to the pool (random.shuffle works in
    place, so every trial reshuffles the previous order). The treys
    evaluator is an abstract score where lower is better. */
module Simulator {
  import opened Common
  import opened Text
  import opened EquityCache

  /** A card id. treys packs rank and suit into an int; the model needs
      only 52 distinct ids. */
  type Card = int

  /** EVALUATOR.evaluate(board, hand): lower is a stronger hand. */
  type Evaluator = (seq<Card>, seq<Card>) -> int

  const DeckSize: nat := 52
  const BoardSize: nat := 5

  /** Deck().cards: every card once. */
  function FullDeck(): (d: seq<Card>)
    ensures |d| == DeckSize
    ensures forall i :: 0 <= i < |d| ==> d[i] == i
    ensures Distinct(d)
  {
    seq(DeckSize, i requires 0 <= i < DeckSize => i)
  }

  /** The deck holds exactly the ids 0 .. 51. */
  lemma FullDeckContents()
    ensures forall c :: c in FullDeck() <==> 0 <= c < DeckSize
  {
    forall c | 0 <= c < DeckSize ensures c in FullDeck() {
      assert FullDeck()[c] == c;
    }
  }

  /** `[c for c in deck if c not in used]`, in deck order. */
  function Without(deck: seq<Card>, used: set<Card>): (r: seq<Card>)
    ensures forall c :: c in r <==> c in deck && c !in used
  {
    if deck == [] then []
    else (if deck[0] in used then [] else [deck[0]]) + Without(deck[1..], used)
  }

  lemma {:induction false} WithoutDistinct(deck: seq<Card>, used: set<Card>)
    requires Distinct(deck)
    ensures Distinct(Without(deck, used))
  {
    if deck != [] {
      WithoutDistinct(deck[1..], used);
      assert deck[0] !in deck[1..];
    }
  }

  /** `set(hero_cards + board_cards)`. */
  function Known(hero: seq<Card>, board: seq<Card>): set<Card>
  {
    set c | c in hero + board
  }

  /** remaining_cards: the deck without the hero's and the board's cards. */
  function RemainingCards(hero: seq<Card>, board: seq<Card>): seq<Card>
  {
    Without(FullDeck(), Known(hero, board))
  }

  /** The pool holds each unseen card exactly once, and no hero or board
      card. */
  lemma RemainingCardsExact(hero: seq<Card>, board: seq<Card>)
    ensures Distinct(RemainingCards(hero, board))
    ensures forall c :: c in RemainingCards(hero, board) <==> 0 <= c < DeckSize && c !in hero && c !in board
  {
    FullDeckContents();
    WithoutDistinct(FullDeck(), Known(hero, board));
  }

  /** `s[i:j]` with `i <= j`: Python clips both bounds to the length. */
  function Slice(s: seq<Card>, i: nat, j: nat): (r: seq<Card>)
    requires i <= j
    ensures j <= |s| ==> r == s[i..j]
    ensures forall c :: c in r ==> c in s
  {
    var lo := if i < |s| then i else |s|;
    var hi := if j < |s| then j else |s|;
    s[lo..hi]
  }

  /** `range(active - 1)` has this many iterations. */
  function VillainCount(active: int): nat
  {
    if active > 1 then active - 1 else 0
  }

  /** The villains' hands: villain k gets `remaining_cards[2k:2k+2]`. */
  function Villains(shuffled: seq<Card>, count: nat): (vs: seq<seq<Card>>)
    ensures |vs| == count
  {
    seq(count, k requires 0 <= k < count => Slice(shuffled, 2 * k, 2 * k + 2))
  }

  /** sim_board: the board completed to five cards from the cards after the
      villains' hands. */
  function SimBoard(board: seq<Card>, shuffled: seq<Card>, count: nat): seq<Card>
  {
    if BoardSize - |board| > 0 then board + Slice(shuffled, 2 * count, 2 * count + (BoardSize - |board|))
    else board
  }

  /** A villain score, or the `float('inf')` the search starts from. */
  datatype Rank = Infinite | Finite(value: int)

  /** best_villain_score: the minimum score over the villains, infinite when
      there are none; ties keep the earlier villain. */
  function BestVillain(simBoard: seq<Card>, villains: seq<seq<Card>>, score: Evaluator): (r: Rank)
    decreases |villains|
  {
    if villains == [] then Infinite
    else
      var prev := BestVillain(simBoard, villains[..|villains| - 1], score);
      var s := score(simBoard, villains[|villains| - 1]);
      if prev.Infinite? || s < prev.value then Finite(s) else prev
  }

  /** The best villain score is the minimum: infinite exactly when there is
      no villain, otherwise the score of some villain and no larger than any
      villain's score. */
  lemma {:induction false} BestVillainIsMinimum(simBoard: seq<Card>, villains: seq<seq<Card>>, score: Evaluator)
    ensures BestVillain(simBoard, villains, score).Infinite? <==> villains == []
    ensures var r := BestVillain(simBoard, villains, score);
      r.Finite? ==> exists k :: 0 <= k < |villains| && r.value == score(simBoard, villains[k])
    ensures var r := BestVillain(simBoard, villains, score);
      r.Finite? ==> forall k :: 0 <= k < |villains| ==> r.value <= score(simBoard, villains[k])
    decreases |villains|
  {
    if villains != [] {
      var init := villains[..|villains| - 1];
      BestVillainIsMinimum(simBoard, init, score);
      var r := BestVillain(simBoard, villains, score);
      var prev := BestVillain(simBoard, init, score);
      var last := |villains| - 1;
      if prev.Infinite? || score(simBoard, villains[last]) < prev.value {
        assert r.value == score(simBoard, villains[last]);
      } else {
        var k :| 0 <= k < |init| && prev.value == score(simBoard, init[k]);
        assert r.value == score(simBoard, villains[k]);
      }
      forall k | 0 <= k < |villains| ensures r.value <= score(simBoard, villains[k]) {
        if k < last {
          assert villains[k] == init[k];
        }
      }
    }
  }

  datatype Outcome = Win | Tie | Loss

  /** The hero against the best villain: strictly lower wins, equal ties.
      Every score beats the infinite sentinel. */
  function Compare(heroScore: int, best: Rank): Outcome
  {
    if best.Infinite? || heroScore < best.value then Win
    else if heroScore == best.value then Tie
    else Loss
  }

  /** The outcome of one trial dealt from the shuffled pool. */
  function TrialOutcome(shuffled: seq<Card>, hero: seq<Card>, board: seq<Card>, active: int, score: Evaluator): Outcome
  {
    var count := VillainCount(active);
    var simBoard := SimBoard(board, shuffled, count);
    Compare(score(simBoard, hero), BestVillain(simBoard, Villains(shuffled, count), score))
  }

  /** One shuffle per trial, each a permutation of the pool's positions. */
  predicate Shuffles(perms: seq<seq<int>>, n: nat) {
    perms == [] || (IsPermutation(perms[0], n) && Shuffles(perms[1..], n))
  }

  lemma {:induction false} ShufflesAt(perms: seq<seq<int>>, n: nat, t: nat)
    requires Shuffles(perms, n) && t < |perms|
    ensures IsPermutation(perms[t], n)
  {
    if t > 0 {
      ShufflesAt(perms[1..], n, t - 1);
    }
  }

  /** remaining_cards after the shuffle of trial t. */
  function ShuffledAt(pool: seq<Card>, perms: seq<seq<int>>, t: nat): (r: seq<Card>)
    requires t < |perms| && Shuffles(perms, |pool|)
    ensures |r| == |pool|
    decreases t
  {
    var before := if t == 0 then pool else ShuffledAt(pool, perms, t - 1);
    ShufflesAt(perms, |pool|, t);
    Permute(before, perms[t])
  }

  /** Shuffling never adds a card and never duplicates one. */
  lemma {:induction false} ShuffledAtKeepsPool(pool: seq<Card>, perms: seq<seq<int>>, t: nat)
    requires t < |perms| && Shuffles(perms, |pool|)
    ensures forall c :: c in ShuffledAt(pool, perms, t) ==> c in pool
    ensures Distinct(pool) ==> Distinct(ShuffledAt(pool, perms, t))
  {
    var before := if t == 0 then pool else ShuffledAt(pool, perms, t - 1);
    if t > 0 {
      ShuffledAtKeepsPool(pool, perms, t - 1);
    }
    ShufflesAt(perms, |pool|, t);
    PermuteKeepsElements(before, perms[t]);
  }

  datatype Tally = Tally(wins: nat, ties: nat, losses: nat)

  function Record(tally: Tally, o: Outcome): Tally
  {
    match o
    case Win => tally.(wins := tally.wins + 1)
    case Tie => tally.(ties := tally.ties + 1)
    case Loss => tally.(losses := tally.losses + 1)
  }

  /** The counters after a run of trials with these outcomes, in order. */
  function Count(os: seq<Outcome>): Tally
  {
    if os == [] then Tally(0, 0, 0)
    else Record(Count(os[..|os| - 1]), os[|os| - 1])
  }

  /** One trial as a function of the shuffled pool. */
  function Play(hero: seq<Card>, board: seq<Card>, active: int, score: Evaluator): seq<Card> -> Outcome
  {
    s => TrialOutcome(s, hero, board, active, score)
  }

  /** The outcomes of the first `trials` trials, in order. */
  function TrialOutcomes(pool: seq<Card>, perms: seq<seq<int>>, play: seq<Card> -> Outcome, trials: nat): (os: seq<Outcome>)
    requires trials <= |perms| && Shuffles(perms, |pool|)
    ensures |os| == trials
    decreases trials
  {
    if trials == 0 then []
    else TrialOutcomes(pool, perms, play, trials - 1) + [play(ShuffledAt(pool, perms, trials - 1))]
  }

  /** Trial t's entry is the outcome of the deal after shuffle t. */
  lemma {:induction false} TrialOutcomesAt(pool: seq<Card>, perms: seq<seq<int>>, play: seq<Card> -> Outcome,
                                           trials: nat, t: nat)
    requires trials <= |perms| && Shuffles(perms, |pool|)
    requires t < trials
    ensures TrialOutcomes(pool, perms, play, trials)[t] == play(ShuffledAt(pool, perms, t))
    decreases trials
  {
    if t < trials - 1 {
      TrialOutcomesAt(pool, perms, play, trials - 1, t);
    }
  }

  /** wins, ties and losses after the first `trials` trials. */
  function TallyOf(pool: seq<Card>, perms: seq<seq<int>>, play: seq<Card> -> Outcome, trials: nat): Tally
    requires trials <= |perms| && Shuffles(perms, |pool|)
  {
    Count(TrialOutcomes(pool, perms, play, trials))
  }

  /** One more trial adds its outcome to the counters. */
  lemma TallyStep(pool: seq<Card>, perms: seq<seq<int>>, play: seq<Card> -> Outcome, trials: nat)
    requires trials < |perms| && Shuffles(perms, |pool|)
    ensures TallyOf(pool, perms, play, trials + 1)
         == Record(TallyOf(pool, perms, play, trials), play(ShuffledAt(pool, perms, trials)))
  {
    var os := TrialOutcomes(pool, perms, play, trials + 1);
    assert os[..|os| - 1] == TrialOutcomes(pool, perms, play, trials);
  }

  /** `(wins + 0.5 * ties) / n_simulations`. */
  function Equity(tally: Tally, n: int): real
    requires n != 0
  {
    (tally.wins as real + 0.5 * tally.ties as real) / n as real
  }

  /** Every trial is counted exactly once. */
  lemma {:induction false} CountTotal(os: seq<Outcome>)
    ensures Count(os).wins + Count(os).ties + Count(os).losses == |os|
  {
    if os != [] {
      CountTotal(os[..|os| - 1]);
    }
  }

  /** After n trials the counters add up to n. */
  lemma TallyCountsEveryTrial(pool: seq<Card>, perms: seq<seq<int>>, play: seq<Card> -> Outcome, n: nat)
    requires n <= |perms| && Shuffles(perms, |pool|)
    ensures TallyOf(pool, perms, play, n).wins + TallyOf(pool, perms, play, n).ties
          + TallyOf(pool, perms, play, n).losses == n
  {
    CountTotal(TrialOutcomes(pool, perms, play, n));
  }

  /** The estimate over a run of trials is a probability. */
  lemma CountEquityInUnitInterval(os: seq<Outcome>)
    requires os != []
    ensures 0.0 <= Equity(Count(os), |os|) <= 1.0
  {
    CountTotal(os);
    var t := Count(os);
    RatioInUnitInterval(t.wins as real + 0.5 * t.ties as real, |os| as real);
  }

  lemma RatioInUnitInterval(a: real, n: real)
    requires 0.0 <= a <= n && n > 0.0
    ensures 0.0 <= a / n <= 1.0
  {
    assert a / n * n == a;
  }

  /** A run of wins only is counted as that many wins. */
  lemma {:induction false} CountAllWins(os: seq<Outcome>)
    requires forall t :: 0 <= t < |os| ==> os[t] == Win
    ensures Count(os) == Tally(|os|, 0, 0)
  {
    if os != [] {
      CountAllWins(os[..|os| - 1]);
    }
  }

  lemma EquityInUnitInterval(pool: seq<Card>, perms: seq<seq<int>>, play: seq<Card> -> Outcome, n: nat)
    requires 0 < n <= |perms| && Shuffles(perms, |pool|)
    ensures 0.0 <= Equity(TallyOf(pool, perms, play, n), n) <= 1.0
  {
    CountEquityInUnitInterval(TrialOutcomes(pool, perms, play, n));
  }

  /** With at most one active player no villain is dealt, and every hand
      beats the infinite sentinel. */
  lemma UncontestedTrialWins(shuffled: seq<Card>, hero: seq<Card>, board: seq<Card>, active: int, score: Evaluator)
    requires active <= 1
    ensures TrialOutcome(shuffled, hero, board, active, score) == Win
  {
    assert Villains(shuffled, VillainCount(active)) == [];
  }

  /** A trial that is always won gives a tally of wins only. */
  lemma AlwaysWinning(pool: seq<Card>, perms: seq<seq<int>>, play: seq<Card> -> Outcome, n: nat)
    requires forall s :: play(s) == Win
    requires n <= |perms| && Shuffles(perms, |pool|)
    ensures TallyOf(pool, perms, play, n) == Tally(n, 0, 0)
  {
    var os := TrialOutcomes(pool, perms, play, n);
    forall t | 0 <= t < n ensures os[t] == Win {
      TrialOutcomesAt(pool, perms, play, n, t);
    }
    CountAllWins(os);
  }

  /** So with at most one active player the estimate is exactly 1. */
  lemma UncontestedEquityIsOne(pool: seq<Card>, hero: seq<Card>, board: seq<Card>, active: int,
                               perms: seq<seq<int>>, score: Evaluator, n: nat)
    requires active <= 1
    requires 0 < n <= |perms| && Shuffles(perms, |pool|)
    ensures TallyOf(pool, perms, Play(hero, board, active, score), n) == Tally(n, 0, 0)
    ensures Equity(TallyOf(pool, perms, Play(hero, board, active, score), n), n) == 1.0
  {
    UncontestedPlayWins(hero, board, active, score);
    AlwaysWinning(pool, perms, Play(hero, board, active, score), n);
    AllWinsEquityIsOne(n);
  }

  lemma UncontestedPlayWins(hero: seq<Card>, board: seq<Card>, active: int, score: Evaluator)
    requires active <= 1
    ensures forall s :: Play(hero, board, active, score)(s) == Win
  {
    forall s ensures Play(hero, board, active, score)(s) == Win {
      UncontestedTrialWins(s, hero, board, active, score);
    }
  }

  lemma AllWinsEquityIsOne(n: nat)
    requires n > 0
    ensures Equity(Tally(n, 0, 0), n) == 1.0
  {
  }

  /** What is dealt to the villains in a trial comes from the pool, so it is
      never a hero or a board card. */
  lemma VillainCardsUnseen(hero: seq<Card>, board: seq<Card>, active: int, perms: seq<seq<int>>, t: nat)
    requires t < |perms| && Shuffles(perms, |RemainingCards(hero, board)|)
    ensures forall k, c :: 0 <= k < VillainCount(active) &&
                           c in Villains(ShuffledAt(RemainingCards(hero, board), perms, t), VillainCount(active))[k]
                           ==> c !in hero && c !in board
  {
    var pool := RemainingCards(hero, board);
    var s := ShuffledAt(pool, perms, t);
    var count := VillainCount(active);
    RemainingCardsExact(hero, board);
    ShuffledAtKeepsPool(pool, perms, t);
    forall k, c | 0 <= k < count && c in Villains(s, count)[k] ensures c !in hero && c !in board {
      assert c in Slice(s, 2 * k, 2 * k + 2);
    }
  }

  /** Likewise the cards that complete the board. */
  lemma BoardCardsUnseen(hero: seq<Card>, board: seq<Card>, active: int, perms: seq<seq<int>>, t: nat)
    requires t < |perms| && Shuffles(perms, |RemainingCards(hero, board)|)
    ensures forall c :: c in SimBoard(board, ShuffledAt(RemainingCards(hero, board), perms, t), VillainCount(active))[|board|..]
                        ==> c !in hero && c !in board
  {
    var pool := RemainingCards(hero, board);
    var s := ShuffledAt(pool, perms, t);
    var count := VillainCount(active);
    RemainingCardsExact(hero, board);
    ShuffledAtKeepsPool(pool, perms, t);
    var sb := SimBoard(board, s, count);
    if BoardSize - |board| > 0 {
      var extra := Slice(s, 2 * count, 2 * count + (BoardSize - |board|));
      assert sb[|board|..] == extra;
      forall c | c in extra ensures c !in hero && c !in board {
        assert c in s;
      }
    } else {
      assert sb[|board|..] == [];
    }
  }

  /** Villain k holds exactly the two cards at positions 2k and 2k+1. */
  lemma VillainsExact(s: seq<Card>, count: nat)
    requires 2 * count <= |s|
    ensures forall k :: 0 <= k < count ==> Villains(s, count)[k] == [s[2 * k], s[2 * k + 1]]
  {
    forall k | 0 <= k < count ensures Villains(s, count)[k] == [s[2 * k], s[2 * k + 1]] {
      assert Villains(s, count)[k] == s[2 * k..2 * k + 2];
    }
  }

  /** The board is completed to five cards from the positions right after
      the villains' hands. */
  lemma SimBoardExact(board: seq<Card>, s: seq<Card>, count: nat)
    requires |board| <= BoardSize && 2 * count + (BoardSize - |board|) <= |s|
    ensures SimBoard(board, s, count) == board + s[2 * count..2 * count + (BoardSize - |board|)]
    ensures |SimBoard(board, s, count)| == BoardSize
  {
    if BoardSize - |board| == 0 {
      assert s[2 * count..2 * count] == [];
    }
  }

  /** Dealt from a duplicate-free order, no card goes to two villains or to
      a villain and the board. */
  lemma DealtOnce(board: seq<Card>, s: seq<Card>, count: nat)
    requires Distinct(s)
    requires |board| <= BoardSize && 2 * count + (BoardSize - |board|) <= |s|
    ensures var vs := Villains(s, count);
      && (forall k1, k2, c :: 0 <= k1 < k2 < count && c in vs[k1] ==> c !in vs[k2])
      && (forall k, c :: 0 <= k < count && c in vs[k] ==> c !in SimBoard(board, s, count)[|board|..])
  {
    var vs := Villains(s, count);
    VillainsExact(s, count);
    SimBoardExact(board, s, count);
    var extra := s[2 * count..2 * count + (BoardSize - |board|)];
    assert SimBoard(board, s, count)[|board|..] == extra;
    forall k1, k2, c | 0 <= k1 < k2 < count && c in vs[k1] ensures c !in vs[k2] {
      assert vs[k1] == [s[2 * k1], s[2 * k1 + 1]];
      assert vs[k2] == [s[2 * k2], s[2 * k2 + 1]];
    }
    forall k, c | 0 <= k < count && c in vs[k] ensures c !in extra {
      assert vs[k] == [s[2 * k], s[2 * k + 1]];
    }
  }

  /** When the pool holds enough cards, every trial deals each villain
      exactly two cards and the board exactly five, from distinct
      positions of the shuffled pool, so no card is dealt twice. */
  lemma DealingShape(hero: seq<Card>, board: seq<Card>, active: int, perms: seq<seq<int>>, t: nat)
    requires t < |perms| && Shuffles(perms, |RemainingCards(hero, board)|)
    requires |board| <= BoardSize
    requires 2 * VillainCount(active) + (BoardSize - |board|) <= |RemainingCards(hero, board)|
    ensures var s := ShuffledAt(RemainingCards(hero, board), perms, t);
      var count := VillainCount(active);
      var vs := Villains(s, count);
      && (forall k :: 0 <= k < count ==> vs[k] == [s[2 * k], s[2 * k + 1]])
      && SimBoard(board, s, count) == board + s[2 * count..2 * count + (BoardSize - |board|)]
      && |SimBoard(board, s, count)| == BoardSize
      && (forall k1, k2, c :: 0 <= k1 < k2 < count && c in vs[k1] ==> c !in vs[k2])
      && (forall k, c :: 0 <= k < count && c in vs[k] ==> c !in SimBoard(board, s, count)[|board|..])
  {
    var pool := RemainingCards(hero, board);
    var s := ShuffledAt(pool, perms, t);
    RemainingCardsExact(hero, board);
    ShuffledAtKeepsPool(pool, perms, t);
    VillainsExact(s, VillainCount(active));
    SimBoardExact(board, s, VillainCount(active));
    DealtOnce(board, s, VillainCount(active));
  }

  // -----------------------------------------------------------------------
  // The trial loop

  /** The villain-dealing loop (source lines 85-90): two cards each from
      the front of the shuffled pool. */
  method DealVillains(shuffled: seq<Card>, count: nat) returns (villains: seq<seq<Card>>, cardIndex: nat)
    ensures villains == Villains(shuffled, count)
    ensures cardIndex == 2 * count
  {
    cardIndex := 0;
    villains := [];
    var k := 0;
    while k < count
      invariant 0 <= k <= count
      invariant cardIndex == 2 * k
      invariant villains == Villains(shuffled, k)
    {
      var villain := Slice(shuffled, cardIndex, cardIndex + 2);
      villains := villains + [villain];
      cardIndex := cardIndex + 2;
      k := k + 1;
    }
  }

  /** The search for the best villain score (source lines 102-106). */
  method BestVillainScore(simBoard: seq<Card>, villains: seq<seq<Card>>, score: Evaluator) returns (best: Rank)
    ensures best == BestVillain(simBoard, villains, score)
  {
    best := Infinite;
    var v := 0;
    while v < |villains|
      invariant 0 <= v <= |villains|
      invariant best == BestVillain(simBoard, villains[..v], score)
    {
      var villainScore := score(simBoard, villains[v]);
      assert villains[..v + 1][..v] == villains[..v];
      if best.Infinite? || villainScore < best.value {
        best := Finite(villainScore);
      }
      v := v + 1;
    }
    assert villains[..v] == villains;
  }

  /** The body of one trial (source lines 85-114): deal the villains, complete
      the board, score, find the best villain, compare. */
  method DealAndScore(shuffled: seq<Card>, heroCards: seq<Card>, boardCards: seq<Card>,
                      active: int, score: Evaluator) returns (o: Outcome)
    ensures o == TrialOutcome(shuffled, heroCards, boardCards, active, score)
  {
    var count := VillainCount(active);
    var villains, cardIndex := DealVillains(shuffled, count);
    var simBoard := boardCards;
    var cardsNeeded := BoardSize - |simBoard|;
    if cardsNeeded > 0 {
      simBoard := simBoard + Slice(shuffled, cardIndex, cardIndex + cardsNeeded);
    }
    assert simBoard == SimBoard(boardCards, shuffled, count);
    var heroScore := score(simBoard, heroCards);
    var best := BestVillainScore(simBoard, villains, score);
    if best.Infinite? || heroScore < best.value {
      o := Win;
    } else if heroScore == best.value {
      o := Tie;
    } else {
      o := Loss;
    }
  }

  /** `play` is the trial of this hand, board and table size. The trigger
      keeps `play` uninterpreted except where a trial is actually dealt. */
  ghost predicate Plays(play: seq<Card> -> Outcome, hero: seq<Card>, board: seq<Card>, active: int, score: Evaluator)
  {
    forall s {:trigger TrialOutcome(s, hero, board, active, score)} :: play(s) == TrialOutcome(s, hero, board, active, score)
  }

  lemma PlayPlays(hero: seq<Card>, board: seq<Card>, active: int, score: Evaluator)
    ensures Plays(Play(hero, board, active, score), hero, board, active, score)
  {
  }

  /** The `for _ in range(n_simulations)` loop: shuffle, play the trial,
      count it. */
  method RunTrials(pool: seq<Card>, heroCards: seq<Card>, boardCards: seq<Card>, active: int,
                   n: int, perms: seq<seq<int>>, score: Evaluator, ghost play: seq<Card> -> Outcome)
    returns (tally: Tally)
    requires n <= |perms| && Shuffles(perms, |pool|)
    requires Plays(play, heroCards, boardCards, active, score)
    ensures tally == TallyOf(pool, perms, play, if n > 0 then n else 0)
  {
    var remaining := pool;
    var wins, ties, losses := 0, 0, 0;
    var trial := 0;
    while trial < n
      invariant 0 <= trial <= (if n > 0 then n else 0)
      invariant |remaining| == |pool|
      invariant remaining == (if trial == 0 then pool else ShuffledAt(pool, perms, trial - 1))
      invariant Tally(wins, ties, losses) == TallyOf(pool, perms, play, trial)
    {
      ShufflesAt(perms, |pool|, trial);
      remaining := Permute(remaining, perms[trial]);
      assert remaining == ShuffledAt(pool, perms, trial);
      var o := DealAndScore(remaining, heroCards, boardCards, active, score);
      TallyStep(pool, perms, play, trial);
      match o {
        case Win => wins := wins + 1;
        case Tie => ties := ties + 1;
        case Loss => losses := losses + 1;
      }
      trial := trial + 1;
    }
    tally := Tally(wins, ties, losses);
  }

  // -----------------------------------------------------------------------
  // calculate_equity_fast

  /** `[str(c) for c in cards]`. */
  function Codes(cards: seq<Card>): (codes: seq<string>)
    ensures |codes| == |cards|
  {
    if cards == [] then [] else [IntToString(cards[0])] + Codes(cards[1..])
  }

  function EquityKey(hero: seq<Card>, board: seq<Card>, active: int, md5: string -> string): string
  {
    CacheKey(Codes(hero), Codes(board), active, md5)
  }

  /** The simulated estimate on a cache miss; zero trials divide by zero. */
  function SimulatedEquity(hero: seq<Card>, board: seq<Card>, active: int, n: int,
                           perms: seq<seq<int>>, score: Evaluator): Result<real>
    requires n <= |perms| && Shuffles(perms, |RemainingCards(hero, board)|)
  {
    if n == 0 then Err(ZeroDivision)
    else Ok(Equity(TallyOf(RemainingCards(hero, board), perms, Play(hero, board, active, score),
                           if n > 0 then n else 0), n))
  }

  /** What calculate_equity_fast returns given the cache it starts from. */
  function EquityLookup(entries: map<string, real>, hero: seq<Card>, board: seq<Card>, active: int, n: int,
                        perms: seq<seq<int>>, score: Evaluator, md5: string -> string): Result<real>
    requires n <= |perms| && Shuffles(perms, |RemainingCards(hero, board)|)
  {
    var key := EquityKey(hero, board, active, md5);
    if key in entries then Ok(entries[key]) else SimulatedEquity(hero, board, active, n, perms, score)
  }

  /** The cache calculate_equity_fast leaves behind. */
  function EntriesAfter(entries: map<string, real>, hero: seq<Card>, board: seq<Card>, active: int, n: int,
                        perms: seq<seq<int>>, score: Evaluator, md5: string -> string): map<string, real>
    requires n <= |perms| && Shuffles(perms, |RemainingCards(hero, board)|)
  {
    var key := EquityKey(hero, board, active, md5);
    if key in entries then entries
    else match SimulatedEquity(hero, board, active, n, perms, score)
      case Ok(e) => entries[key := e]
      case Err(_) => entries
  }

  /** The simulation run on a cache miss (source lines 72-116): build the
      pool, run the trials, divide by n_simulations. */
  method SimulateEquity(heroCards: seq<Card>, boardCards: seq<Card>, active: int, n: int,
                        perms: seq<seq<int>>, score: Evaluator) returns (r: Result<real>)
    requires n <= |perms| && Shuffles(perms, |RemainingCards(heroCards, boardCards)|)
    ensures r == SimulatedEquity(heroCards, boardCards, active, n, perms, score)
  {
    var remainingCards := RemainingCards(heroCards, boardCards);
    PlayPlays(heroCards, boardCards, active, score);
    var tally := RunTrials(remainingCards, heroCards, boardCards, active, n, perms, score,
                           Play(heroCards, boardCards, active, score));
    if n == 0 {
      return Err(ZeroDivision);
    }
    var equity := (tally.wins as real + 0.5 * tally.ties as real) / n as real;
    return Ok(equity);
  }

  /** calculate_equity_fast over the cache object that stands for EQUITY_CACHE. */
  method CalculateEquityFast(cache: Cache, heroCards: seq<Card>, boardCards: seq<Card>, active: int, n: int,
                             perms: seq<seq<int>>, score: Evaluator, md5: string -> string)
    returns (r: Result<real>)
    requires n <= |perms| && Shuffles(perms, |RemainingCards(heroCards, boardCards)|)
    modifies cache
    ensures r == EquityLookup(old(cache.entries), heroCards, boardCards, active, n, perms, score, md5)
    ensures cache.entries == EntriesAfter(old(cache.entries), heroCards, boardCards, active, n, perms, score, md5)
  {
    var cacheKey := CacheKey(Codes(heroCards), Codes(boardCards), active, md5);
    assert cacheKey == EquityKey(heroCards, boardCards, active, md5);
    if cacheKey in cache.entries {
      return Ok(cache.entries[cacheKey]);
    }
    r := SimulateEquity(heroCards, boardCards, active, n, perms, score);
    if r.Ok? {
      cache.entries := cache.entries[cacheKey := r.value];
    }
  }

  // -----------------------------------------------------------------------
  // Cache behaviour

  /** On a hit the stored value is returned whatever the trial count and
      the shuffles, and the cache is left as it was. */
  lemma CacheHitIgnoresSimulation(entries: map<string, real>, hero: seq<Card>, board: seq<Card>, active: int,
                                  n1: int, perms1: seq<seq<int>>, n2: int, perms2: seq<seq<int>>,
                                  score: Evaluator, md5: string -> string)
    requires EquityKey(hero, board, active, md5) in entries
    requires n1 <= |perms1| && Shuffles(perms1, |RemainingCards(hero, board)|)
    requires n2 <= |perms2| && Shuffles(perms2, |RemainingCards(hero, board)|)
    ensures EquityLookup(entries, hero, board, active, n1, perms1, score, md5)
         == EquityLookup(entries, hero, board, active, n2, perms2, score, md5)
         == Ok(entries[EquityKey(hero, board, active, md5)])
    ensures EntriesAfter(entries, hero, board, active, n1, perms1, score, md5) == entries
  {
  }

  /** On a miss with at least one trial the estimate, a probability, is
      stored under the key and no other entry changes. */
  lemma CacheMissStores(entries: map<string, real>, hero: seq<Card>, board: seq<Card>, active: int, n: int,
                        perms: seq<seq<int>>, score: Evaluator, md5: string -> string)
    requires EquityKey(hero, board, active, md5) !in entries
    requires 0 < n <= |perms| && Shuffles(perms, |RemainingCards(hero, board)|)
    ensures var r := EquityLookup(entries, hero, board, active, n, perms, score, md5);
      var after := EntriesAfter(entries, hero, board, active, n, perms, score, md5);
      var key := EquityKey(hero, board, active, md5);
      && r.Ok? && 0.0 <= r.value <= 1.0
      && key in after && after[key] == r.value
      && (forall k :: k != key ==> (k in after <==> k in entries) && (k in entries ==> after[k] == entries[k]))
  {
    EquityInUnitInterval(RemainingCards(hero, board), perms, Play(hero, board, active, score), n);
  }

  /** Memoisation: once a lookup has succeeded, asking again for the same
      hand, board and player count returns the same value, however many
      trials are asked for. */
  lemma LookupIsMemoised(entries: map<string, real>, hero: seq<Card>, board: seq<Card>, active: int,
                         n: int, perms: seq<seq<int>>, n2: int, perms2: seq<seq<int>>,
                         score: Evaluator, md5: string -> string)
    requires n <= |perms| && Shuffles(perms, |RemainingCards(hero, board)|)
    requires n2 <= |perms2| && Shuffles(perms2, |RemainingCards(hero, board)|)
    requires EquityLookup(entries, hero, board, active, n, perms, score, md5).Ok?
    ensures EquityLookup(EntriesAfter(entries, hero, board, active, n, perms, score, md5),
                         hero, board, active, n2, perms2, score, md5)
         == EquityLookup(entries, hero, board, active, n, perms, score, md5)
  {
  }

  /** On a miss with at most one active player the stored equity is 1. */
  lemma UncontestedLookupIsOne(entries: map<string, real>, hero: seq<Card>, board: seq<Card>, active: int, n: int,
                               perms: seq<seq<int>>, score: Evaluator, md5: string -> string)
    requires EquityKey(hero, board, active, md5) !in entries
    requires active <= 1
    requires 0 < n <= |perms| && Shuffles(perms, |RemainingCards(hero, board)|)
    ensures EquityLookup(entries, hero, board, active, n, perms, score, md5) == Ok(1.0)
  {
    UncontestedEquityIsOne(RemainingCards(hero, board), hero, board, active, perms, score, n);
  }

  /** The key, and so the cached value, is the same whatever order the
      hero's and the board's cards are listed in. */
  lemma LookupOrderIndependent(entries: map<string, real>, hero1: seq<Card>, hero2: seq<Card>,
                               board1: seq<Card>, board2: seq<Card>, active: int, md5: string -> string)
    requires multiset(hero1) == multiset(hero2) && multiset(board1) == multiset(board2)
    ensures EquityKey(hero1, board1, active, md5) == EquityKey(hero2, board2, active, md5)
  {
    CodesPermutation(hero1, hero2);
    CodesPermutation(board1, board2);
    CacheKeyOrderIndependent(Codes(hero1), Codes(hero2), Codes(board1), Codes(board2), active, md5);
  }

  lemma {:induction false} CodesAppend(a: seq<Card>, b: seq<Card>)
    ensures Codes(a + b) == Codes(a) + Codes(b)
  {
    if a == [] {
      assert a + b == b;
    } else {
      assert (a + b)[0] == a[0];
      assert (a + b)[1..] == a[1..] + b;
      CodesAppend(a[1..], b);
    }
  }

  /** Listing the same cards in another order lists the same codes. */
  lemma {:induction false} CodesPermutation(a: seq<Card>, b: seq<Card>)
    requires multiset(a) == multiset(b)
    ensures multiset(Codes(a)) == multiset(Codes(b))
    decreases |a|
  {
    if a != [] {
      var x := a[0];
      assert x in multiset(b);
      var i :| 0 <= i < |b| && b[i] == x;
      var b' := b[..i] + b[i + 1..];
      assert b == b[..i] + ([x] + b[i + 1..]);
      RemoveFirst(a, b, i);
      CodesPermutation(a[1..], b');
      CodesAppend(b[..i], [x] + b[i + 1..]);
      CodesAppend(b[..i], b[i + 1..]);
      assert Codes([x] + b[i + 1..]) == [IntToString(x)] + Codes(b[i + 1..]);
    }
  }

  /** Taking the first element of `a` out of `a`, and one occurrence of it
      out of `b`, keeps the two multisets equal. */
  lemma RemoveFirst(a: seq<Card>, b: seq<Card>, i: nat)
    requires multiset(a) == multiset(b) && a != [] && i < |b| && b[i] == a[0]
    ensures multiset(a[1..]) == multiset(b[..i] + b[i + 1..])
  {
    assert a == [a[0]] + a[1..];
    assert multiset(a) == multiset{a[0]} + multiset(a[1..]);
    assert multiset(a[1..]) == multiset(a) - multiset{a[0]};
    assert b == b[..i] + [b[i]] + b[i + 1..];
    assert multiset(b) == multiset(b[..i]) + multiset{b[i]} + multiset(b[i + 1..]);
    assert multiset(b[..i] + b[i + 1..]) == multiset(b[..i]) + multiset(b[i + 1..]);
    assert multiset(b[..i] + b[i + 1..]) == multiset(b) - multiset{b[i]};
  }
}
