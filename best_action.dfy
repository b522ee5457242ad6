/** best_action: check the hand size, estimate the equity (through the
    cache), list the legal actions and give each an expected value. The card
    parser treys' Card.new and Python's round(x, 2) stay abstract
    parameters. */
module BestAction {
  import opened Common
  import opened AvailableActions
  import opened EquityCache
  import opened Simulator

  /** `[Card.new(c) for c in names]`. */
  function Cards(names: seq<string>, newCard: string -> Card): (cards: seq<Card>)
    ensures |cards| == |names|
    ensures forall i :: 0 <= i < |names| ==> cards[i] == newCard(names[i])
  {
    if names == [] then [] else [newCard(names[0])] + Cards(names[1..], newCard)
  }

  // -----------------------------------------------------------------------
  // The expected-value formulas; E is the equity, Y the pot, X the amount
  // put in, FE the fold equity.

  /** Checking: E × Y. */
  function CheckValue(e: real, pot: real): real
  {
    e * pot
  }

  /** Calling X: E × (Y + X) − (1 − E) × X. */
  function CallValue(e: real, pot: real, x: real): real
  {
    e * (pot + x) - (1.0 - e) * x
  }

  /** Betting, raising or moving all-in with X: the opponent folds with
      probability FE, otherwise the hand goes on as a call of X. */
  function AggressiveValue(fe: real, e: real, pot: real, x: real): real
  {
    fe * pot + (1.0 - fe) * CallValue(e, pot, x)
  }

  /** The value best_action stores for one action. Folding is worth 0; the
      others are rounded to cents. */
  function ActionEV(a: Action, e: real, pot: real, fe: real, round2: real -> real): real
  {
    match a.kind
    case Fold => 0.0
    case Check => round2(CheckValue(e, pot))
    case Call => round2(CallValue(e, pot, a.amount))
    case Bet => round2(AggressiveValue(fe, e, pot, a.amount))
    case Raise => round2(AggressiveValue(fe, e, pot, a.amount))
    case AllIn => round2(AggressiveValue(fe, e, pot, a.amount))
  }

  /** Calling breaks even exactly at the pot odds X / (Y + 2X): the call is
      profitable exactly when the equity is at least that. */
  lemma CallBreakEven(e: real, pot: real, x: real)
    requires pot + 2.0 * x > 0.0
    ensures CallValue(e, pot, x) >= 0.0 <==> e >= x / (pot + 2.0 * x)
    ensures CallValue(e, pot, x) == 0.0 <==> e == x / (pot + 2.0 * x)
  {
    var d := pot + 2.0 * x;
    assert CallValue(e, pot, x) == e * d - x;
    assert x / d * d == x;
    if e >= x / d {
      assert e * d >= x / d * d;
    } else {
      assert e * d < x / d * d;
    }
  }

  /** With an equity in [0, 1] a call loses at most the amount called and
      wins at most the pot plus that amount. */
  lemma CallValueRange(e: real, pot: real, x: real)
    requires 0.0 <= e <= 1.0 && pot + 2.0 * x >= 0.0
    ensures -x <= CallValue(e, pot, x) <= pot + x
  {
    var d := pot + 2.0 * x;
    assert CallValue(e, pot, x) == e * d - x;
    assert 0.0 <= e * d <= d;
  }

  /** Checking is worth a share of the pot between nothing and all of it. */
  lemma CheckValueRange(e: real, pot: real)
    requires 0.0 <= e <= 1.0 && pot >= 0.0
    ensures 0.0 <= CheckValue(e, pot) <= pot
  {
    assert e * pot <= 1.0 * pot;
  }

  /** The aggressive value blends the pot won by a fold and the value of a
      call: with FE = 0 it is the call, with FE = 1 the pot, and in between
      it lies between the two. */
  lemma AggressiveValueBlend(fe: real, e: real, pot: real, x: real)
    requires 0.0 <= fe <= 1.0
    ensures fe == 0.0 ==> AggressiveValue(fe, e, pot, x) == CallValue(e, pot, x)
    ensures fe == 1.0 ==> AggressiveValue(fe, e, pot, x) == pot
    ensures var c := CallValue(e, pot, x);
      var v := AggressiveValue(fe, e, pot, x);
      (c <= pot ==> c <= v <= pot) && (pot <= c ==> pot <= v <= c)
  {
    Blend(fe, pot, CallValue(e, pot, x));
  }

  /** f × p + (1 − f) × c for a weight f in [0, 1] lies between c and p. */
  lemma Blend(f: real, p: real, c: real)
    requires 0.0 <= f <= 1.0
    ensures f == 0.0 ==> f * p + (1.0 - f) * c == c
    ensures f == 1.0 ==> f * p + (1.0 - f) * c == p
    ensures c <= p ==> c <= f * p + (1.0 - f) * c <= p
    ensures p <= c ==> p <= f * p + (1.0 - f) * c <= c
  {
    var v := f * p + (1.0 - f) * c;
    var d := p - c;
    var share := f * d;
    assert v == c + share;
    FractionBetween(f, d);
    if f == 0.0 {
      assert share == 0.0;
    } else if f == 1.0 {
      assert share == d;
    } else if c <= p {
      assert 0.0 <= share <= d;
    } else {
      assert d <= share <= 0.0;
    }
  }

  /** A fraction of d lies between 0 and d. */
  lemma FractionBetween(f: real, d: real)
    requires 0.0 <= f <= 1.0
    ensures d >= 0.0 ==> 0.0 <= f * d <= d
    ensures d <= 0.0 ==> d <= f * d <= 0.0
  {
    if d > 0.0 {
      MulMonotone(1.0, f, d);
      MulMonotone(f, 0.0, d);
    } else if d < 0.0 {
      MulMonotone(1.0, f, -d);
      MulMonotone(f, 0.0, -d);
      assert f * (-d) == -(f * d);
    }
  }

  /** More equity is never worth less: the call value and the aggressive
      value grow with the equity when Y + 2X is not negative. */
  lemma ValuesMonotoneInEquity(e1: real, e2: real, fe: real, pot: real, x: real)
    requires e1 <= e2 && pot + 2.0 * x >= 0.0 && fe <= 1.0
    ensures CallValue(e1, pot, x) <= CallValue(e2, pot, x)
    ensures AggressiveValue(fe, e1, pot, x) <= AggressiveValue(fe, e2, pot, x)
  {
    var d := pot + 2.0 * x;
    assert CallValue(e2, pot, x) - CallValue(e1, pot, x) == (e2 - e1) * d;
    assert (e2 - e1) * d >= 0.0;
    assert AggressiveValue(fe, e2, pot, x) - AggressiveValue(fe, e1, pot, x)
        == (1.0 - fe) * ((e2 - e1) * d);
  }

  /** The stored values, in the order of the action set. */
  function Scored(actions: seq<Action>, e: real, pot: real, fe: real, round2: real -> real): (r: seq<(Action, real)>)
    ensures |r| == |actions|
  {
    if actions == [] then []
    else Scored(actions[..|actions| - 1], e, pot, fe, round2)
         + [(actions[|actions| - 1], ActionEV(actions[|actions| - 1], e, pot, fe, round2))]
  }

  /** Scoring keeps every action, in order, and pairs it with its value. */
  lemma {:induction false} ScoredAt(actions: seq<Action>, e: real, pot: real, fe: real, round2: real -> real, i: int)
    requires 0 <= i < |actions|
    ensures Scored(actions, e, pot, fe, round2)[i] == (actions[i], ActionEV(actions[i], e, pot, fe, round2))
  {
    if i < |actions| - 1 {
      ScoredAt(actions[..|actions| - 1], e, pot, fe, round2, i);
    }
  }

  /** The `for action, _ in available_actions.items()` loop: each key keeps
      its place and gets its value. */
  method ScoreActions(actions: seq<Action>, e: real, pot: real, fe: real, round2: real -> real)
    returns (scored: seq<(Action, real)>)
    ensures scored == Scored(actions, e, pot, fe, round2)
  {
    scored := [];
    var i := 0;
    while i < |actions|
      invariant 0 <= i <= |actions|
      invariant scored == Scored(actions[..i], e, pot, fe, round2)
    {
      var a := actions[i];
      var value: real;
      match a.kind {
        case Fold => value := 0.0;
        case Check => value := round2(CheckValue(e, pot));
        case Call => value := round2(CallValue(e, pot, a.amount));
        case Bet => value := round2(AggressiveValue(fe, e, pot, a.amount));
        case Raise => value := round2(AggressiveValue(fe, e, pot, a.amount));
        case AllIn => value := round2(AggressiveValue(fe, e, pot, a.amount));
      }
      assert actions[..i + 1][..i] == actions[..i];
      assert Scored(actions[..i + 1], e, pot, fe, round2) == Scored(actions[..i], e, pot, fe, round2) + [(a, value)];
      scored := scored + [(a, value)];
      i := i + 1;
    }
    assert actions[..i] == actions;
  }

  // -----------------------------------------------------------------------
  // best_action

  /** The precondition on the shuffles, for the pool left by this hand and
      board. */
  predicate EnoughShuffles(hero: seq<string>, board: seq<string>, n: int, perms: seq<seq<int>>, newCard: string -> Card)
  {
    n <= |perms| && Shuffles(perms, |RemainingCards(Cards(hero, newCard), Cards(board, newCard))|)
  }

  /** What best_action returns, given the cache it starts from. */
  function Decision(entries: map<string, real>, active: int, hero: seq<string>, board: seq<string>,
                    pot: real, heroStack: real, toCall: real, bb: real, n: int, fe: real,
                    perms: seq<seq<int>>, newCard: string -> Card, score: Evaluator,
                    md5: string -> string, round2: real -> real): Result<seq<(Action, real)>>
    requires |hero| == 2 ==> EnoughShuffles(hero, board, n, perms, newCard)
  {
    if |hero| != 2 then Err(InvalidHandSize)
    else
      match EquityLookup(entries, Cards(hero, newCard), Cards(board, newCard), active, n, perms, score, md5)
      case Err(err) => Err(err)
      case Ok(equity) =>
        match ActionSpace(toCall, heroStack, bb)
        case Err(err) => Err(err)
        case Ok(actions) => Ok(Scored(actions, equity, pot, fe, round2))
  }

  /** The cache best_action leaves behind. */
  function CacheAfterDecision(entries: map<string, real>, active: int, hero: seq<string>, board: seq<string>,
                              n: int, perms: seq<seq<int>>, newCard: string -> Card, score: Evaluator,
                              md5: string -> string): map<string, real>
    requires |hero| == 2 ==> EnoughShuffles(hero, board, n, perms, newCard)
  {
    if |hero| != 2 then entries
    else EntriesAfter(entries, Cards(hero, newCard), Cards(board, newCard), active, n, perms, score, md5)
  }

  /** best_action over the equity cache. The table size, the hero's position
      and the villains' range are accepted by the source but never read, so
      they are not parameters here. */
  method BestAction(cache: Cache, active: int, hero: seq<string>, board: seq<string>,
                    pot: real, heroStack: real, toCall: real, bb: real, n: int, fe: real,
                    perms: seq<seq<int>>, newCard: string -> Card, score: Evaluator,
                    md5: string -> string, round2: real -> real)
    returns (r: Result<seq<(Action, real)>>)
    requires |hero| == 2 ==> EnoughShuffles(hero, board, n, perms, newCard)
    modifies cache
    ensures r == Decision(old(cache.entries), active, hero, board, pot, heroStack, toCall, bb, n, fe,
                          perms, newCard, score, md5, round2)
    ensures cache.entries == CacheAfterDecision(old(cache.entries), active, hero, board, n, perms,
                                                newCard, score, md5)
  {
    if |hero| != 2 {
      return Err(InvalidHandSize);
    }
    var heroCards := Cards(hero, newCard);
    var boardCards := Cards(board, newCard);
    var equity := CalculateEquityFast(cache, heroCards, boardCards, active, n, perms, score, md5);
    if equity.Err? {
      return Err(equity.error);
    }
    var actions := GetAvailableActions(toCall, heroStack, bb);
    if actions.Err? {
      return Err(actions.error);
    }
    var scored := ScoreActions(actions.value, equity.value, pot, fe, round2);
    return Ok(scored);
  }

  // -----------------------------------------------------------------------
  // Properties of the decision

  /** A hand that is not exactly two cards is rejected before anything else
      happens: no equity is computed and the cache is left alone. */
  lemma BadHandRejected(entries: map<string, real>, active: int, hero: seq<string>, board: seq<string>,
                        pot: real, heroStack: real, toCall: real, bb: real, n: int, fe: real,
                        perms: seq<seq<int>>, newCard: string -> Card, score: Evaluator,
                        md5: string -> string, round2: real -> real)
    requires |hero| != 2
    ensures Decision(entries, active, hero, board, pot, heroStack, toCall, bb, n, fe, perms, newCard, score, md5, round2)
         == Err(InvalidHandSize)
    ensures CacheAfterDecision(entries, active, hero, board, n, perms, newCard, score, md5) == entries
  {
  }

  /** When best_action succeeds it returns exactly the actions of
      get_available_actions, in their order, each with its expected value;
      folding is worth 0. */
  lemma DecisionScoresEveryAction(entries: map<string, real>, active: int, hero: seq<string>, board: seq<string>,
                                  pot: real, heroStack: real, toCall: real, bb: real, n: int, fe: real,
                                  perms: seq<seq<int>>, newCard: string -> Card, score: Evaluator,
                                  md5: string -> string, round2: real -> real)
    requires |hero| == 2 ==> EnoughShuffles(hero, board, n, perms, newCard)
    requires Decision(entries, active, hero, board, pot, heroStack, toCall, bb, n, fe, perms, newCard, score, md5, round2).Ok?
    ensures var r := Decision(entries, active, hero, board, pot, heroStack, toCall, bb, n, fe, perms, newCard, score, md5, round2).value;
      var equity := EquityLookup(entries, Cards(hero, newCard), Cards(board, newCard), active, n, perms, score, md5);
      var actions := ActionSpace(toCall, heroStack, bb);
      && |hero| == 2 && equity.Ok? && actions.Ok?
      && |r| == |actions.value|
      && (forall i :: 0 <= i < |r| ==> r[i].0 == actions.value[i])
      && (forall i :: 0 <= i < |r| ==> r[i].1 == ActionEV(r[i].0, equity.value, pot, fe, round2))
      && (forall i :: 0 <= i < |r| && r[i].0.kind == Fold ==> r[i].1 == 0.0)
  {
    var equity := EquityLookup(entries, Cards(hero, newCard), Cards(board, newCard), active, n, perms, score, md5);
    var actions := ActionSpace(toCall, heroStack, bb).value;
    forall i | 0 <= i < |actions| {
      ScoredAt(actions, equity.value, pot, fe, round2, i);
    }
  }

  /** best_action fails in exactly three ways: a hand that is not two cards;
      zero simulations on a cache miss (a division by zero); and a zero big
      blind facing a bet smaller than the stack (a division by zero). */
  lemma DecisionFailures(entries: map<string, real>, active: int, hero: seq<string>, board: seq<string>,
                         pot: real, heroStack: real, toCall: real, bb: real, n: int, fe: real,
                         perms: seq<seq<int>>, newCard: string -> Card, score: Evaluator,
                         md5: string -> string, round2: real -> real)
    requires |hero| == 2 ==> EnoughShuffles(hero, board, n, perms, newCard)
    ensures var r := Decision(entries, active, hero, board, pot, heroStack, toCall, bb, n, fe, perms, newCard, score, md5, round2);
      var miss := |hero| == 2 && EquityKey(Cards(hero, newCard), Cards(board, newCard), active, md5) !in entries;
      r.Err? <==>
        || |hero| != 2
        || (miss && n == 0)
        || (toCall != 0.0 && toCall < heroStack && bb == 0.0)
    ensures var r := Decision(entries, active, hero, board, pot, heroStack, toCall, bb, n, fe, perms, newCard, score, md5, round2);
      r.Err? && |hero| == 2 ==> r.error == ZeroDivision
  {
    ActionSpaceFailsOnlyOnZeroBlind(toCall, heroStack, bb);
  }

  /** A cached equity makes the decision independent of the number of
      simulations and of the shuffles. */
  lemma CachedDecisionIgnoresSimulation(entries: map<string, real>, active: int, hero: seq<string>, board: seq<string>,
                                        pot: real, heroStack: real, toCall: real, bb: real, fe: real,
                                        n1: int, perms1: seq<seq<int>>, n2: int, perms2: seq<seq<int>>,
                                        newCard: string -> Card, score: Evaluator,
                                        md5: string -> string, round2: real -> real)
    requires |hero| == 2
    requires EquityKey(Cards(hero, newCard), Cards(board, newCard), active, md5) in entries
    requires EnoughShuffles(hero, board, n1, perms1, newCard) && EnoughShuffles(hero, board, n2, perms2, newCard)
    ensures Decision(entries, active, hero, board, pot, heroStack, toCall, bb, n1, fe, perms1, newCard, score, md5, round2)
         == Decision(entries, active, hero, board, pot, heroStack, toCall, bb, n2, fe, perms2, newCard, score, md5, round2)
  {
    CacheHitIgnoresSimulation(entries, Cards(hero, newCard), Cards(board, newCard), active,
                              n1, perms1, n2, perms2, score, md5);
  }
}
