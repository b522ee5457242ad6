/** The action-space generator `get_available_actions(to_call, stack, bb)`.
    The Python function fills a fresh dict whose keys are labels
    "<kind>_<amount>" and whose values are all None (filled in later by
    best_action). The model keeps the keys, in insertion order, as a
    sequence of structured labels. */
module AvailableActions {
  import opened Common

  datatype Kind = Fold | Check | Call | Bet | Raise | AllIn

  /** One dict key: the label "<kind>_<amount>" as a (kind, amount) pair. */
  datatype Action = Action(kind: Kind, amount: real)

  /** `math.ceil`: the least integer not below `x`. */
  function Ceil(x: real): (c: int)
    ensures c as real - 1.0 < x <= c as real
  {
    if x.Floor as real == x then x.Floor else x.Floor + 1
  }

  /** `math.ceil((to_call * m) / bb) * bb`: m times the bet, rounded up to
      a whole number of big blinds. */
  function RaiseSize(toCall: real, m: real, bb: real): real
    requires bb != 0.0
  {
    Ceil((toCall * m) / bb) as real * bb
  }

  /** `r` is a whole number of big blinds. */
  predicate IsMultipleOf(r: real, bb: real)
    requires bb != 0.0
  {
    (r / bb).Floor as real == r / bb
  }

  /** `d[a] = None` on a dict: a new key goes last, an existing key keeps
      its place. */
  function Put(d: seq<Action>, a: Action): seq<Action>
  {
    if a in d then d else d + [a]
  }

  /** Assigning a dict key: afterwards the key is present and nothing else
      is added; the existing keys keep their places, a new key goes last,
      and no key appears twice. */
  lemma PutAssigns(d: seq<Action>, a: Action)
    ensures forall x :: x in Put(d, a) <==> x in d || x == a
    ensures Distinct(d) ==> Distinct(Put(d, a))
    ensures |d| <= |Put(d, a)| <= |d| + 1 && Put(d, a)[..|d|] == d
    ensures |Put(d, a)| == |d| <==> a in d
    ensures |Put(d, a)| == |d| + 1 ==> Put(d, a)[|d|] == a
  {
  }

  /** What get_available_actions returns, case by case, with the dict's
      key collision spelled out: the second raise only appears when it
      differs from the first. Dividing by a zero big blind raises
      ZeroDivisionError, which only the raise branch does. */
  function ActionSpace(toCall: real, stack: real, bb: real): Result<seq<Action>>
  {
    if toCall == 0.0 then
      Ok([Action(Check, 0.0), Action(Bet, bb), Action(AllIn, stack)])
    else if toCall >= stack then
      Ok([Action(Fold, 0.0), Action(AllIn, stack)])
    else if bb == 0.0 then
      Err(ZeroDivision)
    else
      var r2 := RaiseSize(toCall, 2.0, bb);
      var r3 := RaiseSize(toCall, 3.0, bb);
      Ok([Action(Fold, 0.0), Action(Call, toCall)]
         + (if stack >= r2 then [Action(Raise, r2)] else [])
         + (if stack >= r3 && r3 != r2 then [Action(Raise, r3)] else [])
         + [Action(AllIn, stack)])
  }

  /** get_available_actions: successive insertions into a fresh dict. */
  method GetAvailableActions(toCall: real, stack: real, bb: real) returns (r: Result<seq<Action>>)
    ensures r == ActionSpace(toCall, stack, bb)
  {
    var actions: seq<Action> := [];
    if toCall == 0.0 {
      actions := Put(actions, Action(Check, 0.0));
      actions := Put(actions, Action(Bet, bb));
      actions := Put(actions, Action(AllIn, stack));
      assert actions == ActionSpace(toCall, stack, bb).value;
    } else {
      if toCall >= stack {
        actions := Put(actions, Action(Fold, 0.0));
        actions := Put(actions, Action(AllIn, stack));
        assert actions == ActionSpace(toCall, stack, bb).value;
      } else {
        actions := Put(actions, Action(Fold, 0.0));
        actions := Put(actions, Action(Call, toCall));
        if bb == 0.0 {
          assert !(toCall >= stack);
          assert ActionSpace(toCall, stack, bb) == Err(ZeroDivision);
          return Err(ZeroDivision);
        }
        var raise2x := RaiseSize(toCall, 2.0, bb);
        if stack >= raise2x {
          actions := Put(actions, Action(Raise, raise2x));
        }
        ghost var withRaise2 := actions;
        var raise3x := RaiseSize(toCall, 3.0, bb);
        if stack >= raise3x {
          assert Action(Raise, raise3x) in actions <==> stack >= raise2x && raise3x == raise2x;
          actions := Put(actions, Action(Raise, raise3x));
        }
        assert actions == withRaise2 + (if stack >= raise3x && raise3x != raise2x then [Action(Raise, raise3x)] else []);
        assert Action(AllIn, stack) !in actions;
        actions := Put(actions, Action(AllIn, stack));
        assert actions == ActionSpace(toCall, stack, bb).value;
      }
    }
    return Ok(actions);
  }

  // -----------------------------------------------------------------------
  // Properties of the action space

  /** A raise is rounded UP to a whole number of big blinds, and by less than
      one big blind: m * to_call <= raise < m * to_call + bb. */
  lemma RaiseSizeBounds(toCall: real, m: real, bb: real)
    requires bb > 0.0
    ensures IsMultipleOf(RaiseSize(toCall, m, bb), bb)
    ensures RaiseSize(toCall, m, bb) >= m * toCall
    ensures RaiseSize(toCall, m, bb) < m * toCall + bb
  {
    var x := (toCall * m) / bb;
    var c := Ceil(x);
    var r := c as real * bb;
    assert r / bb == c as real;
    assert (c as real).Floor == c;
    assert RaiseSize(toCall, m, bb) == r;
    assert x * bb == m * toCall;
    MulMonotone(c as real, x, bb);
    MulMonotone(x + 1.0, c as real, bb);
    assert (x + 1.0) * bb > r;
    assert (x + 1.0) * bb == m * toCall + bb;
  }

  lemma MulMonotone(a: real, b: real, k: real)
    requires a >= b && k > 0.0
    ensures a * k >= b * k
    ensures a > b ==> a * k > b * k
  {
  }

  /** For a non-negative bet the double raise never exceeds the triple
      raise. */
  lemma RaisesOrdered(toCall: real, bb: real)
    requires bb > 0.0 && toCall >= 0.0
    ensures RaiseSize(toCall, 2.0, bb) <= RaiseSize(toCall, 3.0, bb)
  {
    var x2 := (toCall * 2.0) / bb;
    var x3 := (toCall * 3.0) / bb;
    assert x3 - x2 == toCall / bb >= 0.0;
    assert Ceil(x2) <= Ceil(x3);
    MulMonotone(Ceil(x3) as real, Ceil(x2) as real, bb);
  }

  /** The generator fails only when the raise branch divides by a zero big
      blind. */
  lemma ActionSpaceFailsOnlyOnZeroBlind(toCall: real, stack: real, bb: real)
    ensures ActionSpace(toCall, stack, bb).Err? <==> (toCall != 0.0 && toCall < stack && bb == 0.0)
    ensures ActionSpace(toCall, stack, bb).Err? ==> ActionSpace(toCall, stack, bb).error == ZeroDivision
  {
  }

  /** Shape of every action set: two to five distinct labels, all-in for the
      whole stack last; fold first whenever something is to be called,
      check first otherwise. */
  lemma ActionSpaceShape(toCall: real, stack: real, bb: real)
    requires ActionSpace(toCall, stack, bb).Ok?
    ensures var acts := ActionSpace(toCall, stack, bb).value;
      && 2 <= |acts| <= 5
      && Distinct(acts)
      && acts[|acts| - 1] == Action(AllIn, stack)
      && (toCall != 0.0 ==> acts[0] == Action(Fold, 0.0))
      && (toCall == 0.0 ==> acts[0] == Action(Check, 0.0) && |acts| == 3)
  {
  }

  /** Facing a bet: fold, call and all-in are always offered, and each raise
      size is offered exactly when the stack covers it. */
  lemma ActionSpaceMembership(toCall: real, stack: real, bb: real, a: Action)
    requires toCall != 0.0 && toCall < stack && bb != 0.0
    ensures ActionSpace(toCall, stack, bb).Ok?
    ensures a in ActionSpace(toCall, stack, bb).value <==>
      || a == Action(Fold, 0.0)
      || a == Action(Call, toCall)
      || a == Action(AllIn, stack)
      || (a == Action(Raise, RaiseSize(toCall, 2.0, bb)) && stack >= RaiseSize(toCall, 2.0, bb))
      || (a == Action(Raise, RaiseSize(toCall, 3.0, bb)) && stack >= RaiseSize(toCall, 3.0, bb))
  {
  }

  /** When the bet is at least the stack, only fold and all-in remain: no
      call and no raise. */
  lemma ShortStackOnlyFoldOrShove(toCall: real, stack: real, bb: real, a: Action)
    requires toCall != 0.0 && toCall >= stack
    ensures a in ActionSpace(toCall, stack, bb).value <==> a == Action(Fold, 0.0) || a == Action(AllIn, stack)
    ensures a.kind == Call || a.kind == Raise ==> a !in ActionSpace(toCall, stack, bb).value
  {
  }

  /** Facing a non-negative bet with a positive blind, raises appear in
      increasing size and two equal raise sizes give a single entry. */
  lemma RaisesAscendingAndUnique(toCall: real, stack: real, bb: real)
    requires 0.0 < toCall < stack && bb > 0.0
    ensures var acts := ActionSpace(toCall, stack, bb).value;
      forall i, j :: 0 <= i < j < |acts| && acts[i].kind == Raise && acts[j].kind == Raise ==>
        acts[i].amount < acts[j].amount
  {
    RaisesOrdered(toCall, bb);
  }

  /** The four calls of tests/test_available_actions.py. The third shows
      that a triple raise larger than the stack is left out. */
  lemma Examples()
    ensures ActionSpace(100.0, 90.0, 1.0) == Ok([Action(Fold, 0.0), Action(AllIn, 90.0)])
    ensures ActionSpace(100.0, 1000.0, 1.0) == Ok([Action(Fold, 0.0), Action(Call, 100.0),
      Action(Raise, 200.0), Action(Raise, 300.0), Action(AllIn, 1000.0)])
    ensures ActionSpace(105.0, 300.0, 1.0) == Ok([Action(Fold, 0.0), Action(Call, 105.0),
      Action(Raise, 210.0), Action(AllIn, 300.0)])
    ensures ActionSpace(0.0, 300.0, 1.0) == Ok([Action(Check, 0.0), Action(Bet, 1.0), Action(AllIn, 300.0)])
  {
    assert Ceil(200.0) == 200 && Ceil(300.0) == 300 && Ceil(210.0) == 210 && Ceil(315.0) == 315;
    assert RaiseSize(100.0, 2.0, 1.0) == 200.0;
    assert RaiseSize(100.0, 3.0, 1.0) == 300.0;
    assert RaiseSize(105.0, 2.0, 1.0) == 210.0;
    assert RaiseSize(105.0, 3.0, 1.0) == 315.0;
    assert ActionSpace(100.0, 1000.0, 1.0).value
      == [Action(Fold, 0.0), Action(Call, 100.0)] + [Action(Raise, 200.0)] + [Action(Raise, 300.0)] + [Action(AllIn, 1000.0)]
      == [Action(Fold, 0.0), Action(Call, 100.0), Action(Raise, 200.0), Action(Raise, 300.0), Action(AllIn, 1000.0)];
    assert ActionSpace(105.0, 300.0, 1.0).value
      == [Action(Fold, 0.0), Action(Call, 105.0)] + [Action(Raise, 210.0)] + [] + [Action(AllIn, 300.0)]
      == [Action(Fold, 0.0), Action(Call, 105.0), Action(Raise, 210.0), Action(AllIn, 300.0)];
  }

  /** With a blind larger than the stack the bet of one blind is still
      offered. */
  lemma BetOfferedBeyondStack(stack: real, bb: real)
    requires bb > stack
    ensures Action(Bet, bb) in ActionSpace(0.0, stack, bb).value
  {
  }
}
