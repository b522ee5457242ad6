# Poker decision engine — a verified Dafny model

This project models the decision core of a screenshot-driven poker assistant, in three parts:

- **Action space.** `get_available_actions` lists the moves open to the hero: check, bet, fold, call, raise and all-in, with their amounts.
- **Equity estimate.** `calculate_equity_fast` estimates the hero's equity by Monte Carlo simulation. The estimate is memoised in the equity cache, which is loaded from and saved to a pickle file. `best_action` scores each move with closed-form expected-value formulas.
- **Table state.** The screenshot parser turns detector and OCR readings into a table state:
  - `dist_points`, `extract_number` and `understand_button`;
  - the post-processing of `parse_image` from line 209 on. It merges duplicate player panels, orders them clockwise, rotates the dealer to the front, names the positions, finds the hero's seat, de-duplicates the card lists and labels the street.

Modules, one per concern:

| module | file | models |
|---|---|---|
| `Common` | common.dfy | `Option`, `Result` with the exceptions kept as values, distinctness, index permutations |
| `Text` | text.dfy | Python's `str()`, `sorted()` on strings, `split()`, `strip()`, `lower()`, `replace()` and `in` |
| `AvailableActions` | available_actions.dfy | `get_available_actions` |
| `EquityCache` | equity_cache.dfy | `EQUITY_CACHE` as a class, the load and save functions, `get_cache_key` |
| `Simulator` | simulator.dfy | `calculate_equity_fast` |
| `BestAction` | best_action.dfy | `best_action` and the EV formulas |
| `Parser` | parser.dfy | `dist_points`, `extract_number`, `understand_button` |
| `TableParse` | table_parse.dfy | `parse_image` lines 209-290 |

How the model is built:

- **State.** The mutable global `EQUITY_CACHE` becomes an object of class `EquityCache.Cache` with a `map` field. Its methods change that field, and `calculate_equity_fast` and `best_action` update it.
- **Loops.** Every loop of the source is a Dafny `method` with a `while` or `for` loop. Each method states its result as a specification function. The properties are proved as lemmas about that function:
  - the dict-building of the action generator;
  - the trial loop, the villain loop and the best-villain search;
  - the EV loop;
  - the word and button scans;
  - the duplicate filter, the angle, position and hero loops.
- **Foreign code and randomness** are parameters:
  - the treys evaluator is `score`, where lower is better;
  - `Card.new`, `md5`, `float()`, `fuzz.ratio`, `round(x, 2)` and the rounded `math.atan2` are function-typed parameters;
  - each `random.shuffle` is an index permutation supplied by the caller. The permutations are applied in turn to the pool, as the in-place shuffle does.
- **Cards** are ids 0..51.
- **Amounts** are `real`. `math.ceil` appears as an explicit floor-based ceiling.
- **Exceptions.** The `ZeroDivisionError` and `ValueError` paths are `Result` errors.

## Model

| member | source | states |
|---|---|---|
| AvailableActions.PutAssigns | src/pokerlogic/available_actions.py:20-46 | after a key assignment the dict holds exactly the old keys plus the assigned one: old keys keep their places, a new key goes last (the length grows iff the key was absent), and duplicate-freedom is kept |
| AvailableActions.GetAvailableActions | src/pokerlogic/available_actions.py:4-48 | the successive insertions build exactly the action list `ActionSpace` describes, including the `ZeroDivisionError` of a zero big blind in the raise branch |
| AvailableActions.ActionSpaceShape | src/pokerlogic/available_actions.py:16-48 | every result has 2 to 5 distinct labels and ends with all-in for the whole stack. With nothing to call it is the three labels starting with check; otherwise it starts with fold |
| AvailableActions.ActionSpaceMembership | src/pokerlogic/available_actions.py:32-46 | facing a bet below the stack: fold, call and all-in are always offered, and each raise size is offered exactly when the stack covers it (iff) |
| AvailableActions.ShortStackOnlyFoldOrShove | src/pokerlogic/available_actions.py:27-29 | a bet at least the stack leaves exactly fold and all-in (iff), never a call or a raise |
| AvailableActions.BetOfferedBeyondStack | src/pokerlogic/available_actions.py:19-22 | with nothing to call, a bet of one big blind is offered even when the blind exceeds the stack |
| AvailableActions.RaiseSizeBounds | src/pokerlogic/available_actions.py:37-42 | a raise size is a whole number of big blinds, at least m × to_call and below m × to_call + bb |
| AvailableActions.RaisesOrdered | src/pokerlogic/available_actions.py:37-44 | the double raise never exceeds the triple raise |
| AvailableActions.RaisesAscendingAndUnique | src/pokerlogic/available_actions.py:37-44 | raise entries appear in strictly increasing size, so two equal sizes collide into one key |
| AvailableActions.ActionSpaceFailsOnlyOnZeroBlind | src/pokerlogic/available_actions.py:37 | the generator fails exactly when the raise branch divides by a zero big blind, and then with a division error |
| AvailableActions.Examples | tests/test_available_actions.py:8-35 | the four calls of the test script, with [fold_0, call_105, raise_210, all-in_300] for (105, 300, 1) |
| AvailableActions.Ceil | src/pokerlogic/available_actions.py:37 | `math.ceil`: the least integer not below its argument |
| EquityCache.Cache.constructor | src/pokerlogic/best_action.py:20 | the cache starts empty |
| EquityCache.Cache.Load | src/pokerlogic/best_action.py:23-33 | a missing file leaves the cache as it was, an unreadable one empties it, otherwise the file's contents replace it |
| EquityCache.Cache.Save | src/pokerlogic/best_action.py:35-41 | saving never fails and never changes the cache. It reports failure exactly when the write failed, and a written file loads back to the cache |
| EquityCache.SaveThenLoad | src/pokerlogic/best_action.py:23-41 | a successful save followed by a load gives back exactly the saved entries |
| EquityCache.LoadOutcomes | src/pokerlogic/best_action.py:26-33 | the three outcomes of a load, for any prior cache |
| EquityCache.CacheKeyOrderIndependent | src/pokerlogic/best_action.py:51-55 | permuting the hero's or the board's cards gives the same key |
| EquityCache.KeyTextSeparatesActive | src/pokerlogic/best_action.py:53 | the hashed text determines the number of active players |
| Text.SortStringsCorrect | src/pokerlogic/best_action.py:51-52 | `sorted()` returns a sorted permutation of its argument |
| Text.SortStringsPermutationInvariant | src/pokerlogic/best_action.py:51-52 | `sorted()` depends only on the multiset of its argument |
| Text.IntToStringInjective | src/pokerlogic/best_action.py:53 | distinct integers are written differently by `str()` |
| Simulator.FullDeckContents | src/pokerlogic/best_action.py:73 | the deck holds every card id 0..51 exactly once |
| Simulator.RemainingCardsExact | src/pokerlogic/best_action.py:72-75 | the pool holds each card that is neither a hero nor a board card, exactly once, and nothing else |
| Simulator.VillainCardsUnseen | src/pokerlogic/best_action.py:82-90 | in every trial, no villain is dealt a hero or a board card |
| Simulator.BoardCardsUnseen | src/pokerlogic/best_action.py:82-96 | the cards completing the board are never hero or board cards |
| Simulator.DealingShape | src/pokerlogic/best_action.py:85-96 | given enough pool cards, villain k holds exactly positions 2k and 2k+1 of the shuffled pool. The board is completed to five from position 2·(active−1), and no card is dealt twice |
| Simulator.BestVillainIsMinimum | src/pokerlogic/best_action.py:102-106 | the best villain score is infinite exactly when there is no villain, otherwise the minimum villain score |
| Simulator.DealVillains | src/pokerlogic/best_action.py:85-90 | the dealing loop gives villain k the slice [2k, 2k+2) and leaves the card index at 2·count |
| Simulator.BestVillainScore | src/pokerlogic/best_action.py:102-106 | the search loop computes `BestVillain` |
| Simulator.DealAndScore | src/pokerlogic/best_action.py:84-114 | one trial's outcome is the hero's score compared with the best villain's: lower wins, equal ties |
| Simulator.RunTrials | src/pokerlogic/best_action.py:77-114 | the counters after the loop are the tally of the trial outcomes, shuffle after shuffle; a non-positive count runs no trial |
| Simulator.TallyCountsEveryTrial | src/pokerlogic/best_action.py:77-114 | wins + ties + losses equals the number of trials |
| Simulator.CountEquityInUnitInterval | src/pokerlogic/best_action.py:116 | (wins + 0.5·ties)/n lies in [0, 1] over any non-empty run |
| Simulator.EquityInUnitInterval | src/pokerlogic/best_action.py:116 | the simulated equity lies in [0, 1] when n_simulations > 0 |
| Simulator.UncontestedTrialWins | src/pokerlogic/best_action.py:87-114 | with at most one active player, every trial is won against the infinite sentinel |
| Simulator.UncontestedEquityIsOne | src/pokerlogic/best_action.py:80-116 | with at most one active player, the tally is all wins and the equity exactly 1.0 |
| Simulator.CalculateEquityFast | src/pokerlogic/best_action.py:57-121 | the result and the new cache are `EquityLookup` and `EntriesAfter` of the old cache: the stored value on a hit. On a miss, the simulated equity is stored; zero simulations divide by zero and store nothing |
| Simulator.SimulateEquity | src/pokerlogic/best_action.py:72-116 | the cache-miss simulation equals `SimulatedEquity`: `Err(ZeroDivision)` for zero simulations, otherwise (wins + ties/2)/n over the given shuffles |
| Simulator.CacheHitIgnoresSimulation | src/pokerlogic/best_action.py:67-69 | on a hit, the stored value is returned whatever the simulation count and shuffles, and the cache is unchanged |
| Simulator.CacheMissStores | src/pokerlogic/best_action.py:116-121 | on a miss with n > 0, the equity (a probability) is stored under the key and no other entry changes |
| Simulator.LookupIsMemoised | src/pokerlogic/best_action.py:67-121 | after a successful lookup, asking again returns the same value for any simulation count |
| Simulator.UncontestedLookupIsOne | src/pokerlogic/best_action.py:67-121 | on a miss with at most one active player, the equity is 1.0 |
| Simulator.LookupOrderIndependent | src/pokerlogic/best_action.py:67 | the key built from `str()` of the cards does not depend on their order |
| BestAction.Cards | src/pokerlogic/best_action.py:159-160 | the list comprehension: one card per name, card i being `Card.new` of name i |
| BestAction.ScoreActions | src/pokerlogic/best_action.py:169-194 | the EV loop pairs each action, in order, with its value `Scored` |
| BestAction.ScoredAt | src/pokerlogic/best_action.py:169-194 | entry i of the scored list is action i with its EV |
| BestAction.BestAction | src/pokerlogic/best_action.py:125-196 | the result and the new cache are `Decision` and `CacheAfterDecision` of the old cache |
| BestAction.BadHandRejected | src/pokerlogic/best_action.py:155-156 | a hand that is not two cards is rejected before any simulation, leaving the cache alone |
| BestAction.DecisionScoresEveryAction | src/pokerlogic/best_action.py:163-196 | a successful decision returns exactly the generator's actions, in order, each with its EV; fold is worth 0 |
| BestAction.DecisionFailures | src/pokerlogic/best_action.py:155-166 | the decision fails exactly on a bad hand size, on zero simulations at a cache miss, or on a zero blind facing a bet below the stack |
| BestAction.CachedDecisionIgnoresSimulation | src/pokerlogic/best_action.py:155-196 | with the equity cached, the decision does not depend on the simulation count or the shuffles |
| BestAction.CallBreakEven | src/pokerlogic/best_action.py:186 | a call is non-negative exactly when the equity reaches the pot odds X/(Y+2X), and zero exactly at them |
| BestAction.CallValueRange | src/pokerlogic/best_action.py:186 | for equity in [0, 1], a call is worth between −X and Y+X |
| BestAction.CheckValueRange | src/pokerlogic/best_action.py:179 | for equity in [0, 1], a check is worth between 0 and the pot |
| BestAction.AggressiveValueBlend | src/pokerlogic/best_action.py:194 | a bet, raise or all-in is the call value when FE = 0, the pot when FE = 1, and lies between the two otherwise |
| BestAction.ValuesMonotoneInEquity | src/pokerlogic/best_action.py:181-194 | more equity never lowers the call or the aggressive value |
| Parser.DistPointsZero | src/cv/parser.py:17-24 | the squared distance is non-negative and zero exactly for equal points |
| Parser.DistPointsSymmetric | src/cv/parser.py:24 | the squared distance is symmetric |
| Parser.ExtractNumber | src/cv/parser.py:26-45 | the backward scan returns `LastNumber` of the words |
| Parser.LastNumberIsLastQualifying | src/cv/parser.py:34-41 | the result is the value of the last word that parses to something other than 66 |
| Parser.LastNumberDefault | src/cv/parser.py:45 | with no qualifying word, the result is 0.0 |
| Parser.LastNumberNeverMisread | src/cv/parser.py:39-41 | 66 is never returned, and a non-zero result is the parsed value of some word |
| Parser.UnderstandButton | src/cv/parser.py:47-77 | the two nested scans return `FirstButton` of the lower-cased, stripped text |
| Parser.FirstButtonIsFirstMatch | src/cv/parser.py:67-77 | there is a result iff some entry has a matching variant; the result is the first such entry, and no earlier entry matches |
| Parser.ButtonResult | src/cv/parser.py:56-77 | the result is None or one of the seven names, and it is a name whenever some variant occurs in the text |
| Parser.CheckFoldOnlyByFuzzyScore | src/cv/parser.py:56-77 | "Check / Fold" can only come from a fuzzy score, because each of its variants contains a "Fold" variant, which is tried first |
| TableParse.Dedupe | src/cv/parser.py:207-218 | `list(set(xs))` holds every element of xs exactly once |
| TableParse.Minus | src/cv/parser.py:221 | set difference: exactly the elements of xs that are not in ys |
| TableParse.AbsorbNear | src/cv/parser.py:232-238 | the inner loop marks exactly the not-yet-used panels near panel i, and decrements the count once per panel marked |
| TableParse.FilterPanels | src/cv/parser.py:224-241 | the filter keeps exactly `Kept` of the panels. The count starts at one per panel and ends at the number kept |
| TableParse.KeptIndicesOrdered | src/cv/parser.py:228-240 | the kept panels are a subsequence of the input and the first panel is always kept |
| TableParse.KeptPanelsApart | src/cv/parser.py:227-235 | any two kept panels have a squared centre distance of at least 100² |
| TableParse.DroppedNearKept | src/cv/parser.py:229-238 | every dropped panel is within 100 pixels of a panel kept before it |
| TableParse.SetAngles | src/cv/parser.py:244-248 | the angle loop sets each panel's angle from its offset to the image centre and changes nothing else |
| TableParse.SortByAngle | src/cv/parser.py:251 | the sort is a permutation |
| TableParse.SortByAngleSorted | src/cv/parser.py:251 | the sorted list is in non-decreasing angle order |
| TableParse.SortByAngleStable | src/cv/parser.py:251 | the sort is stable: for every angle, the panels with that angle keep their input order |
| TableParse.BtnIndexIsFirstNearest | src/cv/parser.py:254-255 | the dealer's index is the first panel of minimum squared distance to the dealer button |
| TableParse.RotateShape | src/cv/parser.py:258 | the rotation keeps length and elements, and seat i holds panel (i + btn) mod n |
| TableParse.PosNamesDistinct | src/cv/parser.py:261-263 | different seats get different position names |
| TableParse.AssignPositions | src/cv/parser.py:261-264 | seat i gets position BTN, SB, BB or M{i−2}, and the name user_{i+1} |
| TableParse.FindHero | src/cv/parser.py:267-274 | the search stops at the first seat whose box contains the hero's card centre. It marks that seat as 'hero' and takes its position and stack |
| TableParse.ParseImageTail | src/cv/parser.py:209-290 | no player panels give the empty result; otherwise the result is the table state `TableTail`, street label as written included |
| TableParse.SeatsShape | src/cv/parser.py:224-278 | the seats are a permutation of the filtered panels, the dealer's seat first; `size` counts them |
| TableParse.SeatPositions | src/cv/parser.py:261-264 | seat i has position PosName(i), no two seats share a position, and each seat keeps its panel's box, centre and stack |
| TableParse.MarkHeroShape | src/cv/parser.py:267-274 | the hero search changes at most one name. The first containing seat, and only it, is named 'hero', and gives hero_pos and hero_stack |
| TableParse.HeroSeat | src/cv/parser.py:267-274 | the hero is found iff some seat's box contains the hero's centre. Then the first such seat alone is named 'hero' and gives hero_pos and hero_stack; otherwise hero_pos is None and hero_stack 0 |
| TableParse.TableCards | src/cv/parser.py:207-287 | the hero and board lists are duplicate-free; the board holds exactly the board detections that are not hero cards; the street is the as-written label of the board size |
| TableParse.StreetLabel | src/cv/parser.py:280-287 | corrected label: Preflop iff 0 cards, Flop iff 1-3, Turn iff 4, River iff 5 or more |
| TableParse.StreetAsWritten | src/cv/parser.py:280-287 | the label as written: Preflop iff 0 cards, Flop iff 1-2, Turn iff 4, River iff 5 or more, and the initial 'None' iff exactly 3 |
| TableParse.CorrectionOnlyOnFlop | src/cv/parser.py:280-287 | the table state with the corrected label differs from the computed one only in the street, and only for a 3-card board, where it says "Flop" instead of 'None' |
| TableParse.FlopLeftUnlabelled | src/cv/parser.py:280-287 | as written, three board cards leave the initial 'None' |
| TableParse.StreetLabelDiffersOnlyOnFlop | src/cv/parser.py:280-287 | the corrected label agrees with the code as written on every count except 3 |

## Left out

- Screen capture, the GUI, the worker thread and its queue, and `app.py`: UI and concurrency.
- The YOLO detector, Tesseract OCR and OpenCV calls, and the detection loop of `parse_image` before line 209:
  - `TableParse.Readings` is what that loop has gathered. That is, the panels in detection order, the back-card count, the pot, the button boxes, the amount to call, the hero's cards, the last board detection, and the dealer, hero and image centres.
  - The early return when nothing is detected (src/cv/parser.py:93-94) is covered, because no detection means no panel.
- The pickle format and the file system: the cache file is a value `Missing | Unreadable | Snapshot(map)`, and the write is given as an outcome. Three states are needed, because a missing file and an unreadable one lead to different caches.
- `print` of progress and error messages.
- md5, treys' `Card.new` and `Evaluator.evaluate`, `float()`, `fuzz.ratio`, `round(x, 2)` and `math.atan2`: these are parameters, so their own properties are not modelled.
- `random.shuffle`: the permutations are supplied, so the statistical quality of the estimate is not modelled. treys' own initial deck shuffle is absorbed by the first permutation.
- Binary floating point: amounts and equities are exact reals. The labels' float formatting (`100` versus `100.0`) is not modelled; a label is a (kind, amount) pair.
- `AvailableActions.GetAvailableActions`: the dict values, all None until best_action fills them, are not kept; only the keys are, in order.
- `best_action`'s `size`, `hero_pos` and `range_hands` parameters and the `lru_cache`, `comb` and `numpy` imports: they are never used, so they are not parameters.
- `BestAction.BestAction` splits each key into a kind and an amount as structured fields, not by `split('_')` on a label.
- `Text.Lower` lowers only the Latin and Russian capitals, the letters that occur in the button variants.
- `EquityCache.ListRepr` writes each card code in quotes without escaping, since card codes are digit strings.
- `TableParse.Dedupe`: Python's set iteration order is not modelled; only the elements and their distinctness are stated.
- `TableParse.Close` compares the squared distance with 100², which for integer distances is the same test as the source's square root below 100.
- The `best_panel` variable of the filter is always `panel_i`, so the model keeps panel i and has no such variable.
- `TableParse.CorrectedTableTail` is the table state with the corrected street label of the finding below; `TableParse.ParseImageTail` and `TableParse.TableTail` keep the label as written.
- `BestAction.Cards`: `Card.new` is a parameter, and the model assumes that it maps card names into the same ids 0..51 as `Simulator.FullDeck`, as treys' single card encoding does. A name mapped outside the deck would stay in the pool, and nothing reports it.
- `Simulator.DealingShape` is stated only when the pool holds enough cards. With fewer, Python's slices come out short, as `Simulator.Slice` models, and no exact positions are claimed.
- The `__main__` demo of best_action.py, the performance script and the image- and pickle-based tests.

## Findings

| source | as written | input that shows it | evidently intended | confidence | as-written member | corrected member |
|---|---|---|---|---|---|---|
| src/cv/parser.py:280-287 | `< 3` gives "Flop" for 1-2 board cards, and no branch matches exactly 3, so the street stays 'None' | a board of exactly 3 cards (the flop) | 1-3 cards are the flop ("Flop"), 4 the turn, 5 the river | not executed | TableParse.FlopLeftUnlabelled (over TableParse.StreetAsWritten) | TableParse.StreetLabel (with TableParse.StreetLabelDiffersOnlyOnFlop and TableParse.CorrectionOnlyOnFlop) |
