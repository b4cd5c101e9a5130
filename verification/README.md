# Verified model of the dealerless poker stack

A Dafny model of the parts of a non-custodial poker table on which money depends: the on-chain fraud
proof, the hold'em engine, the hand evaluators, the dealerless deal, the session pot with its refund
ladder, the heads-up escrow and the replay defence. Each module follows one source component, and each
main result is proved for every input, run or reachable state. `dafny verify dfyconfig.toml` checks
everything.

- **Fraud proof** (`Modular`, `Curve`, `ScriptBytes`, `EcMulCheck`, `Secp256k1`, `EcMulWitness`,
  `ScriptSplice`, `Dleq`, `GateReferee`, `GateConvicts`): the slope-checked multiplication is sound for
  every witness, the witness producer is complete up to one exactly characterised product, no run of the
  referee convicts a valid Chaum-Pedersen proof, and a false equation is convicted exactly when its
  products can be proved.
- **Evaluators** (`Ratings`, `BestHand`, `Scores`, `Eval7`, `Combinations`, `FiveCards`, `Cards`,
  `EvalGo`, `EvalTs`, `EvalAgree`): the single-pass seven-card score is the maximum over all five-card
  subsets, and the three evaluators agree.
- **Engine** (`Engine` the specification, `EngineState` the object and its methods, `EngineTurns`,
  `EngineStreets`, `EngineProgress`, `EngineChips`, `EngineSeats`, `EngineScores`, `EngineShowdown`,
  `SidePots`, `FoldedLeader`): turn order, who opens and when a street ends, termination, conservation
  seat by seat, and who is paid what, over every run.
- **Deal** (`MentalPoker`, `Deal`, `DealAgents`, `Dealer`, `Commitments`, `VerifiedDeal`): the deal is
  correct for any number of seats that fits the deck, and what a verified chain of passes establishes.
- **Session** (`Refunds`, `PotScript`, `SessionPot`, `Session`): balances that total the pot, a refund
  that pays the balances it was last signed for, and a ladder on which the newest matures first.
- **Escrow and replay** (`HeadsUp`, `Replay`).
- Shared: `Sums`, `Options`, `Unordered`.

## What is assumed

The curve facts of SEC 1 section 2.2.1 and SEC 2 section 2.4.1 enter as the hypothesis `GroupLaw` (both
moduli are prime, and the chord-and-tangent sum written out in `Curve` is an abelian group of the stated
order); hashes are parameters, injective where a theorem says so; signatures, script evaluation outside
the modelled contracts, random draws, clocks and what a wallet funds are inputs. The refund and session-pot
sums and the clock differences are taken in 64 bits as the source takes them; a table's buy-ins are taken to
total less than 2^64, and the engine's chips and block heights are unbounded integers. Go's map iteration is
modelled as an arbitrary choice at each step.

## Where the code differs from what it promises

- A commitment opens the global scalar once for the shuffle and once for the remask, and nothing compares
  the two. A chain in which every pass verifies therefore need not be an honest deal:
  `VerifiedDeal.VerifiedIsWhole` gives the exact condition and `VerifiedDeal.VerifiedButNotWhole` a deal
  that passes and is not whole.
- A folded seat can hold the largest commitment, and its excess layer then goes to a seat that never
  matched it: `SidePots.PaidWhereCommitted` is the exact condition, `FoldedLeader.FoldedLeaderBreaksCap` a run.
- A witness for a product equal to -2H is returned and not accepted, although another is
  (`EcMulWitness.ReturnedWitness`, `EcMulWitness.ReturnedButRefused`).
- A request dated 2^63 nanoseconds (about 292 years) or more ahead passes the timestamp check, so it is
  served again whenever its nonce has been swept (`Replay.WindowExactly`, `Replay.ReplayExactly`,
  `Replay.FarFutureServedTwice`).
- `VerifySharedRefund` adds the outputs of a transaction it did not build in 64 bits, so it accepts refunds
  that overpay a seat by 2^64 and can never be mined (`Refunds.AcceptableExactly`, `Refunds.WrappingAccepted`).
- `Apply` takes bets and raises above the `MaxTo` that `Legal` reports and clips them
  (`EngineTurns.LegalExact`, `EngineTurns.OvershootIsAllIn`).
- Requiring five hole cards can never be scored (`EvalGo.BestConstrained`).
- A failed re-sign leaves the refund and its height, as documented, but the balances have already moved, so
  the refund then does not pay every seat its balance (`SessionPot.UnsignedStaysStale`, with the exact
  condition in `SessionPot.PaysCurrentExactly`).

## Model

| member | source | states |
|---|---|---|
| `EcMulCheck.Verify` | contracts/src/WitnessEcMulCheck.runar.ts:32-83 | the 256-step loop accepts exactly the runs of its step specification, and whatever it accepts is the true product |
| `EcMulCheck.CheckerSound` | contracts/src/WitnessEcMulCheck.runar.ts:32-83 | for every witness, an accepted base, scalar and product satisfy out = k·base in the curve group |
| `Secp256k1.ContractIsSound` | contracts/src/WitnessEcMulCheck.runar.ts:32-52 | the constants baked into the contract (field, order, offset point, 256 steps) meet every hypothesis of the soundness proof, so the deployed checker accepts nothing but true products |
| `Curve.QuotientUnique` | contracts/src/WitnessEcMulCheck.runar.ts:56-67 | a slope that passes the checker's congruence is the field quotient, whatever representative is supplied |
| `Curve.NoVerticalTangent` | contracts/src/WitnessEcMulCheck.runar.ts:64-68 | no affine point of a curve of odd prime order has y = 0, so every doubling slope is pinned |
| `EcMulWitness.Inv` | packages/protocol/src/ecmul-witness.ts:15-23 | the square-and-multiply loop returns the (p-2)-nd power, which for a prime field is a true inverse |
| `EcMulWitness.Divide` | packages/protocol/src/ecmul-witness.ts:24-25 | multiplying by the reduced inverse and reducing is division in the field |
| `EcMulWitness.Le33` | packages/protocol/src/ecmul-witness.ts:32-40 | the byte loop writes the 33-byte little-endian form |
| `EcMulWitness.SlopeReadBack` | packages/protocol/src/ecmul-witness.ts:32-40 | every slope the producer writes is read back unchanged by the checker |
| `EcMulWitness.Produces` | packages/protocol/src/ecmul-witness.ts:42-65 | the producer's loop returns the specified witness, or nothing where the source throws |
| `EcMulWitness.ReturnedWitness` | packages/protocol/src/ecmul-witness.ts:42-65 | a returned witness has the required length and is accepted for k·base if and only if k·base is not -2H |
| `EcMulWitness.RefusedMeansNone` | packages/protocol/src/ecmul-witness.ts:42-65 | when the producer throws, no witness whatever makes the checker accept any claimed product |
| `EcMulWitness.ProvableExactly` | packages/protocol/src/ecmul-witness.ts:42-65 | a product can be proved to the checker by some witness if and only if the producer returns |
| `EcMulWitness.ReturnedButRefused` | packages/protocol/src/ecmul-witness.ts:42-65 | for the product 1·(-2H) the witness returned is not accepted although another one is, so the producer is incomplete |
| `ScriptSplice.PushOnChain` | contracts/src/GateReferee.runar.ts:211-319 | the threshold ladder writes the minimal script-number push |
| `ScriptSplice.PushOffChain` | scripts/gates/src/gate-a/txs.ts:197-206 | the byte loop of the off-chain encoder writes the same push, so both sides agree on every scalar |
| `ScriptSplice.PushReadBack` | contracts/src/GateReferee.runar.ts:211-319 | a script interpreter reads the pushed bytes back as the scalar and leaves the rest of the script |
| `ScriptSplice.PushMinimal` | contracts/src/GateReferee.runar.ts:211-319 | no shorter byte string is read as the same scalar |
| `ScriptSplice.CheckerReadBack` | contracts/src/GateReferee.runar.ts:202-204 | with 64-byte points a spliced script carries exactly its base, scalar, product and body |
| `ScriptSplice.UncheckedWidthForges` | contracts/src/GateReferee.runar.ts:122-164 | without the 64-byte check on the product the network reads a different claim, so the check is needed |
| `Dleq.ChallengesAgree` | packages/protocol/src/dleq.ts:45-51 | the big-endian off-chain challenge equals the one the script derives by reversing bytes |
| `Dleq.AffineRoundTrip` | packages/protocol/src/dleq.ts:28-43 | the 64-byte affine encoding loses nothing from bytes to point and back |
| `Dleq.PointRoundTrip` | packages/protocol/src/dleq.ts:28-43 | ... nor from point to bytes and back |
| `Dleq.ChallengeCovers` | packages/protocol/src/dleq.ts:27-48 | the challenge is the big-endian digest, modulo the order, of bytes that spell the domain, a zero byte, the four points of the statement and both commitments, each at its place |
| `Dleq.DigestFixes` | packages/protocol/src/dleq.ts:27-48 | under an injective hash one digest belongs to one statement and one pair of commitments |
| `Dleq.ProvedVerifies` | packages/protocol/src/dleq.ts:74-110 | whatever prove returns, verify accepts |
| `Dleq.SpecialSoundness` | packages/protocol/src/dleq.ts:95-110 | two answers to different challenges on the same commitments give the common discrete logarithm, so for a false statement at most one challenge can be answered |
| `GateReferee.Contract.Prepare` | contracts/src/GateReferee.runar.ts:122-164 | prepare is accepted exactly when its assertions hold, moves the stored state and value as specified and emits the two checker scripts around the body it was given; for a deployable record these are the scripts the soundness proof speaks of |
| `GateReferee.Contract.Fraud` | contracts/src/GateReferee.runar.ts:166-187 | fraud is accepted exactly when its assertions hold, and moves to phase 2 releasing the bond to the stored key hash |
| `GateReferee.InputsBound` | contracts/src/GateReferee.runar.ts:166-187 | the committed input hash forces the spending transaction to spend the two checkers its own prepare created |
| `GateReferee.CheckerSpent` | contracts/src/GateReferee.runar.ts:202-204 | a spent checker output proves its product, and that some witness is accepted for it |
| `GateReferee.Conviction` | contracts/src/GateReferee.runar.ts:166-187 | if fraud is accepted in a kept run, the disputed equation is false |
| `GateReferee.EveryRunKeeps` | contracts/src/GateReferee.runar.ts:122-187 | in every run from a phase-0 deployment the value goes v, v + bond, v, and phase 2 means the disputed equation is false and its products can be proved |
| `GateReferee.BondReturned` | contracts/src/GateReferee.runar.ts:122-187 | in every run a conviction pays the bond to the key hash given by the party that prepared it and put the bond up |
| `GateReferee.SameChallenge` | contracts/src/GateReferee.runar.ts:189-200 | the referee and the prover hash the same statement to the same challenge |
| `GateReferee.ChallengeCoversRecord` | contracts/src/GateReferee.runar.ts:189-200 | its challenge is the big-endian digest, modulo the order, of the recorded domain, a zero byte, the generator, the recorded points and both commitments, each at its place |
| `GateReferee.HonestNeverConvicted` | contracts/src/GateReferee.runar.ts:122-187 | no proof that verify accepts is convicted in any run |
| `GateConvicts.ConvictableExactly` | contracts/src/GateReferee.runar.ts:122-187 | from a deployed record some run of prepare and fraud convicts an equation if and only if it is false and both its products can be proved to the checker |
| `Eval7.Tally` | contracts/gen/gen-eval7.py:16-18 | seven distinct cards are counted rank by rank |
| `Eval7.FindFlush` | contracts/gen/gen-eval7.py:19-23 | the suit loop finds the flush suit, if there is one |
| `Eval7.FindStraight` | contracts/gen/gen-eval7.py:27-33 | the straight scan finds the highest straight, the wheel last |
| `Eval7.FindGroups` | contracts/gen/gen-eval7.py:34-40 | the group scan finds the quads, the two best trips and the two best pairs |
| `Eval7.Kickers` | contracts/gen/gen-eval7.py:67-72 | the kicker loop writes the highest ranks left in into consecutive slots |
| `Eval7.ScoreOf` | contracts/gen/gen-eval7.py:41-73 | the category chain and packing give the encoded rating of the single-pass evaluation |
| `Eval7.Check` | contracts/src/Eval7.runar.ts:22-542 | check refuses an index out of range and otherwise accepts exactly the claimed score that seven distinct cards are worth |
| `Ratings.EvaluateShows` | contracts/gen/gen-eval7.py:34-66 | the pattern the single pass chooses is one the cards show |
| `Ratings.EvaluateDominates` | contracts/gen/gen-eval7.py:34-66 | ... and no pattern the cards show beats it |
| `BestHand.OneFlush` | contracts/gen/gen-eval7.py:22-23 | fewer than ten cards hold at most one flush, so taking the last suit with five is harmless |
| `BestHand.FiveShow` | contracts/gen/gen-eval7.py:16-66 | whatever the cards show, five of them show on their own |
| `BestHand.OnePassIsBest` | contracts/src/Eval7.runar.ts:22-542 | for five to seven cards the single pass is worth exactly the best five-card subset: attained and never exceeded |
| `Scores.EncodeOrders` | packages/protocol/src/eval.ts:54-56 | both score encodings order well-formed ratings exactly as the ratings themselves |
| `EvalTs.Score5Agrees` | packages/protocol/src/eval.ts:22-57 | score5 is the encoded rating of its five cards |
| `EvalTs.Search` | packages/protocol/src/eval.ts:66-77 | the recursive search returns the best score among the completions of the current pick, or what it was given |
| `EvalTs.BestScore` | packages/protocol/src/eval.ts:60-79 | bestScore throws exactly on fewer than five, repeated or invalid cards, and otherwise returns the maximum over all five-card choices |
| `Combinations.ForEach` | internal/game/eval/eval.go:277-301 | with a callback that never stops it every strictly increasing k-sequence below n is visited exactly once, in lexicographic order, for all n and k |
| `Combinations.ForEachUntil` | internal/game/eval/eval.go:277-301 | for any callback the choices are visited once each and in lexicographic order, and one is missed only when an earlier visit stopped the enumeration |
| `Combinations.Advance` | internal/game/eval/eval.go:288-300 | one in-place step of the index array |
| `FiveCards.SortGroups` | internal/game/eval/eval.go:251-261 | the in-place insertion sort permutes its ranks into count-then-rank order |
| `FiveCards.RateIsEvaluate` | internal/game/eval/eval.go:206-235 | the switch over rank groups rates five cards as the single pass does |
| `EvalGo.ByCount` | internal/game/eval/eval.go:196-204 | the ranks that occur, in kicker precedence |
| `EvalGo.StraightHigh` | internal/game/eval/eval.go:179-194 | the scan for five ranks in a row finds the highest straight or none |
| `EvalGo.Score5` | internal/game/eval/eval.go:164-247 | five cards are given the category and packed score of their rating |
| `EvalGo.Best` | internal/game/eval/eval.go:83-108 | Best refuses fewer than five or invalid cards and otherwise returns the maximum over all choices, with cards that attain it |
| `EvalGo.BestConstrained` | internal/game/eval/eval.go:117-161 | the constrained search returns the maximum over exactly the allowed choices; from five required hole cards up it always refuses, because no choice of zero board cards is visited |
| `EvalGo.BestIgnoresOrder` | internal/game/eval/eval.go:83-161 | reordering the hole or the board changes neither whether Best and BestConstrained score, nor the score, for every number of required hole cards |
| `EvalGo.ScoreRange` | internal/game/eval/eval.go:164-247 | a score is never negative |
| `EvalAgree.FiveAgree` | packages/protocol/src/eval.ts:22-57 | on five distinct cards the group evaluators rate what the single pass rates |
| `EvalAgree.OnChainIsReference` | contracts/src/Eval7.runar.ts:22-542 | on seven distinct cards the score the contract accepts is the reference's best score |
| `EvalAgree.SameOrder` | packages/protocol/src/eval.ts:60-79 | bestScore and Best order any two hands of five or more distinct cards alike, despite the different rank offsets |
| `Cards.IndexRoundTrip` | internal/game/cards/cards.go:80-88 | a card index determines the card and conversely |
| `EngineState.Start` | internal/game/engine/engine.go:189-255 | New refuses exactly the bad configurations and otherwise returns the specified first state |
| `EngineState.State.NextAbleToAct` | internal/game/engine/engine.go:281-290 | the scan returns the next able seat going round, or -1 |
| `EngineState.State.LegalNow` | internal/game/engine/engine.go:313-339 | Legal reports the specified options |
| `EngineState.State.TakeAction` | internal/game/engine/engine.go:356-407 | the action switch changes the seat as specified, or refuses and changes nothing |
| `EngineState.State.RaiseBy` | internal/game/engine/engine.go:383-401 | a bet or raise commits, moves the minimum only on a full raise and reopens the action |
| `EngineState.State.Apply` | internal/game/engine/engine.go:342-409 | Apply takes the specified step or refuses with the state unchanged |
| `EngineState.State.IsClosed` | internal/game/engine/engine.go:427-447 | the two closing loops compute the specified test |
| `EngineState.State.Advance` | internal/game/engine/engine.go:421-456 | passing the turn takes the specified step |
| `EngineState.State.NextStreet` | internal/game/engine/engine.go:458-494 | moving to the next street takes the specified step, pausing when reveals are deferred |
| `EngineState.State.FinishStreetTransition` | internal/game/engine/engine.go:516-529 | the remaining streets run out when at most one seat can act |
| `EngineState.State.SupplyBoard` | internal/game/engine/engine.go:497-514 | revealed board cards are accepted exactly when awaited, of the right number and valid |
| `EngineState.State.Settle` | internal/game/engine/engine.go:533-565 | the hand ends uncontested, pauses for a showdown, or is scored |
| `EngineState.State.SetRevealedHole` | internal/game/engine/engine.go:568-579 | a seat's revealed cards are recorded exactly when the seat and the cards are valid |
| `EngineState.State.CompleteShowdown` | internal/game/engine/engine.go:582-591 | a deferred showdown is scored exactly when one is awaited |
| `EngineState.CollectLevels` | internal/game/engine/engine.go:598-608 | whatever order the level set is read in, the sorted list is the distinct positive commitments |
| `EngineState.LayerWinners` | internal/game/engine/engine.go:641-659 | the running best finds exactly the contenders with the top score, lowest seat first, or fails when one cannot be scored |
| `EngineState.Award` | internal/game/engine/engine.go:661-670 | every winner's tally grows by an equal share, and the first winner's by the odd chips |
| `EngineState.AwardLayers` | internal/game/engine/engine.go:597-671 | the layer loop computes the specified payouts, or fails exactly when some layer cannot be scored |
| `EngineState.State.ScoreAndPay` | internal/game/engine/engine.go:597-678 | for every iteration order of the level set and of the payout map the same state results |
| `EngineTurns.NewKeeps` | internal/game/engine/engine.go:189-255 | a new hand in which someone can act satisfies the turn invariant |
| `EngineTurns.StepKeeps` | internal/game/engine/engine.go:342-591 | every accepted operation keeps the turn invariant |
| `EngineTurns.EveryRunKeeps` | internal/game/engine/engine.go:342-529 | in every run each state is done, awaiting a reveal, or has an able seat to act that has not acted; those still to act form one cyclic run from it and those through have matched the bet |
| `EngineTurns.TurnPasses` | internal/game/engine/engine.go:449-453 | after the front seat is through the turn goes to a seat still to act and the cyclic order holds |
| `EngineTurns.ExtraTestIdle` | internal/game/engine/engine.go:437-447 | in such states the second closing test never changes the result |
| `EngineTurns.WagerRaises` | internal/game/engine/engine.go:375-388 | an accepted bet or raise always exceeds the current bet, so the refusal of one that adds nothing never fires |
| `EngineTurns.CallRule` | internal/game/engine/engine.go:369-373 | a call matches the bet exactly or puts the whole smaller stack in, and leaves the bet and the minimum raise alone |
| `EngineTurns.RaiseRule` | internal/game/engine/engine.go:375-401 | a raise that leaves chips behind is at least the last full raise; only a full raise moves the minimum; everyone else able must act again |
| `EngineTurns.PassRule` | internal/game/engine/engine.go:356-368 | a fold or a check moves no chips and changes nobody else |
| `EngineTurns.BlindRule` | internal/game/engine/engine.go:242-253 | the small blind is the button heads-up and otherwise the seat after it, the big blind the next seat, nobody else has put anything in, and the seat after the big blind acts first if it can |
| `EngineStreets.FirstToAct` | internal/game/engine/engine.go:250-253 | before the flop the first able seat after the big blind is to act |
| `EngineStreets.EveryStreetOpens` | internal/game/engine/engine.go:458-529 | in every run, whenever a flop, turn or river opens with betting nobody has acted on it and the first able seat after the button is to act |
| `EngineStreets.ButtonOpensLast` | internal/game/engine/engine.go:516-529 | so the button opens a street only when nobody else can act |
| `EngineStreets.StreetEnds` | internal/game/engine/engine.go:421-456 | betting goes on, with the next able seat and nothing else changed, exactly as long as two seats are in and someone still owes an action or chips |
| `EngineStreets.LastOneWins` | internal/game/engine/engine.go:533-545 | when all others have folded the hand is over and the one left is paid everything committed |
| `EngineScores.DrawCards` | internal/game/engine/engine.go:488-492 | the board stays the run of the deck last dealt, with the number of cards the street calls for |
| `EngineTurns.LegalExact` | internal/game/engine/engine.go:313-409 | Apply accepts exactly the options Legal announces, bounds included, and besides them bets and raises aimed above MaxTo |
| `EngineTurns.OvershootIsAllIn` | internal/game/engine/engine.go:375-388 | a bet or raise above MaxTo is clipped: it does exactly what going all in does |
| `EngineTurns.AcceptsExactly` | internal/game/engine/engine.go:342-401 | in terms of the chips alone, exactly when a check, a call, a bet or a raise is accepted |
| `EngineTurns.LegalAmounts` | internal/game/engine/engine.go:313-339 | a call moves the amount announced, the least and the greatest raise announced are accepted, no lower one is, and the greatest leaves nothing behind |
| `EngineTurns.NeverStuck` | internal/game/engine/engine.go:342-591 | a fold, the right board cards, or the showdown is always accepted |
| `EngineProgress.StepFalls` | internal/game/engine/engine.go:342-591 | every accepted operation but a hole-card reveal lowers a rank: stage, then chips behind, then seats to act |
| `EngineProgress.EveryRunEnds` | internal/game/engine/engine.go:342-591 | a run has at most as many such operations as the rank of its first state |
| `EngineChips.StepKeepsChips` | internal/game/engine/engine.go:342-678 | every operation keeps stacks plus commitments minus payouts, and pays out the whole pot when it ends a hand with a score |
| `EngineChips.EveryRunConserves` | internal/game/engine/engine.go:189-678 | in every run the chips stay what the seats brought, and once done without a scoring error the stacks alone hold them |
| `EngineSeats.StepSeats` | internal/game/engine/engine.go:342-678 | every operation keeps each seat's own chips; only a fold in turn folds a seat, only a reveal for a seat changes its cards, and the board grows only by the deck or the cards supplied |
| `EngineSeats.EveryRunSeats` | internal/game/engine/engine.go:189-678 | in every run what a seat holds, has put in and has not been paid back is what it brought, it is folded exactly if it folded in turn, its cards are those last revealed for it or dealt to it, and the board is what was dealt or supplied |
| `EngineShowdown.EveryRunPays` | internal/game/engine/engine.go:533-678 | in every run, the moment a hand is over its last unfolded seat has everything committed or the side pots of the seats have been paid |
| `EngineShowdown.FoldedUnpaid` | internal/game/engine/engine.go:533-678 | a folded seat is then never paid |
| `EngineShowdown.BeatenHandUnpaid` | internal/game/engine/engine.go:626-671 | an unfolded hand beaten by one that has put in as much or more is paid nothing |
| `EngineShowdown.BestHandWins` | internal/game/engine/engine.go:597-678 | when no folded seat has put in the most, the best hand is paid from every seat what that seat put in against it |
| `EngineScores.ActScores` | internal/game/engine/engine.go:533-565 | with no hole-card constraint no action ever ends in a scoring error, whether cards come from the deck or are revealed later |
| `EngineScores.ShowdownScores` | internal/game/engine/engine.go:582-678 | a deferred showdown never fails to score once every unfolded seat has revealed real cards |
| `EngineScores.StepScores` | internal/game/engine/engine.go:342-678 | no operation ends in a scoring error, given real cards in the unfolded seats at a showdown |
| `EngineScores.EveryRunScores` | internal/game/engine/engine.go:189-678 | no run meets a scoring error, so a hand that is over has all its chips back in the stacks |
| `SidePots.LayerIdentity` | internal/game/engine/engine.go:610-625 | a layer holds exactly what the seats put in between its two levels |
| `SidePots.LayerPaid` | internal/game/engine/engine.go:661-670 | every chip of a layer is paid out |
| `SidePots.PayoutsConserve` | internal/game/engine/engine.go:597-678 | a settlement pays out exactly the sum of the commitments |
| `SidePots.OnlyLivePaid` | internal/game/engine/engine.go:616-639 | only unfolded seats are paid, and never a negative amount |
| `SidePots.EvenSplit` | internal/game/engine/engine.go:659-670 | two winners of a layer receive the same but for odd chips, fewer than the winners, on the lowest of them |
| `SidePots.CappedWinnings` | internal/game/engine/engine.go:616-671 | if an unfolded seat holds the largest commitment, no seat wins more than the sum of min(commitment, its own) |
| `SidePots.BeatenUnpaid` | internal/game/engine/engine.go:641-659 | a seat beaten by an unfolded one that has put in as much or more wins no layer |
| `SidePots.BestHandTakes` | internal/game/engine/engine.go:610-671 | under an unfolded leader the one best score wins exactly the sum of min(commitment, its own) |
| `SidePots.PaidWhereCommitted` | internal/game/engine/engine.go:626-639 | every layer goes to seats that paid into it if and only if an unfolded seat holds the largest commitment |
| `SidePots.OvercalledPayout` | internal/game/engine/engine.go:626-639 | with stakes 5, 7 and a folded 10 the better of the two short seats is paid 18 against a cap of 15, whatever the scores |
| `FoldedLeader.FoldedLeaderBreaksCap` | internal/game/engine/engine.go:189-678 | a run of the engine that gets there: two seats call all in for 5 and 7, the big blind folds its option, and with the cards dealt the first is paid 18 against a cap of 15 |
| `SidePots.SettlesExactly` | internal/game/engine/engine.go:641-658 | with every unfolded seat in for something, scoring succeeds if and only if each of them can be scored |
| `MentalPoker.InverseUndoes` | internal/game/mentalpoker/curve.go:119-128 | it is a valid scalar and multiplies back to one modulo the order |
| `MentalPoker.TimesComposes` | internal/game/mentalpoker/curve.go:131-143 | the product of two scalars is never zero and masks as the two in turn |
| `MentalPoker.MaskSucceeds` | internal/game/mentalpoker/curve.go:218-231 | masking a valid point with a valid scalar never fails |
| `MentalPoker.UnmaskMasked` | internal/game/mentalpoker/curve.go:234-240 | unmasking strips exactly what masking applied |
| `MentalPoker.CardPointsDiffer` | internal/game/mentalpoker/curve.go:166-176 | different cards have different encodings |
| `MentalPoker.CardIndexOf` | internal/game/mentalpoker/deck.go:213-228 | the search returns the card a point encodes, and nothing exactly when there is none |
| `MentalPoker.ValidatePermutation` | internal/game/mentalpoker/deck.go:91-106 | accepts exactly the permutations of [0, n) |
| `MentalPoker.NewPermutation` | internal/game/mentalpoker/deck.go:109-125 | whatever the random draws, the swaps leave a permutation |
| `MentalPoker.ShuffleStep` | internal/game/mentalpoker/deck.go:132-149 | refused exactly for an invalid scalar, permutation or point; otherwise position perm[i] holds the masked i-th point |
| `MentalPoker.RemaskStep` | internal/game/mentalpoker/deck.go:158-186 | refused exactly for invalid scalars, a wrong count or an invalid point; otherwise each position swaps the global mask for its own |
| `MentalPoker.UnmaskPosition` | internal/game/mentalpoker/deck.go:192-206 | strips the scalars one after another |
| `MentalPoker.StripAll` | internal/game/mentalpoker/deck.go:192-206 | a card under the product of any scalars opens to itself when they are stripped in any listed order |
| `MentalPoker.StripExact` | internal/game/mentalpoker/deck.go:192-206 | stripping proper scalars always succeeds and leaves exactly the point they mask |
| `Deal.ShuffleAll` | internal/game/mentalpoker/deck.go:132-149 | after all shuffles position Arrangement[i] holds the product of the globals times card i |
| `Deal.RemaskAll` | internal/game/mentalpoker/deck.go:158-186 | after m remasks each position carries the others' globals and the first m seats' own scalars |
| `Deal.FinalDeck` | internal/webui/dealer.go:110-142 | the final deck is, position by position, the product of every seat's own scalar times one card under the composed permutation |
| `Deal.ReadsCard` | internal/game/mentalpoker/deck.go:192-228 | with every seat's scalar for a position, in any order, the position opens to its card |
| `Deal.PartialOpens` | internal/game/mentalpoker/deck.go:192-228 | with scalars missing a position is read as card j if and only if their product takes the true card to j, so truly only where they cancel |
| `Deal.CardsDiffer` | internal/webui/dealer.go:155-161 | different positions hold different cards |
| `DealAgents.Agent.Commit` | internal/agent/deal.go:61-100 | fresh secrets are stored once per hand; a second commit keeps the first |
| `DealAgents.Agent.Shuffle` | internal/agent/deal.go:179-193 | a pass is served exactly for a known hand and a proper deck of its size, and applies the committed transformation |
| `DealAgents.Agent.Remask` | internal/agent/deal.go:195-207 | likewise for the remask |
| `DealAgents.Agent.Final` | internal/agent/deal.go:249-256 | a proper final deck is recorded, any other refused |
| `DealAgents.Agent.Reveal` | internal/agent/deal.go:214-237 | exactly this seat's scalars for the positions asked for, refused for none or for one outside the deck |
| `DealAgents.Agent.Read` | internal/agent/deal.go:258-306 | with all other seats' disclosures, in whatever order the map yields them, the seat reads the card dealt to the position |
| `Dealer.HoleAndBoard` | internal/webui/dealer.go:345-360 | seat by seat the hole positions, then five board positions, all different |
| `Dealer.Collect` | internal/webui/dealer.go:166-193 | every other seat's scalars are gathered position by position; fails exactly for no positions or one outside the deck |
| `Dealer.ReadHole` | internal/webui/dealer.go:195-211 | a seat reads the cards at its own positions |
| `Dealer.ReadBoard` | internal/webui/dealer.go:214-253 | two seats read every board card and always agree, so the disagreement error is unreachable |
| `Dealer.RunDeal` | internal/webui/dealer.go:87-255 | succeeds if and only if there are two seats, a hand id, at least one hole card, enough cards and no seat bound to another deck size; then every seat has its cards and all have one board |
| `Dealer.NoCardTwice` | internal/webui/dealer.go:155-253 | no card is dealt twice, to two seats, to a seat and the board, or twice to either |
| `Commitments.EncodedInjective` | internal/game/proof/proof.go:34-55 | different lists of length-prefixed fields never encode alike |
| `Commitments.Hasher.Add` | internal/game/proof/proof.go:43-47 | a field is appended behind its eight-byte length |
| `Commitments.Hasher.Sum` | internal/game/proof/proof.go:49-55 | the digest is the hash of the encoded fields |
| `Commitments.MakeShuffleCommitment` | internal/game/proof/proof.go:61-73 | the shuffle commitment, refused for an invalid scalar or an empty permutation |
| `Commitments.MakeRemaskCommitment` | internal/game/proof/proof.go:77-94 | the remask commitment, refused for an invalid scalar or none |
| `Commitments.FieldsReadBack` | internal/game/proof/proof.go:34-55 | the length-prefixed fields are read back as they were written |
| `Commitments.ShuffleHashes` | internal/game/proof/proof.go:57-73 | read field by field, what a shuffle commitment hashes is its domain, the scalar in 32 bytes and the permutation in four bytes an entry |
| `Commitments.RemaskHashes` | internal/game/proof/proof.go:75-94 | and what a remask commitment hashes is its domain, the global scalar and every position's own |
| `Commitments.ShuffleBinding` | internal/game/proof/proof.go:61-73 | two shuffle openings share a commitment if and only if the scalars are equal and the entries agree in their low 32 bits |
| `Commitments.RemaskBinding` | internal/game/proof/proof.go:77-94 | a remask commitment opens exactly one way |
| `Commitments.DomainsSeparate` | internal/game/proof/proof.go:21-29 | no commitment to a shuffle is also one to a remask |
| `VerifiedDeal.VerifyShuffle` | internal/game/proof/proof.go:102-123 | accepts exactly the output of the committed shuffle |
| `VerifiedDeal.VerifyRemask` | internal/game/proof/proof.go:126-146 | accepts exactly the output of the committed remask |
| `VerifiedDeal.CommitmentsFixDeal` | internal/game/proof/proof.go:57-146 | under an injective hash, two chains that verify against the same commitments have the same openings and the same decks |
| `VerifiedDeal.OpensTo` | internal/game/proof/proof.go:96-146 | in a fully verified chain each position opens to one card times a common residue |
| `VerifiedDeal.VerifiedIsWhole` | internal/game/proof/proof.go:96-146 | a fully verified chain holds every card exactly once if and only if the scalars opened for the shuffles and for the remasks have the same product modulo the order |
| `VerifiedDeal.HonestGlobalsWhole` | internal/game/proof/proof.go:96-146 | in particular when every seat takes off the scalar it put on |
| `VerifiedDeal.VerifiedButNotWhole` | internal/game/proof/proof.go:125-146 | in a two-seat deal a seat that puts 2 on and takes 1 off passes every verification and leaves a deck that is not whole |
| `Refunds.FindPotInput` | internal/protocol/cosign/pot.go:266-276 | the first input that spends the outpoint, if any |
| `Refunds.VerifySharedRefund` | internal/protocol/cosign/shared_refund.go:39-125 | accepts exactly the refunds that are acceptable with amounts added in 64 bits, in whatever order the balances are read |
| `Refunds.AcceptedPays` | internal/protocol/cosign/shared_refund.go:78-125 | an accepted refund whose outputs total less than 2^64 pays each balance exactly, except at most one short by no more than the fee bound, each to a script of its own and nothing else, leaves at most the bound as fee, spends the pot and has a binding locktime no later than the one allowed |
| `Refunds.LowerFolds` | internal/protocol/cosign/shared_refund.go:84-110 | scripts are compared without regard to the case of their letters |
| `Refunds.AcceptableExactly` | internal/protocol/cosign/shared_refund.go:80-125 | a refund is truly acceptable if and only if the verifier accepts it and its outputs total less than 2^64 |
| `Refunds.WrappingAccepted` | internal/protocol/cosign/shared_refund.go:80-125 | a family of refunds that pay one seat 2^64 too much and are accepted, because both sums wrap round |
| `Refunds.BuildSharedRefund` | internal/protocol/cosign/settle.go:475-545 | succeeds exactly when the height, shares, total (added in 64 bits) and fee are in order; pays every share, the first largest less the fee, from the pot with a binding locktime |
| `Refunds.BuiltIsAccepted` | internal/protocol/cosign/settle.go:475-545 | every refund built for distinct recipients is accepted under the matching expectation |
| `PotScript.Build` | internal/protocol/cosign/pot.go:40-76 | built exactly for two to six present and pairwise different keys |
| `PotScript.PushesDetermine` | internal/protocol/cosign/pot.go:57-71 | the script determines its keys and their order |
| `PotScript.ScriptRequiresAll` | internal/protocol/cosign/pot.go:40-76 | read as an interpreter reads it the script is OP_n, the n keys in order, OP_n and OP_CHECKMULTISIG, so all n must sign |
| `SessionPot.Recipients` | internal/webui/pot.go:497-506 | the seats that hold something, in order, each with its own key and balance |
| `SessionPot.SharesTotal` | internal/webui/pot.go:497-506 | leaving out empty seats does not change the total |
| `SessionPot.SharesPaired` | internal/webui/pot.go:497-506 | every seat with a balance has one share, of that balance and to its own key |
| `SessionPot.RefundPaysSeats` | internal/webui/pot.go:496-538 | with distinct locks a refund held pays each seat its balance to its own key, the first of the largest less the fee, and nothing else |
| `SessionPot.ResignRefund` | internal/webui/pot.go:496-538 | the refund and its height change only when the new one is built and signed, and it then pays the balances; otherwise both stay |
| `SessionPot.PotManager.OpenPot` | internal/webui/pot.go:96-152 | a pot exists only with a signed refund that pays every seat its opening balance; every seat starts with an equal share, 144 blocks of lock and a floor of 12 |
| `SessionPot.PotManager.ApplyHand` | internal/webui/pot.go:544-576 | refused for no pot, a wrong total or an exhausted ladder with nothing changed; otherwise the balances move, and if re-signed the refund steps down and pays the new balances |
| `SessionPot.Ladder` | internal/webui/pot.go:563-575 | over every run of successes and failures each re-sign lowers the locktime by exactly 4 on the same outpoint, stays above the floor, and there are at most 32 |
| `SessionPot.StaleLoses` | internal/webui/pot.go:60-64 | wherever a replaced refund is final the newest has been final for at least 4 blocks |
| `SessionPot.RefundHeld` | internal/webui/pot.go:496-576 | over every run the refund held is that of the last successful re-sign and pays the balances of that moment, hence the current ones after a success |
| `SessionPot.EveryRefundPays` | internal/webui/pot.go:496-576 | so at any state of a run it pays each seat what it had at the last successful re-sign |
| `SessionPot.PaysCurrentExactly` | internal/webui/pot.go:50-53 | at any state of a run the refund held pays the current balances if and only if the shares are those it was signed for or differ from them only in who carries the fee |
| `SessionPot.UnsignedStaysStale` | internal/webui/pot.go:544-576 | a run in which a failed re-sign leaves the refund paying what the seats held before the hand |
| `SessionPot.FullLadder` | internal/webui/pot.go:563-567 | from every opened pot a run of 32 successful re-signs, after which the 33rd is refused |
| `Session.LiveTable.OpenPotForHand` | internal/webui/live.go:851-889 | the buy-ins always divide the pot, so opening never reports a mismatch |
| `Session.LiveTable.DealHand` | internal/webui/live.go:276-322 | a hand starts from the carried stacks, the first from the buy-in |
| `Session.LiveTable.Act` | internal/webui/live.go:375-416 | an accepted action is the engine's step, and a finished hand's stacks are carried |
| `Session.LiveTable.FinishHand` | internal/webui/live.go:423-436 | the carried stacks total the table's chips |
| `Session.LiveTable.ApplyHandBalances` | internal/webui/live.go:968-997 | the balances always total the pot, so both mismatch errors are unreachable, and after a success the refund pays the final stacks |
| `Session.LiveTable.FinalBalances` | internal/webui/live.go:978-983 | the balances collected hold each seat's final stack, total the table's chips and fit 64 bits |
| `Session.LiveTable.PrepareNextHand` | internal/webui/live.go:894-916 | the next hand is prepared exactly when the last is over, nobody sits out and everyone covers the big blind |
| `Session.Played` | internal/game/engine/engine.go:342-678 | a move at the table keeps the hand, its chips and its cards in order and never fails to score |
| `HeadsUp.Contract.PostState` | contracts/src/HeadsUpReferee.runar.ts:83-104 | accepted exactly when its assertions hold; the continuation is the signed state with the whole value |
| `HeadsUp.Contract.Move` | contracts/src/HeadsUpReferee.runar.ts:110-149 | accepted exactly when its assertions hold; only the mover's commitment changes |
| `HeadsUp.Contract.FoldNow` | contracts/src/HeadsUpReferee.runar.ts:152-160 | accepted exactly when the mover signed and the outputs are the fold payout |
| `HeadsUp.Contract.ForfeitNow` | contracts/src/HeadsUpReferee.runar.ts:163-170 | accepted exactly from the deadline on, with the fold payout |
| `HeadsUp.Contract.PayoutBytes` | contracts/src/HeadsUpReferee.runar.ts:179-194 | the serialized payout of a fold by the seat on the clock |
| `HeadsUp.EveryRunSound` | contracts/src/HeadsUpReferee.runar.ts:83-149 | in every run 0 <= com <= bal for both seats and the escrow value is carried whole |
| `HeadsUp.PostRule` | contracts/src/HeadsUpReferee.runar.ts:83-104 | what both seats signed is what is posted, at the height of its rung |
| `HeadsUp.MoveRule` | contracts/src/HeadsUpReferee.runar.ts:110-149 | exactly which calls and raises the seat on the clock may make, and that its commitment becomes the target while the opponent's stays |
| `HeadsUp.PayoutsTotal` | contracts/src/HeadsUpReferee.runar.ts:152-194 | every payout is non-negative and the two total bal0 + bal1 |
| `HeadsUp.FoldPays` | contracts/src/HeadsUpReferee.runar.ts:152-194 | whoever folds or forfeits in any run, the outputs read off the bytes pay it what it brought less what it put in, to its own key, and the opponent what it brought and that too, and then at most the change |
| `HeadsUp.PayoutPossible` | contracts/src/HeadsUpReferee.runar.ts:152-194 | conversely, once posted an escrow can always be paid out: with the right outputs a fold, and from the deadline on a forfeit, is accepted |
| `HeadsUp.OnlyOwnSignature` | contracts/src/HeadsUpReferee.runar.ts:83-149 | over any stretch a seat does not sign its committed chips stay the same |
| `HeadsUp.OpponentCannotRaise` | contracts/src/HeadsUpReferee.runar.ts:83-170 | so an opponent's moves never change what a seat keeps by forfeit |
| `HeadsUp.Schedule` | contracts/src/HeadsUpReferee.runar.ts:100-148 | after j moves the deadline is the posted rung plus j + 1 windows and the turn has passed j times |
| `HeadsUp.ForfeitWaits` | contracts/src/HeadsUpReferee.runar.ts:163-170 | a forfeit waits for the whole schedule |
| `HeadsUp.NewerMatureFirst` | contracts/src/HeadsUpReferee.runar.ts:93-98 | a newer state matures at least one window before an older one if and only if the window is not negative or it is the very next state |
| `HeadsUp.PayoutPinned` | contracts/src/HeadsUpReferee.runar.ts:179-194 | under an injective hash one output hash admits one pair of payouts |
| `Replay.NonceCache.Use` | internal/protocol/substrate/auth.go:198-224 | accepts exactly a nonce not remembered within the lifetime, below the cap, whatever order the sweep takes |
| `Replay.RateLimiter.Allow` | internal/protocol/substrate/server.go:363-380 | allows exactly while fewer than the limit fall inside the window |
| `Replay.RateBound` | internal/protocol/substrate/server.go:363-380 | over any calls of one caller, one is refused exactly when the last limit allowed were all within the window before it |
| `Replay.LimitSpansWindow` | internal/protocol/substrate/server.go:363-380 | so any limit + 1 calls allowed to one caller span at least the window |
| `Replay.VerifyRequest` | internal/protocol/substrate/auth.go:83-136 | nothing is wrong with a request exactly when it has the served version, a known method and originator, a nonce, key, signature and audience, is for this wallet, passes the timestamp check and is signed |
| `Replay.Server.Serve` | internal/protocol/substrate/server.go:243-264 | verification, then the rate limit, then the nonce: exactly the well-formed, timely and signed requests get past the first, and only a request past all three touches the cache and is served |
| `Replay.StaysSeen` | internal/protocol/substrate/auth.go:205-223 | a served nonce stays in the cache for its lifetime whatever other traffic is swept |
| `Replay.CacheBounded` | internal/protocol/substrate/auth.go:198-224 | the cache never holds more than its cap |
| `Replay.ReplayedOnlyIf` | internal/protocol/substrate/auth.go:198-224 | a request is refused as replayed only when its nonce was served within the lifetime before, or the cache is full |
| `Replay.WindowExactly` | internal/protocol/substrate/auth.go:111-117 | the timestamp check passes exactly inside the two-sided window and, because the difference saturates and its negation wraps, for every timestamp 2^63 nanoseconds or more ahead |
| `Replay.NoReplay` | internal/protocol/substrate/auth.go:111-117 | with a clock that never goes back and a lifetime of at least the two-sided window, one signed request is served at most once in any run, unless its timestamp was 2^63 nanoseconds ahead when first served |
| `Replay.ServedWasSigned` | internal/protocol/substrate/auth.go:83-136 | whatever a run serves was signed, well-formed and addressed to this wallet, with a timestamp in the window or far ahead |
| `Replay.ReplayExactly` | internal/protocol/substrate/auth.go:189-224 | with the lifetime and cap the cache is built with, a request can be served twice from a given time on if and only if it is proper and its timestamp is that far ahead |
| `Replay.FarFutureServedTwice` | internal/protocol/substrate/auth.go:111-117 | the timestamp 10^12 passes at any time up to the year 2096 and is served again once its nonce is swept |
| `Replay.ShorterLifetimeReplays` | internal/protocol/substrate/auth.go:189-195 | no lifetime shorter than the window is enough: a run that serves one request twice |

## Left out

- HTTP, WebSocket, CORS, JSON, logging, the browser page, faucet, key generation, configuration and health checks.
- ECDSA, the script interpreter, BRC-29 derivation, BEEF and `CreateAction`: SDK internals, entered as inputs.
- `Table`, `HandPlayer` and the session message log: `Advance` may enter dealing without full funding, and catch-up duplicates are not filtered by sequence number, so the laws one would want there do not hold.
- Agreement of `Settle` and `StakeFor` on tied largest balances, and acceptance of every honest settlement by `VerifyProposal`: both depend on map order or on other seats' outputs.
- Progress of a hand in which every seat is all in from the blinds: `New` then leaves nobody to act, so the turn and termination theorems start from a hand with a seat to act. Conservation needs no such premise.
- Seat ordering (`JointSeed`, `AssignSeats`), potledger, `broadcast.Send`, `MoneyTracker`, `Trivial`, `EcMulCheck.runar.ts` and `EcMulGenCheck`: easy members or wrappers.
- Secrecy: that a seat without every scalar learns nothing about a card is a computational claim and is not stated.
- An action by seat -1 when nobody can act would index out of range in the source; the model refuses it.
- EngineState.State.Apply: seats are values held by the hand, so aliasing of the source's seat pointers is not modelled; the source never shares them between hands.
- Replay.Server.Serve: one request at a time; the locks that make the checks atomic are not modelled.
- SessionPot.PotManager.ApplyHand: balances are keyed by the seats of the pot, as its only caller keys them.
- GateReferee.Contract.Prepare: a recorded z outside [0, 2^256) is not modelled; no such z is the response of a proof and its push would not fit the script's 33 bytes.
- Session.LiveTable.OpenPotForHand: a table whose buy-ins total 2^64 satoshis or more is not modelled; no wallet can fund one.
- Dealer.RunDeal: every agent follows the modelled handlers; a dishonest agent is covered only by what the commitments verify.
