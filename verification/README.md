# Ledgermancy: a verified model of its planning, repair and chat cores

Ledgermancy is a household-finance server. This project models the parts of it
whose correctness spans several functions, and proves what they promise for
every input, every run or every reachable state.

| file | what it models |
|---|---|
| `Decimals.dfy` | decimal arithmetic: exact sums and products, quotients rounded to sixteen places, money rounded to the cent, all halves away from zero |
| `College.dfy` | the college drawdown, the search for the least monthly contribution, and the reported figures |
| `PlanInputs.dfy` | splitting money over accounts, phased-out contributions, folding the result into a copy of the household's plans |
| `SavedPlans.dfy` | a saved plan as decimal strings, written and read back |
| `KeyRewrite.dfy`, `NormaliseKeys.dfy` | the merchant-key repair: three keyed tables rewritten group by group inside one transaction |
| `Stream.dfy` | reassembly of a streamed model response |
| `ToolGrant.dfy`, `Chat.dfy` | the chat loop: escalating tools, answering calls, continuing cut-off answers |
| `Keywords.dfy` | choosing a conversation's tool set from its words |
| `GoalPace.dfy` | the pace a goal's date requires, how far behind it the household is, and the months a spare amount takes off |
| `Sorting.dfy`, `AdvisorRank.dfy` | the advisor's ranked list |
| `Budget.dfy`, `Slugs.dfy` | rounding a budget target; deriving a free category slug |
| `Text.dfy`, `Wrappers.dfy` | string order and decimal digits; optional and failing values |

Loops of the source are Dafny loops proved against specification functions; the
theorems are then stated about those functions. The tables of the repair and
the database around them are classes whose fields the methods update; the plans
folded by the planner are an array that is copied and then written in place.

## What the proofs found

The model follows the code. Where the code falls short of its own comments the
exact condition is proved instead.

- The ranking rule says no two options can compare equal
  (`backend/internal/advisor/rank.go:33-35`). They can: two debts of the same
  name whose rates are unknown tie, and two different lists then satisfy the
  rule (`AdvisorRank.SameNameDebtsTie`). The list is determined exactly when no
  two different options share tier, boundedness, value and label
  (`AdvisorRank.DeterminedExactlyWhen`).
- `firstShortfallYear` is 0 exactly when nothing is short, except on the inputs
  named by `College.NamesAFreeYear`: an overdrawn bucket facing only free years
  (`College.FreeYearNamed` is one), or a return below -100% before only free years.
- The rounded college totals add up exactly, except that a covered amount ending
  on exactly half a cent rounds up twice and adds one cent
  (`College.RoundedPartsReconcile`; `College.PartsCanBeACentOver` is an input).
- The repair is refused exactly when a row sits on another row's destination and
  itself moves to a key that sorts later (`KeyRewrite.Remap`); the same chain the
  other way round goes through (`NormaliseKeys.ChainStopsTheRun`).
- The deterministic budget target fails its own guardrail for small averages:
  for averages in whole cents it passes exactly on three ranges and from 30.77
  up (`Budget.TargetIsAcceptable`).
- Goals are ranked by the months the slack brings them forward, although the rule
  promises the one furthest behind its date first
  (`backend/internal/advisor/rank.go:26`). How any two goals are ordered is
  `AdvisorRank.GoalsOrderedExactlyWhen`. On exact schedules the goal
  further behind needs the larger pace, so if it is due no later
  than the other the same money never brings it further forward, and it leads by
  name alone (`AdvisorRank.FurthestBehindFirstExactlyWhen`, with the exact condition
  in months left, pace and slack). `AdvisorRank.FurthestBehindCanComeLast` is a
  household in which it comes last.
- A re-run of the repair is said to behave identically
  (`backend/cmd/normalise-merchant-keys/main.go:103`), but the rows are read in no
  stated order. It does if and only if, on every destination, the rows no other
  beats would be written alike (`NormaliseKeys.RunsAgreeExactlyWhen`); two
  override labels of equal length already break it
  (`NormaliseKeys.EquallyLongLabelsDependOnOrder`).
- Where every streamed response showed its own text (`Chat.InOrder`), what a chat
  turn keeps equals what the user was shown exactly when no response that called
  tools let text through (`Chat.RunChat`). A response that says anything before it
  calls a tool breaks it (`Chat.TalkingBeforeACallLeaks`); blocks that take turns
  break the hypothesis (`Chat.TakingTurnsIsNotInOrder`).
- The text a stream shows is the response's text, however its deltas are worded,
  exactly when no text arrives for an earlier block once a later one has sent
  some (`Stream.ShownAlwaysTextExactlyWhen`); a four-event stream on which the two
  differ is `Stream.InterleavedTextDiffers`.
- The repair keeps every alias on a key some transaction carries, but not every
  transaction on a key with an alias: a key's alias moves with the last changed transaction that had
  the key, so one that recomputes differently can lose it
  (`NormaliseKeys.AliasFollowsTheOther`). A transaction is still aliased exactly
  when `NormaliseKeys.StillAliasedExactlyWhen` says so, and always where the
  transactions of its key recompute alike (`NormaliseKeys.AlikeKeysStayAliased`).
- A plan whose percentages carry three decimals can be accepted, saved, and then
  refused when it is reopened (`SavedPlans.ReopenedCanBeRefused`); half a cent of
  room a line is enough to prevent it (`SavedPlans.ReopenedStillAccepted`).

One promise holds where it is used and fails only beyond it: a budget target is
never below an average in whole cents, the only kind its caller passes
(`Budget.LeastMultiple`). For other averages the exact condition is
`Budget.NeverBelowAverage`, and `Budget.BelowBySeventeenDigits` is an input that
misses it.

## Model

| member | source | states |
|---|---|---|
| College.Drawdown | backend/internal/allocation/college.go:247-294 | the loop computes the recursive year-by-year walk: totals, first short year and every reported year, for any rate and any starting balance; on the report, a goal enrolling today pays its annual cost in year 1, every year costs (1 + rate) times the year before within half a cent on each side, and no year is cheaper than the one before while college outruns inflation |
| College.LaterEnrollmentShifts | backend/internal/allocation/college.go:260-265 | the report of a goal that enrolls a year later shows, year for year, the costs of years 2 on of the same goal one year longer, whatever either bucket holds |
| College.LaterEnrollmentInflates | backend/internal/allocation/college.go:260-265 | waiting a year costs, year for year, exactly what enrolling now at next year's price does |
| College.RateIsTheExcess | backend/internal/allocation/college.go:235-243 | one plus the rate, times one plus general inflation, is one plus college inflation, but for two roundings of a quotient; with general inflation at -100% or below it is college inflation itself |
| College.CostsNonNegative | backend/internal/allocation/college.go:235-265 | with a non-negative annual cost and a college rate of at least -100%, every inflated year costs a whole, non-negative number of cents, whatever the inflation rate |
| College.WalkBalances | backend/internal/allocation/college.go:258-293 | over any number of years cost is covered plus shortfall, neither negative, and the bucket is empty once a year has fallen short |
| College.ReportShape | backend/internal/allocation/college.go:258-293 | years are numbered from 1; every year before the first short one is covered in full and every year after it is paid nothing from an empty bucket |
| College.NamedYearMeansShort | backend/internal/allocation/college.go:270-279 | the first short year is 0 if and only if the total shortfall is 0, except exactly on the inputs that name a free year |
| College.FreeYearNamed | backend/internal/allocation/college.go:270-279 | an overdrawn bucket facing one free year: year 1 is named and nothing is short |
| College.ReportBalances | backend/internal/allocation/college.go:258-293 | the report's total cost is its total covered plus its total shortfall, and a whole number of cents |
| College.RoundedPartsReconcile | backend/internal/allocation/college.go:189-194 | the rounded parts of a whole-cent total add up to it, plus one cent exactly when the part ends on half a cent |
| College.PartsCanBeACentOver | backend/internal/allocation/college.go:189-194 | 200.01 met by 100.005 is reported as two parts that add up to 200.02 |
| College.UnbrokenIsDiscounted | backend/internal/allocation/college.go:258-293 | while no year is short, the balance is the opening balance less the present value so far, compounded |
| College.FundedIffPresentValue | backend/internal/allocation/college.go:258-293 | the simulation agrees with the closed formula: nothing is short if and only if the opening balance reaches the sum of every year's cost divided by its growth |
| College.MoreMoneyNeverHurts | backend/internal/allocation/college.go:258-293 | a larger opening balance never ends lower and is never more short |
| College.ContributingMoreStillFunds | backend/internal/allocation/college.go:403-413 | if a monthly amount funds every year, so does any larger one |
| College.Funds | backend/internal/allocation/college.go:403-413 | the month-by-month accrual followed by the drawdown decides whether an extra amount leaves no shortfall |
| College.FundsExactlyWhen | backend/internal/allocation/college.go:403-413 | an extra amount funds every year if and only if the projected balance plus its annuity, at the monthly rate over twelve months a year, reaches the present value of the costs |
| College.AccruedIsAnnuity | backend/internal/allocation/college.go:404-407 | growth before each deposit: the monthly accrual is the annuity formula |
| College.MonthlyRateIsATwelfth | backend/internal/allocation/college.go:398-401 | twelve monthly rates make up a positive yearly one within twelve roundings; any other rate compounds at nothing |
| College.SolveCollegeMonthly | backend/internal/allocation/college.go:385-443 | an amount is found if and only if nothing extra fails and 100000 a month works; it is whole cents, funds every year, and no amount a cent and 100000/2^40 (plus two roundings of a quotient) below it does |
| College.UnreachableIsUnreachable | backend/internal/allocation/college.go:418-420 | when the bound itself does not fund every year, no amount within it does |
| College.BalanceAtNearestMonth | backend/internal/allocation/college.go:302-318 | the balance is that of the projected month nearest to enrollment, and missing exactly when that month lacks the account |
| College.ProjectGoal | backend/internal/allocation/college.go:170-204 | the reported figures are the walk's, rounded; the years shown are priced from the annual cost and the real excess rate as the drawdown's are; the summary's year is on the report; rounded totals agree within a cent; the monthly figure appears exactly when the search can help, and funds every year |
| College.SummaryIsTrue | backend/internal/allocation/college.go:447-458 | the years reported carry the goal's own costs; the summary claims full funding only when every year is paid in full, and otherwise names the year that broke, with that year's shortfall, every year before it paid and every year after it empty |
| PlanInputs.AcceptedExactlyWhen | backend/internal/allocation/plan.go:319-371 | which requests are accepted: a horizon of 1 to 60 years, money and percentages not negative, each account a bucket and named once, each total at most 100.01 |
| PlanInputs.RefusedWithReason | backend/internal/allocation/plan.go:319-371 | every refusal is true of the request and the checks are made in order: the horizon, the money, then the first bad line and its first fault, then each total |
| PlanInputs.ShareOut | backend/internal/allocation/plan.go:319-379 | the two loops and the checks compute the specified shares and leftovers, or the first refusal in the source's order |
| PlanInputs.MoneyConserved | backend/internal/allocation/plan.go:373-379 | placed plus unallocated is the whole-cent amount exactly, and any amount within half a cent |
| PlanInputs.PlacedNearExact | backend/internal/allocation/plan.go:362-376 | what is placed differs from the percentages' exact part by at most a cent rounding and a quotient rounding a line |
| PlanInputs.OverPlacedAtMost | backend/internal/allocation/plan.go:366-379 | an accepted split leaves an unallocated amount no lower than minus (amount times 0.0001 plus a rounding a line) |
| PlanInputs.AcceptedMoneyConserved | backend/internal/allocation/plan.go:319-379 | of an accepted request in whole cents, the lines' money and the leftover come to exactly what was asked, for the lump and the monthly amount |
| PlanInputs.ScaledToTheLimit | backend/internal/allocation/plan.go:625-644 | whenever a contribution is scaled, what is asked exceeds a positive room; existing plus applied money comes to the limit within 0.065, and applied plus spill to the request within 0.07, plus a stated share of the quotient's rounding |
| PlanInputs.ScaledInProportion | backend/internal/allocation/plan.go:632-641 | scaling keeps the proportion asked for between lump and monthly money, within half a cent of each |
| PlanInputs.PermittedMoneyIsKept | backend/internal/allocation/plan.go:625-649 | money that is permitted and within any limit goes in unchanged, with nothing spilled |
| PlanInputs.RefusedSpillsEverything | backend/internal/allocation/plan.go:623-636 | with no permission or no room nothing goes in, and everything asked is spilled: exactly for money in whole cents, within half a cent otherwise |
| PlanInputs.NeverMoreThanAsked | backend/internal/allocation/plan.go:619-649 | whole-cent money is never increased and never made negative by eligibility |
| PlanInputs.BucketById | backend/internal/allocation/baseline.go:482-489 | finds a bucket of that account if and only if there is one |
| PlanInputs.FoldIntoCopy | backend/internal/allocation/plan.go:385-465 | the copy and the results are the specified fold of the lines; the household's own array is only read |
| PlanInputs.OnlySplitAccountsChange | backend/internal/allocation/plan.go:389-461 | with distinct plan ids, a plan no investment line names is unchanged; any other keeps its id, rises in its first year by its line's applied lump and every month by its applied monthly amount, and takes the line's rate only if it names one; the rate reported is the first there is of the line's, the plan's and the household's |
| PlanInputs.AllLinesReported | backend/internal/allocation/plan.go:397-435 | each result carries its line's account and allocated money, and the money applied is what eligibility lets through where a cap applies and the line's own where none does |
| PlanInputs.FoldedExactlyWhen | backend/internal/allocation/plan.go:432-439 | the fold goes through if and only if every investment line's account has a plan |
| PlanInputs.PlanTotalsRise | backend/internal/allocation/plan.go:440-441 | the plans' first-year money and monthly money together rise by exactly the lumps and the monthly amounts the investment lines applied |
| PlanInputs.AcceptedAccountsDiffer | backend/internal/allocation/plan.go:344-347 | an accepted split never names an account twice |
| PlanInputs.BuildPlanInputs | backend/internal/allocation/plan.go:318-466 | the whole builder: an accepted request comes back with a result a line, each for its own account and near its percentage of the money; whole-cent money is on the lines or left over to the cent; the plans rise by exactly the investment lines' applied money, each at its own account; the household's plans are untouched; otherwise the first refusal |
| SavedPlans.ParseWritten | backend/internal/allocation/store.go:196-205 | reading a decimal that was written out gives back the same digits and places, sign included |
| SavedPlans.Store | backend/internal/allocation/store.go:100-127 | field by field, line by line: money and percentages read back as the amount to the cent with two decimals, rates as exactly the rate, an absent target or rate is absent |
| SavedPlans.ToRequest | backend/internal/allocation/store.go:153-205 | loads if and only if every field the plan has is a decimal, and otherwise reports the first in reading order that is left empty or is not one |
| SavedPlans.Load | backend/internal/allocation/store.go:135-150 | any version but 1 is refused before the blob is looked at |
| SavedPlans.SaveThenLoad | backend/internal/allocation/store.go:100-191 | saving and reopening never fails and gives every request back to the cent, rates exactly |
| SavedPlans.SaveLoadSave | backend/internal/allocation/store.go:100-191 | saving what was reopened writes the same blob |
| SavedPlans.PlanKeptExactlyWhen | backend/internal/allocation/store.go:100-191 | the reopened request is the saved one, by value, if and only if its money and percentages had at most two decimals |
| SavedPlans.TotalsMoveAtMost | backend/internal/allocation/store.go:112-117 | saving moves a percentage total by at most half a cent a line |
| SavedPlans.ReopenedAcceptedExactlyWhen | backend/internal/allocation/plan.go:366-371 | a plan accepted when saved is accepted when reopened if and only if its rounded totals are within the tolerance |
| SavedPlans.ReopenedStillAccepted | backend/internal/allocation/plan.go:366-371 | totals at most 100.01 less half a cent a line are always accepted again |
| SavedPlans.ReopenedCanBeRefused | backend/internal/allocation/store.go:112-117 | three lines of 33.335 are accepted, saved, and refused when reopened |
| KeyRewrite.KeyedTable.Insert | backend/cmd/normalise-merchant-keys/main.go:520-523 | a second row on the same household and key is refused and changes nothing |
| KeyRewrite.Regroup | backend/cmd/normalise-merchant-keys/main.go:295-311 | every destination that needs work, once, in key order, with all the rows converging on it in reading order |
| KeyRewrite.WinnerUnbeaten | backend/cmd/normalise-merchant-keys/main.go:350-356 | when the rule is a precedence, no row of the group beats the winner |
| KeyRewrite.OrderDecidesOnlyTies | backend/cmd/normalise-merchant-keys/main.go:350-356 | where of any two different rows converging on a destination one beats the other, every reading order leaves the same row there |
| KeyRewrite.ReadingOrderMattersExactlyWhen | backend/cmd/normalise-merchant-keys/main.go:350-356 | for every precedence: all orders the rows can be read in leave the same row on a destination if and only if the rows no other beats would be written alike |
| KeyRewrite.ReplaceGroup | backend/cmd/normalise-merchant-keys/main.go:499-525 | delete then insert replaces the group's rows by the winner, or is refused exactly when the destination is held from outside the group |
| KeyRewrite.Remap | backend/cmd/normalise-merchant-keys/main.go:347-366 | the group-by-group program trips the unique key if and only if the keys are chained; otherwise it ends in exactly the simultaneous substitution, other households untouched |
| KeyRewrite.ChainFree | backend/cmd/normalise-merchant-keys/main.go:280-285 | a mapping whose destinations are not themselves rewritten is never refused |
| NormaliseKeys.RulesArePrecedences | backend/cmd/normalise-merchant-keys/main.go:439-445 | under each of the three collision rules nothing beats itself and beating carries over |
| NormaliseKeys.RulesIgnoreOrder | backend/cmd/normalise-merchant-keys/main.go:407-445 | none of the three rules depends on the reading order, the alias rule's count of a merchant's aliases included |
| NormaliseKeys.RunsAgreeExactlyWhen | backend/cmd/normalise-merchant-keys/main.go:103-117 | two runs over the same rows of a table end alike, whatever order each read them in, if and only if no tie between unbeaten rows matters |
| NormaliseKeys.TablesAgreeExactlyWhen | backend/cmd/normalise-merchant-keys/main.go:329-490 | the same for the category, alias and override tables with the rules the code uses |
| NormaliseKeys.EquallyLongLabelsDependOnOrder | backend/cmd/normalise-merchant-keys/main.go:451-490 | two different override labels of the same, longest length in bytes always leave two possible results |
| NormaliseKeys.ManualCategorySurvives | backend/internal/merchants/merge.go:252-261 | where a hand-filed category converges, the surviving row is hand-filed |
| NormaliseKeys.AllCategoriesKept | backend/cmd/normalise-merchant-keys/main.go:329-367 | from the rows before and after a run, in every household: a destination holds a category exactly when some row moves onto it, and the one kept came from a row with no better source (manual, then rule, then any other) and none as good and later among those coming to it, stamped unless nothing came from elsewhere |
| NormaliseKeys.AllAliasesKept | backend/cmd/normalise-merchant-keys/main.go:386-445 | the same for aliases: confirmed before suggested, then the merchant with most aliases in the table |
| NormaliseKeys.AllOverridesKept | backend/cmd/normalise-merchant-keys/main.go:451-490 | the same for overrides: the label kept is at least as long in bytes as every label coming to its destination |
| NormaliseKeys.AsciiLength | backend/cmd/normalise-merchant-keys/main.go:478 | a label is as long in bytes as in characters if and only if it is plain ASCII; otherwise longer, and at most four times |
| NormaliseKeys.ConfirmedAliasSurvives | backend/cmd/normalise-merchant-keys/main.go:407-445 | a suggestion survives only among suggestions, and among equals no merchant with more aliases is passed over |
| NormaliseKeys.ChainStopsTheRun | backend/cmd/normalise-merchant-keys/main.go:350-364 | a to b with b to c is refused; b to a with c to b is not |
| NormaliseKeys.LoadChanges | backend/cmd/normalise-merchant-keys/main.go:175-199 | lists every transaction whose recomputed key differs, each once, in order |
| NormaliseKeys.KeyMapping | backend/cmd/normalise-merchant-keys/main.go:266-274 | the household's mapping from old to new keys |
| NormaliseKeys.MappingRows | backend/cmd/normalise-merchant-keys/main.go:266-274 | a key is mapped exactly when a changed transaction of the household carried it, and to such a transaction's new key |
| NormaliseKeys.LastChangeDecides | backend/cmd/normalise-merchant-keys/main.go:266-274 | of the changed transactions with one key, the last decides where the key goes |
| NormaliseKeys.UpdateTransactions | backend/cmd/normalise-merchant-keys/main.go:529-551 | batching by destination updates each listed transaction exactly once and no other |
| NormaliseKeys.SecondRunFindsNothing | backend/cmd/normalise-merchant-keys/main.go:183-194 | after the update no transaction changes key, so a second run's list is empty |
| NormaliseKeys.Database.RemapHouseholds | backend/cmd/normalise-merchant-keys/main.go:104-116 | each household's three tables are moved as if alone, until the first one that is refused |
| NormaliseKeys.Database.RetireAll | backend/cmd/normalise-merchant-keys/main.go:123-133 | exactly the affected households' merchants that no alias names are deleted |
| NormaliseKeys.Database.Run | backend/cmd/normalise-merchant-keys/main.go:71-140 | all or nothing: it goes through if and only if no affected household is chained; then every keyed transaction carries what the normaliser makes of its names, or its old key if that is nothing; every destination keeps the best category, the best alias and a longest label of the rows that came to it; alias keys are still carried by transactions and every alias still has its merchant |
| NormaliseKeys.StillCarried | backend/cmd/normalise-merchant-keys/main.go:92-120 | if every alias key was carried by a transaction of its household, it still is |
| NormaliseKeys.StillOwned | backend/cmd/normalise-merchant-keys/main.go:121-133 | if every alias named a merchant that exists, it still does after retirement |
| NormaliseKeys.StillAliasedExactlyWhen | backend/cmd/normalise-merchant-keys/main.go:92-120 | after the run a transaction's key has an alias if and only if some alias of its household moves onto its recomputed key |
| NormaliseKeys.AlikeKeysStayAliased | backend/cmd/normalise-merchant-keys/main.go:266-274 | if all of a household's transactions on an aliased key recompute to the same key, each still has an alias after the run |
| NormaliseKeys.AliasFollowsTheOther | backend/cmd/normalise-merchant-keys/main.go:266-274 | a transaction whose household's only alias is on its key, and follows another transaction elsewhere, is left without one |
| Stream.CompleteStream | backend/internal/ai/client.go:448-593 | content, stop reason and the text passed on are those of the event fold; a fatal event or a broken stream is an error after what was already shown |
| Stream.LastReasonCounts | backend/internal/ai/client.go:545-548 | the stop reason is the last one given; an empty one replaces nothing |
| Stream.BlocksAreIndependent | backend/internal/ai/client.go:505-560 | each block depends on its own events alone, however the blocks interleave |
| Stream.Reassembles | backend/internal/ai/client.go:505-583 | any content, cut into any pieces and interleaved in any order, is rebuilt exactly; blank tool input becomes {} and signatures are not carried |
| Stream.ShownEqualsText | backend/internal/ai/client.go:535-545 | when blocks send text in turn, the text passed to the callback is the response's text |
| Stream.ShownAlwaysTextExactlyWhen | backend/internal/ai/client.go:535-545 | for every stream that carries some content: the text shown is the response's text, however its text deltas are worded, if and only if no text arrives for an earlier block once a later one has sent some |
| ToolGrant.RankToolsByNeed | backend/internal/api/chat_tool_escalation.go:208-237 | collecting, sorting and stripping the scores gives the one ranking of the need |
| ToolGrant.RankingIsUnique | backend/internal/api/chat_tool_escalation.go:222-231 | however the matching tools are sorted, the order is the same |
| ToolGrant.RankingIsComplete | backend/internal/api/chat_tool_escalation.go:208-237 | a tool is ranked if and only if it is in the catalogue and answers the need |
| ToolGrant.RankingIsBestFirst | backend/internal/api/chat_tool_escalation.go:208-237 | a better answer is never ranked behind a worse one |
| ToolGrant.RankingInOrder | backend/internal/api/chat_tool_escalation.go:222-231 | of two ranked tools the first has the better score, or an equal one and the earlier place in the catalogue |
| ToolGrant.GrantTools | backend/internal/api/chat_tool_escalation.go:137-184 | names first, then the ranking, taken while there is room; what remains is the rest of the catalogue in its order |
| ToolGrant.NamesGrantedFirst | backend/internal/api/chat_tool_escalation.go:144-176 | what is granted is some of the tools named, in the order asked and each the first the name means, then some that answer the need, best first; and none of the second kind while a named tool is missing from the turn |
| ToolGrant.AllGrantedWithRoom | backend/internal/api/chat_tool_escalation.go:144-176 | with room to spare every tool named and every tool that answers the need is on the turn |
| ToolGrant.TakenWithinLimits | backend/internal/api/chat_tool_escalation.go:144-160 | no more than the room left, nothing the turn has, nothing twice |
| ToolGrant.WishesInOrder | backend/internal/api/chat_tool_escalation.go:144-176 | earlier wishes are taken first, and with room to spare every wish ends up on the turn |
| ToolGrant.GrantWithinLimits | backend/internal/api/chat_tool_escalation.go:137-184 | a call never takes the turn past six, and grants only catalogue tools under new, distinct names |
| ToolGrant.FindToolsWithinLimits | backend/internal/api/chat_tool_escalation.go:137-184 | whatever input a call carries, decodable or not, the tool finder keeps to the limits the chat loop relies on |
| ToolGrant.EveryToolAccountedFor | backend/internal/api/chat_tool_escalation.go:358-371 | every catalogue tool is on the turn, just granted, or still on offer, exactly one of the three |
| Chat.ChatComplete | backend/internal/api/chat_handlers.go:570-589 | what the loop sees is decided by the exchange alone; the plain call is made only when nothing was shown, so no text is sent twice |
| Chat.InTurnIsInOrder | backend/internal/ai/client.go:535-545 | an exchange that streams content whose blocks send text in turn shows exactly its response's text |
| Chat.EchoKeepsCalls | backend/internal/ai/client.go:259-290 | echoing a response keeps every tool call in order |
| Chat.EchoKeepsText | backend/internal/ai/client.go:259-290 | echoing a response keeps all of its text |
| Chat.EchoDropsThinking | backend/internal/ai/client.go:281-310 | an echoed message holds no reasoning and is empty exactly when the response held nothing else |
| Chat.RunChat | backend/internal/api/chat_handlers.go:395-562 | against an endpoint that may do anything: one to nine exchanges, stopping at the first that does not ask to go on; each leaves two messages, the response echoed and then, for every call, exactly what running that call gave, flagged if and only if it failed (for find_tools the tools added to the list, or the refusal); the answer is what the exchanges say in order, with the cut-off note after an unfinished one and the apology for none; and, streams in order, an answer without an error is what the user was sent if and only if no tool-calling response leaked text |
| Chat.KeptGoingMeansOnward | backend/internal/api/chat_handlers.go:428-537 | every exchange before the last called tools or was cut off with something said, and the last decided how the turn ends |
| Chat.ToolsStayValid | backend/internal/api/chat_handlers.go:404-537 | over every run the tool list only grows, its names are distinct and are exactly the available ones, and at most six tools are granted in all |
| Chat.TurnRecorded | backend/internal/api/chat_handlers.go:470-537 | over every run: exchange k of the turn is messages 2k and 2k+1 after the old ones, the response without its reasoning and then the prompt to continue, or in call order each call's own output or error under its id; the tool list between any two calls changes only by what find_tools was granted |
| Chat.TurnSpoken | backend/internal/api/chat_handlers.go:428-562 | over every run: what is kept is the text of each response that calls nothing, and what is sent is each stream as delivered or that text; an answer gets nothing more, a cut-off one the note, none the apology |
| Chat.RoundAt | backend/internal/api/chat_handlers.go:493-537 | every assistant message of the turn is answered by the very next message |
| Chat.SentIsAnswer | backend/internal/api/chat_handlers.go:449-466 | the text delivered is longer than the answer by exactly what tool-calling responses let through |
| Chat.KeptIsSent | backend/internal/api/chat_handlers.go:428-589 | after any number of answered exchanges what is kept is what the user was sent if and only if no tool-calling response let text through |
| Chat.TalkingBeforeACallLeaks | backend/internal/api/chat_handlers.go:428-537 | a response that streams any text and then calls a tool leaks it, whatever the rest of the turn does |
| Chat.TakingTurnsIsNotInOrder | backend/internal/ai/client.go:535-545 | an exchange whose blocks take turns is not in order |
| Keywords.ContainsWord | backend/internal/api/chat_tool_escalation.go:311-324 | terminates, and is true exactly when some occurrence, overlapping ones included, has a boundary on both sides |
| Keywords.MatchesKeyword | backend/internal/api/chat_toolsets.go:326-353 | true if and only if the keyword stands somewhere in the message, for an acronym with no letter or digit touching it |
| Keywords.AcronymInsideWord | backend/internal/api/chat_toolsets.go:326-345 | "apr" is not found in "april" |
| Keywords.ClassifyExplicit | backend/internal/api/chat_toolsets.go:365-375 | likelihood if the message mentions any of its keywords, else modelling, else planning, else spending, else none |
| Keywords.ClassifyFromMessages | backend/internal/api/chat_toolsets.go:410-455 | from the messages: the set named by the nearest user message that names one, if fewer than eight user messages follow it, else spending; with no user message, what an empty one names |
| Keywords.NearestTurnDecides | backend/internal/api/chat_toolsets.go:410-439 | the answer is a set if and only if the nearest turn that names one names it, or it is spending and none does |
| Slugs.Slugify | backend/internal/api/category_handlers.go:397-413 | the character loop and the trim give the specified slug |
| Slugs.SlugOfIsSlug | backend/internal/api/category_handlers.go:397-413 | only letters, digits and hyphens, no hyphen first, last or doubled |
| Slugs.SlugOfIdempotent | backend/internal/api/category_handlers.go:397-413 | a slug is its own slug |
| Slugs.SlugKeepsLetters | backend/internal/api/category_handlers.go:397-413 | no letter or digit of the name is lost or moved |
| Slugs.SlugJoins | backend/internal/api/category_handlers.go:397-413 | whatever run of other characters stands between two parts of a name becomes one hyphen between their slugs |
| Slugs.CandidatesDiffer | backend/internal/api/category_handlers.go:391-392 | no two numbered candidates are the same string |
| Slugs.UniqueCategorySlug | backend/internal/api/category_handlers.go:375-393 | the base if it is free, else the base numbered with the least number from 2 on that is, after at most one lookup more than there are taken slugs |
| Budget.LeastMultiple | backend/internal/api/category_handlers.go:790-810 | for whole cents the target is the least multiple, not below the average, of 10 under 200, of 25 under 500, of 50 under 1000 and of 100 from there |
| Budget.NeverBelowAverage | backend/internal/api/category_handlers.go:803-810 | the target is at least the average if and only if the average's excess over a multiple of its step is none or shows within sixteen digits |
| Budget.RoundForItsMagnitude | backend/internal/api/category_handlers.go:790-810 | for every average, across the changes of step at 200, 500 and 1000, the target is a multiple of its own step |
| Budget.RoundingIdempotent | backend/internal/api/category_handlers.go:806-810 | for every average the target rounds to itself |
| Budget.RoundingMonotone | backend/internal/api/category_handlers.go:806-810 | of any two averages the larger never gets a smaller target |
| Budget.TargetIsAcceptable | backend/internal/api/category_handlers.go:815-824 | for averages in whole cents the rounded target passes the guardrail exactly from 7.70 to 10, 15.39 to 20, 23.08 to 30 and from 30.77 up |
| Sorting.InsertionSort | backend/internal/advisor/rank.go:111-128 | stands in for the library sort: the result is a sorted permutation, for any strict weak order |
| Sorting.SortIsUnique | backend/internal/advisor/rank.go:103-110 | without ties every sort of the same elements, by any algorithm and from any order, is one sequence |
| AdvisorRank.BeforeIsStrictWeakOrder | backend/internal/advisor/rank.go:111-142 | tier, unbounded first, larger value, then label is a strict weak order |
| AdvisorRank.TiesExactlyWhen | backend/internal/advisor/rank.go:111-128 | two options compare equal if and only if tier, boundedness, value and label agree |
| AdvisorRank.Rank | backend/internal/advisor/rank.go:56-101 | from the household's figures: short of the starter fund, and not muted, it is shown that alone, in tier 1, worth the gap to the cent; otherwise exactly the unmuted options its figures call for, none in tier 1, as a sorted permutation |
| AdvisorRank.CandidatesCalledFor | backend/internal/advisor/rank.go:179-577 | what the waterfall offers is exactly what the figures call for: matches in tier 2 while pay periods are left, debts in tier 3 above the hurdle and 7 otherwise or unplaced without a rate, the full fund in tier 4 when short of it, headroom in tier 5, goals with something left in tier 6, and taxable growth in tier 7 at a positive return; each with its own worth |
| AdvisorRank.RankingIsExactlyTheUnmuted | backend/internal/advisor/rank.go:75-95 | every option shown was offered and not muted, and none that qualifies is missing |
| AdvisorRank.TiersInOrder | backend/internal/advisor/rank.go:111-142 | tiers never go backwards down the list; inside a tier unbounded debts lead and values fall |
| AdvisorRank.DebtsByTheHurdle | backend/internal/advisor/rank.go:263-300 | a debt above the hurdle is shown ahead of every debt at or below it, and debts with no known rate after both |
| GoalPace.PaceMakesTheDate | backend/internal/goals/goals.go:68 | the pace is whole cents, and paid in every month left it comes to what remains within half a cent and a quotient's rounding a month |
| GoalPace.ShortfallIsWhatIsMissing | backend/internal/goals/goals.go:71-75 | the shortfall is what the pace exceeds the surplus by, to the cent, and nothing where it does not |
| GoalPace.FurtherBehindNeedsMore | backend/internal/goals/goals.go:66-75 | in one household a larger shortfall means at least as large a required pace, and a larger one against any goal with a date |
| GoalPace.MonthsExceed | backend/internal/advisor/rank.go:503-508 | saving takes more than k months if and only if k months at the pace leave something sixteen digits show |
| GoalPace.BroughtFurtherExactlyWhen | backend/internal/advisor/rank.go:486-489 | the slack brings one goal further forward than another if and only if, for some number of months, it takes that many off the one's schedule and not off the other's |
| GoalPace.GainedOnSchedule | backend/internal/advisor/rank.go:486-489 | an exact schedule of n months at pace p is brought forward by the whole months of n times slack over p plus slack |
| GoalPace.FurtherBehindGainsNoMore | backend/internal/advisor/rank.go:445-489 | of two goals on exact schedules the one further behind and due no later is never brought further forward |
| AdvisorRank.GoalsOrderedExactlyWhen | backend/internal/advisor/rank.go:450-498 | of any two goals one comes first if and only if some number of months comes off its schedule and not off the other's, or none tells them apart and its name is earlier |
| AdvisorRank.FurthestBehindFirstExactlyWhen | backend/internal/advisor/rank.go:445-489 | of two goals on exact schedules the one with the larger shortfall needs the larger pace, and comes first if and only if the slack makes up more whole months of its time left at that pace, or as many and its name is earlier; due no later than the other, it never gains more |
| AdvisorRank.FurthestBehindCanComeLast | backend/internal/advisor/rank.go:445-489 | in one household a goal 810 a month behind is placed after one that is 10 behind |
| AdvisorRank.RankingIgnoresReadingOrder | backend/internal/advisor/rank.go:81-95 | when nothing ties, reading the matches, debts, headroom and goals back in any order gives the same list |
| AdvisorRank.DeterminedExactlyWhen | backend/internal/advisor/rank.go:33-35 | the list is determined if and only if no two different options sit in the same place |
| AdvisorRank.SameNameDebtsTie | backend/internal/advisor/rank.go:103-128 | two same-named debts of unknown rate always leave two different lists possible |
| AdvisorRank.MutingRemovesOnlyThat | backend/internal/advisor/suppress.go:27-29 | taking a muted option out of any list shown leaves a list that may be shown, the rest in order; it is the only one if and only if no two of the options left sit in the same place |

## Left out

- College.ProjectGoal: does not model the funded percentage, the reported return percentage, which rate applies to the account, goals with no account or no known horizon, or the explanatory texts; the rate and the years to enrollment are inputs, and the years are not negative, as the loader guarantees.
- College.SolveCollegeMonthly: the bound below the solved amount is stated for non-negative costs and a return of at least -100%; outside them the search has no monotone function to search.
- PlanInputs.BuildPlanInputs: account limits, the eligibility lookup and the household rate are functions given to the model; the flags and notes about missing tax years are left out.
- SavedPlans.Load: JSON decoding is not modelled; a blob is either its decoded fields or unreadable.
- SavedPlans.ParseWritten: the reader accepts a sign, digits and one point; exponents, which the decimal library also reads, are not modelled.
- NormaliseKeys.Database.Run: the dry run, the printed report with its warning about ambiguous keys, and the SQL that loads and writes rows are left out; transactions are numbered by their place in the ledger, the key normaliser is any function of the two names, rows come back in an arbitrary order, and households, whose order does not affect the result, in the order of their first change.
- Stream.CompleteStream: starts from decoded events; token counts, the framing of lines and events, and negative block indices are left out.
- Chat.RunChat: each exchange is arbitrary; requests, tool execution, the trace saved with the turn and all message wording are parameters or left out, what find_tools says it loaded is one fixed text, and whether streamed text was in order is a hypothesis on the exchanges.
- Chat.ToolsStayValid: takes the tool finder as any grant that keeps to its limits, which the modelled one is proved to do, and a starting list with distinct names.
- ToolGrant.RankToolsByNeed: the score of a tool for a need and the case-insensitive comparison of names are parameters.
- Keywords.ClassifyExplicit: the keyword lists, the acronyms and lower-casing are parameters.
- Slugs.Slugify: starts from a name already lower-cased; Unicode case mapping is not modelled.
- Slugs.UniqueCategorySlug: the taken slugs are a fixed finite set; a failing lookup is not modelled.
- AdvisorRank.Rank: amounts, notes and basis lines are left out; the hurdle is an input, payoff schedules are a function given to the model, and the library's sort is stood in for by an insertion sort, the theorems holding for any sorted permutation.
- AdvisorRank.FurthestBehindFirstExactlyWhen: gives the closed form for goals whose required pace saves exactly what remains; where rounding the pace to the cent leaves a remainder, AdvisorRank.GoalsOrderedExactlyWhen gives the order instead.
- Budget.TargetIsAcceptable: stated for averages in whole cents, which is how the averages reach it; between cents the ranges end at the exact quotients instead.
- Decimal library: amounts are exact reals and quotients are rounded to sixteen places; powers are taken with non-negative whole exponents, and zero to the power zero is one.
- Goal payoffs, retirement projection, contribution caps, alerts, briefings, cash-flow checks and the transfer-pair backfill: their sources are thin orchestration or not part of this model.
- HTTP handlers, sessions, encryption, job queue, prompts, narration and the web client: input and output, or no arithmetic or state of their own.
