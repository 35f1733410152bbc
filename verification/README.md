# WeKonnek: verified models of the financial screens and client state

The WeKonnek repository keeps the logic behind its administrative financial screens, and
behind the customer and merchant portals, in plain TypeScript modules. This project
models the parts of them that carry state or arithmetic, and proves what they promise.
`dafny verify dfyconfig.toml` checks everything.

| module | models |
|---|---|
| `SuccessorTopology` | whether a claim's liability determinations form one safe chain |
| `ClaimLifecycle` | the five `can...` guards and every run of the steps they allow |
| `GestureKeys` | idempotency keys of admin gestures against a server, and the adjustment form |
| `ClaimLinkage`, `AuthoritativeWorkflow` | linking reconciliation findings to claims, and the fail-closed router |
| `LocalCalendar` | local dates and the period filter of the reconciliation queue |
| `QueueAuthority` | generation numbers with responses in any order, and list de-duplication |
| `MoneyText` | digit grouping of money texts |
| `TaxonomyConsolidation` | the category consolidation transaction of the development seed |
| `PushDevices` | push-token registration and clean-up over storage, backend and Firebase |
| `PortalSessions` | the session scopes of the portals over local and session storage |
| `InvoiceArithmetic` | VAT splits, VAT summary and regulated discounts in centavos |
| `ZoneAddresses` | de-duplication of zone districts and areas |
| `Carts` | per-merchant carts in local storage |
| `Basics`, `ClaimRecords` | shared vocabulary: JavaScript text primitives, look-ups by key, JSON cells |

Loops and updates of the source are methods, proved equal to functions or predicates on
values; the theorems are lemmas about those, over every input, run or reachable state.

How the environment is modelled:

- `crypto.randomUUID` draws a key nobody has used (a counter). A server carries out each
  key at most once, and may see posts late, repeatedly, in any order or never. A reply acts
  on the active gesture, since the screens refuse a second submission while one is busy.
- The effect of each liability step is the one its confirmation copy states
  (`WeKonnek-backend/frontend/lib/exception-liability-admin-presentation.ts:84-111`): a
  draft gets a new id, proposing changes only the status, and finalizing the original also
  takes the claim out of the active statuses. The server may list the rows in any order.
- Network outcomes are parameters: a call succeeds, fails, or fails after having taken
  effect. Firebase is one token a browser, valid or not; a fresh token is one nobody had.
- `Date` follows section 21.4.1 of ECMA-262 with a fixed offset from UTC. Rounding follows
  `Number.prototype.toFixed`, section 21.1.3.3 of ECMA-262, on exact rationals.
- The label-normalising function of the zones is an arbitrary function.
- The answer of the seed's first query is a parameter: any listing of the legacy categories
  and their sub-categories. Deletes act as the schema says
  (`WeKonnek-backend/backend/prisma/schema.prisma:201-235`).

Where the code does less than a reader may expect, the exact condition is proved:

- Years 0 to 99 are read as 1900 to 1999 by the `Date` constructor, so the day helpers are
  right exactly outside them, and counting days that meet them goes wrong, but for the
  ranges of `CountsRight` (`LocalDayBounds`, `DayCountIsDifference`). Dates that the filter
  parses are never affected.
- The queue list is a de-duplication exactly when the replacing batch has no repeats
  (`ItemsAreFirstOccurrences`): a replace takes its batch as it is.
- A `vat` split is one centavo too large exactly for subtotals of 14 modulo 28 centavos.
- A registration whose reply is lost leaves a live token off the record
  (`EnablePushNotifications`, `LostReplyLosesToken`), exactly when that token is not on
  record once earlier clean-ups are settled.
- Without a payload lock, as in the draft and evidence forms, retries can act twice, exactly
  when two fingerprints are submitted before a success (`UnlockedIsSafeWithOneFingerprint`).
- Different texts can print alike as money, exactly when one is typed as the other is
  printed (`PrintAlike`); without commas they never do.
- Two loss ids always conflict only if claim ids are distinct (`TwoLossesConflict`).
- A preset period is bounded unless the clock stands in the first days of the year 100
  (`AcceptedWindowsAreBounded`).
- The topology's verdict depends on row order exactly if all parents are present and just
  one of the two orders has an endless parent walk (`VerdictIsOrderFree`), for which an id
  must repeat and a different row come last under it.
- A sign-out can be undone by migration exactly when the shared slot holds a compatible
  session when a page of the portal next reads (`SignedOutUntilMigrated`); with default
  scopes it never does.
- The cart badge leaves out a cart stored under an empty merchant id.
- The exits `multiple_tips`, the second `cycle`, "start date cannot be in the future" and
  the router's `default` arm are never taken.

## Model

| member | source | states |
|---|---|---|
| `SuccessorTopology.WalkToRoot` | WeKonnek-backend/frontend/lib/exception-liability-admin-presentation.ts:543-551 | one `while (current)` walk stops without repeating an id exactly when parent pointers from the start end; it terminates because `seen` grows inside the ids that exist |
| `SuccessorTopology.LinkRows` | WeKonnek-backend/frontend/lib/exception-liability-admin-presentation.ts:524-540 | the first loop gives up exactly when some row names a parent id that no row has; otherwise `children` maps each parent to its children in row order and `roots` lists the parentless rows |
| `SuccessorTopology.AllWalksEnd` | WeKonnek-backend/frontend/lib/exception-liability-admin-presentation.ts:542-553 | the second loop reports a cycle exactly when some row is on an endless parent walk |
| `SuccessorTopology.FinalizedTips` | WeKonnek-backend/frontend/lib/exception-liability-admin-presentation.ts:568-574 | the final filter keeps, in row order, exactly the finalized rows that nobody names as parent |
| `SuccessorTopology.AnalyzeSuccessorTopology` | WeKonnek-backend/frontend/lib/exception-liability-admin-presentation.ts:514-586 | for every list of rows the analysis returns the verdict of a loop-free description of the parent graph (empty, missing parent, cycle, branch, disconnected, no tip, safe with its tip), and never `multiple_tips` |
| `SuccessorTopology.NoRootMeansCycle` | WeKonnek-backend/frontend/lib/exception-liability-admin-presentation.ts:564-566 | the second `cycle` exit is dead: when every walk ends, some row has no parent |
| `SuccessorTopology.OneTip` | WeKonnek-backend/frontend/lib/exception-liability-admin-presentation.ts:578-580 | the `multiple_tips` exit is dead: without branches and second roots there is at most one finalized tip, even if ids repeat |
| `SuccessorTopology.LeafIsUnique` | WeKonnek-backend/frontend/lib/exception-liability-admin-presentation.ts:555-580 | pigeonhole over ids and parents: once the earlier exits are passed, a row without children is the only one, and its existence means that no id repeats |
| `SuccessorTopology.LastExits` | WeKonnek-backend/frontend/lib/exception-liability-admin-presentation.ts:560-585 | which of the five last exits is taken, and that two of them never are |
| `SuccessorTopology.SafeIsOneFinalizedChain` | WeKonnek-backend/frontend/lib/exception-liability-admin-presentation.ts:514-586 | safe if and only if the rows with an id can be ordered as one chain covering each row once, with distinct ids, a parentless first row, each later row adjusting the one before it, and a finalized last row; `tipId` is that last row |
| `SuccessorTopology.ChainIsTree` | WeKonnek-backend/frontend/lib/exception-liability-admin-presentation.ts:514-586 | a chain listed in any order passes every test of the analysis, and only its last row has no children |
| `SuccessorTopology.TreeIsChain` | WeKonnek-backend/frontend/lib/exception-liability-admin-presentation.ts:514-586 | rows that pass the tests and have a childless row can be put in order as one chain ending there |
| `SuccessorTopology.RowOrderIsIrrelevant` | WeKonnek-backend/frontend/lib/exception-liability-admin-presentation.ts:514-586 | reordering the determinations changes neither `safe` nor `tipId` |
| `SuccessorTopology.RepeatedIdIsNeverSafe` | WeKonnek-backend/frontend/lib/exception-liability-admin-presentation.ts:521-523 | a list in which an id repeats is never safe, although nothing tests for it |
| `SuccessorTopology.VerdictIsOrderFree` | WeKonnek-backend/frontend/lib/exception-liability-admin-presentation.ts:514-586 | two listings of the same determinations get the same whole verdict, reason included, exactly unless every parent is present and just one of them has an endless parent walk; so whenever the same row comes last under each id, and always when ids are distinct |
| `SuccessorTopology.VerdictsAgree` | WeKonnek-backend/frontend/lib/exception-liability-admin-presentation.ts:514-586 | that equivalence for any rows, with repeated ids or not: missing parents, branches, second roots and tips never depend on the order |
| `SuccessorTopology.RepeatedIdsMayDependOnOrder` | WeKonnek-backend/frontend/lib/exception-liability-admin-presentation.ts:521-523 | the input on which the order matters: two rows with one id give a cycle in one order and no tip in the other, as the last row wins |
| `SuccessorTopology.ReasonsTestify` | WeKonnek-backend/frontend/lib/exception-liability-admin-presentation.ts:514-586 | what each reason says about the rows: an absent parent, otherwise a walk through parents that comes back to its start, otherwise two rows with one parent, otherwise two rows without parent, otherwise a finalized childless row or none |
| `SuccessorTopology.NodesShowRows` | WeKonnek-backend/frontend/lib/exception-liability-admin-presentation.ts:517-517 | the rows looked at are those whose id cell is a text that is not blank, in order, each with its own parent and status |
| `Basics.TrimOfBlank` | WeKonnek-backend/frontend/lib/exception-liability-admin-presentation.ts:185-188 | a text counts as missing exactly when all its characters are blanks, for trimming then leaves nothing |
| `ClaimRecords.CellsAreRead` | WeKonnek-backend/frontend/lib/exception-liability-admin-presentation.ts:185-188 | a string field is read exactly as the text of a cell whose text is not blank, an integer id exactly from a positive number or a text that trims to its digits |
| `Basics.MatchDecimalMeans` | WeKonnek-backend/frontend/lib/financial-reconciliation-presentation.ts:371-371 | a text is matched exactly if it is digits, and a point and digits if it has a fraction: nothing else is accepted and nothing of that form refused |
| `Basics.DecimalOfPrinted` | WeKonnek-backend/frontend/lib/exception-liability-admin-presentation.ts:936-942 | the value of the decimal digits of a number is the number |
| `Basics.LeadingZero` | WeKonnek-backend/frontend/lib/exception-liability-admin-presentation.ts:936-942 | a zero in front does not change it |
| `ClaimLifecycle.PositiveMoneyMeans` | WeKonnek-backend/frontend/lib/exception-liability-admin-presentation.ts:456-461 | accepted are exactly the decimal texts without a leading zero and with at most two decimals whose amount is above zero |
| `ClaimLifecycle.StepKeepsChain` | WeKonnek-backend/frontend/lib/exception-liability-admin-presentation.ts:300-674 | any step that its guard allows takes a claim whose determinations form one chain (all but the last finalized) to another such claim |
| `ClaimLifecycle.RunsKeepOneChain` | WeKonnek-backend/frontend/lib/exception-liability-admin-presentation.ts:300-674 | every claim reached from an open one without determinations keeps that chain, however often the server lists the rows anew |
| `ClaimLifecycle.TopologyOfChain` | WeKonnek-backend/frontend/lib/exception-liability-admin-presentation.ts:514-586 | on such a claim the analysis says `empty`, `no_tip` or safe, depending on the last row only |
| `ClaimLifecycle.ReachedClaims` | WeKonnek-backend/frontend/lib/exception-liability-admin-presentation.ts:300-326 | over every run: at most one DRAFT or PROPOSED determination, at most one original, every other row finalized, and `no_tip` exactly while a determination is open |
| `ClaimLifecycle.SuccessorDraftIsRecordable` | WeKonnek-backend/frontend/lib/exception-liability-admin-presentation.ts:638-674 | whenever a successor draft exists the topology reason is `no_tip`, and the guard lets it be recorded exactly when it has stored allocations and each is to the party of an option |
| `ClaimLifecycle.GuardsFollowPhase` | WeKonnek-backend/frontend/lib/exception-liability-admin-presentation.ts:314-674 | in every reached claim each of four guards holds exactly in its own phase and only for the one open determination, with every allocation to the party of an option where one is recorded; so at most one kind of step is ever offered |
| `ClaimLifecycle.AdjustmentNeedsRemainder` | WeKonnek-backend/frontend/lib/exception-liability-admin-presentation.ts:618-636 | an adjustment is offered exactly on a settled claim whose last determination has a positive amount remaining |
| `ClaimLifecycle.BoundedMeansNamed` | WeKonnek-backend/frontend/lib/exception-liability-admin-presentation.ts:467-496 | stored allocations are bounded exactly if there are some and each, by its cells, has the party type of an option and the same integer merchant id or user id |
| `ClaimLifecycle.BoundedInParts` | WeKonnek-backend/frontend/lib/exception-liability-admin-presentation.ts:467-475 | allocations put together are bounded exactly if both parts are, so one unknown debtor anywhere refuses them |
| `ClaimLifecycle.GuardsReadCells` | WeKonnek-backend/frontend/lib/exception-liability-admin-presentation.ts:328-360 | the submission and recording guards by the cells they read: status, claim, adjusted determination and named allocations |
| `ClaimLifecycle.DraftGuardReadsCells` | WeKonnek-backend/frontend/lib/exception-liability-admin-presentation.ts:314-326 | an original can be drafted exactly on an active claim with facts and debtors and no open determination |
| `ClaimLifecycle.SuccessorGuardReadsCells` | WeKonnek-backend/frontend/lib/exception-liability-admin-presentation.ts:638-674 | a successor that can be recorded adjusts a finalized determination of the list, and none adjusts it |
| `GestureKeys.RunIsSound` | WeKonnek-backend/frontend/lib/exception-liability-admin-presentation.ts:792-843 | the protocol invariant over every run of submissions, lost and received replies, and a server handling posts late, twice or out of order |
| `GestureKeys.StatusTellsLastEvent` | WeKonnek-backend/frontend/lib/exception-liability-admin-presentation.ts:810-843 | the gesture is in flight after a submission, ambiguous with key and fingerprint kept after a lost reply, and over after a success |
| `GestureKeys.OneFingerprintPerKey` | WeKonnek-backend/frontend/lib/exception-liability-admin-presentation.ts:810-832 | one idempotency key is never sent with two fingerprints |
| `GestureKeys.RetiredKeyIsNeverSent` | WeKonnek-backend/frontend/lib/exception-liability-admin-presentation.ts:794-843 | the key of a completed or superseded gesture is never sent again |
| `GestureKeys.EndedGestureIsNeverSent` | WeKonnek-backend/frontend/lib/exception-liability-admin-presentation.ts:810-843 | once a success or a submission with another fingerprint ends a gesture, nothing is sent under its key any more |
| `GestureKeys.EffectsAreBounded` | WeKonnek-backend/frontend/lib/exception-liability-admin-presentation.ts:810-843 | against a server that applies each key once, effects never exceed the gestures opened |
| `GestureKeys.LockedWhileFrozen` | WeKonnek-backend/frontend/lib/exception-liability-admin-presentation.ts:419-426 | the form locks its inputs exactly while it holds a payload to resend |
| `GestureKeys.ConfirmPosts` | WeKonnek-backend/frontend/app/admin/exception-claims/[id]/liability-determination-panel.tsx:871-882 | a confirmation posts the frozen payload, or else what the form shows, and freezes it; with neither it does nothing |
| `GestureKeys.OnePayloadPerKey` | WeKonnek-backend/frontend/lib/exception-liability-admin-presentation.ts:419-433 | the adjustment form never sends two payloads under one key, although its fingerprint names only the parent determination |
| `GestureKeys.OneKeyBetweenSuccesses` | WeKonnek-backend/frontend/lib/exception-liability-admin-presentation.ts:419-433 | between two successes the form draws at most one key and sends only that |
| `GestureKeys.OneEffectBetweenSuccesses` | WeKonnek-backend/frontend/app/admin/exception-claims/[id]/liability-determination-panel.tsx:840-899 | between two successes, retries of the form have at most one effect |
| `GestureKeys.OneKeyMeansOneFingerprint` | WeKonnek-backend/frontend/lib/exception-liability-admin-presentation.ts:810-839 | until a success, the bare functions draw a second key exactly when a second fingerprint is submitted |
| `GestureKeys.UnlockedIsSafeWithOneFingerprint` | WeKonnek-backend/frontend/lib/exception-liability-admin-presentation.ts:810-839 | for forms without a payload lock: at most one effect between successes is certain if and only if all submissions carry one fingerprint |
| `GestureKeys.UnlockedSubmitsCanActTwice` | WeKonnek-backend/frontend/app/admin/exception-claims/[id]/liability-determination-panel.tsx:619-651 | the input that fails: a draft takes effect, its reply is lost, the form is edited and submitted again, and that takes effect too |
| `ClaimLinkage.ApplyAll` | WeKonnek-backend/frontend/lib/financial-reconciliation-workflow.ts:263-269 | pushing one constraint for every identifier that some same-order claim matches, and noting an identifier that none matches |
| `ClaimLinkage.CollectConstraints` | WeKonnek-backend/frontend/lib/financial-reconciliation-workflow.ts:233-293 | the three loops together apply every identifier of the finding and its obligations |
| `ClaimLinkage.IntersectClaimSets` | WeKonnek-backend/frontend/lib/financial-reconciliation-workflow.ts:205-215 | the ids in both sets, each once; without a current set, the next one |
| `ClaimLinkage.Intersection` | WeKonnek-backend/frontend/lib/financial-reconciliation-workflow.ts:302-306 | the incremental intersection holds exactly the ids common to all constraints |
| `ClaimLinkage.ResolveExceptionClaimLinkage` | WeKonnek-backend/frontend/lib/financial-reconciliation-workflow.ts:233-312 | none, conflict, one or many exactly as no identifier is present, or zero, one or several claim ids on the order meet every identifier present |
| `ClaimLinkage.LinkedClaimsMeetAll` | WeKonnek-backend/frontend/lib/financial-reconciliation-workflow.ts:233-312 | with distinct claim ids, the linked ids are those of the same-order claims that themselves meet every obligation, loss and determination identifier |
| `ClaimLinkage.UniqueClaimMeetsAll` | WeKonnek-backend/frontend/lib/financial-reconciliation-workflow.ts:307-312 | with distinct claim ids, `one` names the only claim on the order that meets every identifier, and its own fields list every one of them |
| `ClaimLinkage.MeetsAllByFields` | WeKonnek-backend/frontend/lib/financial-reconciliation-workflow.ts:187-203 | a claim meets every identifier exactly if, by its fields, it is on the order, its involved obligations list each obligation id, its determinations each determination id, and the first of its two loss fields that is filled is each loss id |
| `ClaimLinkage.NothingByFields` | WeKonnek-backend/frontend/lib/financial-reconciliation-workflow.ts:233-297 | `none` exactly if no exception obligation is involved and no involved obligation on the order carries a loss or determination id |
| `ClaimLinkage.TwoLossesConflict` | WeKonnek-backend/frontend/lib/financial-reconciliation-workflow.ts:278-284 | two different loss ids give a conflict whenever claim ids are distinct; in general an id can only be linked if two claims on the order, one of each loss, share it |
| `ClaimLinkage.SharedIdTakesTwoLosses` | WeKonnek-backend/frontend/lib/financial-reconciliation-workflow.ts:278-312 | the input that fails: two claims that share an id, one of each loss, are linked as `one` |
| `ClaimLinkage.OrderIsIrrelevant` | WeKonnek-backend/frontend/lib/financial-reconciliation-workflow.ts:233-312 | permuting claims, items or involved items changes neither the status nor the set of claims |
| `AuthoritativeWorkflow.RouteFinding` | WeKonnek-backend/frontend/lib/financial-reconciliation-workflow.ts:465-629 | a live finding of a known code: engineering-only codes get the engineering view, claim codes follow the linkage, return codes go to the return of the same order unless it is finalized, each destination has the kind of its view, and, with distinct claim ids, any claim destination is the unique claim whose fields list all identifiers |
| `AuthoritativeWorkflow.ResolveAuthoritativeWorkflow` | WeKonnek-backend/frontend/lib/financial-reconciliation-workflow.ts:402-629 | fails closed: a destination only for a matching order, a fresh review and a live finding of the same known code outside `ENGINEERING_ONLY_CODES`; blocked exactly without a destination; each refusal exactly under its own condition, a mismatched code being sent to engineering; so the final `default` arm is dead |
| `LocalCalendar.DateOfDay` | WeKonnek-backend/frontend/lib/financial-reconciliation-presentation.ts:411-426 | every day number has a Gregorian date, and that date makes that day (ECMA-262 section 21.4.1) |
| `LocalCalendar.EpochIsDayZero` | WeKonnek-backend/frontend/lib/financial-reconciliation-presentation.ts:411-426 | day numbers count from 1 January 1970 |
| `LocalCalendar.DayOfDate` | WeKonnek-backend/frontend/lib/financial-reconciliation-presentation.ts:411-426 | the getters give back the numbers of any Gregorian date |
| `LocalCalendar.AcceptsCalendarDates` | WeKonnek-backend/frontend/lib/financial-reconciliation-presentation.ts:414-425 | three numbers survive the `Date` round trip exactly when they are a Gregorian date of the year 100 or later |
| `LocalCalendar.ParseAcceptsDateTexts` | WeKonnek-backend/frontend/lib/financial-reconciliation-presentation.ts:411-426 | accepted are exactly the trimmed `YYYY-MM-DD` texts of such dates, and the value is the local midnight of that date |
| `LocalCalendar.DateTextIsRead` | WeKonnek-backend/frontend/lib/financial-reconciliation-presentation.ts:411-413 | a text of four, two and two digits with dashes between is read as those three numbers |
| `LocalCalendar.ReadTextHasParts` | WeKonnek-backend/frontend/lib/financial-reconciliation-presentation.ts:411-413 | a text that is read trims to such parts |
| `LocalCalendar.LocalDayBounds` | WeKonnek-backend/frontend/lib/financial-reconciliation-presentation.ts:383-397 | start and end of a local day lie on that day exactly outside the years 0 to 99, which land 1900 years later |
| `LocalCalendar.AddLocalDaysMeans` | WeKonnek-backend/frontend/lib/financial-reconciliation-presentation.ts:399-409 | adding days keeps the clock time and moves the calendar by that many days, exactly outside the years 0 to 99 |
| `LocalCalendar.CountMidnights` | WeKonnek-backend/frontend/lib/financial-reconciliation-presentation.ts:431-438 | the stepping loop terminates and equals its closed form for any two midnights |
| `LocalCalendar.InclusiveLocalDayCount` | WeKonnek-backend/frontend/lib/financial-reconciliation-presentation.ts:428-439 | the closed form for all dates, including a range that crosses the start of the year 0 |
| `LocalCalendar.DayCountIsDifference` | WeKonnek-backend/frontend/lib/financial-reconciliation-presentation.ts:428-439 | for any two dates the count is the difference of day numbers plus one, or -1 when reversed, exactly for the ranges of `CountsRight`: those that do not span the years 0 to 99, those within them that do not cross 29 February of the year 0, and a few that meet those years at one end |
| `LocalCalendar.CustomWindow` | WeKonnek-backend/frontend/lib/financial-reconciliation-presentation.ts:455-481 | the custom branch decides by day numbers alone, for any clock, with its rejections in order; the third of them never happens |
| `LocalCalendar.SerializeDateWindow` | WeKonnek-backend/frontend/lib/financial-reconciliation-presentation.ts:447-491 | for any clock, the whole filter equals a specification on day numbers without `Date` or loops; from the year 100 on `today`, `7d`, `14d` and `30d` span exactly 1, 7, 14 and 30 local days ending on the clock's day; a custom range is accepted, as typed, exactly if both texts are dates in order, at most 30 days, not in the future and within the look-back |
| `LocalCalendar.AcceptedWindowsAreBounded` | WeKonnek-backend/frontend/lib/financial-reconciliation-presentation.ts:447-491 | an accepted window has since before until, spans at most 30 local days, does not reach past today and looks back at most `SEARCH_MAX_LOOKBACK_MS`, exactly unless a `7d`, `14d` or `30d` period leads from the year 100 back into the year 99, when since lies after until |
| `QueueAuthority.AppendUniqueOrders` | WeKonnek-backend/frontend/lib/financial-reconciliation-presentation.ts:795-813 | appends the first occurrence of every order id not yet listed; added and skipped add up to the batch |
| `QueueAuthority.RunIsSound` | WeKonnek-backend/frontend/lib/financial-reconciliation-presentation.ts:526-595 | the protocol invariant over every interleaving of requests and responses: the generation counts the requests, a busy flag means that the newest is waiting, and the list is the replacing batch with the later pages absorbed |
| `QueueAuthority.ScreenTellsStory` | WeKonnek-backend/frontend/lib/financial-reconciliation-presentation.ts:526-595 | over every run: cursor, exhausted flag, scanned count and batch count are those of the last response that counted, without a cursor before it or after a cursor reset; messages are those of refusals since; `loading` is on exactly from a replacing request to the next response that counts, `continuing` exactly while the newest request is unanswered and appends |
| `QueueAuthority.MessagesHaveASource` | WeKonnek-backend/frontend/lib/financial-reconciliation-presentation.ts:576-595 | a message on the screen was set by a refusal that counted, with no accepted response since, nor, for the load message, a replacing request |
| `QueueAuthority.OnlyNewestResponseCounts` | WeKonnek-backend/frontend/lib/financial-reconciliation-presentation.ts:547-595 | a response that changes the state answers the newest request, and answers it for the first time |
| `QueueAuthority.BusyMeansWaiting` | WeKonnek-backend/frontend/lib/financial-reconciliation-presentation.ts:526-595 | a set `loading` or `continuing` flag means that the newest request has no response yet |
| `QueueAuthority.ItemsAreFirstOccurrences` | WeKonnek-backend/frontend/lib/financial-reconciliation-presentation.ts:547-574 | the list is the first-occurrence de-duplication of all batches accepted since the last replace or reset, exactly when the replacing batch has no repeats |
| `QueueAuthority.OrdersAreListedOnce` | WeKonnek-backend/frontend/lib/financial-reconciliation-presentation.ts:795-813 | with a repeat-free replacing batch each order is listed once, as it first came |
| `QueueAuthority.RepeatedPageAddsNothing` | WeKonnek-backend/frontend/lib/financial-reconciliation-presentation.ts:795-813 | a page accepted before adds nothing when it comes again |
| `MoneyText.MatchMoneyMeans` | WeKonnek-backend/frontend/lib/financial-reconciliation-presentation.ts:371-372 | accepted are exactly digits, and a point and digits if there is a fraction, with or without one minus sign in front |
| `MoneyText.FormattingIsReversible` | WeKonnek-backend/frontend/lib/financial-reconciliation-presentation.ts:370-377 | deleting the commas gives back the accepted text exactly |
| `MoneyText.DistinctAmountsPrintApart` | WeKonnek-backend/frontend/lib/financial-reconciliation-presentation.ts:370-377 | different accepted texts never print alike |
| `MoneyText.ReversibleWithoutCommas` | WeKonnek-backend/frontend/lib/financial-reconciliation-presentation.ts:370-377 | for every text, accepted or passed through: deleting the commas of what is printed gives it back exactly when it has no commas itself |
| `MoneyText.FormattingTwice` | WeKonnek-backend/frontend/lib/financial-reconciliation-presentation.ts:370-377 | formatting what is printed changes nothing |
| `MoneyText.PrintAlike` | WeKonnek-backend/frontend/lib/financial-reconciliation-presentation.ts:370-377 | two texts print alike exactly if they are equal or one is typed as the other is printed; texts without commas only if they are equal |
| `MoneyText.RejectedTextMayLookLikeAnAmount` | WeKonnek-backend/frontend/lib/financial-reconciliation-presentation.ts:371-372 | an input of the second kind: a text with commas is passed through and looks like the amount it spells |
| `MoneyText.PrintedShape` | WeKonnek-backend/frontend/lib/financial-reconciliation-presentation.ts:370-377 | the sign and the fraction are as typed; the first group has one to three digits, every other exactly three |
| `TaxonomyConsolidation.Database.FoldSubCategory` | WeKonnek-backend/backend/prisma/seed-dev.ts:184-205 | folding one legacy sub-category keeps the schema constraints and deletes no referenced row |
| `TaxonomyConsolidation.Database.CloseCategory` | WeKonnek-backend/backend/prisma/seed-dev.ts:207-211 | closing an emptied category keeps them too |
| `TaxonomyConsolidation.Database.Consolidate` | WeKonnek-backend/backend/prisma/seed-dev.ts:177-213 | the transaction folds every legacy category and sub-category, whatever the order of the listing, and no delete ever hits a referenced row |
| `TaxonomyConsolidation.MergeStep` | WeKonnek-backend/backend/prisma/seed-dev.ts:192-199 | a sub-category whose slug the target already has: its merchants move to that one, nothing references the row to delete, and (categoryId, slug) stays unique |
| `TaxonomyConsolidation.MoveStep` | WeKonnek-backend/backend/prisma/seed-dev.ts:200-205 | a sub-category whose slug is new moves to the target, and (categoryId, slug) stays unique |
| `TaxonomyConsolidation.CloseStep` | WeKonnek-backend/backend/prisma/seed-dev.ts:207-211 | a category whose sub-categories are folded has neither merchants nor sub-categories left when it is deleted |
| `TaxonomyConsolidation.NothingLegacyRemains` | WeKonnek-backend/backend/prisma/seed-dev.ts:177-213 | afterwards no category with one of the legacy slugs, no link to one, all constraints hold, other rows are as they were, and every legacy sub-category slug exists under the target |
| `TaxonomyConsolidation.MerchantsKeepTheirPlace` | WeKonnek-backend/backend/prisma/seed-dev.ts:177-213 | every merchant keeps its sub-category slug, and one whose sub-category lay in its own category still has that |
| `TaxonomyConsolidation.SecondRunChangesNothing` | WeKonnek-backend/backend/prisma/seed-dev.ts:177-213 | a second run changes nothing |
| `PushDevices.Browser.CleanupTrackedPushToken` | WeKonnek-backend/frontend/lib/push-cleanup-state.ts:45-66 | with nothing tracked all is done; otherwise backend and Firebase are reported as they replied, a clean-up completes exactly if one confirms it, and then no token is live and the record is empty, while an incomplete one leaves the token recorded and marked pending |
| `PushDevices.Browser.DeactivateCurrentPushDevice` | WeKonnek-backend/frontend/lib/firebase-messaging.ts:91-108 | signing out: a complete clean-up means no push can reach this browser, an incomplete one leaves the token recorded |
| `PushDevices.Browser.SettlePending` | WeKonnek-backend/frontend/lib/firebase-messaging.ts:54-70 | the record, the Firebase token and the token still pending after the clean-up that comes before a new registration, for every outcome of its calls |
| `PushDevices.Browser.RegisterAndRecord` | WeKonnek-backend/frontend/lib/firebase-messaging.ts:77-88 | a live token is on record afterwards, unless the registration happened without its reply for a token not tracked before; a failure leaves storage as it was |
| `PushDevices.Browser.EnablePushNotifications` | WeKonnek-backend/frontend/lib/firebase-messaging.ts:48-89 | without support, permission or a Firebase token it fails with that reason; which token is registered, if any, is decided by the state before and the outcomes; whatever fails, a live token is in local storage, except exactly when a registration goes through without its reply for a token not on record once earlier clean-ups are settled; success is exactly a registration that is confirmed |
| `PushDevices.LostReplyLosesToken` | WeKonnek-backend/frontend/lib/firebase-messaging.ts:77-82 | the input that fails: on a new browser a registration whose reply is lost leaves a live token that signing out cannot find |
| `PushDevices.AnyRun` | WeKonnek-backend/frontend/lib/firebase-messaging.ts:48-108 | over every run with arbitrary failures and faithful registration replies: every live token is recorded, and no token is registered while the clean-up of a different one is pending |
| `PortalSessions.SessionStore.MigrateLegacySession` | WeKonnek-backend/frontend/hooks/use-auth.tsx:113-125 | copies a compatible shared-slot session into an incomplete portal slot and otherwise changes nothing |
| `PortalSessions.SessionStore.GetToken` | WeKonnek-backend/frontend/hooks/use-auth.tsx:128-144 | returns the token of the session the scope then validly holds, and clears the slot otherwise |
| `PortalSessions.SessionStore.GetUser` | WeKonnek-backend/frontend/hooks/use-auth.tsx:146-155 | returns the stored user that the scope accepts |
| `PortalSessions.SessionStore.SetAuth` | WeKonnek-backend/frontend/hooks/use-auth.tsx:157-166 | writes one slot, and only that slot |
| `PortalSessions.SessionStore.ClearAuth` | WeKonnek-backend/frontend/hooks/use-auth.tsx:168-177 | clears one slot, and only that slot |
| `PortalSessions.SessionsAreStable` | WeKonnek-backend/frontend/hooks/use-auth.tsx:113-177 | a scope holding a valid session keeps it, and `getToken` keeps returning it, over every run of calls in any tabs and portals, until that scope itself is written or cleared |
| `PortalSessions.TabsAreIsolated` | WeKonnek-backend/frontend/hooks/use-auth.tsx:84-88 | merchant and shop calls in other tabs never alter this tab or local storage |
| `PortalSessions.OtherTabsNeverReach` | WeKonnek-backend/frontend/hooks/use-auth.tsx:84-88 | whatever is called in other tabs, on any page, the merchant and shop sessions of this tab stay as they are |
| `PortalSessions.OtherSessionsAreShared` | WeKonnek-backend/frontend/hooks/use-auth.tsx:84-88 | customer, admin and coordinator sessions are the same in all tabs |
| `PortalSessions.LoginOpensPortal` | WeKonnek-backend/frontend/hooks/use-auth.tsx:67-98 | signing in with the default scope gives the portal of the user's type that session, staff in the admin portal; a user of an unknown type is accepted nowhere |
| `PortalSessions.PagesAcceptTheirUsers` | WeKonnek-backend/frontend/hooks/use-auth.tsx:90-98 | a session that a page accepts is of a user of that portal |
| `PortalSessions.SignedOutMark` | WeKonnek-backend/frontend/hooks/use-auth.tsx:157-177 | the customer's sign-out mark is set exactly by signing out there and taken down by signing in there |
| `PortalSessions.SignOutIsFinalUnlessMigrated` | WeKonnek-backend/frontend/hooks/use-auth.tsx:113-144 | right after a sign-out a portal accepts a token exactly when the shared slot holds a session it can migrate |
| `PortalSessions.SignedOutUntilMigrated` | WeKonnek-backend/frontend/hooks/use-auth.tsx:113-177 | over any calls that do not set the slot, a signed-out slot stays without a session at every moment exactly as long as no `getToken` or `getUser` on it finds a compatible session in the shared slot |
| `PortalSessions.SignOutIsFinal` | WeKonnek-backend/frontend/hooks/use-auth.tsx:157-177 | from empty storage with default scopes, a sign-out is final until the next `setAuth` for that scope |
| `PortalSessions.MisplacedSessionComesBack` | WeKonnek-backend/frontend/hooks/use-auth.tsx:157-158 | with an explicit scope that need not hold: a merchant signed in under the customer scope comes back after signing out of the merchant portal |
| `InvoiceArithmetic.ToFixedIsNearest` | WeKonnek-backend/frontend/lib/e-invoice.ts:196-196 | rounding gives the nearest centavo, and of two equally near the one farther from zero (ECMA-262 section 21.1.3.3) |
| `InvoiceArithmetic.NearestIsUnique` | WeKonnek-backend/frontend/lib/e-invoice.ts:196-196 | there is only one such centavo, so being nearest determines an amount |
| `InvoiceArithmetic.SplitConserves` | WeKonnek-backend/frontend/lib/e-invoice.ts:195-216 | vatable plus VAT plus exempt plus zero-rated is the subtotal, except one centavo more in magnitude exactly for `vat` subtotals that are 14 modulo 28 |
| `InvoiceArithmetic.SplitPartsAreNearest` | WeKonnek-backend/frontend/lib/e-invoice.ts:195-216 | for any subtotal each part is the nearest centavo to its share, in the column of its tax type |
| `InvoiceArithmetic.SummaryExceedsSubtotalsByTies` | WeKonnek-backend/frontend/lib/e-invoice.ts:604-618 | the four summary totals exceed the active subtotals by the ties among them, at most one centavo an invoice either way, and never less than nothing if no subtotal is negative |
| `InvoiceArithmetic.ColumnsMean` | WeKonnek-backend/frontend/lib/e-invoice.ts:604-618 | over the invoices and receipts that are not voided: vatable sales and VAT are within half a centavo an invoice of 25/28 and 3/28 of the `vat` subtotals, the exempt column is exactly the non-VAT and exempt subtotals, the zero column the zero-rated ones, and the count is theirs |
| `InvoiceArithmetic.CalculateDiscount` | WeKonnek-backend/frontend/lib/e-invoice.ts:242-283 | 20 percent, or 10 for solo parents, and the nearest centavo to 5/28, or 5/56, of the gross: between nothing and a gross that is not negative |
| `InvoiceArithmetic.ApplyLineItemDiscount` | WeKonnek-backend/frontend/lib/e-invoice.ts:286-300 | the nearest centavo to that share of price times quantity; after any discount but a solo parent's the line carries no VAT whatever its net amount, and only a `vat` line changes its type |
| `InvoiceArithmetic.DiscountIsNear` | WeKonnek-backend/frontend/lib/e-invoice.ts:242-267 | as a function of the gross, the discount is the nearest centavo to its share, between nothing and the gross |
| `InvoiceArithmetic.DiscountIsMonotone` | WeKonnek-backend/frontend/lib/e-invoice.ts:242-267 | it grows with the gross |
| `InvoiceArithmetic.LinesAgreeWithTotal` | WeKonnek-backend/frontend/lib/e-invoice.ts:286-300 | over any n lines, returns included, the discounts differ from the discount of the summed gross by at most (n + 1) / 2 centavos |
| `ZoneAddresses.PushAreas` | WeKonnek-backend/frontend/lib/zone-address.ts:85-89 | the inner loop pushes exactly the first area of every label not yet there |
| `ZoneAddresses.DedupeZoneCity` | WeKonnek-backend/frontend/lib/zone-address.ts:77-92 | the nested in-place merge equals a fold of single merges |
| `ZoneAddresses.DedupeZoneCities` | WeKonnek-backend/frontend/lib/zone-address.ts:77-92 | each city on its own |
| `ZoneAddresses.MergedDistrict` | WeKonnek-backend/frontend/lib/zone-address.ts:77-92 | under each label there is one district, the first with that label, holding the first area of every label among all of them |
| `ZoneAddresses.LabelsAreDistinct` | WeKonnek-backend/frontend/lib/zone-address.ts:77-92 | district labels are pairwise distinct, and area labels within each district |
| `ZoneAddresses.LookupsKeepAnswering` | WeKonnek-backend/frontend/lib/zone-address.ts:71-76 | district-then-area look-up succeeds exactly when some original district with that label held an area with that label, and finds the first one |
| `ZoneAddresses.DedupingIsIdempotent` | WeKonnek-backend/frontend/lib/zone-address.ts:77-92 | de-duplicating twice is de-duplicating once |
| `Carts.CartStorage.SetCart` | WeKonnek-backend/frontend/lib/cart.ts:51-59 | a write is read back and reaches no other merchant's cart |
| `Carts.CartStorage.AddToCart` | WeKonnek-backend/frontend/lib/cart.ts:71-91 | one edit of storage: the first matching row grows by the quantity (1 if none is given), or a new last row |
| `Carts.CartStorage.UpdateQuantity` | WeKonnek-backend/frontend/lib/cart.ts:93-110 | one edit of storage: matching rows take the new quantity, rows left without any disappear |
| `Carts.CartStorage.RemoveFromCart` | WeKonnek-backend/frontend/lib/cart.ts:112-118 | one edit of storage: removal |
| `Carts.CartStorage.GetActiveCartMerchantIds` | WeKonnek-backend/frontend/lib/cart.ts:128-140 | exactly the named merchants with a cart that is not empty, each once |
| `Carts.CartStorage.GetTotalCartCount` | WeKonnek-backend/frontend/lib/cart.ts:142-147 | the sum of the ledger over all merchants, apart from a cart stored under the empty merchant id |
| `Carts.StepRefines` | WeKonnek-backend/frontend/lib/cart.ts:71-118 | one add of any quantity, update or removal is one edit of a map from (merchant, product, variant) to quantity; other merchants' carts stay as they are |
| `Carts.PlainAdds` | WeKonnek-backend/frontend/lib/cart.ts:71-91 | an add without a quantity adds one to its line of the map, an add of a quantity that many |
| `Carts.RunsRefine` | WeKonnek-backend/frontend/lib/cart.ts:39-118 | over every run of adds, updates and removals, of whatever quantities: items are unique in each cart and the carts equal the map |
| `Carts.RunsStayPositive` | WeKonnek-backend/frontend/lib/cart.ts:71-110 | if every add asks for at least one, all quantities stay positive |
| `Carts.PlainEdits` | WeKonnek-backend/frontend/lib/cart.ts:93-118 | on positive quantities an update or removal touches its own line of the map and no other |
| `Carts.TotalIsSum` | WeKonnek-backend/frontend/lib/cart.ts:120-147 | the badge, with a cart stored under the empty merchant id, is the sum of the map |

## Left out

- User interface: React components, navigation, maps, charts, PDF drawing and the visual tables.
- Request wrappers (`fetch`, `axios`), NestJS modules, Prisma set-up and the literal data of the seeds.
- Titles, explanations, action labels and links of `AuthoritativeWorkflow.View`: finite look-ups; the model keeps kind, destination and reason of refusal.
- Post-mutation proofs, evidence and attribution option lists, and `mutateAfterOwnedPreflight`: they gate single requests and add no state.
- Detail-view generations: the same protocol as the queue's, without the list.
- `AuthProvider`'s asynchronous profile refresh: it depends on network timing.
- JSON texts: a stored item is a text or a parsed user or cart; a user's JSON occurs under user keys only.
- Browsers with storage disabled or full, and the `window` events that announce changes.
- Time zones with changing offsets, and the range limit of `Date`: the offset is fixed and days are unbounded.
- Binary floating point in the invoices: amounts are exact rationals of centavos; `mixed` tax and `promo` discounts are defined by the caller.
- ZoneAddresses.DedupeZoneCity: updates districts as values, so it does not show that the arrays pushed to are new ones; the regular expressions of the label function are arbitrary.
- TaxonomyConsolidation.Database.Consolidate: the transaction's all-or-nothing commit and concurrent writers are not modelled.
- Carts: item details are one opaque text.
