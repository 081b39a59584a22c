# Hudumika cargo services: a verified model

A Dafny model of the services behind container charges, freight bookings and cargo tracking, with the
text and list routines around them. Every theorem below is about the code's own branches, constants and
error cases; where the code does not do what its comments or messages promise, the theorem says exactly
when it does.

| file | what it models |
|---|---|
| `Tiers.dfy` | progressive daily rates: which tier lists are accepted, and what they charge |
| `Calendar.dfy`, `DateText.dfy`, `Decimals.dfy` | UTC calendar dates as ECMA-262 section 21.4.1 computes them, day counting, the date validator |
| `Charges.dfy` | the tariff table, charge rows and journal of one tenant, and what each service call does to a row |
| `ChargeRuns.dfy` | runs of service calls; agreement of the ledger with the charges over whole runs |
| `ChargeHistory.dfy` | independence of a charge's price from when and how often it was refreshed; editing; waiving |
| `ChargeDesk.dfy` | the charge and posting services as a class that updates its tables in place |
| `ChargeOutcomes.dfy` | what each charge call comes to, told in days, rates, amounts and entries |
| `ChargeCases.dfy` | runs from the empty tables that reach the failures found in the charges |
| `ChargeRaces.dfy` | one charge row under concurrent transactions at read-committed isolation |
| `ChargeSummary.dfy` | totals per currency; unpriced charges and posting |
| `BookingNumbers.dfy`, `Bookings.dfy` | booking numbers under concurrency; quote, confirm, cancel |
| `BookingRaces.dfy` | quote, confirm and cancel as concurrent transactions |
| `Tracking.dfy`, `Lifecycle.dfy` | tracking snapshots, proofs and shares; container stages |
| `Csv.dfy`, `EnvFile.dfy`, `Countries.dfy`, `Portal.dfy` | CSV export, settings file, country resolver, resumable scraper |

The scripts `tmp/safetracker-*.py` of the repository carry the tracking, charge and booking code as text;
the lines cited are those of the services where that code stands in its final form.

## What the code does not keep

Each of these has a theorem with its exact condition, and, where one is named second, a run that reaches it.

- **Voiding does not reopen a charge.** A void adds a mirror entry under the same charge that is itself not
  voided, so a charge once posted is frozen for good, although the refusals tell the user to void first
  (`ChargeRuns.VoidDoesNotReopen`, `ChargeRuns.ReturnRefusedIffEverPosted`).
- **An edit without any key reprices a posted charge**; ledger and charges agree at every moment exactly when no such
  edit comes to another amount. It may come to nothing, once the carrier is cleared
  (`ChargeRuns.RunKeepsLedger`, `ChargeRuns.EmptyEditReprices`; `ChargeCases.KeylessEditInJanuary`,
  `ChargeCases.CarrierlessInJanuary`).
- **A return or deletion can overtake a posting**: it looks for a journal entry before it locks the row
  (`ChargeRaces.RunAgrees`; `ChargeRaces.OvertakenByPosting`).
- **An edit that finds no tariff keeps the old pin**, and the next refresh charges by it; a pinned charge whose
  carrier was cleared accrues but cannot be settled (`ChargeHistory.EditSticksIff`,
  `ChargeHistory.SettlesIff`; `ChargeCases.EditLosesItsTariff`).
- **The day stored is the local day, the day counted from is the UTC day.** A moment is written to a date column in
  the time zone of the process, three hours ahead of UTC by default, so a charge discharged late in the evening is
  priced for one day more at first than from the next refresh on (`ChargeHistory.NewPriceSticks`,
  `Calendar.LocalDayIsUtcDayIff`; `ChargeCases.LateInJanuary`).
- **A summary without unpriced charges does not promise a posting later on**, since posting refreshes first
  (`ChargeSummary.UnpricedRefusal`; `ChargeCases.StaleInJanuary`).
- **Returning a waived charge drops the waiver**, and the next posting books it (`ChargeHistory.WaivedStaysOut`,
  `ChargeHistory.ReturnUnwaives`; `ChargeCases.WaivedInJanuary`).
- **Day counts are wrong across the years 0 to 99**, which `Date.UTC` reads as 1900 to 1999
  (`Calendar.DaysBetweenIsExact`; `Calendar.LeavingTwoDigitYearsLosesDays`).
- **A confirmation with an untrimmed carrier reference does not match its own repeat**
  (`Bookings.SameConfirmRepeatsIff`; `Bookings.TrailingBlankBreaksRepeat`).
- **The order in which results arrive decides the initial ETA**, and between results of one issue time also what
  else a snapshot shows; which shipment it is linked to is covered by no proof, so one result sent twice may link it
  to either (`Tracking.InitialEtaIgnoresOrderIff`, `Tracking.ResultIgnoresOrderIff`, `Tracking.LinkIgnoresOrderIff`;
  `Tracking.ResentUnderAnotherShipment`).
- **A country name of five letters is taken for a port code** (`Countries.ShippedNameFindsItselfIff`;
  `Countries.ChinaIsNotFound`).

## Model

| member | source | states |
|---|---|---|
| `Tiers.CheckTiers` | apps/api/src/services/demurrage.service.ts:7-13 | the schema loop accepts a list exactly when the sorted tiers chain from day 1, that is when they share out the days 1..n |
| `Tiers.AcceptedIffPartition` | apps/api/src/services/demurrage.service.ts:7-13 | accepted exactly when 1 to 100 well-shaped tiers, in any order, give each day of some 1..n exactly one tier and no other day any |
| `Tiers.CalculateDemurrageCost` | apps/api/src/services/demurrage.service.ts:29-53 | refuses invalid tiers whatever the days; otherwise the rounded sum of the rate of each chargeable day |
| `Tiers.ChargeTierByTier` | apps/api/src/services/demurrage.service.ts:33-50 | walking the tiers and charging the rest at the last rate adds up the rates of all days 1..n |
| `Tiers.DayRateIsATiersRate` | apps/api/src/services/demurrage.service.ts:36-50 | the rate of a day is that of the tier covering it, or of the last tier beyond the end |
| `Tiers.CostMonotone` | apps/api/src/services/demurrage.service.ts:29-53 | the cost is never negative and never falls as days are added |
| `Tiers.AccrualGrowth` | apps/api/src/services/demurrage.service.ts:29-53 | between two day counts the cost grows by the rates of the days between: within a cent, and exactly for rates in whole cents |
| `Tiers.OrderOfTiersIsIrrelevant` | apps/api/src/services/demurrage.service.ts:36-37 | listing the tiers in another order changes neither acceptance nor price |
| `Tiers.RoundCentsFacts` | apps/api/src/services/demurrage.service.ts:52 | rounding moves an amount by at most half a cent and leaves whole cents alone |
| `Calendar.DayRoundTrip` | apps/api/src/services/demurrage.service.ts:58-62 | an epoch day is given back by its year, month and day of the month |
| `Calendar.DateRoundTrip` | apps/api/src/services/demurrage.service.ts:58-62 | a real Gregorian date is given back by its epoch day |
| `Calendar.MonthLengths` | apps/api/src/services/demurrage.service.ts:58-62 | thirty days have April, June, September and November, February 28 or 29, all the rest 31 |
| `Calendar.KnownDays` | apps/api/src/services/demurrage.service.ts:58-62 | the epoch day of 1970, 2000 and 2001, and a year 2100 without a leap day |
| `Calendar.RebuildIsFloor` | apps/api/src/services/demurrage.service.ts:60-61 | rebuilding UTC midnight from calendar fields is the floor to the day exactly outside the years 0..99 |
| `Calendar.DaysBetweenIsExact` | apps/api/src/services/demurrage.service.ts:58-62 | the count is the difference of epoch days exactly when Date.UTC moves both dates alike |
| `Calendar.LeavingTwoDigitYearsLosesDays` | apps/api/src/services/demurrage.service.ts:58-62 | from the years 1..99 to any later year 693960 days are not counted |
| `Calendar.CountsAddUp` | apps/api/src/services/demurrage.service.ts:58-62 | counts add up over any moment in between |
| `Calendar.TimeOfDayIsIrrelevant` | apps/api/src/services/demurrage.service.ts:60-61 | partial days at either end do not count |
| `Calendar.LocalDayIsUtcDayIff` | deploy/contabo/compose.yaml:7 | the day a date column takes for a moment is its UTC day exactly when the time zone does not carry the time of day past midnight |
| `ChargeCases.LateIsTheNextDay` | deploy/contabo/compose.yaml:7 | at ten in the evening, three hours ahead of UTC, the local day is the next one |
| `DateText.AcceptedDatesAreReal` | apps/api/src/services/demurrage.service.ts:5 | for any text and any reading of it: accepted exactly when read as a moment of the real day it starts by naming |
| `DateText.DateOnlyAcceptedIffReal` | apps/api/src/services/demurrage.service.ts:5 | a date-only text is accepted exactly when it names a day of the Gregorian calendar, whether the engine rejects or rolls over |
| `Charges.Select` | apps/api/src/services/demurrage.service.ts:74 | the tariff taken is active, for the carrier and size, in force at discharge, and none such is newer; none is taken only if none applies |
| `ChargeDesks.ChargeDesk.RefreshOne` | apps/api/src/services/demurrage.service.ts:70-81 | one row of the refresh: skipped, counted only, or pinned and repriced |
| `ChargeDesks.ChargeDesk.RefreshCharges` | apps/api/src/services/demurrage.service.ts:65-83 | reprices every due row in one transaction, or none if one has invalid tiers |
| `ChargeDesks.ChargeDesk.OpenNew` | apps/api/src/services/demurrage.service.ts:193-252 | the row a new charge starts with, counted and priced from the UTC day of its discharge and holding the local day, or its refusal |
| `ChargeDesks.ChargeDesk.AddContainer` | apps/api/src/services/demurrage.service.ts:184-256 | adds that row and nothing else, or is refused and changes nothing |
| `ChargeDesks.ChargeDesk.MarkReturned` | apps/api/src/services/demurrage.service.ts:258-319 | settles by the pinned tariff of a row with a carrier and stores the local day; refused when posted, undated, unpriced, out of order or not a date |
| `ChargeDesks.ChargeDesk.UpdateContainer` | apps/api/src/services/demurrage.service.ts:337-426 | overwrites the named keys, the discharge by its local day, and reprices an active charge; refused when posted, unless no key is named, or settled |
| `ChargeDesks.ChargeDesk.DeleteContainer` | apps/api/src/services/demurrage.service.ts:428-440 | deletes an unposted charge only |
| `ChargeDesks.ChargeDesk.SaveTariff` | apps/api/src/services/demurrage.service.ts:98-126 | adds a tariff, in force from the local day given, exactly when its names, free days and currency are allowed and its tiers accepted |
| `ChargeDesks.ChargeDesk.PostEntries` | apps/api/src/services/cost-posting.service.ts:70-159 | the posting transaction: posts all unposted charges with a cost, dated by return, gate-out or today, or none |
| `ChargeDesks.ChargeDesk.PostDemurrage` | apps/api/src/services/cost-posting.service.ts:64-160 | a refresh, then the posting transaction; a refused posting keeps the refresh |
| `ChargeDesks.ChargeDesk.VoidJournalEntry` | apps/api/src/services/gl.service.ts:301-360 | marks the entry and adds its mirror image under the same source |
| `ChargeOutcomes.QuotedIsNewestFit` | apps/api/src/services/demurrage.service.ts:74 | the tariff quoted is active, fits carrier, size and day, and no other that fits is in force from later or, from then, younger; none is quoted only without a carrier or a fit |
| `ChargeOutcomes.RefreshOutcome` | apps/api/src/services/demurrage.service.ts:71-80 | a refresh leaves alone what is settled, waived, undated, to come or posted; of every other charge total days are the counted days, days owed those beyond the free ones, and cost the rates of the days owed by pin or fitting tariff, to the cent |
| `ChargeOutcomes.RefreshTouchesEach` | apps/api/src/services/demurrage.service.ts:65-83 | each charge is refreshed so, or none if one has bad tiers; tariffs and journal stay |
| `ChargeOutcomes.OpenedTerms` | apps/api/src/services/demurrage.service.ts:206-252 | a new charge holds what was given, seven free days and no carrier otherwise, and its local discharge day |
| `ChargeOutcomes.OpenOutcome` | apps/api/src/services/demurrage.service.ts:206-232 | it is counted from the UTC day, owes the days beyond the free ones and costs their rates; refused for free days out of range, a discharge to come, days owed without a tariff, or bad tiers |
| `ChargeOutcomes.SettleOutcome` | apps/api/src/services/demurrage.service.ts:270-312 | a return counts to its UTC day, stores its local day, owes the days beyond the free ones and charges their rates, by pin or fitting tariff, in its currency; refused exactly without discharge, date, order, or a tariff for days owed |
| `ChargeOutcomes.EditedTerms` | apps/api/src/services/demurrage.service.ts:371-380 | an edit writes the keys it names, a discharge by its local day, and keeps the others |
| `ChargeOutcomes.EditRefusals` | apps/api/src/services/demurrage.service.ts:345-369 | it is refused for free days out of range, terms of a settled charge or a discharge to come; off the clock it leaves days and price alone |
| `ChargeOutcomes.EditOutcome` | apps/api/src/services/demurrage.service.ts:384-416 | it counts an active charge from the UTC day named or the stored one, and prices the days beyond the free ones by the pin, if no terms are named, or the tariff fitting the edited terms, or at nothing |
| `ChargeOutcomes.AddOutcome` | apps/api/src/services/demurrage.service.ts:234-255 | recording touches no other charge |
| `ChargeOutcomes.ReturnOutcome` | apps/api/src/services/demurrage.service.ts:258-268 | a return touches no other charge, and is refused to a posted or unknown one |
| `ChargeOutcomes.UpdateOutcome` | apps/api/src/services/demurrage.service.ts:337-369 | an edit touches no other charge, and is refused to an unknown one and, but for one without keys, to a posted one |
| `ChargeOutcomes.DeleteOutcome` | apps/api/src/services/demurrage.service.ts:428-440 | a deletion removes one unposted charge and no other, and is no error for an unknown one |
| `ChargeOutcomes.PostRowOutcome` | apps/api/src/services/cost-posting.service.ts:94-150 | posting skips what is posted, free or waived, refuses what owes days unpinned, has no positive rate, or falls in a closed period, and books the rest |
| `ChargeOutcomes.PostingBooksEachCharge` | apps/api/src/services/cost-posting.service.ts:94-156 | a successful posting adds exactly one kind of entry for every charge to book: dated by return, gate-out or today, at the rate quoted into shillings directly or by way of the dollar, debiting the party at fault and crediting payables one amount within half a cent of cost times rate |
| `ChargeCases.PostedInShillings` | apps/api/src/services/cost-posting.service.ts:120-150 | 150 dollars at 2500 shillings are posted as 375000, debited to receivables and credited to payables |
| `ChargeOutcomes.PostServiceOutcome` | apps/api/src/services/cost-posting.service.ts:69-159 | the service refreshes, then posts; a refused posting keeps the refresh |
| `ChargeOutcomes.VoidOutcome` | apps/api/src/services/gl.service.ts:301-360 | a void marks one entry and adds one for the same charge, dated today at the same rate, line by line with debit and credit exchanged; refused if unknown, voided or closed |
| `ChargeOutcomes.SaveAcceptedIff` | apps/api/src/services/demurrage.service.ts:107-109 | a tariff is saved exactly when its names, free days, currency and tiers are allowed |
| `ChargeOutcomes.SaveOutcome` | apps/api/src/services/demurrage.service.ts:111-123 | it is then the last of the table, active, in dollars by default, in force from the local day given or today |
| `ChargeOutcomes.EditTariffOutcome` | apps/api/src/services/demurrage.service.ts:136-160 | a tariff edit changes what it names of the tariffs with its id, and nothing else |
| `ChargeOutcomes.DropTariffOutcome` | apps/api/src/services/demurrage.service.ts:442-452 | dropping a tariff drops no other and leaves every pin |
| `ChargeHistory.RefreshAbsorbed` | apps/api/src/services/demurrage.service.ts:65-83 | a refresh has the outcome it would have had without an earlier one; with sound prices it leaves the same tables |
| `ChargeHistory.RefreshAlwaysAvailable` | apps/api/src/services/demurrage.service.ts:65-83 | over any run of calls from sound tables, no refresh is ever refused |
| `ChargeHistory.AccrualBetweenRefreshes` | apps/api/src/services/demurrage.service.ts:72-80 | a later refresh of a pinned charge never shows less; the growth is the rates of the chargeable days between |
| `ChargeHistory.NewChargeSticks` | apps/api/src/services/demurrage.service.ts:206-232 | the next refresh leaves a new charge as recorded exactly when its stored day is to come, or counts like the UTC day of discharge and has no tariff where that day had none; no charge is recorded with days owed and no tariff |
| `ChargeHistory.NewPriceSticks` | apps/api/src/services/demurrage.service.ts:206-242 | it leaves the price exactly when the stored day is to come, or the tariff of the UTC day charges both days alike, or there was none and the tariff of the stored day, if any, charges no dollar |
| `ChargeHistory.HistoryIndependence` | apps/api/src/services/demurrage.service.ts:263-318 | after any run of refreshes, tariff changes, postings, voids and calls on other charges, a return gives the cost of the pinned tiers from discharge to return, or is refused as posted |
| `ChargeHistory.SettlesIff` | apps/api/src/services/demurrage.service.ts:283-302 | at sound prices a charge settles exactly when it was discharged no later than its return and owes no day or names a carrier and has a pinned or applicable tariff |
| `ChargeHistory.EditSticksIff` | apps/api/src/services/demurrage.service.ts:391-416 | the refresh after any edit leaves the edited charge as it is exactly when it is off the clock, or its stored day counts like the day the edit counted from and a tariff was found, or the old pin charges nothing in the same currency, or there is no pin and no tariff for the stored day |
| `ChargeHistory.WaivedStaysOut` | apps/api/src/services/demurrage.service.ts:303-312 | over any run, a waived, unposted charge stays waived and out of the journal at every moment exactly when it is never successfully returned |
| `ChargeHistory.ReturnUnwaives` | apps/api/src/services/demurrage.service.ts:303-312 | a waived charge is returned under the same conditions as any other, and then it is completed and waived no more |
| `ChargeCases.WaivedThenReturned` | apps/api/src/services/demurrage.service.ts:303-312 | a run from the empty tables: recorded, waived and returned, a charge is charged in full and posted |
| `ChargeCases.WaivedInJanuary` | apps/api/src/services/demurrage.service.ts:303-312 | that run in January 2026: posted at 150 |
| `ChargeCases.EditLosesItsTariff` | apps/api/src/services/demurrage.service.ts:391-416 | clearing the carrier of a pinned charge prices it at nothing, the next refresh charges by the old pin, and it cannot be returned |
| `ChargeCases.LocalDayLosesADay` | apps/api/src/services/demurrage.service.ts:206-241 | a new charge is priced from the UTC day of its discharge when it is recorded, and from the local day from the next refresh on |
| `ChargeCases.LateInJanuary` | apps/api/src/services/demurrage.service.ts:206-241 | that run where the local day is one ahead, in January 2026: 150 when it is recorded, 100 at the next refresh |
| `ChargeCases.SevenDaysAreFree` | apps/api/src/services/demurrage.service.ts:205-209 | a run from the empty tables: recorded without free days of its own, a charge owes the days beyond seven, then and when it is refreshed |
| `ChargeCases.FreeDaysInJanuary` | apps/api/src/services/demurrage.service.ts:205-209 | that run in January 2026: ten days after discharge 150 for three days, eleven days after it 200 for four |
| `ChargeRuns.RunKeepsLedger` | apps/api/src/services/demurrage.service.ts:361-369 | over any run, posted charges and entries agree after every call exactly when no edit without keys brings a posted charge to another amount |
| `ChargeRuns.CallKeepsLedger` | apps/api/src/services/demurrage.service.ts:259-261 | any single call breaks that agreement exactly when it is such an edit |
| `ChargeRuns.VoidDoesNotReopen` | apps/api/src/services/gl.service.ts:323-352 | once any entry was made for a charge, after any further run, voids and edits without keys included, return, deletion and keyed edits are refused as posted, and only edits without keys have changed the row |
| `ChargeRuns.ReturnRefusedIffEverPosted` | apps/api/src/services/demurrage.service.ts:260-261 | after any run, a return is refused as posted exactly when any entry was ever made for the charge |
| `ChargeOutcomes.BooksHoldTheChargeOrNothing` | apps/api/src/services/cost-posting.service.ts:126-150 | the entries of a posted charge net, on every account, to one amount, its cost at the posted rate to the cent, debited by fault and credited to payables, or to nothing, by turns with each void |
| `ChargeRuns.PostedAtMostOnce` | apps/api/src/services/cost-posting.service.ts:82-99 | over any run at all, edits without keys included, only a charge's first entry posts it; the rest are reversals, and all but the last are voided |
| `ChargeRuns.PostingIsComplete` | apps/api/src/services/cost-posting.service.ts:94-156 | a successful posting leaves posted what was posted and every unwaived charge with a cost, and nothing else, and changes no charge |
| `ChargeRuns.EmptyEditReprices` | apps/api/src/services/demurrage.service.ts:361-416 | an edit without keys writes a posted charge its cost up to now by the pinned tariff, none without a carrier or tariff, the old one off the clock; the ledger agrees exactly when that posts to the same amount |
| `ChargeCases.KeylessEditWithoutCarrier` | apps/api/src/services/demurrage.service.ts:361-416 | a run from the empty tables, at any prices and on any days: carrier cleared, posted at a cost, then an edit without keys writes no cost and the ledger no longer agrees |
| `ChargeCases.CarrierlessInJanuary` | apps/api/src/services/demurrage.service.ts:361-416 | that run at 50 a day in January 2026: posted at 150, overwritten with 0 |
| `ChargeCases.KeylessEditLater` | apps/api/src/services/demurrage.service.ts:361-416 | a run from the empty tables, at any rising prices: a posted charge is repriced by an edit without keys some days later |
| `ChargeCases.KeylessEditInJanuary` | apps/api/src/services/demurrage.service.ts:361-416 | that run in January 2026: posted at 150, overwritten with 200 |
| `ChargeRaces.StepAgreesIff` | apps/api/src/services/demurrage.service.ts:260-268 | a step breaks the agreement of row and entry exactly when it commits, to a posted row, another cost or a deletion by a return or deletion that looked earlier or an edit without keys |
| `ChargeRaces.RunAgrees` | apps/api/src/services/cost-posting.service.ts:70-92 | in every interleaving, row and entry agree throughout exactly when no such step is taken |
| `ChargeRaces.LockingFirstIsSafe` | apps/api/src/services/demurrage.service.ts:67-71 | refreshing, posting and keyed editing, which look under the lock, agree in every interleaving |
| `ChargeRaces.NeverPostedTwice` | apps/api/src/services/cost-posting.service.ts:70-92 | in no interleaving at all is a charge posted a second time |
| `ChargeRaces.OvertakenByPosting` | apps/api/src/services/demurrage.service.ts:260-268 | an interleaving in which a return settles a posted charge at another cost, or a deletion removes it |
| `ChargeRaces.KeylessEditOverwrites` | apps/api/src/services/demurrage.service.ts:347-369 | an edit without keys that runs alone after a posting overwrites the posted cost |
| `ChargeSummary.SummaryConserves` | apps/api/src/services/demurrage.service.ts:512-536 | each currency that occurs is shown with what its charges come to, and these totals add up to the total of all; one total is shown, with its currency, exactly when no two rows differ in currency |
| `ChargeSummary.TotalAdds` | apps/api/src/services/demurrage.service.ts:515 | totals add up over nothing, one charge, and two lists put together |
| `ChargeSummary.UnpricedIsCount` | apps/api/src/services/demurrage.service.ts:528 | the number reported unpriced is that of the active charges that owe days and have no pin |
| `ChargeSummary.NothingUnpricedPosts` | apps/api/src/services/demurrage.service.ts:504-528 | right after a summary that reports nothing unpriced, posting at the same moment is not refused for a missing tariff |
| `ChargeSummary.UnpricedRefusal` | apps/api/src/services/cost-posting.service.ts:69-99 | posting is refused for a missing tariff exactly when an active, unposted charge without pin will owe a day after its refresh and no charge before it in the order lacks a rate or open period; with such a charge nothing is posted |
| `ChargeCases.SummaryGoesStale` | apps/api/src/services/cost-posting.service.ts:69-99 | a run from the empty tables: a summary on the day of discharge reports nothing unpriced, and a posting any number of days later is refused as unpriced |
| `ChargeCases.StaleInJanuary` | apps/api/src/services/cost-posting.service.ts:69-99 | that run in January 2026, posting one day later |
| `BookingNumbers.NumberRoundTrip` | apps/api/src/services/freightBooking.service.ts:268-272 | an issued number reads back as itself, past 9999 as well |
| `BookingNumbers.NumberShape` | apps/api/src/services/freightBooking.service.ts:272 | a number is FB, year and decimal number with dashes, the number with zeros in front up to four digits |
| `BookingNumbers.OddNumber` | apps/api/src/services/freightBooking.service.ts:268 | a number whose last part is not plain digits is read by that part |
| `BookingNumbers.DigitsAreDecimal` | apps/api/src/services/freightBooking.service.ts:272 | the digits printed are the decimal ones |
| `BookingNumbers.MatchesOwnYear` | apps/api/src/services/freightBooking.service.ts:267 | a number matches the pattern of its own tenant and year and no other |
| `BookingNumbers.BumpedIsNext` | apps/api/src/services/freightBooking.service.ts:269-271 | the next number is one more than the greater of the highest in use and the counter |
| `BookingNumbers.AbortOutcome` | apps/api/src/services/freightBooking.service.ts:262-288 | an aborted transaction gives its lock back and changes nothing else |
| `BookingNumbers.PrefixTellsYear` | apps/api/src/services/freightBooking.service.ts:267 | the pattern of one year matches no number of another |
| `BookingNumbers.CommitIsFresh` | apps/api/src/services/freightBooking.service.ts:264-272 | a number about to be committed is new, above every number in the table and above every number issued before |
| `BookingNumbers.NumbersNeverReused` | apps/api/src/services/freightBooking.service.ts:262-288 | over any interleaving with aborts and deletions, from any existing bookings, issued numbers of a year only rise and no text repeats |
| `BookingNumbers.WholeTransaction` | apps/api/src/services/freightBooking.service.ts:262-288 | a transaction run without interruption adds the next number and moves the counter to it |
| `Bookings.FreightDesk.HighestNumber` | apps/api/src/services/freightBooking.service.ts:267-268 | the reduction over the table finds the highest number in use |
| `Bookings.FreightDesk.CreateBooking` | apps/api/src/services/freightBooking.service.ts:258-289 | adds one requested booking with a new number, one more than the highest of its tenant and year or than its counter, above all others, and moves only that counter |
| `Bookings.FreightDesk.Confirm` | apps/api/src/services/freightBooking.service.ts:339-410 | confirms a quoted booking into one new shipment, returns the existing one on a matching repeat, or is refused |
| `Bookings.FirstConfirm` | apps/api/src/services/freightBooking.service.ts:351-408 | a quoted booking is confirmed unless its reference is blank; the one shipment added has the vessel and bill given, the booking these, the trimmed reference and the shipment, and nothing else changes |
| `Bookings.ConfirmOtherwise` | apps/api/src/services/freightBooking.service.ts:341-351 | a confirmed booking is answered with its shipment exactly when vessel and any reference or bill given match; others are not found or not quoted |
| `Bookings.RunKeepsAgreed` | apps/api/src/services/freightBooking.service.ts:377-406 | over any run every confirmed booking and its shipment have one vessel and one bill |
| `Bookings.QuoteOutcome` | apps/api/src/services/freightBooking.service.ts:291-318 | a requested booking is quoted with the carrier and currency given, or the card's, or its own; refused for an unknown card, another carrier's, or another lane or mode |
| `Bookings.QuoteOtherwise` | apps/api/src/services/freightBooking.service.ts:296 | only a requested booking is quoted |
| `Bookings.CancelOutcome` | apps/api/src/services/freightBooking.service.ts:320-332 | a booking is cancelled unless it is confirmed, and nothing else changes |
| `Bookings.RunKeepsSound` | apps/api/src/services/freightBooking.service.ts:291-410 | over any run statuses only advance, confirmed bookings do not change, and no booking has two shipments |
| `Bookings.RepeatConfirm` | apps/api/src/services/freightBooking.service.ts:346-350 | a repeat with matching details, at any later time, returns the same shipment and changes nothing |
| `Bookings.SameConfirmRepeatsIff` | apps/api/src/services/freightBooking.service.ts:347-364 | the same confirmation matches itself exactly when its carrier reference is absent or already trimmed |
| `Bookings.TrailingBlankBreaksRepeat` | apps/api/src/services/freightBooking.service.ts:346-364 | from a requested booking, quoted and confirmed under a reference with a trailing blank, the same confirmation is refused |
| `Bookings.QuoteFitsCard` | apps/api/src/services/freightBooking.service.ts:296-310 | a quote by rate card carries the card's carrier, lane, mode and currency, and changes no other booking |
| `BookingRaces.InterleavingsAreSerial` | apps/api/src/services/freightBooking.service.ts:291-410 | in every interleaving of quote, cancel and confirm transactions, aborts included, the committed tables are those of the committed calls made whole in the order of their commits |
| `BookingRaces.OneShipmentInAnyInterleaving` | apps/api/src/services/freightBooking.service.ts:339-410 | so in every interleaving statuses only advance, a confirmed booking stays as it is and no booking gets two shipments |
| `Tracking.ProofWindow` | apps/api/src/routes/tracker.routes.ts:363-377 | a live result verifies exactly within fifteen minutes of its issue with unchanged content, and is dated by its issue |
| `Tracking.DeliverOutcome` | apps/api/src/routes/tracker.routes.ts:368-377 | an edit by hand is always verified; a live result exactly with a proof given out to this tenant for its source and every field but the shipment, expiring within fifteen minutes |
| `Tracking.SaveOutcome` | apps/api/src/routes/tracker.routes.ts:436-453 | saving writes each field sent as it was sent, the tracking number in upper case without spaces, a missing provider as null, and leaves the others; live results set fetch time and, on a snapshot not live, the initial ETA; only a result older than the snapshot's is refused |
| `Tracking.NormalisedByCharacter` | apps/api/src/routes/tracker.routes.ts:446 | tidying a tracking number drops white space and raises small letters, character by character |
| `Tracking.FetchTimeNeverGoesBack` | apps/api/src/routes/tracker.routes.ts:436-453 | over any run of live and manual updates the fetch time never decreases |
| `Tracking.Converges` | apps/api/src/routes/tracker.routes.ts:436-453 | in whatever order timely full results arrive, the snapshot ends up with the fields sent with one of the greatest issue time |
| `Tracking.ResultIgnoresOrderIff` | apps/api/src/routes/tracker.routes.ts:436-453 | any order of the same timely results leaves a live snapshot of the greatest issue time; its result fields are the same in every order exactly when all results of that time write the same ones |
| `Tracking.InitialEtaIgnoresOrderIff` | apps/api/src/routes/tracker.routes.ts:451 | the initial ETA is the same in every order exactly when the snapshot is live already or all fresh results state the same |
| `Tracking.LinkIgnoresOrderIff` | apps/api/src/routes/tracker.routes.ts:438-440 | the shipment link is the same in every order exactly when some latest result names a shipment and all latest ones that name one agree, or no fresh result names another than the snapshot has |
| `Tracking.ResentUnderAnotherShipment` | apps/api/src/routes/tracker.routes.ts:368-450 | one result issued once and sent twice under different shipments is saved both times, and the one delivered last decides the link |
| `Tracking.SnapshotRecord.constructor` | apps/api/src/routes/tracker.routes.ts:383-405 | a new snapshot holds the fields as sent, null or nothing for the others, its initial ETA and fetch time, and is shared under its token for seven days |
| `Tracking.SnapshotRecord.Update` | apps/api/src/routes/tracker.routes.ts:432-459 | saves a verified or manual update that is not stale and answers so, or answers why it did not and changes nothing; shares stay as they are |
| `Tracking.SnapshotRecord.Share` | apps/api/src/routes/tracker.routes.ts:474-485 | replaces the token: only the new one resolves, unless revoked, for a week, and none given out before |
| `Tracking.OnlyLastTokenOpens` | apps/api/src/routes/tracker.routes.ts:474-485 | after any run of saves, shares and revocations a token opens the snapshot exactly if the last share gave it out and a week has not passed |
| `Lifecycle.RunStaysOnWalk` | apps/api/src/routes/tracker.routes.ts:589-724 | any run of upserts, edits and stage calls on a new container leaves a gap-free, repeat-free walk from the depot, as long as the current stage's index |
| `Lifecycle.ContainerRegistry.SetStage` | apps/api/src/routes/tracker.routes.ts:695-724 | advances to the next stage with one line of history, ignores a repeat, refuses the rest |
| `Lifecycle.AdvanceOutcome` | apps/api/src/routes/tracker.routes.ts:703-709 | with n lines of history, stage k is accepted exactly when k is n, which changes nothing, or n + 1, which becomes the stage and adds that one line |
| `Lifecycle.MissingContainer` | apps/api/src/routes/tracker.routes.ts:703 | a container that does not exist has no stage to change and nothing to edit |
| `Lifecycle.WholeWalk` | apps/api/src/routes/tracker.routes.ts:695-724 | a new container asked for one stage after the other goes from the depot through all eleven to its empty return |
| `Lifecycle.ContainerRegistry.Save` | apps/api/src/routes/tracker.routes.ts:599-645 | an upsert never changes the stage |
| `Lifecycle.SaveOutcome` | apps/api/src/routes/tracker.routes.ts:605-668 | an upsert makes a container at the depot or adds its details, refused exactly when it names another stage; an edit adds its details, refused exactly when it names any |
| `Csv.CellReads` | packages/types/src/csv.ts:2-6 | a printed cell, whatever follows it but a quote, reads back as its neutralised text, and the reader stops right after it |
| `Csv.CsvCell` | packages/types/src/csv.ts:2-6 | prints a cell so that the reader, whatever follows but a quote, gives back its neutralised text and stops right after it |
| `Csv.NeutralIsHarmless` | packages/types/src/csv.ts:4 | no text cell is printed as a formula, and neutralising again changes nothing |
| `Csv.NeutralKeepsText` | packages/types/src/csv.ts:3-4 | a text is kept, with an apostrophe before it exactly when it is no number and begins with a tab or line break or, after white space, with an equals, plus, at or minus sign |
| `Csv.PrintedRow` | packages/types/src/csv.ts:5-7 | cells are printed in quotes with commas between |
| `Csv.PrintedTable` | packages/types/src/csv.ts:7 | rows are printed after a byte order mark with carriage return and line feed between |
| `Csv.CsvRoundTrip` | packages/types/src/csv.ts:2-7 | a reader of RFC 4180 section 2 gets back the rows and neutralised texts exactly when the table has a row and each row a cell |
| `EnvFile.ReadSettings` | deploy/contabo/init.py:38-48 | reads line by line, and accepts exactly the files whose lines, but for blanks and comments, have a valid key each, used once, and readable quoting; it reads those keys to those values |
| `EnvFile.AcceptedIffGoodLines` | deploy/contabo/init.py:38-48 | the same of reading on from any settings already read |
| `EnvFile.WrittenByLine` | deploy/contabo/init.py:31 | a comment line, then each setting on its line with its value in single quotes |
| `EnvFile.LinesAtBreak` | deploy/contabo/init.py:39 | the text is cut at each break, a carriage return with its line feed being one |
| `EnvFile.SkippedIff` | deploy/contabo/init.py:40-41 | skipped are blank lines and those whose first character beyond white space is a number sign |
| `EnvFile.KeyShape` | deploy/contabo/init.py:43 | a key is a capital, then capitals, digits and underscores |
| `EnvFile.ValueRead` | deploy/contabo/init.py:46 | an unquoted value stands as it is, a plain one in single or double quotes loses them |
| `EnvFile.EnvRoundTrip` | deploy/contabo/init.py:28-48 | settings with valid, distinct keys and plain values are read back as written, without error |
| `Countries.CaseAndSpaceIrrelevant` | packages/types/src/countries.ts:51-90 | white space around a text and the case of its letters make no difference |
| `Countries.LongestNameWins` | packages/types/src/countries.ts:76-83 | a text that is no code resolves to the longest listed name it mentions as whole words, else to the first alias it mentions, else not at all |
| `Countries.OnlyListedCodes` | packages/types/src/countries.ts:56-89 | only listed codes come out; a port code answers with its own prefix or not at all |
| `Countries.CodeFindsItself` | packages/types/src/countries.ts:58-59 | a listed two-letter code, in any case, answers with itself |
| `Countries.NothingIsNotFound` | packages/types/src/countries.ts:52-54 | an empty or missing text is not resolved |
| `Countries.PortCodeFindsPrefix` | packages/types/src/countries.ts:67-74 | two letters and three letters or digits, in any case, answer with the first two if listed, and not at all otherwise |
| `Countries.MentionsIff` | packages/types/src/countries.ts:80-83 | mentioning a name is holding it between two ends without a letter, digit or underscore next to it |
| `Countries.NameFindsItselfIff` | packages/types/src/countries.ts:62-83 | in any table a name by itself finds its country exactly when it does not look like a port code or starts with its own code |
| `Countries.ShippedNameFindsItselfIff` | packages/types/src/countries.ts:18-83 | of the shipped countries a name finds its own exactly when it has not five letters or they start with its code |
| `Countries.ChinaIsNotFound` | packages/types/src/countries.ts:62-71 | China is listed and is not found, in any case and spacing |
| `Countries.ShippedTableAnswersFromTheList` | packages/types/src/countries.ts:18-39 | with the shipped countries and aliases every answer is a listed code |
| `Portal.Scraper.Run` | scripts/scrape-trade-portal.ts:610-695 | one run resumes, scrapes batch by batch, saves each batch and writes the output, or dies after any batch or before the output |
| `Portal.Scraper.ScrapeBatches` | scripts/scrape-trade-portal.ts:658-687 | the batch loop saves the results after each batch, in list order, until none is left or the program dies |
| `Portal.CrashAndResume` | scripts/scrape-trade-portal.ts:617-692 | after any crashes and restarts at any batch sizes, partials are prefixes of the list and an output is each procedure once, in order |
| `Portal.StartGoesOn` | scripts/scrape-trade-portal.ts:617-692 | a start keeps what was completed and goes on with the rest |
| `Portal.StartScrapes` | scripts/scrape-trade-portal.ts:632-692 | a start saves, beyond what it resumes from, exactly what scraping yields for the next ids of the list, as many as its batches hold |
| `Portal.UniqueSteps` | scripts/scrape-trade-portal.ts:444 | one link per url, the last one with it, in the order the urls first occur |
| `Portal.Retry` | scripts/retry-failed.ts:197-225 | replaces in place, for each failed entry, the first entry with its id |
| `Portal.RetryEachKeeps` | scripts/retry-failed.ts:215-224 | a retry pass keeps length, order and ids; an entry changes only as the first with the id of a retried one |
| `Portal.RetryLeavesGoodOnes` | scripts/retry-failed.ts:198-224 | with distinct ids every entry with steps stays as it was |
| `Portal.RetryReplacesFailed` | scripts/retry-failed.ts:198-224 | with distinct ids every entry without steps becomes what its retry yields, if anything |

## Left out

- Tiers.CalculateDemurrageCost: money is exact, not binary floating point; only the rounding to cents is modelled.
- Calendar.DaysBetweenIsExact: timestamps have no upper bound, so the end of the ECMAScript time range is not modelled.
- Charges.Select: among tariffs equal in date and creation time the database may return any; here the first listed wins.
- ChargeDesks.ChargeDesk.PostEntries: the dry run, entry numbers, descriptions and a missing chart account are not modelled; exchange rates, closed periods and the row order are parameters.
- ChargeDesks.ChargeDesk.PostDemurrage: one time serves its refresh and its posting, and no call comes between; in runs the two are separate calls at times of their own.
- ChargeDesks.ChargeDesk.OpenNew: that the database driver prints moments in local time is a fact about node-postgres, which is not part of this model; the zone of each moment is given with it.
- ChargeDesks.ChargeDesk.VoidJournalEntry: work-cost allocations hanging off an entry are not modelled; demurrage entries have none.
- ChargeDesks.ChargeDesk.UpdateContainer: keys without effect on the price are one flag, not columns.
- Tracking.SnapshotRecord.Update: signatures are ideal, a proof verifies only if it was issued; dates stay text, and only ASCII letters are put in upper case.
- BookingNumbers.NumberRoundTrip: numbers made elsewhere whose last part is not plain digits are read by a parameter that yields whole numbers.
- EnvFile.ReadSettings: a quoted value with anything beyond plain characters between its quotes is evaluated by a parameter.
- Countries.CaseAndSpaceIrrelevant: only ASCII letters have case, and only they, digits and the underscore are word characters.
- Portal.Scraper.Run: what a page yields is a parameter; dying in the middle of writing a file is not modelled.
- `deploy/contabo/init.py` lines 50-68, the checks on single settings: each is one comparison.
- Recharging a posted charge to an invoice, the quick calculator and the consignment estimate: they read the same pricing and add no state.
- Reference checks, roles, tenant row security and request limits: one tenant and valid references are assumed.
- HTML escaping for print, survey and repair records, page cursors, provider parsing: no state beyond one row or one expression.
- Browser automation, network calls and progress pages.
