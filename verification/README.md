# SPARK in Dafny

SPARK is a monitor for a home or small-office network. This project models its
algorithms and state machines that are easy to get subtly wrong, and proves what
they are for.

* **The map.** `Topology` works out what is plugged into what from switch MAC
  tables and LLDP; `TreeRecovery` shows that complete tables from a real tree give
  that tree back. `Forest` is reachability in a parent map and the loop guard.
  `MapMode` is how findings are stored: by a person, by the automatic pass, taken
  back, started over. `ServiceMap` turns any stored parents into trees, and
  `Diagram` draws them; `Sorting` is the stable sort both use.
* **The history ladder.** `Retention` is the nightly folding of raw samples into
  five-minute and hourly rows; `Buckets` and `Ladder` prove the tables a function of
  every sample ever recorded, and `Nights` says for which settings; `Series` says what
  the rows of a check or metric hold, and `Chart` reads a chart back from the three
  tables.
* **Alerts.** `Rules` is the threshold machine of one key, `RuleBooks` all keys with
  their incidents and messages. `Messages`, `Outbox`, `Dispatch` and `Dispatcher` are
  the outbox that routes, holds, batches, sends, retries and gives up.
* **Maintenance and availability.** `Maintenance` is weekly windows and merged
  stretches; `Availability` splits an outage's seconds.
* **Others.** `Framing` (the encrypted backup file), `Counters` (interface counters
  over a run of polls), `Trend` (the fill trend) and `Limiter` (the sliding window).

Code that changes things step by step is modelled by classes and methods with loops,
each proved against a specification function or relation; the theorems are lemmas
about those specifications and invariants the methods keep.

## Assumptions

* Instants are whole seconds, or reals where the code divides by them; comparing two
  of them compares instants. Zones are a fixed offset from UTC.
* Averages, rates, geometry and the trend are real numbers: floating-point rounding is
  not modelled.
* A transaction is one step. A dispatch is two, with the sending in between and
  anything queued meanwhile.
* What the network answers -- devices, channels, mail servers -- is arbitrary input.
* The limiter's clock does not go back.
* The backup's cipher is a pair of functions: what is sealed opens again, and, where
  forgery matters, a block of the file at hand opens only if it was sealed under the
  same nonce and header.

## Where the code and its notes differ

* `topology.py` says that a device placed by hand, Accept included, is never touched
  by automatic. The code compares the stored parent with automatic's own row, so a
  device a person puts back where automatic once put it can be moved again.
  `MapMode.HandPlaceIsSafeExactly` and `MapMode.AcceptedPlaceIsSafeExactly` give the
  exact condition and `MapMode.HandPlaceCanBeTouched` a run.
* `retention.py` says that its cutoffs are aligned so that no bucket straddles one, and
  nothing is lost. An hour can straddle the raw cutoff: a night whose settings keep raw
  rows longer than five-minute rows, and which starts five minutes or more past an
  hour, folds part of one; the next night's fold finds the
  hour's row there, adds nothing to it, and deletes the rest of the hour's samples.
  `Nights.SettingsSplitExactly` says which nights these are,
  `Nights.ProgramRunsAreFair` and `Nights.RunsOnTheHourAreFair` that runs keep every
  sample if no night keeps raw rows longer, or if every night starts on the hour, and
  `Nights.SplitHourLosesASample` and `Series.SplitHourCountsOne` that two successive
  nights of any other settings lose a sample, as long as hourly rows are kept longer
  than raw ones.

## Model

| member | source | states |
|---|---|---|
| `Forest.Ancestors` | spark/src/spark/hierarchy.py:23-37 | walks the stored parents: each entry is the device that many steps up, no device twice and never the starting one; below the depth limit it stops only where the chain ends or comes back on itself |
| `Forest.AncestorsComplete` | spark/src/spark/hierarchy.py:23-37 | in a map without loops and within the depth limit, what `ancestors` lists are exactly the devices the given one is below |
| `Forest.Descendants` | spark/src/spark/hierarchy.py:57-70 | the devices found are exactly those, other than the given one, whose parent chain reaches it; for any map at all, looped ones included |
| `Forest.CanParent` | spark/src/spark/hierarchy.py:73-76 | says yes exactly when the new parent is neither the device nor below it |
| `Forest.CanParentIsExact` | spark/src/spark/hierarchy.py:73-76 | from a map without loops, the guard says yes if and only if the move leaves the map without loops: it refuses nothing that is safe and allows nothing that is not |
| `Forest.AllowedMoveKeepsAcyclic` | spark/src/spark/hierarchy.py:73-76 | a move the guard allows keeps the parent map free of loops |
| `Forest.ChainLoops` | spark/src/spark/servicemap.py:208-216 | the chain walk answers whether the parent chain ever leaves the map |
| `Forest.RepeatNeverEnds` | spark/src/spark/servicemap.py:208-216 | meeting any device twice on the way up means the chain never leaves the map, which is what the `seen` set stands on |
| `Forest.Linear` | spark/src/spark/hierarchy.py:23-37 | of two devices above the same one, one is above the other |
| `Topology.WithoutLoops` | spark/src/spark/topology.py:219-234 | keeps a link exactly when its chain of discovered parents leaves the map, for every set of links; the walk always ends |
| `Topology.WithoutLoopsIsForest` | spark/src/spark/topology.py:219-234 | what is kept has no loop, and each kept device's parent is kept or is outside the map |
| `Topology.WithoutLoopsDropsOnlyLoops` | spark/src/spark/topology.py:219-234 | links that have no loop all stay |
| `Topology.FindUplink` | spark/src/spark/topology.py:138-146 | the uplink port: the least port among those with the most of the gateway's MACs; none if no port has any |
| `Topology.ReadDown` | spark/src/spark/topology.py:147-153 | each MAC learned off the uplink is kept with the least port it was learned on |
| `Topology.ReadTables` | spark/src/spark/topology.py:134-153 | of all tables: which switches know their way up, what each sees downstream, and every MAC some switch learned on its uplink |
| `Topology.PlaceByMacs` | spark/src/spark/topology.py:159-179 | each device is placed on the deepest switch that sees it, alone; straight off the gateway where nothing sees it; nowhere where two switches tie |
| `Topology.FindDeepest` | spark/src/spark/topology.py:172-176 | the deepest candidates are those that the most other candidates see below them |
| `Topology.GroupByPort` | spark/src/spark/topology.py:182-185 | each switch port with exactly the devices placed on it by MAC |
| `Topology.PutBehind` | spark/src/spark/topology.py:181-194 | a port's one piece of infrastructure not set by hand below another member takes the rest of the port's devices behind it; every other link stays |
| `Topology.ReadLldp` | spark/src/spark/topology.py:200-213 | a neighbour heard downstream is below, one heard on the uplink above; of several reports the first counts, and one from above before one from below |
| `Topology.ApplyLldp` | spark/src/spark/topology.py:200-214 | LLDP's claim takes the place of the tables' for the same device, and the gateway's is thrown out |
| `Topology.Infer` | spark/src/spark/topology.py:129-216 | the whole inference is the claims of tables, ports and LLDP put over one another with loops dropped, and is empty without a gateway |
| `Topology.GatewayIsTheTop` | spark/src/spark/topology.py:159-216 | whatever the tables say, after the inference the gateway is there with no parent and nothing loops |
| `TreeRecovery.UplinkIsUp` | spark/src/spark/topology.py:138-146 | with complete tables from a real tree, the port each switch takes for its uplink is the one towards the gateway |
| `TreeRecovery.SeesIffBelow` | spark/src/spark/topology.py:155-157 | with complete tables, a switch sees a device downstream if and only if the device is below it |
| `TreeRecovery.DeepestIsHolder` | spark/src/spark/topology.py:172-179 | with complete tables the deepest candidate is a single one, and it is the nearest switch above the device |
| `TreeRecovery.TablesTellTheTruth` | spark/src/spark/topology.py:159-194 | with complete tables, what MACs and ports claim of each device is its true parent and port |
| `TreeRecovery.InferRecoversTheTree` | spark/src/spark/topology.py:129-216 | complete tables from a real tree, whose every interior device is the gateway, a switch with a table or a front on a switch port, give that tree back: exactly its devices, each under its true parent; LLDP reports may be there if true |
| `TreeRecovery.ParentNamesThePort` | spark/src/spark/topology.py:177-179 | without LLDP, a device whose parent has a table is given the true parent and the true port by that parent |
| `MapRecovery.WipedMapIsTheTree` | spark/src/spark/topology.py:591-603 | from the tables to the stored map: starting over in automatic mode stores the real tree, whatever was stored before |
| `MapMode.MapBook.AcceptOne` | spark/src/spark/topology.py:435-451 | accepting a place sets the parent of a device that has none, unless the guard refuses and then nothing changes, and fills in an unknown role; the automatic rows stay as they were |
| `MapMode.MapBook.DismissOne` | spark/src/spark/topology.py:454-459 | "Not right" adds the pair once and keeps the latest pairs within the limit |
| `MapMode.MapBook.ApplyAutomatic` | spark/src/spark/topology.py:493-540 | the automatic pass, row by row: a place that is not rejected, changes something, is automatic's to change and makes no loop is stored with its row |
| `MapMode.MapBook.TakeBackOne` | spark/src/spark/topology.py:550-562 | taking back clears the parent and the row exactly if automatic put the device where it is, and the place is then rejected |
| `MapMode.MapBook.PlaceByHand` | spark/src/spark/web/routes_device_page.py:617-642 | the page's form changes the map only for a device that is there, with a role on offer and no parent or one that is there and not ignored; then the parent is stored if the guard allows it, and the role with it, or nothing at all |
| `MapMode.MapBook.WipeMap` | spark/src/spark/topology.py:591-603 | starting over empties parents, automatic rows, rejected places and roles, and then runs a pass if the mode is automatic |
| `MapMode.PassKeepsAcyclic` | spark/src/spark/topology.py:493-540 | an automatic pass over any findings keeps the map free of loops |
| `MapMode.RunsKeepAcyclic` | spark/src/spark/topology.py:435-603 | every run of accept, dismiss, automatic passes, mode changes, take-back, hand moves and starting over keeps the parent map free of loops |
| `MapMode.PassRespectsPeople` | spark/src/spark/topology.py:493-540 | an automatic pass changes a device's parent only where the device never had a place or is where automatic's own row says it put it, and writes that row |
| `MapMode.PassMovesExactly` | spark/src/spark/topology.py:508-537 | each finding of a pass moves its device if and only if, at its turn, it is not rejected, is new, is automatic's to place and makes no loop |
| `MapMode.HandPlacesStay` | spark/src/spark/topology.py:493-506 | a device that is not automatic's stays where a person left it through any run without another act of a person on it |
| `MapMode.HandPlaceIsSafeExactly` | spark/src/spark/topology.py:493-524 | the notes say a device placed by hand is never touched; the code moves it, in a pass of any findings that sees it elsewhere, if and only if the person chose the very place automatic's row still holds |
| `MapMode.AcceptedPlaceIsSafeExactly` | spark/src/spark/topology.py:435-524 | the same if and only if for a place a person accepted: a later pass that sees the device elsewhere moves it exactly where automatic's row already held the place accepted |
| `MapMode.HandPlaceCanBeTouched` | spark/src/spark/topology.py:493-524 | a run of four steps in which a later pass does move a device placed by hand |
| `MapMode.DismissedStaysBounded` | spark/src/spark/topology.py:454-459 | the list of rejected places stays within its limit on every run |
| `MapMode.AcceptOnlyFillsIn` | spark/src/spark/topology.py:435-451 | accepting never changes a parent or a role that is there, nor any other device's, nor automatic's rows, and sets no parent the guard refuses |
| `MapMode.TakenBackStaysOff` | spark/src/spark/topology.py:550-562 | a place taken back is not set again by any later pass that still sees the device there |
| `MapMode.WipeRebuilds` | spark/src/spark/topology.py:591-603 | starting over in automatic mode stores exactly the links worked out: all of them and nothing else, whatever order they are taken in |
| `ServiceMap.Build` | spark/src/spark/servicemap.py:151-205 | the trees' lists hold each attached device under its parent and no other; roots are the placed devices not attached; the rest are unplaced; children and roots go by role and name, unplaced devices by name |
| `ServiceMap.DrawnIsForest` | spark/src/spark/servicemap.py:189-196 | the links drawn never loop, whatever parents are stored |
| `ServiceMap.NodeListedOnce` | spark/src/spark/servicemap.py:69-71 | a node's tree lists what is below it once each, and its count is their number |
| `ServiceMap.EveryDeviceOnce` | spark/src/spark/servicemap.py:69-71 | for any stored parents, loops and missing ones included, every device is in exactly one root's tree or in the unplaced list, so the roots' counts and the unplaced make up the total |
| `ServiceMap.HangsFromRoot` | spark/src/spark/servicemap.py:183-205 | every placed device is a root or below one |
| `Retention.History.RunRetention` | spark/src/spark/retention.py:292-338 | the nightly statements in the program's order leave the tables of one night at cutoffs rounded down to their bucket width |
| `Retention.AggSplit` | spark/src/spark/retention.py:60-118 | the aggregate of an interval is that of its two parts put together |
| `Ladder.FoldRawKeepsSync` | spark/src/spark/retention.py:60-87 | folding raw rows at a cutoff on a five-minute mark gives exactly the five-minute rows the log calls for: no row is met that is there already |
| `Ladder.FoldRowsKeepsSync` | spark/src/spark/retention.py:90-118 | folding five-minute rows into hours gives exactly the hourly rows the log calls for, as long as no hour is split |
| `Ladder.NightKeepsSync` | spark/src/spark/retention.py:292-338 | a night takes tables that are a function of the log and the cutoffs to the same function at the new cutoffs |
| `Ladder.RecordKeepsSync` | spark/src/spark/retention.py:60-118 | a sample stamped no earlier than the raw cutoff leaves every row already folded as it should be |
| `Ladder.TablesAreAFunctionOfTheLog` | spark/src/spark/retention.py:292-338 | along every run of recordings and nights the three tables are a function of all samples ever recorded and the cutoffs reached: none is lost, none counted twice |
| `Ladder.SkippedNightChangesNothing` | spark/src/spark/retention.py:292-338 | running on two nights leaves the same tables as skipping the first |
| `Ladder.SettingsKeepHoursWhole` | spark/src/spark/retention.py:292-316 | with raw rows kept no longer than five-minute rows, no night splits an hour, whatever the settings otherwise and whenever it starts |
| `Nights.SettingsSplitExactly` | spark/src/spark/retention.py:292-316 | the cutoffs of a night split an hour if and only if raw rows are kept longer than five-minute rows and the night starts five minutes or more past an hour |
| `Nights.ProgramRunsAreFair` | spark/src/spark/retention.py:292-338 | every run of recordings and nights of the program, with any settings each night that keep raw rows no longer than five-minute rows, is one for which the ladder keeps every sample |
| `Nights.RunsOnTheHourAreFair` | spark/src/spark/retention.py:292-338 | so is every run whose nights start in the first five minutes of an hour, with any settings at all |
| `Nights.SplitHourLosesASample` | spark/src/spark/retention.py:292-338 | with raw rows kept longer than five-minute rows, hourly rows longer still, and a start five minutes or more past an hour, two nights in a row always lose a sample: of two samples either side of the first night's raw cutoff, all that is left is the row of the first, whatever the second was |
| `Series.HourRowExact` | spark/src/spark/retention.py:90-118 | each hourly check row counts exactly the samples of its hour: how many, up, degraded, down, lowest, highest; and their average where every sample has a value |
| `Series.FiveRowsExact` | spark/src/spark/retention.py:60-87 | over whole buckets the five-minute rows say of a series what its samples say |
| `Series.RowRoundTrip` | spark/src/spark/retention.py:202-225 | what a row adds to a wider one is the aggregate it was made of, the average included where every sample has a value |
| `Series.SplitHourCountsOne` | spark/src/spark/retention.py:60-118 | the same two nights in numbers: had the first been skipped the hour's row would count both samples, after both it counts one and nothing else is left |
| `Chart.Acc.Add` | spark/src/spark/snmp_history.py:105-122 | an average counts with its weight, a missing one not at all, and the peak is the higher; indexes outside the chart change nothing |
| `Chart.Acc.Averages` | spark/src/spark/snmp_history.py:124-130 | each bucket's average is its weighted sum over its weight, none where nothing weighed |
| `Chart.IndexIs` | spark/src/spark/snmp_history.py:64-81 | an instant falls in the bucket whose stretch holds it, and in no other |
| `Chart.CustomHistory` | spark/src/spark/snmp_history.py:337-377 | each bucket of the chart is the average, highest and lowest of what the three tables hold of its stretch |
| `Chart.HeldIsExact` | spark/src/spark/snmp_history.py:337-377 | of any stretch that does not cut through a row or reach back past what has expired, the three tables together hold exactly what its samples come to |
| `Chart.ChartIsOfTheRawSamples` | spark/src/spark/snmp_history.py:337-377 | after any run of polls and nights the chart equals the chart of the raw samples had they never been folded |
| `Chart.EveryRangeFits` | spark/src/spark/snmp_history.py:30-62 | every bucket of every range the page offers is such a stretch, given a day of raw rows, a week of five-minute rows and a month of hourly ones |
| `Chart.OfferedChartsAreExact` | spark/src/spark/snmp_history.py:337-377 | after every run of the program that kept a day of raw rows, a week of five-minute and a month of hourly ones, each bucket of each range on offer is what the raw samples alone would have given |
| `Rules.FiresExactly` | spark/src/spark/snmp_alerts.py:231-284 | a poll fires if and only if no alert stands and the current unbroken run of breached polls, with no gap over three intervals, now has the polls and the time asked for |
| `Rules.ClearsExactly` | spark/src/spark/snmp_alerts.py:254-284 | a poll clears if and only if an alert stands and the value is back under the line by the margin |
| `Rules.RowRemembers` | spark/src/spark/snmp_alerts.py:254-284 | what the row remembers is where the current run of breached polls began and how many there were, or that an alert stands |
| `Rules.BandBreaksStreak` | spark/src/spark/snmp_alerts.py:254-284 | a poll in the in-between band ends an unfired streak: any later alert's run begins after it |
| `Rules.ClearBetweenFires` | spark/src/spark/snmp_alerts.py:231-284 | between two fires there is a clear |
| `Rules.FireBetweenClears` | spark/src/spark/snmp_alerts.py:231-284 | between two clears there is a fire |
| `RuleBooks.RuleBook.StepRule` | spark/src/spark/snmp_alerts.py:231-284 | a step leaves the rule's row as the machine of one key says, closes what is open for it when it clears, leaves one incident open while a recorded rule is fired, and touches no other row or incident |
| `RuleBooks.RuleBook.OpenIncident` | spark/src/spark/snmp_alerts.py:200-209 | an incident is opened for a key exactly if none is open |
| `RuleBooks.RuleBook.CloseIncidents` | spark/src/spark/snmp_alerts.py:212-221 | exactly the open incidents of the keys taken in are closed |
| `RuleBooks.RuleBook.PollRule` | spark/src/spark/snmp_alerts.py:333-353 | a message goes out for a fire when the rule is on and the device not quiet, and for a clear only if that fire was told; the row is marked exactly then; no other row, incident or message changes |
| `RuleBooks.RuleBook.Forget` | spark/src/spark/snmp_alerts.py:517-526 | forgetting drops the rows of the keys and closes what is open for them; every other row and incident stays |
| `RuleBooks.RuleBook.Drop` | spark/src/spark/suppressions.py:181-192 | setting or removing a suppression drops the rows it reaches and closes what is open for them, and nothing else |
| `RuleBooks.RuleBook.Finish` | spark/src/spark/maintenance.py:248-266 | each end of a window is dealt with once: one message for each open incident it covered whose rule was not told of, in their order, and nothing else; exactly the rules of those it covered are marked, so all have been told of |
| `RuleBooks.RuleBook.LeaveBehind` | spark/src/spark/maintenance.py:345-353 | a rule that fired silently under a window is told of when it ends, once, and marked so that its recovery follows |
| `RuleBooks.RecoveryAnswersItsProblem` | spark/src/spark/snmp_alerts.py:287-353 | every recovery in the outbox comes after a problem message of its own episode |
| `RuleBooks.RecoveriesAnswerDifferentProblems` | spark/src/spark/snmp_alerts.py:287-353 | no recovery is queued twice, and no two recoveries answer one problem message |
| `Messages.GroupIntoMessages` | spark/src/spark/channels.py:330-357 | what is due and what was held, grouped into messages as the channel combines or not |
| `Messages.InExactlyOneMessage` | spark/src/spark/channels.py:330-357 | the messages, one after another, hold every held and every due delivery exactly once, in order; none is empty |
| `Outbox.QuietHoursRunForwards` | spark/src/spark/alerts.py:172-184 | the quiet window runs from its start forwards round the clock up to its end, overnight or not |
| `Outbox.Select` | spark/src/spark/alerts.py:514-595 | of the rows asked for, the first that match, no more than the limit, and all that match if there are fewer |
| `Outbox.SummariesAfter` | spark/src/spark/alerts.py:537-565 | when the alerts of all rows that changed are summed up again, every alert is the summary of its deliveries |
| `Outbox.CarriedSummary` | spark/src/spark/alerts.py:510-534 | an alert whose deliveries still carry its own state is already their summary |
| `Outbox.BestIsTheBest` | spark/src/spark/alerts.py:552-557 | a routed alert's status is that of one of its deliveries, and none of them has a better one: sent, then waiting, held, failed, dropped |
| `Outbox.MostAndSoonest` | spark/src/spark/alerts.py:558-565 | its attempts are no fewer than any delivery's and its next is no later than that of any still waiting |
| `Outbox.MostAndSoonestAreSomeones` | spark/src/spark/alerts.py:558-565 | both are some delivery's own |
| `Dispatch.GivenUpAfterFive` | spark/src/spark/alerts.py:631-646 | a delivery that keeps failing waits 30 seconds, 2, 10 and 30 minutes after its tries, and is given up after the fifth and not before |
| `Dispatcher.OnlyOffAndGoneDrop` | spark/src/spark/alerts.py:588-608 | before anything is sent a delivery changes only by being dropped, because alerting is off or its channel is gone, or by being held, because it was due in quiet hours |
| `Dispatcher.AlertTables.Enqueue` | spark/src/spark/alerts.py:192-215 | an alert is queued unless one for the same event is, and no event is ever queued twice |
| `Dispatcher.AlertTables.Route` | spark/src/spark/alerts.py:510-534 | each of the first 200 alerts not yet routed gets one delivery on every channel that takes it and no other, or is dropped if none does |
| `Dispatcher.AlertTables.Decide` | spark/src/spark/alerts.py:579-610 | before anything is sent each delivery picked is dropped if alerting is off or its channel gone, held in quiet hours, or planned; no other changes |
| `Dispatcher.AlertTables.Send` | spark/src/spark/alerts.py:615-622 | each channel's messages go out in order until one is rate limited, whatever the answers |
| `Dispatcher.AlertTables.Record` | spark/src/spark/alerts.py:624-661 | a delivery in a message gets one attempt more and is sent, failed or put off by the answer; the rest of a rate-limited channel's due ones wait as long; every alert's own row follows |
| `Dispatcher.AlertTables.Summarise` | spark/src/spark/alerts.py:537-565 | the alerts given become the summary of their deliveries, the others stay |
| `Dispatcher.AlertTables.Dispatch` | spark/src/spark/alerts.py:568-661 | a run of the dispatcher keeps every invariant, changes no settled delivery, and hands each delivery to its channel at most once, with alerts queued meanwhile |
| `Dispatcher.NeverTriedPastTheLimit` | spark/src/spark/alerts.py:631-646 | counted over all runs ever, no delivery is handed to its channel more than five times in all, and fewer while it is open |
| `Dispatcher.TriedOnceOrWaits` | spark/src/spark/alerts.py:615-659 | everything planned gets exactly one attempt, or its channel was rate limited, and then what was due waits as long as asked |
| `Dispatcher.DecidedMoves` | spark/src/spark/alerts.py:585-608 | deciding attempts nothing and settles only by dropping |
| `Dispatch.TriedAtMostOnce` | spark/src/spark/alerts.py:615-622 | no dispatch tries a delivery twice, nor one that is settled, nor one on another's channel |
| `Dispatch.TriedOrLimited` | spark/src/spark/alerts.py:615-622 | everything planned is tried unless its channel was rate limited |
| `Dispatch.PlanIsSound` | spark/src/spark/alerts.py:588-608 | the plan has each channel once and only open deliveries of that channel, each once |
| `Dispatch.PlanHas` | spark/src/spark/alerts.py:588-608 | a channel that is on, outside quiet hours, is planned for whenever anything is due or held on it |
| `Dispatch.RecordedMoves` | spark/src/spark/alerts.py:631-659 | recording changes only open deliveries and adds at most one attempt |
| `Outbox.MovedTwice` | spark/src/spark/alerts.py:568-661 | along any run a settled delivery never changes again, and attempts add up |
| `Maintenance.OnIsUnder` | spark/src/spark/maintenance.py:62-83 | the one look at the latest begun occurrence says whether any weekly occurrence is on |
| `Maintenance.LastEndedIsLatest` | spark/src/spark/maintenance.py:86-96 | the last end is that of an occurrence, has passed, and no occurrence has ended later; none exactly if none has ended |
| `Maintenance.NextSpanIsNext` | spark/src/spark/maintenance.py:99-107 | the next stretch is not over and none that is not over begins before it |
| `Maintenance.Covering` | spark/src/spark/maintenance.py:123-143 | finds a window if and only if the device is under one at that instant, by any occurrence of its own or of one above that takes in what is below; its own comes first |
| `Maintenance.SpansOver` | spark/src/spark/maintenance.py:146-172 | the stretches are sorted, disjoint and never touching; each of their instants is under a window, and in the range none under a window is missed |
| `Maintenance.Merge` | spark/src/spark/maintenance.py:163-171 | merging changes no instant: what was in a piece is in a stretch and the other way round |
| `Maintenance.OccurrencesOver` | spark/src/spark/maintenance.py:159-162 | no weekly occurrence that reaches the range is missed and none made up |
| `Maintenance.SameBothWays` | spark/src/spark/maintenance.py:269-274 | looking up from a device and looking down from the window's device agree on whether the window covers it |
| `Availability.OverlapsCountSeconds` | spark/src/spark/availability.py:99-118 | adding up overlaps with disjoint stretches counts the seconds in them |
| `Availability.OverlapCountsSeconds` | spark/src/spark/availability.py:99-100 | the overlap of two stretches is the number of seconds in both |
| `Availability.Figures.Add` | spark/src/spark/availability.py:103-127 | an outage's time in the range is all unreachable if explained, else planned for exactly the seconds under a window and down for the rest; its duration is all its time outside windows; the longest follows |
| `Availability.UnplannedWithinWhole` | spark/src/spark/availability.py:116-127 | the unplanned part in the range is never more than the duration recorded for the whole outage |
| `Availability.HeldIsUnder` | spark/src/spark/availability.py:115-118 | the seconds added up over the merged stretches are the seconds of the outage under a window, in the range and in all |
| `Diagram.LineShowsTheWorst` | spark/src/spark/diagram.py:58-73 | the trouble shown for a device is the worst own trouble of it and everything under it: red exactly if some device there is bad itself |
| `Diagram.Group` | spark/src/spark/diagram.py:119-132 | a group's tiles and how many more there are |
| `Diagram.TilesFitTheirGroup` | spark/src/spark/diagram.py:119-132 | at most 18 tiles, the first members, all inside the group with room for the last line, no two overlapping, and the rest counted |
| `Diagram.Build` | spark/src/spark/diagram.py:135-147 | boxes for carriers, a group for two or more servers, a group for the end devices |
| `Diagram.Place` | spark/src/spark/diagram.py:156-171 | adds the boxes of a subtree and the lines between them, in order |
| `Diagram.KeepsToItsRoom` | spark/src/spark/diagram.py:150-171 | a subtree stays within the width worked out for it and below its top, and all that hangs from a box is drawn below its foot |
| `Diagram.TreeIsClear` | spark/src/spark/diagram.py:156-171 | no two boxes of a tree overlap |
| `Diagram.DrawingIsClear` | spark/src/spark/diagram.py:174-187 | no two boxes of a whole drawing overlap, and none is left of or above the margin |
| `Diagram.Layout` | spark/src/spark/diagram.py:174-187 | the trees' boxes side by side; their lines sorted by colour, quiet ones first, each colour in the order placed; the width and height reach exactly a margin past the furthest boxes |
| `Diagram.EveryDeviceDrawnOrCounted` | spark/src/spark/diagram.py:119-147 | every device of the trees is drawn once, as a box or a tile, or is a member past the eighteenth of one group; the groups drawn are exactly the servers and the end devices of each device, and each says how many it does not show |
| `Diagram.OneLineToEach` | spark/src/spark/diagram.py:156-171 | every box but a tree's top has one line to it, in the colour of the worst below it |
| `Framing.Encrypt` | spark/src/spark/backup.py:312-328 | the file is the header and each chunk sealed in its place with the last one marked; refused past 2^32 chunks |
| `Framing.Decrypt` | spark/src/spark/backup.py:336-362 | reads all of a file's blocks or stops at the first that does not check out, with that error, having written only what came before |
| `Framing.RoundTrip` | spark/src/spark/backup.py:312-362 | decrypting what was encrypted gives the data back, for every length: none, exact chunks, a part over |
| `Framing.OnlyWhatWasWritten` | spark/src/spark/backup.py:336-362 | with an ideal cipher a file that is accepted is the very file written, header included; of one that is refused only a beginning of the data was written out |
| `Framing.NonceTellsApart` | spark/src/spark/backup.py:308-309 | no two blocks of a file share a nonce, nor the last one's mark |
| `Framing.RegularPartsComeBack` | spark/src/spark/backup.py:318-328 | reading in chunks gives back the parts that were joined |
| `Framing.AcceptedBlocks` | spark/src/spark/backup.py:345-362 | blocks that all open, the last as the last, are all the blocks written, in order |
| `Counters.DeltaIsMovement` | spark/src/spark/snmp_poll.py:110-124 | a difference given is never more than went through, and exactly that below 2^32, across a wrap as well |
| `Counters.NeverMoreThanMoved` | spark/src/spark/snmp_poll.py:153-198 | over any run of polls the octets the kept rates stand for are at most what went through in those intervals, and so in all |
| `Counters.ExactWhenUnhurried` | spark/src/spark/snmp_poll.py:153-198 | they are exactly that if each of those intervals moved under 2^32 octets |
| `Counters.RateIsOfDelta` | spark/src/spark/snmp_poll.py:153-198 | a rate kept is between two readings of one counter width and times its seconds is eight times the difference |
| `Counters.StoredExactly` | spark/src/spark/models.py:82-108 | any unsigned 64-bit counter fits the signed column and comes back as it was |
| `Counters.Interface.Reload` | spark/src/spark/snmp_poll.py:229-239 | the previous reading loaded from the row is the last poll's |
| `Counters.Interface.Record` | spark/src/spark/snmp_poll.py:325-371 | each answered poll becomes the baseline of the next, and gives the rates between the two, sampled if the interface is up |
| `Counters.RestartIsSeen` | spark/src/spark/snmp_poll.py:201-221 | a restart goes unnoticed only if the uptime by then was within the slack, and a device going on is taken for restarted only if the clocks differ by more |
| `Trend.RisingAgainstFalling` | spark/src/spark/storage.py:219-223 | Chebyshev's sum inequality for the fitted slope's numerator |
| `Trend.NeverFilling` | spark/src/spark/storage.py:203-229 | used space that never grows gives a slope of at most nothing and no days left |
| `Trend.TrendExactlyWhenEnough` | spark/src/spark/storage.py:214-222 | there is a trend exactly from three samples over two days on: the check for no spread never says no |
| `Trend.LineHasItsSlope` | spark/src/spark/storage.py:217-223 | samples on a line give that line's slope |
| `Trend.LineReachesItsSize` | spark/src/spark/storage.py:223-229 | samples on a line that grows over the threshold give the instant at which that line reaches the size, or the last sample's if it is full |
| `Trend.NoLineFitsBetter` | spark/src/spark/storage.py:203-224 | the fitted line is the least-squares line: no line at all misses the samples by less, squared and added up |
| `Trend.SlowLineIsNotFilling` | spark/src/spark/storage.py:225-226 | a line growing slower than the threshold is given its slope and no days |
| `Limiter.Book.Within` | spark/src/spark/ratelimit.py:41-48 | what is left of a key's times is as many as the whole log has in the window; past the limit of keys the book starts over |
| `Limiter.Gate.Allow` | spark/src/spark/ratelimit.py:50-58 | yes exactly when the log since each book started over has too few misses in the miss window and too few calls in the last minute; then that call is logged, and nothing else |
| `Limiter.Gate.Miss` | spark/src/spark/ratelimit.py:60-62 | a miss is logged for its key; every other key's log stays unless the book starts over |
| `Limiter.Gate.NoMinuteHoldsMore` | spark/src/spark/ratelimit.py:50-58 | for every key, no stretch of 60 seconds holds more allowed calls than the limit |
| `Limiter.SpacedMeansLimited` | spark/src/spark/ratelimit.py:41-58 | times whose every limit-th successor is more than a window away are never more than the limit in one window |

## Left out

- Daylight saving: a weekly window keeps its local time across a change of clocks; with a fixed offset there is none to keep it across.
- Text timestamps: SQLite compares instants as text, and bound values and bucket starts have different text forms; the model compares the instants meant.
- Floating-point rounding of averages, rates, the trend and the layout.
- Check-latency and SNMP-health averages where some samples have no value: the folds weigh by samples or answered polls, so wide averages are not exact; `Series.HourRowExact` claims the average only where every sample has a value.
- The health, interface and storage families of `retention.py` fold the same way at other columns; the ladder is proved for any family whose aggregates add up, and its rows are written out for checks and custom metrics, which share one shape.
- Traffic and health charts: they read the same ladder by the same accumulator as `Chart.CustomHistory`.
- Device merges and deletions: a merge re-parents children without asking the loop guard.
- Forest.Ancestors: complete only below the depth limit of 32, as in the code; the theorems that use it say so.
- MapMode: the list of findings is taken in any order; its sorting by depth and name, and the reading of device rows into it, are not modelled.
- ServiceMap: comparing roles and lower-cased names; a device carries where it stands by role and name, and by name alone, as numbers.
- RuleBooks: incidents for SNMP silence ("snmpdown:" keys) have no rule state and queue their messages in another file; the keys here are those `step` drives.
- RuleBooks.RuleBook.Finish: which keys a window covers, less those muted, hidden or under another window, is an input; taking a window away early is not modelled.
- Outbox: the texts of errors and messages, the first time an alert was sent, and the deletion of old rows.
- Dispatcher.AlertTables.Dispatch: a crash between sending and recording would send again; runs here do not crash.
- Maintenance: the form's checks on a new window; `Sane` is what they leave.
- Availability: how much time was watched, and the percentages worked out from it.
- Diagram: names and line paths as text; positions are in the returned boxes, where the program also sets them on the items in place.
- Framing: key derivation and the cipher themselves, temporary files, and what the archive inside holds.
- Counters: error rates a minute, and the poll rows of a device as a whole.
- Trend: the query for the last fourteen days; samples come in the order it gives.
- Web pages, forms, sign-in, configuration, and all collectors.
