# Home-poker tracker: session state, seat table and history

A Dafny model of the in-memory core of a home-poker tracker written in React/TypeScript. The core has three parts:

* **Session state** (`src/hooks/usePokerGame.ts`) holds:
  * the players of the evening, each with a buy-in, cumulative rebuys, a cash-out and a playing/finished status;
  * the visual table of 12 seats;
  * the schedule of future games and the archive of finished sessions;
  * the notification log and the toast queue.

  Adding a player seats them at the lowest free seat and keeps at most one dealer. A rebuy adds to a player's stake. A checkout finishes the player and frees their seat. Finishing the session archives a money summary, clears the table and prunes the schedule.
* **Home page** (`src/app/page.tsx`) holds:
  * the stats panel (players in, players out, money on the table, balance);
  * the history delete and clear actions, and the active list's "cancel entry";
  * the seat-selection state machine: select a seated player, then click again to deselect, swap with another player or move to an empty seat.
* **History list** (`src/components/HistoryList.tsx`) shows the finished players, newest checkout first. The table and the PDF report give one row per finished player: invested, cashed out and profit.

## Modules

| file | module | contents |
|---|---|---|
| `types.dfy` | `Types` | the records of `src/types/index.ts`; notification texts as a `Message` datatype |
| `collections.dfy` | `Collections` | `Filter` (`Array.prototype.filter`) and the pairwise invariant shape |
| `money.dfy` | `Money` | the `reduce` sums and their algebra |
| `table.dfy` | `Table` | seat invariants, the auto-seating loop, the seat-click state machine |
| `game.dfy` | `PokerGame` | class `Game`: the hook's state and operations |
| `history.dfy` | `History` | the finished list: filter, newest-first insertion sort, rows |
| `page.dfy` | `HomePage` | stats, history actions, class `Home` with `selectedSeatId`, the join–rebuy–checkout scenario |

## Modelling choices

* **Time and ids.** Each operation takes one `now` (milliseconds since the epoch). It stands for `Date.now()`, the ids taken from it, and `new Date()`. ISO strings are a formatting of that number.
* **Schedule dates.** A schedule date is the parsed user text as `Option<int>`. `None` stands for an unparseable date, which `new Date(...)` turns into `NaN`.
* **Dialogs.** `confirm()` answers become `bool` parameters. The `alert` in `finishSession` becomes the outcome `NothingToSave`.
* **Amounts.** Amounts are unbounded integers.
* **Selection truthiness.** `if (selectedSeatId)` is JavaScript truthiness: `Table.HasSelection` counts a selected id of 0 as "nothing selected".
* **`Game` invariants.** `Game.Consistent()` holds when:
  * seat numbers are unique and in 1..12, and seated ids are unique;
  * at most one seat and at most one player carry the dealer flag;
  * every finished player has an end time.

  `Game.Valid()` adds that every seat belongs to a player still playing, so a checked-out player holds no seat.

  Every operation of the hook and of the page states that it keeps `Consistent()`, the active list's "cancel entry" included. Every hook operation also keeps `Valid()`; "cancel entry" and the history delete keep it only when the id is not seated. `addPlayer` keeps both when its new id is not already seated.
* **Where the code's behaviour may surprise a reader, the model follows the code:**
  * The seat swap and move happen inside `handleSeatClick` (`src/app/page.tsx:37-51`). There is no occupancy check and no alert: a move only ever targets an empty seat, because a click on an occupied seat swaps.
  * `handleDeleteHistory` removes every record with the given id, whether finished or playing (`src/app/page.tsx:74`).
  * The active list's "cancel entry" removes the player record but keeps the seat (`src/app/page.tsx:147`). `HomePage.CancelEntryLeavesSeat` shows the seat is left with no playing player behind it.
  * Checkout notifications are always "info" (`src/hooks/usePokerGame.ts:100`).
  * The swap has a crash path (see Findings).

## Model

| member | source | states |
|---|---|---|
| Table.LowestFreeSeat | src/hooks/usePokerGame.ts:73-75 | the loop stops at the lowest seat number from 1 up that is not taken, and that number is at most one more than the count of taken seats |
| Table.LowestFreeOnTable | src/hooks/usePokerGame.ts:72-76 | with fewer than 12 seated, the lowest free seat is in 1..12, so the "no free seat" branch is unreachable |
| Table.SeatAtLowestKeepsTable | src/hooks/usePokerGame.ts:77 | appending a new id at the lowest free seat keeps seat numbers unique and in 1..12 and seated ids unique |
| Table.TableAtMostTwelve | src/hooks/usePokerGame.ts:72 | a valid table seats at most 12 players |
| Table.FindBySeat | src/app/page.tsx:28 | the seat look-up returns the first seated entry with that seat number, and finds none exactly when the seat is empty |
| Table.FindById | src/app/page.tsx:40 | the id look-up returns the first seated entry with that id, and finds none exactly when the id is not seated |
| Table.WithoutSeat | src/hooks/usePokerGame.ts:105 | removing a seat keeps exactly the entries with other ids; the seated ids lose exactly that id and no seat number is added |
| Table.WithoutSeatKeepsTable | src/app/page.tsx:61 | removing a seat keeps seat numbers unique and in range, and keeps at most one dealer seat |
| Table.ClearSeatDealersKeeps | src/hooks/usePokerGame.ts:66 | clearing the dealer flag on the seats leaves no dealer seat, the same ids and seat numbers, and a valid table |
| Table.AppendSeatKeepsDealer | src/hooks/usePokerGame.ts:77 | a new seat keeps at most one dealer seat when it does not deal or no other seat deals |
| Table.ClickWhenIdle | src/app/page.tsx:53-55 | with nothing selected a click changes no seat; an occupied seat selects its occupant, an empty seat leaves the selection as it was |
| Table.ClickOwnSeat | src/app/page.tsx:32-35 | clicking the selected player's own seat clears the selection and changes no seat |
| Table.ClickSwap | src/app/page.tsx:37-45 | clicking another player's seat exchanges exactly the two seat numbers, clears the selection, keeps the table valid and the set of occupied seats |
| Table.ClickSwapTwice | src/app/page.tsx:37-45 | swap, re-select, swap back: the second swap restores the original seating |
| Table.ClickMove | src/app/page.tsx:48-51 | clicking an empty seat moves only the selected player and clears the selection; the old seat becomes free and the new one taken |
| Table.ClickMoveTwice | src/app/page.tsx:48-51 | select, move to empty seat N, select again, move to M (empty or the original seat): the player sits at M, N is free and every other entry is unchanged |
| Table.ClickKeepsTable | src/app/page.tsx:27-56 | every click on a seat in 1..12 keeps the table valid and changes nothing but seat numbers |
| Table.AsWrittenAgrees | src/app/page.tsx:37-45 | the page as written does what `Table.SeatClick` does except that it throws exactly when a selection names an id no longer seated and an occupied seat is clicked |
| Table.StaleSelectionCrashes | src/app/page.tsx:40-41 | select player 10, check them out, click player 20's seat: the page as written throws |
| Money.TotalsAppend | src/hooks/usePokerGame.ts:112-113 | money in, money out and profit are additive over concatenation |
| Money.TotalsUpdateAt | src/hooks/usePokerGame.ts:112-113 | replacing one player changes each total by exactly that player's difference |
| Money.BalanceIsPlayersLoss | src/hooks/usePokerGame.ts:116 | money in less money out equals what the players lost between them |
| PokerGame.FindPlayer | src/hooks/usePokerGame.ts:88-90 | the player found is the first on the list carrying the id; none is found exactly when no player carries it |
| PokerGame.Summarize | src/hooks/usePokerGame.ts:112-116 | the archived balance is money in less money out, which is the players' combined loss, and the count is the number of records |
| PokerGame.Prune | src/hooks/usePokerGame.ts:122-123 | the schedule keeps exactly the entries dated more than 86400000 ms from now; an unparseable date is dropped |
| PokerGame.WithoutItem | src/hooks/usePokerGame.ts:132 | deleting a schedule entry keeps exactly the entries with other ids |
| PokerGame.WithoutToast | src/hooks/usePokerGame.ts:50-52 | removing a toast keeps exactly the toasts with other ids |
| PokerGame.NewPlayerDealer | src/hooks/usePokerGame.ts:64-69 | after addPlayer at most one player deals; a dealing newcomer is the only dealer; otherwise the newcomer is put in front of the unchanged list |
| PokerGame.NewPlayerTotals | src/hooks/usePokerGame.ts:68-69 | addPlayer adds exactly the newcomer's stake to the money in and the newcomer to the playing ids |
| PokerGame.ClearDealersTotals | src/hooks/usePokerGame.ts:65 | clearing dealer flags changes no total, no status and no playing id |
| PokerGame.RebuyEffect | src/hooks/usePokerGame.ts:87-95 | a rebuy raises only the rebuy of the players with that id, keeps the length, and is the identity when the id is absent |
| PokerGame.RebuyTotals | src/hooks/usePokerGame.ts:87-95 | with unique ids a rebuy raises the money in by exactly the amount and leaves the money out |
| PokerGame.CheckoutEffect | src/hooks/usePokerGame.ts:97-104 | a checkout sets cash-out, finished status and end time on the players with that id only, keeps the length, and drops exactly that id from the playing ids |
| PokerGame.CheckoutTotals | src/hooks/usePokerGame.ts:97-104 | with unique ids a checkout replaces that player's cash-out in the money out and leaves the money in |
| PokerGame.UnreadBadge | src/hooks/usePokerGame.ts:43-55 | a notification adds one to the unread badge; marking all read keeps the log and empties the badge |
| PokerGame.AddedStaysValid | src/hooks/usePokerGame.ts:71-77 | the state addPlayer leaves after seating the newcomer satisfies every invariant of `Game.Consistent`, and `SeatsBacked` too when it held before |
| PokerGame.Game.constructor | src/hooks/usePokerGame.ts:7-14 | every collection starts empty, and the empty state is valid |
| PokerGame.Game.Notify | src/hooks/usePokerGame.ts:40-48 | an unread entry stamped now goes in front of the log, and a toast with the same id goes at the end of the queue |
| PokerGame.Game.RemoveToast | src/hooks/usePokerGame.ts:50-52 | only the toast queue changes, losing the toasts with that id |
| PokerGame.Game.MarkAllRead | src/hooks/usePokerGame.ts:54-56 | only the log changes: same entries, all read |
| PokerGame.Game.ClearNotifications | src/hooks/usePokerGame.ts:58 | only the log changes, to empty |
| PokerGame.Game.AddPlayer | src/hooks/usePokerGame.ts:62-85 | the newcomer (playing, no rebuy, no cash-out) goes in front of the players; with fewer than 12 seated they take the lowest free seat in 1..12 with a success notice, otherwise the seats stay and an alert is posted; a dealing newcomer clears every other dealer flag; with a new id, `Consistent` and `Valid` are kept |
| PokerGame.Game.UpdateRebuy | src/hooks/usePokerGame.ts:87-95 | the players become the rebuy update; the player's name is announced when the id exists and nothing is posted otherwise; seats unchanged; `Consistent` and `Valid` are kept |
| PokerGame.Game.CheckoutPlayer | src/hooks/usePokerGame.ts:97-106 | the player is finished at now with that cash-out and their seat removed; the name is announced when the id exists; `Consistent` and `Valid` are kept |
| PokerGame.Game.FinishSession | src/hooks/usePokerGame.ts:108-125 | with no players nothing changes (NothingToSave); declined, nothing changes; otherwise the summary is put in front of the sessions, players and seats are emptied, the schedule pruned and a success posted; `Consistent` and `Valid` are kept |
| PokerGame.Game.AddSchedule | src/hooks/usePokerGame.ts:127-130 | the entry with id now goes at the end of the schedule and a success is posted |
| PokerGame.Game.DeleteSchedule | src/hooks/usePokerGame.ts:132 | only the schedule changes, losing the entries with that id |
| PokerGame.Game.ClearSessions | src/hooks/usePokerGame.ts:133 | only the session archive changes, to empty |
| History.Insert | src/components/HistoryList.tsx:13 | inserting into a newest-first list gives a newest-first list holding the same players plus the new one |
| History.SortNewestFirst | src/components/HistoryList.tsx:13 | the sort result is newest first and a permutation of its input |
| History.FinishedPlayers | src/components/HistoryList.tsx:13 | the history holds exactly the finished players, each as often as on the player list, newest checkout first |
| History.SortTotals | src/components/HistoryList.tsx:13 | sorting changes none of the money totals |
| History.FilterTotals | src/components/HistoryList.tsx:13 | the finished and the playing players together account for all the money in and out |
| History.RowsMatchPlayers | src/components/HistoryList.tsx:18-40 | one row per finished player in order, with the player's name, buy-in plus rebuy, cash-out and their difference; the badge is green exactly when the cash-out covers the stake |
| History.ColumnsAreTotals | src/components/HistoryList.tsx:18 | the profit column sums to the listed players' total profit, the invested column to their money in |
| History.HistoryProfit | src/components/HistoryList.tsx:34 | the history's profit column is what the finished players took out less what they put in; with the players still playing it accounts for the whole session |
| HomePage.StatsOf | src/app/page.tsx:66-70 | players in plus players out is the number of records, and the balance is money in less money out, the players' combined loss |
| HomePage.SummaryMatchesStats | src/app/page.tsx:66-70 | the summary finishSession archives carries the panel's figures |
| HomePage.AggregationExample | src/app/page.tsx:66-70 | 100+20 in and 150 out for a finished player, and 50 in for a playing one, give 1 playing, 1 out, 170 in, 150 out, balance 20 |
| HomePage.WithoutPlayer | src/app/page.tsx:74 | deleting a record keeps exactly the records with other ids |
| HomePage.WithoutPlayerKeeps | src/app/page.tsx:74 | deleting a record drops exactly that id from the playing ids and keeps the dealer and end-time invariants |
| HomePage.ClearHistoryKeepsPlaying | src/app/page.tsx:77 | clearing the history keeps exactly the playing players in their order, the same playing ids, and the invariants; a list with nobody finished is unchanged |
| HomePage.ClearHistoryStats | src/app/page.tsx:77 | after the clear the panel counts nobody out, as many playing as before, and the money in less the finished players' stakes |
| HomePage.CancelEntryLeavesSeat | src/app/page.tsx:147 | cancelling a seated player's entry leaves their seat on the table with no playing player behind it |
| HomePage.Home.constructor | src/app/page.tsx:24 | nothing is selected and the session state starts empty and valid |
| HomePage.Home.HandleSeatClick | src/app/page.tsx:27-56 | seats and selection become those of `Table.SeatClick`; nothing else changes; a click on a seat in 1..12 keeps `Consistent` and `Valid` |
| HomePage.Home.HandleRemoveSeat | src/app/page.tsx:58-63 | once confirmed, only that seat goes and a selection of that id is cleared; the player record is untouched; declined, nothing changes; `Consistent` and `Valid` are kept |
| HomePage.Home.HandleDeleteHistory | src/app/page.tsx:73-75 | once confirmed, the records with that id go; nothing else changes; `Consistent` is kept, and `Valid` when the id is not seated |
| HomePage.Home.HandleClearHistory | src/app/page.tsx:76-78 | once confirmed, only the playing players remain; `Consistent` and `Valid` are kept |
| HomePage.Home.CancelEntry | src/app/page.tsx:147 | once confirmed, the records with that id go and the seats do not change; `Consistent` is kept, and `Valid` when the id is not seated |
| HomePage.AliceScenario | src/hooks/usePokerGame.ts:62-106 | join with 50 at seat 1 (1 playing, 50 in), rebuy 30 (80 in), check out with 70: the seat is free and the history shows a loss of 10 |

## Left out

- Browser storage: the localStorage load and save effects (`src/hooks/usePokerGame.ts:18-37`) are I/O.
- The notification sound and the `soundEnabled` preference (`setSoundEnabled`, `src/utils/sound.ts`) are audio output.
- Toast expiry: the roughly 4-second timer in the toast container is a timer. Only `removeToast` is modelled.
- Rendering: the header clock, the notification dropdown, the modals, the login screen and the table drawing are rendering and timers.
- The PDF file: jsPDF document calls are output. The rows it is given are modelled.
- Dialogs: `confirm` and `alert` are external prompts. They are parameters and outcomes here.
- User input: float parsing of typed amounts (`parseFloat`) is replaced by integer amounts. Floating-point rounding is not modelled.
- The clock and dates: `Date.now()`, `new Date()` and date parsing are the `now` parameter and `Option<int>` dates. Formatting to ISO strings is not modelled.
- Remote backend: the remote database, change feed, presence and access checks of other revisions are not part of this model.
- PokerGame.Game.UpdateRebuy: the source posts one notification per record carrying the id (the `notify` sits inside the `map`); the model posts one, for the first such record.
- PokerGame.Game.CheckoutPlayer: the source posts one notification per record carrying the id (the `notify` sits inside the `map`); the model posts one, for the first such record.
- PokerGame.Game.AddPlayer: the invariants are promised only when the new id (the current time) is not already seated. Two additions in the same millisecond are not ruled out by the source.
- History.SortNewestFirst: ties keep their list order by construction (insertion after equal keys), but stability is not stated as a contract. A finished record without an end time sorts with key 0; the invariant `Stamped` rules such records out.
- HomePage.Home.HandleSeatClick: a stale selection is dropped (the corrected behaviour); the page as written throws there (`Table.SeatClickAsWritten`).

## Findings

| source | as written | input that shows it | evidently intended | confidence | as-written member | corrected member |
|---|---|---|---|---|---|---|
| src/app/page.tsx:40-41 | the swap reads `selectedPlayer!.seat` for the clicked occupant, and `selectedPlayer` is undefined when the selected id is no longer seated; `checkoutPlayer` removes the seat but leaves `selectedSeatId` | select player 10 at seat 1, check player 10 out, click player 20 at seat 2: the state updater throws a TypeError | a selection whose player left the table is dropped and the click changes no seat | not executed | Table.StaleSelectionCrashes | Table.ClickKeepsTable |
