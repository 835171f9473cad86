/**
 * The records of the poker tracker (src/types/index.ts).
 *
 * Every timestamp is a number of milliseconds since the epoch: `Date.now()`
 * gives one directly and the ISO strings the source stores
 * (`new Date().toISOString()`) are a formatting of one. A schedule entry's
 * date is the result of parsing the text the user typed, which can fail
 * (`NaN` in the source, `None` here).
 */
module Types {

  datatype Option<+T> = None | Some(value: T)

  /** Player.status */
  datatype Status = Playing | Finished

  /** The severity tag of a notification or toast. */
  datatype Kind = Info | Success | Alert

  /** A participant of the live session; `endTime` is absent until checkout. */
  datatype Player = Player(
    id: int,
    name: string,
    buyIn: int,
    rebuy: int,
    cashOut: int,
    startTime: int,
    endTime: Option<int>,
    status: Status,
    photo: Option<string>,
    isDealer: bool)

  predicate IsPlaying(p: Player)
  {
    p.status == Playing
  }

  predicate IsFinished(p: Player)
  {
    p.status == Finished
  }

  /** A seat at the 12-position table. */
  datatype ConfirmedPlayer = ConfirmedPlayer(
    id: int,
    name: string,
    photo: Option<string>,
    seat: int,
    isDealer: bool)

  datatype ScheduleItem = ScheduleItem(id: int, title: string, date: Option<int>)

  datatype Summary = Summary(totalIn: int, totalOut: int, balance: int, playerCount: int)

  /** An archived session: the money summary frozen when the table was cleared. */
  datatype Session = Session(id: int, date: int, summary: Summary)

  /** The texts the session module notifies with, one per template string. */
  datatype Message =
    | JoinedAtSeat(who: string, seat: int)
    | JoinedWithoutSeat(who: string)
    | JoinedTableFull(who: string)
    | Rebought(who: string, amount: int)
    | CheckedOut(who: string, cashOut: int)
    | SessionSaved
    | Scheduled(title: string)

  datatype NotificationItem = NotificationItem(id: int, message: Message, kind: Kind, read: bool, date: int)

  /** The transient popup that mirrors a notification. */
  datatype Toast = Toast(id: int, message: Message, kind: Kind)
}
