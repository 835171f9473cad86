/**
 * The session-state module (src/hooks/usePokerGame.ts): the collections the
 * hook keeps and the operations that replace them.
 *
 * `Date.now()` and `new Date()` become the `now` parameter of each
 * operation; `confirm()` becomes a boolean parameter; the localStorage
 * effects and the notification sound are not modelled.
 */
module PokerGame {
  import opened Types
  import opened Collections
  import opened Money
  import opened Table

  /** One day in milliseconds: the window finishSession prunes the schedule with. */
  const DayMillis := 86400000

  // ---------------------------------------------------------------------------
  // Invariants of the player list
  // ---------------------------------------------------------------------------

  predicate NotBothDealing(p: Player, q: Player)
  {
    !(p.isDealer && q.isDealer)
  }

  /** At most one player carries the dealer flag. */
  predicate OneDealer(ps: seq<Player>)
  {
    Pairwise(ps, NotBothDealing)
  }

  predicate DifferentIds(p: Player, q: Player)
  {
    p.id != q.id
  }

  predicate UniqueIds(ps: seq<Player>)
  {
    Pairwise(ps, DifferentIds)
  }

  /** Every finished player carries an end time. */
  predicate Stamped(ps: seq<Player>)
  {
    forall p :: p in ps && p.status == Finished ==> p.endTime.Some?
  }

  function PlayingIds(ps: seq<Player>): set<int>
  {
    set p | p in ps && p.status == Playing :: p.id
  }

  /** Every occupied seat belongs to a player who is still playing. */
  predicate SeatsBacked(seats: seq<ConfirmedPlayer>, ps: seq<Player>)
  {
    SeatIds(seats) <= PlayingIds(ps)
  }

  // ---------------------------------------------------------------------------
  // The player-list updates
  // ---------------------------------------------------------------------------

  /** The record addPlayer creates: playing, no rebuy, no cash-out yet. */
  function NewPlayer(id: int, name: string, buyIn: int, photo: Option<string>, isDealer: bool, now: int): Player
  {
    Player(id, name, buyIn, 0, 0, now, None, Playing, photo, isDealer)
  }

  /** `p.map(x => ({ ...x, isDealer: false }))` */
  function ClearDealers(ps: seq<Player>): seq<Player>
  {
    seq(|ps|, k requires 0 <= k < |ps| => ps[k].(isDealer := false))
  }

  /** The player list after addPlayer: the dealer flag cleared first when the newcomer deals, the newcomer put in front. */
  function WithNewPlayer(ps: seq<Player>, p: Player): seq<Player>
  {
    [p] + (if p.isDealer then ClearDealers(ps) else ps)
  }

  /** `prev.map(p => p.id === id ? { ...p, rebuy: p.rebuy + amount } : p)` */
  function Rebuy(ps: seq<Player>, id: int, amount: int): seq<Player>
  {
    seq(|ps|, k requires 0 <= k < |ps| =>
      if ps[k].id == id then ps[k].(rebuy := ps[k].rebuy + amount) else ps[k])
  }

  /** `prev.map(p => p.id === id ? { ...p, cashOut, status: 'finished', endTime: now } : p)` */
  function Checkout(ps: seq<Player>, id: int, cashOut: int, now: int): seq<Player>
  {
    seq(|ps|, k requires 0 <= k < |ps| =>
      if ps[k].id == id then ps[k].(cashOut := cashOut, status := Finished, endTime := Some(now)) else ps[k])
  }

  /** The first player with that id: the one the notification names. */
  function FindPlayer(ps: seq<Player>, id: int): (r: Option<Player>)
    ensures r.Some? ==> r.value in ps && r.value.id == id
    ensures r.Some? ==> exists k :: 0 <= k < |ps| && ps[k] == r.value && forall j :: 0 <= j < k ==> ps[j].id != id
    ensures r.None? ==> forall k :: 0 <= k < |ps| ==> ps[k].id != id
  {
    if ps == [] then None
    else if ps[0].id == id then Some(ps[0])
    else
      var r := FindPlayer(ps[1..], id);
      assert forall k :: 1 <= k < |ps| ==> ps[k] == ps[1..][k - 1];
      if r.Some? then
        var k :| 0 <= k < |ps[1..]| && ps[1..][k] == r.value && forall j :: 0 <= j < k ==> ps[1..][j].id != id;
        assert ps[k + 1] == r.value && forall j :: 0 <= j < k + 1 ==> ps[j].id != id;
        r
      else r
  }

  /** The summary finishSession archives. */
  function Summarize(ps: seq<Player>): (s: Summary)
    ensures s.balance == s.totalIn - s.totalOut == -TotalProfit(ps)
    ensures s.playerCount == |ps|
  {
    BalanceIsPlayersLoss(ps);
    Summary(TotalIn(ps), TotalOut(ps), TotalIn(ps) - TotalOut(ps), |ps|)
  }

  function Abs(x: int): int
  {
    if x < 0 then -x else x
  }

  /**
   * `Math.abs(now - new Date(s.date).getTime()) > 86400000`; an unparseable
   * date gives NaN, and a comparison with NaN is false.
   */
  predicate OutsideDay(s: ScheduleItem, now: int)
  {
    match s.date
    case Some(t) => Abs(now - t) > DayMillis
    case None => false
  }

  /** The schedule after finishSession: exactly the entries more than a day away from now. */
  function Prune(schedule: seq<ScheduleItem>, now: int): (r: seq<ScheduleItem>)
    ensures forall s :: s in r <==> s in schedule && OutsideDay(s, now)
    ensures |r| <= |schedule|
  {
    Filter(schedule, (s: ScheduleItem) => OutsideDay(s, now))
  }

  /** `prev.filter(s => s.id !== id)` on the schedule. */
  function WithoutItem(schedule: seq<ScheduleItem>, id: int): (r: seq<ScheduleItem>)
    ensures forall s :: s in r <==> s in schedule && s.id != id
  {
    Filter(schedule, (s: ScheduleItem) => s.id != id)
  }

  /** `prev.filter(t => t.id !== id)` on the toasts. */
  function WithoutToast(toasts: seq<Toast>, id: int): (r: seq<Toast>)
    ensures forall t :: t in r <==> t in toasts && t.id != id
  {
    Filter(toasts, (t: Toast) => t.id != id)
  }

  /** The log entry notify puts in front: unread, stamped now. */
  function Posted(ns: seq<NotificationItem>, message: Message, kind: Kind, now: int): seq<NotificationItem>
  {
    [NotificationItem(now, message, kind, false, now)] + ns
  }

  /** `prev.map(n => ({ ...n, read: true }))` */
  function AllRead(ns: seq<NotificationItem>): seq<NotificationItem>
  {
    seq(|ns|, k requires 0 <= k < |ns| => ns[k].(read := true))
  }

  predicate IsUnread(n: NotificationItem)
  {
    !n.read
  }

  /** The bell's badge in the header: `notifications.filter(n => !n.read).length`. */
  function UnreadCount(ns: seq<NotificationItem>): nat
  {
    |Filter(ns, IsUnread)|
  }

  // ---------------------------------------------------------------------------
  // What the updates promise
  // ---------------------------------------------------------------------------

  /** After addPlayer at most one player deals; a dealing newcomer is the only dealer; otherwise no flag changes. */
  lemma NewPlayerDealer(ps: seq<Player>, p: Player)
    requires OneDealer(ps) || p.isDealer
    ensures OneDealer(WithNewPlayer(ps, p))
    ensures p.isDealer ==> forall k :: 1 <= k < |WithNewPlayer(ps, p)| ==> !WithNewPlayer(ps, p)[k].isDealer
    ensures !p.isDealer ==> WithNewPlayer(ps, p) == [p] + ps
    ensures |WithNewPlayer(ps, p)| == |ps| + 1 && WithNewPlayer(ps, p)[0] == p
  {
    var tail := if p.isDealer then ClearDealers(ps) else ps;
    assert OneDealer(tail);
    PairwiseCons(p, tail, NotBothDealing);
  }

  /** addPlayer adds exactly the newcomer's stake to the money in, and a playing newcomer to the playing ids. */
  lemma NewPlayerTotals(ps: seq<Player>, p: Player)
    ensures TotalIn(WithNewPlayer(ps, p)) == TotalIn(ps) + Invested(p)
    ensures TotalOut(WithNewPlayer(ps, p)) == TotalOut(ps) + p.cashOut
    ensures PlayingIds(WithNewPlayer(ps, p)) == PlayingIds(ps) + (if p.status == Playing then {p.id} else {})
    ensures Stamped(ps) && p.status == Playing ==> Stamped(WithNewPlayer(ps, p))
  {
    var tail := if p.isDealer then ClearDealers(ps) else ps;
    ClearDealersTotals(ps);
    TotalsPrepend(p, tail);
  }

  /** Clearing dealer flags touches no money, no status and no id. */
  lemma {:induction false} ClearDealersTotals(ps: seq<Player>)
    ensures TotalIn(ClearDealers(ps)) == TotalIn(ps) && TotalOut(ClearDealers(ps)) == TotalOut(ps)
    ensures PlayingIds(ClearDealers(ps)) == PlayingIds(ps)
    ensures Stamped(ps) ==> Stamped(ClearDealers(ps))
    decreases |ps|
  {
    var r := ClearDealers(ps);
    if ps != [] {
      var n := |ps| - 1;
      ClearDealersTotals(ps[..n]);
      assert r[..n] == ClearDealers(ps[..n]);
    }
    forall x | x in PlayingIds(ps) ensures x in PlayingIds(r) {
      var p :| p in ps && p.status == Playing && p.id == x;
      var k :| 0 <= k < |ps| && ps[k] == p;
      assert r[k] in r;
    }
    forall x | x in PlayingIds(r) ensures x in PlayingIds(ps) {
      var p :| p in r && p.status == Playing && p.id == x;
      var k :| 0 <= k < |r| && r[k] == p;
      assert ps[k] in ps;
    }
  }

  /** A rebuy changes only the players with that id, only their rebuy; an absent id changes nothing. */
  lemma RebuyEffect(ps: seq<Player>, id: int, amount: int)
    ensures |Rebuy(ps, id, amount)| == |ps|
    ensures forall k :: 0 <= k < |ps| ==>
      Rebuy(ps, id, amount)[k] == (if ps[k].id == id then ps[k].(rebuy := ps[k].rebuy + amount) else ps[k])
    ensures FindPlayer(ps, id).None? ==> Rebuy(ps, id, amount) == ps
    ensures PlayingIds(Rebuy(ps, id, amount)) == PlayingIds(ps)
    ensures OneDealer(ps) ==> OneDealer(Rebuy(ps, id, amount))
    ensures Stamped(ps) ==> Stamped(Rebuy(ps, id, amount))
  {
    var r := Rebuy(ps, id, amount);
    forall x | x in PlayingIds(ps) ensures x in PlayingIds(r) {
      var p :| p in ps && p.status == Playing && p.id == x;
      var k :| 0 <= k < |ps| && ps[k] == p;
      assert r[k] in r;
    }
    forall x | x in PlayingIds(r) ensures x in PlayingIds(ps) {
      var p :| p in r && p.status == Playing && p.id == x;
      var k :| 0 <= k < |r| && r[k] == p;
      assert ps[k] in ps;
    }
    if OneDealer(ps) {
      forall i, j | 0 <= i < j < |r| ensures NotBothDealing(r[i], r[j]) {
        assert NotBothDealing(ps[i], ps[j]);
      }
    }
    if Stamped(ps) {
      forall p | p in r && p.status == Finished ensures p.endTime.Some? {
        var k :| 0 <= k < |r| && r[k] == p;
        assert ps[k] in ps;
      }
    }
  }

  /** With unique ids, a rebuy of player i raises the money in by exactly the amount and leaves the money out. */
  lemma RebuyTotals(ps: seq<Player>, i: int, amount: int)
    requires UniqueIds(ps) && 0 <= i < |ps|
    ensures TotalIn(Rebuy(ps, ps[i].id, amount)) == TotalIn(ps) + amount
    ensures TotalOut(Rebuy(ps, ps[i].id, amount)) == TotalOut(ps)
  {
    var q := ps[i].(rebuy := ps[i].rebuy + amount);
    var r := Rebuy(ps, ps[i].id, amount);
    forall k | 0 <= k < |ps| ensures r[k] == ps[i := q][k] {
      if k < i { assert DifferentIds(ps[k], ps[i]); } else if i < k { assert DifferentIds(ps[i], ps[k]); }
    }
    assert r == ps[i := q];
    TotalsUpdateAt(ps, i, q);
  }

  /** A checkout finishes exactly the players with that id, at now, with that cash-out, and nobody else changes. */
  lemma CheckoutEffect(ps: seq<Player>, id: int, cashOut: int, now: int)
    ensures |Checkout(ps, id, cashOut, now)| == |ps|
    ensures forall k :: 0 <= k < |ps| ==>
      Checkout(ps, id, cashOut, now)[k] ==
        (if ps[k].id == id then ps[k].(cashOut := cashOut, status := Finished, endTime := Some(now)) else ps[k])
    ensures PlayingIds(Checkout(ps, id, cashOut, now)) == PlayingIds(ps) - {id}
    ensures OneDealer(ps) ==> OneDealer(Checkout(ps, id, cashOut, now))
    ensures Stamped(ps) ==> Stamped(Checkout(ps, id, cashOut, now))
  {
    var r := Checkout(ps, id, cashOut, now);
    forall x | x in PlayingIds(ps) - {id} ensures x in PlayingIds(r) {
      var p :| p in ps && p.status == Playing && p.id == x;
      var k :| 0 <= k < |ps| && ps[k] == p;
      assert r[k] in r;
    }
    forall x | x in PlayingIds(r) ensures x in PlayingIds(ps) - {id} {
      var p :| p in r && p.status == Playing && p.id == x;
      var k :| 0 <= k < |r| && r[k] == p;
      assert ps[k] in ps;
    }
    if OneDealer(ps) {
      forall i, j | 0 <= i < j < |r| ensures NotBothDealing(r[i], r[j]) {
        assert NotBothDealing(ps[i], ps[j]);
      }
    }
    if Stamped(ps) {
      forall p | p in r && p.status == Finished ensures p.endTime.Some? {
        var k :| 0 <= k < |r| && r[k] == p;
        assert ps[k] in ps;
      }
    }
  }

  /** With unique ids, checking player i out replaces that player's cash-out in the money out and leaves the money in. */
  lemma CheckoutTotals(ps: seq<Player>, i: int, cashOut: int, now: int)
    requires UniqueIds(ps) && 0 <= i < |ps|
    ensures TotalOut(Checkout(ps, ps[i].id, cashOut, now)) == TotalOut(ps) - ps[i].cashOut + cashOut
    ensures TotalIn(Checkout(ps, ps[i].id, cashOut, now)) == TotalIn(ps)
  {
    var q := ps[i].(cashOut := cashOut, status := Finished, endTime := Some(now));
    var r := Checkout(ps, ps[i].id, cashOut, now);
    forall k | 0 <= k < |ps| ensures r[k] == ps[i := q][k] {
      if k < i { assert DifferentIds(ps[k], ps[i]); } else if i < k { assert DifferentIds(ps[i], ps[k]); }
    }
    assert r == ps[i := q];
    TotalsUpdateAt(ps, i, q);
  }

  /** notify adds one unread entry; marking all read and clearing both empty the badge. */
  lemma UnreadBadge(ns: seq<NotificationItem>, message: Message, kind: Kind, now: int)
    ensures UnreadCount(Posted(ns, message, kind, now)) == UnreadCount(ns) + 1
    ensures UnreadCount(AllRead(ns)) == 0
    ensures |AllRead(ns)| == |ns|
    ensures forall k :: 0 <= k < |ns| ==> AllRead(ns)[k] == ns[k].(read := true)
  {
    var n := NotificationItem(now, message, kind, false, now);
    assert Posted(ns, message, kind, now)[1..] == ns;
    FilterKeepsNone(AllRead(ns), IsUnread);
  }

  // ---------------------------------------------------------------------------
  // The hook's state
  // ---------------------------------------------------------------------------

  datatype FinishOutcome =
    | NothingToSave   // `alert("Nada para salvar.")`
    | Declined        // the confirmation was answered no
    | Saved

  class Game {
    var players: seq<Player>
    var confirmedPlayers: seq<ConfirmedPlayer>
    var schedule: seq<ScheduleItem>
    var sessions: seq<Session>
    var notifications: seq<NotificationItem>
    var toasts: seq<Toast>

    /**
     * The seat and dealer invariants: seat numbers unique and in 1..12,
     * seated ids unique, at most one dealer seat and one dealing player, an
     * end time on every finished player. Every operation of the session and
     * of the page keeps them, the active list's "cancel entry" included.
     */
    predicate Consistent()
      reads this
    {
      && TableValid(confirmedPlayers)
      && OneDealerSeat(confirmedPlayers)
      && OneDealer(players)
      && Stamped(players)
    }

    /** The invariants every hook operation keeps: also, every seat belongs to a player still playing. */
    predicate Valid()
      reads this
    {
      Consistent() && SeatsBacked(confirmedPlayers, players)
    }

    /** The initial `useState` values: every collection empty. */
    constructor()
      ensures Valid()
      ensures players == [] && confirmedPlayers == [] && schedule == []
      ensures sessions == [] && notifications == [] && toasts == []
    {
      players, confirmedPlayers, schedule := [], [], [];
      sessions, notifications, toasts := [], [], [];
    }

    /** notify: an unread entry in front of the log and a toast with the same id at the end of the queue. */
    method Notify(message: Message, kind: Kind, now: int)
      modifies this
      ensures notifications == Posted(old(notifications), message, kind, now)
      ensures toasts == old(toasts) + [Toast(now, message, kind)]
      ensures players == old(players) && confirmedPlayers == old(confirmedPlayers)
      ensures schedule == old(schedule) && sessions == old(sessions)
    {
      notifications := [NotificationItem(now, message, kind, false, now)] + notifications;
      toasts := toasts + [Toast(now, message, kind)];
    }

    method RemoveToast(id: int)
      modifies this
      ensures toasts == WithoutToast(old(toasts), id)
      ensures players == old(players) && confirmedPlayers == old(confirmedPlayers)
      ensures schedule == old(schedule) && sessions == old(sessions) && notifications == old(notifications)
    {
      toasts := WithoutToast(toasts, id);
    }

    method MarkAllRead()
      modifies this
      ensures notifications == AllRead(old(notifications))
      ensures players == old(players) && confirmedPlayers == old(confirmedPlayers)
      ensures schedule == old(schedule) && sessions == old(sessions) && toasts == old(toasts)
    {
      notifications := AllRead(notifications);
    }

    method ClearNotifications()
      modifies this
      ensures notifications == []
      ensures players == old(players) && confirmedPlayers == old(confirmedPlayers)
      ensures schedule == old(schedule) && sessions == old(sessions) && toasts == old(toasts)
    {
      notifications := [];
    }

    /**
     * addPlayer: the newcomer goes in front of the player list and, while
     * fewer than 12 players are seated, to the lowest free seat. A newcomer
     * who deals first takes the dealer flag off every player and seat.
     */
    method AddPlayer(name: string, buyIn: int, photo: Option<string>, isDealer: bool, now: int)
      modifies this
      ensures players == WithNewPlayer(old(players), NewPlayer(now, name, buyIn, photo, isDealer, now))
      ensures var base := if isDealer then ClearSeatDealers(old(confirmedPlayers)) else old(confirmedPlayers);
        if |old(confirmedPlayers)| < TableSize then
          && |confirmedPlayers| == |base| + 1 && confirmedPlayers[..|base|] == base
          && var s := confirmedPlayers[|base|];
             && s == ConfirmedPlayer(now, name, photo, s.seat, isDealer)
             && IsLowestFree(s.seat, SeatNumbers(old(confirmedPlayers))) && s.seat <= TableSize
             && notifications == Posted(old(notifications), JoinedAtSeat(name, s.seat), Success, now)
             && toasts == old(toasts) + [Toast(now, JoinedAtSeat(name, s.seat), Success)]
        else
          && confirmedPlayers == base
          && notifications == Posted(old(notifications), JoinedTableFull(name), Alert, now)
          && toasts == old(toasts) + [Toast(now, JoinedTableFull(name), Alert)]
      ensures schedule == old(schedule) && sessions == old(sessions)
      ensures old(Consistent()) && now !in SeatIds(old(confirmedPlayers)) ==> Consistent()
      ensures old(Valid()) && now !in SeatIds(old(confirmedPlayers)) ==> Valid()
    {
      ghost var wasConsistent := Consistent();
      var uid := now;
      var current := confirmedPlayers;
      if isDealer {
        players := ClearDealers(players);
        confirmedPlayers := ClearSeatDealers(confirmedPlayers);
      }
      var newPlayer := NewPlayer(uid, name, buyIn, photo, isDealer, now);
      players := [newPlayer] + players;

      if |current| < TableSize {
        var seat := LowestFreeSeat(SeatNumbers(current));
        SeatNumbersBound(current);
        if seat <= TableSize {
          ghost var base := confirmedPlayers;
          var entry := ConfirmedPlayer(uid, name, photo, seat, isDealer);
          confirmedPlayers := confirmedPlayers + [entry];
          assert confirmedPlayers[..|base|] == base;
          if wasConsistent && uid !in SeatIds(current) {
            AddedStaysValid(old(players), current, base, newPlayer, entry);
          }
          Notify(JoinedAtSeat(name, seat), Success, now);
        } else {
          // |SeatNumbers(current)| <= |current| < 12, so the loop stopped on the table:
          // the source's "no free seat" notice is never reached.
          assert false;
        }
      } else {
        if wasConsistent {
          ClearSeatDealersKeeps(current);
          NewPlayerDealer(old(players), newPlayer);
          NewPlayerTotals(old(players), newPlayer);
        }
        Notify(JoinedTableFull(name), Alert, now);
      }
    }

    /** updateRebuy: the rebuy of the player with that id grows by the amount; an absent id is a no-op. */
    method UpdateRebuy(id: int, amount: int, now: int)
      modifies this
      ensures players == Rebuy(old(players), id, amount)
      ensures match FindPlayer(old(players), id)
        case Some(p) =>
          && notifications == Posted(old(notifications), Rebought(p.name, amount), Info, now)
          && toasts == old(toasts) + [Toast(now, Rebought(p.name, amount), Info)]
        case None => notifications == old(notifications) && toasts == old(toasts)
      ensures confirmedPlayers == old(confirmedPlayers) && schedule == old(schedule) && sessions == old(sessions)
      ensures old(Consistent()) ==> Consistent()
      ensures old(Valid()) ==> Valid()
    {
      var found := FindPlayer(players, id);
      RebuyEffect(players, id, amount);
      players := Rebuy(players, id, amount);
      if found.Some? {
        Notify(Rebought(found.value.name, amount), Info, now);
      }
    }

    /** checkoutPlayer: the player finishes with that cash-out at now, keeps the record and loses the seat. */
    method CheckoutPlayer(id: int, cashOut: int, now: int)
      modifies this
      ensures players == Checkout(old(players), id, cashOut, now)
      ensures confirmedPlayers == WithoutSeat(old(confirmedPlayers), id)
      ensures match FindPlayer(old(players), id)
        case Some(p) =>
          && notifications == Posted(old(notifications), CheckedOut(p.name, cashOut), Info, now)
          && toasts == old(toasts) + [Toast(now, CheckedOut(p.name, cashOut), Info)]
        case None => notifications == old(notifications) && toasts == old(toasts)
      ensures schedule == old(schedule) && sessions == old(sessions)
      ensures old(Consistent()) ==> Consistent()
      ensures old(Valid()) ==> Valid()
    {
      var found := FindPlayer(players, id);
      CheckoutEffect(players, id, cashOut, now);
      if TableValid(confirmedPlayers) {
        WithoutSeatKeepsTable(confirmedPlayers, id);
      }
      players := Checkout(players, id, cashOut, now);
      confirmedPlayers := WithoutSeat(confirmedPlayers, id);
      if found.Some? {
        Notify(CheckedOut(found.value.name, cashOut), Info, now);
      }
    }

    /**
     * finishSession: with players on the list and the confirmation given,
     * archive the summary in front of the sessions, clear players and seats,
     * and keep only the schedule entries more than a day from now.
     */
    method FinishSession(confirmed: bool, now: int) returns (outcome: FinishOutcome)
      modifies this
      ensures outcome == (if |old(players)| == 0 then NothingToSave else if !confirmed then Declined else Saved)
      ensures outcome != Saved ==>
        && players == old(players) && confirmedPlayers == old(confirmedPlayers) && schedule == old(schedule)
        && sessions == old(sessions) && notifications == old(notifications) && toasts == old(toasts)
      ensures outcome == Saved ==>
        && sessions == [Session(now, now, Summarize(old(players)))] + old(sessions)
        && players == [] && confirmedPlayers == []
        && schedule == Prune(old(schedule), now)
        && notifications == Posted(old(notifications), SessionSaved, Success, now)
        && toasts == old(toasts) + [Toast(now, SessionSaved, Success)]
        && Valid()
      ensures old(Consistent()) ==> Consistent()
      ensures old(Valid()) ==> Valid()
    {
      if |players| == 0 {
        return NothingToSave;
      }
      if !confirmed {
        return Declined;
      }
      var summary := Summarize(players);
      sessions := [Session(now, now, summary)] + sessions;
      players := [];
      confirmedPlayers := [];
      schedule := Prune(schedule, now);
      Notify(SessionSaved, Success, now);
      outcome := Saved;
    }

    /** addSchedule: the entry goes at the end, with id now. */
    method AddSchedule(title: string, date: Option<int>, now: int)
      modifies this
      ensures schedule == old(schedule) + [ScheduleItem(now, title, date)]
      ensures notifications == Posted(old(notifications), Scheduled(title), Success, now)
      ensures toasts == old(toasts) + [Toast(now, Scheduled(title), Success)]
      ensures players == old(players) && confirmedPlayers == old(confirmedPlayers) && sessions == old(sessions)
    {
      schedule := schedule + [ScheduleItem(now, title, date)];
      Notify(Scheduled(title), Success, now);
    }

    method DeleteSchedule(id: int)
      modifies this
      ensures schedule == WithoutItem(old(schedule), id)
      ensures players == old(players) && confirmedPlayers == old(confirmedPlayers) && sessions == old(sessions)
      ensures notifications == old(notifications) && toasts == old(toasts)
    {
      schedule := WithoutItem(schedule, id);
    }

    method ClearSessions()
      modifies this
      ensures sessions == []
      ensures players == old(players) && confirmedPlayers == old(confirmedPlayers) && schedule == old(schedule)
      ensures notifications == old(notifications) && toasts == old(toasts)
    {
      sessions := [];
    }
  }

  /** The state addPlayer leaves when it seats the newcomer is valid again. */
  lemma AddedStaysValid(ps: seq<Player>, seats: seq<ConfirmedPlayer>, base: seq<ConfirmedPlayer>, p: Player, entry: ConfirmedPlayer)
    requires base == if p.isDealer then ClearSeatDealers(seats) else seats
    requires entry.id == p.id && entry.isDealer == p.isDealer && p.status == Playing
    requires |seats| < TableSize && IsLowestFree(entry.seat, SeatNumbers(seats))
    requires TableValid(seats) && OneDealerSeat(seats) && OneDealer(ps) && Stamped(ps)
    requires p.id !in SeatIds(seats)
    ensures TableValid(base + [entry]) && OneDealerSeat(base + [entry])
    ensures OneDealer(WithNewPlayer(ps, p)) && Stamped(WithNewPlayer(ps, p))
    ensures SeatsBacked(seats, ps) ==> SeatsBacked(base + [entry], WithNewPlayer(ps, p))
  {
    ClearSeatDealersKeeps(seats);
    SeatAtLowestKeepsTable(base, entry);
    AppendSeatKeepsDealer(base, entry);
    NewPlayerDealer(ps, p);
    NewPlayerTotals(ps, p);
    SeatIdsAppend(base, entry);
  }
}
