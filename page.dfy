/**
 * The home page (src/app/page.tsx): the stats panel, the history actions,
 * the active list's "cancel entry" and the seat selection that drives the
 * visual table. The page owns one piece of state of its own,
 * `selectedSeatId`; everything else lives in the session state it reads and
 * replaces.
 */
module HomePage {
  import opened Types
  import opened Collections
  import opened Money
  import opened Table
  import opened PokerGame
  import opened History

  // ---------------------------------------------------------------------------
  // The stats panel
  // ---------------------------------------------------------------------------

  datatype Stats = Stats(activeCount: nat, finishedCount: nat, totalInvested: int, totalCashOut: int, balance: int)

  /** "Jogando", "Saíram", "Na Mesa" and "Balanço". */
  function StatsOf(ps: seq<Player>): (s: Stats)
    ensures s.activeCount + s.finishedCount == |ps|
    ensures s.balance == s.totalInvested - s.totalCashOut == -TotalProfit(ps)
  {
    FilterComplement(ps, IsPlaying, IsFinished);
    BalanceIsPlayersLoss(ps);
    Stats(|Filter(ps, IsPlaying)|, |Filter(ps, IsFinished)|, TotalIn(ps), TotalOut(ps), TotalIn(ps) - TotalOut(ps))
  }

  /** The summary finishSession archives is the panel's figures at that moment. */
  lemma SummaryMatchesStats(ps: seq<Player>)
    ensures Summarize(ps).totalIn == StatsOf(ps).totalInvested
    ensures Summarize(ps).totalOut == StatsOf(ps).totalCashOut
    ensures Summarize(ps).balance == StatsOf(ps).balance
    ensures Summarize(ps).playerCount == StatsOf(ps).activeCount + StatsOf(ps).finishedCount
  {
  }

  /** Two players, one finished (100 + 20 in, 150 out) and one playing (50 in). */
  lemma AggregationExample()
    ensures var ps := [
        Player(1, "A", 100, 20, 150, 0, Some(5), Finished, None, false),
        Player(2, "B", 50, 0, 0, 0, None, Playing, None, false)];
      StatsOf(ps) == Stats(1, 1, 170, 150, 20)
  {
    var a := Player(1, "A", 100, 20, 150, 0, Some(5), Finished, None, false);
    var b := Player(2, "B", 50, 0, 0, 0, None, Playing, None, false);
    FilterAppend([a], [b], IsPlaying);
    FilterAppend([a], [b], IsFinished);
    TotalsAppend([a], [b]);
    StatsOfOne(a);
    StatsOfOne(b);
  }

  // ---------------------------------------------------------------------------
  // Removing player records
  // ---------------------------------------------------------------------------

  /** `prev.filter(p => p.id !== id)`: the history delete and the active list's "cancel entry". */
  function WithoutPlayer(ps: seq<Player>, id: int): (r: seq<Player>)
    ensures forall p :: p in r <==> p in ps && p.id != id
    ensures |r| <= |ps|
  {
    Filter(ps, (p: Player) => p.id != id)
  }

  /** Deleting a record drops exactly that id from the playing ids and keeps the list's invariants. */
  lemma WithoutPlayerKeeps(ps: seq<Player>, id: int)
    ensures PlayingIds(WithoutPlayer(ps, id)) == PlayingIds(ps) - {id}
    ensures OneDealer(ps) ==> OneDealer(WithoutPlayer(ps, id))
    ensures Stamped(ps) ==> Stamped(WithoutPlayer(ps, id))
  {
    if OneDealer(ps) {
      FilterPairwise(ps, (p: Player) => p.id != id, NotBothDealing);
    }
  }

  /** Clearing the history keeps exactly the players still playing, in their order, and the list's invariants. */
  lemma ClearHistoryKeepsPlaying(ps: seq<Player>)
    ensures forall p :: p in Filter(ps, IsPlaying) <==> p in ps && p.status == Playing
    ensures PlayingIds(Filter(ps, IsPlaying)) == PlayingIds(ps)
    ensures (forall k :: 0 <= k < |ps| ==> ps[k].status == Playing) ==> Filter(ps, IsPlaying) == ps
    ensures OneDealer(ps) ==> OneDealer(Filter(ps, IsPlaying))
    ensures Stamped(Filter(ps, IsPlaying))
  {
    var r := Filter(ps, IsPlaying);
    forall x | x in PlayingIds(ps) ensures x in PlayingIds(r) {
      var p :| p in ps && p.status == Playing && p.id == x;
      assert p in r;
    }
    if OneDealer(ps) {
      FilterPairwise(ps, IsPlaying, NotBothDealing);
    }
    if forall k :: 0 <= k < |ps| ==> ps[k].status == Playing {
      FilterKeepsAll(ps, IsPlaying);
    }
  }

  /**
   * After clearing the history the panel counts no finished player, as many
   * active ones as before, and only the stakes of those still playing.
   */
  lemma ClearHistoryStats(ps: seq<Player>)
    ensures StatsOf(Filter(ps, IsPlaying)).finishedCount == 0
    ensures StatsOf(Filter(ps, IsPlaying)).activeCount == StatsOf(ps).activeCount
    ensures StatsOf(Filter(ps, IsPlaying)).totalInvested == TotalIn(ps) - TotalIn(Filter(ps, IsFinished))
  {
    var r := Filter(ps, IsPlaying);
    FilterKeepsAll(r, IsPlaying);
    FilterKeepsNone(r, IsFinished);
    FilterTotals(ps);
  }

  /** Cancelling the entry of a seated player leaves that seat on the table with nobody playing behind it. */
  lemma CancelEntryLeavesSeat(ps: seq<Player>, seats: seq<ConfirmedPlayer>, id: int)
    requires id in SeatIds(seats)
    ensures FindById(seats, id).Some?
    ensures !SeatsBacked(seats, WithoutPlayer(ps, id))
  {
    WithoutPlayerKeeps(ps, id);
  }

  // ---------------------------------------------------------------------------
  // The page
  // ---------------------------------------------------------------------------

  class Home {
    /** The session state the page reads through the hook. */
    const game: Game
    /** `selectedSeatId`: the id of the player whose seat is selected. */
    var selectedSeatId: Option<int>

    predicate Valid()
      reads this, game
    {
      game.Valid()
    }

    constructor()
      ensures fresh(game) && Valid() && selectedSeatId == None
      ensures game.players == [] && game.confirmedPlayers == [] && game.schedule == []
      ensures game.sessions == [] && game.notifications == [] && game.toasts == []
    {
      game := new Game();
      selectedSeatId := None;
    }

    /**
     * handleSeatClick on seat `seatNum`: select, deselect, swap or move as
     * `Table.SeatClick` says, the selection dropped when it names a player
     * who is no longer seated.
     */
    method HandleSeatClick(seatNum: int)
      modifies this, game
      ensures game.confirmedPlayers == SeatClick(old(game.confirmedPlayers), old(selectedSeatId), seatNum).seats
      ensures selectedSeatId == SeatClick(old(game.confirmedPlayers), old(selectedSeatId), seatNum).selected
      ensures game.players == old(game.players) && game.schedule == old(game.schedule)
      ensures game.sessions == old(game.sessions) && game.notifications == old(game.notifications)
      ensures game.toasts == old(game.toasts)
      ensures old(game.Consistent()) && 1 <= seatNum <= TableSize ==> game.Consistent()
      ensures old(Valid()) && 1 <= seatNum <= TableSize ==> Valid()
    {
      var seats := game.confirmedPlayers;
      var v := SeatClick(seats, selectedSeatId, seatNum);
      if game.Consistent() && 1 <= seatNum <= TableSize {
        ClickKeepsTable(seats, selectedSeatId, seatNum);
        OnlySeatsMovedKeeps(seats, v.seats);
      }
      game.confirmedPlayers := v.seats;
      selectedSeatId := v.selected;
    }

    /** handleRemoveSeat: once confirmed, the seat goes and so does a selection of it; the player record stays. */
    method HandleRemoveSeat(id: int, confirmed: bool)
      modifies this, game
      ensures confirmed ==> game.confirmedPlayers == WithoutSeat(old(game.confirmedPlayers), id)
      ensures confirmed ==> selectedSeatId == (if old(selectedSeatId) == Some(id) then None else old(selectedSeatId))
      ensures !confirmed ==> game.confirmedPlayers == old(game.confirmedPlayers) && selectedSeatId == old(selectedSeatId)
      ensures game.players == old(game.players) && game.schedule == old(game.schedule)
      ensures game.sessions == old(game.sessions) && game.notifications == old(game.notifications)
      ensures game.toasts == old(game.toasts)
      ensures old(game.Consistent()) ==> game.Consistent()
      ensures old(Valid()) ==> Valid()
    {
      if confirmed {
        if selectedSeatId == Some(id) {
          selectedSeatId := None;
        }
        if game.Consistent() {
          WithoutSeatKeepsTable(game.confirmedPlayers, id);
        }
        game.confirmedPlayers := WithoutSeat(game.confirmedPlayers, id);
      }
    }

    /** handleDeleteHistory: once confirmed, the records with that id go. */
    method HandleDeleteHistory(id: int, confirmed: bool)
      modifies game
      ensures game.players == (if confirmed then WithoutPlayer(old(game.players), id) else old(game.players))
      ensures game.confirmedPlayers == old(game.confirmedPlayers) && game.schedule == old(game.schedule)
      ensures game.sessions == old(game.sessions) && game.notifications == old(game.notifications)
      ensures game.toasts == old(game.toasts)
      ensures old(game.Consistent()) ==> game.Consistent()
      ensures old(Valid()) && id !in SeatIds(old(game.confirmedPlayers)) ==> Valid()
    {
      if confirmed {
        WithoutPlayerKeeps(game.players, id);
        game.players := WithoutPlayer(game.players, id);
      }
    }

    /** handleClearHistory: once confirmed, only the players still playing remain. */
    method HandleClearHistory(confirmed: bool)
      modifies game
      ensures game.players == (if confirmed then Filter(old(game.players), IsPlaying) else old(game.players))
      ensures game.confirmedPlayers == old(game.confirmedPlayers) && game.schedule == old(game.schedule)
      ensures game.sessions == old(game.sessions) && game.notifications == old(game.notifications)
      ensures game.toasts == old(game.toasts)
      ensures old(game.Consistent()) ==> game.Consistent()
      ensures old(Valid()) ==> Valid()
    {
      if confirmed {
        var ps := game.players;
        var r := Filter(ps, IsPlaying);
        assert PlayingIds(r) == PlayingIds(ps) && Stamped(r) && (OneDealer(ps) ==> OneDealer(r)) by {
          ClearHistoryKeepsPlaying(ps);
        }
        game.players := r;
      }
    }

    /**
     * The active list's delete ("Cancelar entrada"): once confirmed, the
     * records with that id go and the seats stay as they are (see
     * `CancelEntryLeavesSeat`).
     */
    method CancelEntry(id: int, confirmed: bool)
      modifies game
      ensures game.players == (if confirmed then WithoutPlayer(old(game.players), id) else old(game.players))
      ensures game.confirmedPlayers == old(game.confirmedPlayers) && game.schedule == old(game.schedule)
      ensures game.sessions == old(game.sessions) && game.notifications == old(game.notifications)
      ensures game.toasts == old(game.toasts)
      ensures old(game.Consistent()) ==> game.Consistent()
      ensures old(Valid()) && id !in SeatIds(old(game.confirmedPlayers)) ==> Valid()
    {
      if confirmed {
        WithoutPlayerKeeps(game.players, id);
        game.players := WithoutPlayer(game.players, id);
      }
    }
  }

  /**
   * A player joins an empty table with 50, rebuys 30 and leaves with 70: they
   * sit at seat 1, the panel shows one player and 50 on the table, then 80,
   * and after the checkout the seat is free and the history shows one row
   * with a loss of 10.
   */
  method AliceScenario() returns (seat: int, joined: Stats, rebought: Stats, left: Stats, rows: seq<Row>, seatsAfter: seq<ConfirmedPlayer>)
    ensures seat == 1
    ensures joined == Stats(1, 0, 50, 0, 50)
    ensures rebought == Stats(1, 0, 80, 0, 80)
    ensures left == Stats(0, 1, 80, 70, 10)
    ensures rows == [Row("Alice", 80, 70, -10)]
    ensures seatsAfter == []
  {
    var g := new Game();
    var id := 1000;
    var alice := NewPlayer(id, "Alice", 50, None, false, id);
    assert SeatNumbers([]) == {} && 1 !in SeatNumbers([]);
    g.AddPlayer("Alice", 50, None, false, id);
    assert [alice] + [] == [alice];
    assert g.players == [alice];
    assert |g.confirmedPlayers| == 1;
    seat := g.confirmedPlayers[0].seat;
    assert g.confirmedPlayers == [g.confirmedPlayers[0]];
    assert g.confirmedPlayers == [ConfirmedPlayer(id, "Alice", None, 1, false)];
    joined := StatsOf(g.players);
    StatsOfOne(alice);

    g.UpdateRebuy(id, 30, 2000);
    var alice2 := alice.(rebuy := 30);
    OneRebuy(alice, 30);
    rebought := StatsOf(g.players);
    StatsOfOne(alice2);

    g.CheckoutPlayer(id, 70, 3000);
    var alice3 := alice2.(cashOut := 70, status := Finished, endTime := Some(3000));
    OneCheckout(alice2, 70, 3000);
    left := StatsOf(g.players);
    StatsOfOne(alice3);
    OneFinished(alice3);
    OneRow(alice3);
    rows := Rows(FinishedPlayers(g.players));
    seatsAfter := g.confirmedPlayers;
    NoSeatLeft(ConfirmedPlayer(id, "Alice", None, 1, false));
  }

  lemma OneRebuy(p: Player, amount: int)
    ensures Rebuy([p], p.id, amount) == [p.(rebuy := p.rebuy + amount)]
  {
  }

  lemma OneCheckout(p: Player, cashOut: int, now: int)
    ensures Checkout([p], p.id, cashOut, now) == [p.(cashOut := cashOut, status := Finished, endTime := Some(now))]
  {
  }

  /** The history of a single finished player is that player. */
  lemma OneFinished(p: Player)
    requires p.status == Finished
    ensures FinishedPlayers([p]) == [p]
  {
    assert Filter([p], IsFinished) == [p] + Filter([], IsFinished);
    assert [p][..0] == [];
    assert SortNewestFirst([p]) == Insert(p, []);
  }

  lemma OneRow(p: Player)
    ensures Rows([p]) == [RowOf(p)]
  {
  }

  /** Removing the only seat empties the table. */
  lemma NoSeatLeft(c: ConfirmedPlayer)
    ensures WithoutSeat([c], c.id) == []
  {
  }

  /** The panel for a single player. */
  lemma StatsOfOne(p: Player)
    ensures StatsOf([p]) == Stats(if p.status == Playing then 1 else 0, if p.status == Finished then 1 else 0,
      Invested(p), p.cashOut, Invested(p) - p.cashOut)
  {
    assert [p] + [] == [p];
    TotalsPrepend(p, []);
    assert Filter([p], IsPlaying) == (if IsPlaying(p) then [p] else []) + Filter([], IsPlaying);
    assert Filter([p], IsFinished) == (if IsFinished(p) then [p] else []) + Filter([], IsFinished);
  }
}
