/**
 * The history list (src/components/HistoryList.tsx): the finished players,
 * newest checkout first, and the rows the table and the PDF report show for
 * them. Drawing the table and writing the PDF are not modelled.
 */
module History {
  import opened Types
  import opened Collections
  import opened Money

  /**
   * The sort key: the checkout time. A finished player always carries one
   * (`PokerGame.Stamped`); for a record without one the key is 0.
   */
  function EndKey(p: Player): int
  {
    match p.endTime
    case Some(t) => t
    case None => 0
  }

  /** Newest checkout first. */
  predicate NewestFirst(s: seq<Player>)
  {
    forall i, j :: 0 <= i < j < |s| ==> EndKey(s[i]) >= EndKey(s[j])
  }

  /** Every later entry of a newest-first list is no more recent than the first. */
  lemma HeadIsNewest(s: seq<Player>)
    requires NewestFirst(s) && s != []
    ensures forall x :: x in s[1..] ==> EndKey(x) <= EndKey(s[0])
  {
    forall x | x in s[1..] ensures EndKey(x) <= EndKey(s[0]) {
      var m :| 0 <= m < |s[1..]| && s[1..][m] == x;
      assert s[m + 1] == x;
    }
  }

  /** An entry at least as recent as every entry of a newest-first list can go in front of it. */
  lemma ConsNewestFirst(x: Player, t: seq<Player>)
    requires NewestFirst(t)
    requires forall y :: y in t ==> EndKey(y) <= EndKey(x)
    ensures NewestFirst([x] + t)
  {
    var r := [x] + t;
    forall i, j | 0 <= i < j < |r| ensures EndKey(r[i]) >= EndKey(r[j]) {
      assert r[j] == t[j - 1];
      if i > 0 {
        assert r[i] == t[i - 1];
      }
    }
  }

  /**
   * Puts `p` into a newest-first list after every entry at least as recent,
   * so entries with equal keys keep their order (`Array.prototype.sort` is stable).
   */
  function Insert(p: Player, s: seq<Player>): (r: seq<Player>)
    requires NewestFirst(s)
    ensures NewestFirst(r)
    ensures multiset(r) == multiset(s) + multiset{p}
    ensures forall x :: x in r <==> x == p || x in s
  {
    if s == [] then [p]
    else if EndKey(p) > EndKey(s[0]) then
      HeadIsNewest(s);
      assert s == [s[0]] + s[1..];
      ConsNewestFirst(p, s);
      [p] + s
    else
      HeadIsNewest(s);
      assert NewestFirst(s[1..]);
      var t := Insert(p, s[1..]);
      assert s == [s[0]] + s[1..];
      ConsNewestFirst(s[0], t);
      [s[0]] + t
  }

  /** `.sort((a, b) => key(b) - key(a))`: newest first, ties in list order. */
  function SortNewestFirst(s: seq<Player>): (r: seq<Player>)
    ensures NewestFirst(r)
    ensures multiset(r) == multiset(s)
    decreases |s|
  {
    if s == [] then []
    else
      var front := s[..|s| - 1];
      assert s == front + [s[|s| - 1]];
      Insert(s[|s| - 1], SortNewestFirst(front))
  }

  /** The list the history shows: exactly the finished players, newest checkout first. */
  function FinishedPlayers(ps: seq<Player>): (r: seq<Player>)
    ensures NewestFirst(r)
    ensures multiset(r) == multiset(Filter(ps, IsFinished))
    ensures forall p :: p in r <==> p in ps && p.status == Finished
    ensures |r| == |Filter(ps, IsFinished)|
  {
    var r := SortNewestFirst(Filter(ps, IsFinished));
    assert forall p :: p in r <==> p in multiset(r);
    assert forall p :: p in Filter(ps, IsFinished) <==> p in multiset(Filter(ps, IsFinished));
    assert |r| == |multiset(r)|;
    r
  }

  /** Inserting a player into a list adds that player's figures to every total. */
  lemma {:induction false} InsertTotals(p: Player, s: seq<Player>)
    requires NewestFirst(s)
    ensures TotalIn(Insert(p, s)) == Invested(p) + TotalIn(s)
    ensures TotalOut(Insert(p, s)) == p.cashOut + TotalOut(s)
    ensures TotalProfit(Insert(p, s)) == Profit(p) + TotalProfit(s)
    decreases |s|
  {
    if s == [] {
      TotalsPrepend(p, []);
    } else if EndKey(p) > EndKey(s[0]) {
      TotalsPrepend(p, s);
    } else {
      InsertTotals(p, s[1..]);
      TotalsPrepend(s[0], Insert(p, s[1..]));
      TotalsPrepend(s[0], s[1..]);
      assert s == [s[0]] + s[1..];
    }
  }

  /** Sorting moves players around and changes no total. */
  lemma {:induction false} SortTotals(s: seq<Player>)
    ensures TotalIn(SortNewestFirst(s)) == TotalIn(s)
    ensures TotalOut(SortNewestFirst(s)) == TotalOut(s)
    ensures TotalProfit(SortNewestFirst(s)) == TotalProfit(s)
    decreases |s|
  {
    if s != [] {
      var front := s[..|s| - 1];
      SortTotals(front);
      InsertTotals(s[|s| - 1], SortNewestFirst(front));
    }
  }

  /** The players the filter drops are the ones still playing. */
  lemma {:induction false} FilterTotals(ps: seq<Player>)
    ensures TotalIn(Filter(ps, IsFinished)) + TotalIn(Filter(ps, IsPlaying)) == TotalIn(ps)
    ensures TotalOut(Filter(ps, IsFinished)) + TotalOut(Filter(ps, IsPlaying)) == TotalOut(ps)
  {
    if ps != [] {
      var x, tail := ps[0], ps[1..];
      FilterTotals(tail);
      assert ps == [x] + tail;
      TotalsPrepend(x, tail);
      var f, g := Filter(tail, IsFinished), Filter(tail, IsPlaying);
      if x.status == Finished {
        assert Filter(ps, IsFinished) == [x] + f;
        assert Filter(ps, IsPlaying) == g;
        TotalsPrepend(x, f);
      } else {
        assert Filter(ps, IsFinished) == f;
        assert Filter(ps, IsPlaying) == [x] + g;
        TotalsPrepend(x, g);
      }
    }
  }

  /** One line of the history table and of the PDF report. */
  datatype Row = Row(name: string, invested: int, cashOut: int, profit: int)

  /** The "Lucro" badge: green for a profit of zero or more, red below. */
  datatype Tone = Gain | Loss

  function RowOf(p: Player): Row
  {
    Row(p.name, p.buyIn + p.rebuy, p.cashOut, p.cashOut - (p.buyIn + p.rebuy))
  }

  /** `finishedPlayers.map(p => [name, invested, cashOut, profit])` */
  function Rows(finished: seq<Player>): seq<Row>
  {
    seq(|finished|, k requires 0 <= k < |finished| => RowOf(finished[k]))
  }

  function ToneOf(row: Row): Tone
  {
    if row.profit >= 0 then Gain else Loss
  }

  /**
   * The report has one row per finished player, in the list's order; each row
   * shows the stake, the cash-out and their difference, and is green exactly
   * when the player took out at least what they put in.
   */
  lemma RowsMatchPlayers(finished: seq<Player>)
    ensures |Rows(finished)| == |finished|
    ensures forall k :: 0 <= k < |finished| ==>
      && Rows(finished)[k].name == finished[k].name
      && Rows(finished)[k].invested == Invested(finished[k])
      && Rows(finished)[k].cashOut == finished[k].cashOut
      && Rows(finished)[k].profit == Profit(finished[k])
      && (ToneOf(Rows(finished)[k]) == Gain <==> finished[k].cashOut >= Invested(finished[k]))
  {
  }

  function ProfitColumn(rows: seq<Row>): int
    decreases |rows|
  {
    if rows == [] then 0 else ProfitColumn(rows[..|rows| - 1]) + rows[|rows| - 1].profit
  }

  function InvestedColumn(rows: seq<Row>): int
    decreases |rows|
  {
    if rows == [] then 0 else InvestedColumn(rows[..|rows| - 1]) + rows[|rows| - 1].invested
  }

  /** The columns of the report add up to the players' totals. */
  lemma {:induction false} ColumnsAreTotals(finished: seq<Player>)
    ensures ProfitColumn(Rows(finished)) == TotalProfit(finished)
    ensures InvestedColumn(Rows(finished)) == TotalIn(finished)
    decreases |finished|
  {
    if finished != [] {
      var n := |finished| - 1;
      ColumnsAreTotals(finished[..n]);
      assert Rows(finished)[..n] == Rows(finished[..n]);
    }
  }

  /**
   * The profit column of the history adds up to what the finished players
   * took out less what they put in, and together with the players still
   * playing the history accounts for the whole session.
   */
  lemma HistoryProfit(ps: seq<Player>)
    ensures ProfitColumn(Rows(FinishedPlayers(ps))) == TotalProfit(Filter(ps, IsFinished))
    ensures ProfitColumn(Rows(FinishedPlayers(ps))) + TotalProfit(Filter(ps, IsPlaying)) == TotalProfit(ps)
    ensures InvestedColumn(Rows(FinishedPlayers(ps))) + TotalIn(Filter(ps, IsPlaying)) == TotalIn(ps)
  {
    ColumnsAreTotals(FinishedPlayers(ps));
    SortTotals(Filter(ps, IsFinished));
    FilterTotals(ps);
    BalanceIsPlayersLoss(ps);
    BalanceIsPlayersLoss(Filter(ps, IsFinished));
    BalanceIsPlayersLoss(Filter(ps, IsPlaying));
  }
}
