/**
 * The money reductions shared by the session summary
 * (src/hooks/usePokerGame.ts, finishSession) and the stats panel
 * (src/app/page.tsx): `players.reduce((acc, p) => acc + p.buyIn + p.rebuy, 0)`
 * and `players.reduce((acc, p) => acc + (p.cashOut || 0), 0)`.
 * Amounts are integers; the source keeps the floats `parseFloat` returns.
 */
module Money {
  import opened Types

  /** What one player has put on the table. */
  function Invested(p: Player): int
  {
    p.buyIn + p.rebuy
  }

  /** A player's result, as the history list shows it: cash-out less what was put in. */
  function Profit(p: Player): int
  {
    p.cashOut - Invested(p)
  }

  /** The left fold `reduce` computes: the last player is added last. */
  function TotalIn(ps: seq<Player>): int
    decreases |ps|
  {
    if ps == [] then 0 else TotalIn(ps[..|ps| - 1]) + ps[|ps| - 1].buyIn + ps[|ps| - 1].rebuy
  }

  function TotalOut(ps: seq<Player>): int
    decreases |ps|
  {
    if ps == [] then 0 else TotalOut(ps[..|ps| - 1]) + ps[|ps| - 1].cashOut
  }

  /** The sum of the per-player profits the history list shows. */
  function TotalProfit(ps: seq<Player>): int
    decreases |ps|
  {
    if ps == [] then 0 else TotalProfit(ps[..|ps| - 1]) + Profit(ps[|ps| - 1])
  }

  /** Both totals are additive: the sum over two runs of players is the sum of their sums. */
  lemma {:induction false} TotalsAppend(a: seq<Player>, b: seq<Player>)
    ensures TotalIn(a + b) == TotalIn(a) + TotalIn(b)
    ensures TotalOut(a + b) == TotalOut(a) + TotalOut(b)
    ensures TotalProfit(a + b) == TotalProfit(a) + TotalProfit(b)
    decreases |b|
  {
    if b == [] {
      assert a + b == a;
    } else {
      var b' := b[..|b| - 1];
      TotalsAppend(a, b');
      assert (a + b)[..|a + b| - 1] == a + b';
      assert (a + b)[|a + b| - 1] == b[|b| - 1];
    }
  }

  /** Putting a player in front adds that player's stake and cash-out. */
  lemma TotalsPrepend(p: Player, ps: seq<Player>)
    ensures TotalIn([p] + ps) == Invested(p) + TotalIn(ps)
    ensures TotalOut([p] + ps) == p.cashOut + TotalOut(ps)
    ensures TotalProfit([p] + ps) == Profit(p) + TotalProfit(ps)
  {
    TotalsAppend([p], ps);
    assert [p][..0] == [];
  }

  /** Replacing one player changes each total by exactly that player's difference. */
  lemma {:induction false} TotalsUpdateAt(ps: seq<Player>, i: int, q: Player)
    requires 0 <= i < |ps|
    ensures TotalIn(ps[i := q]) == TotalIn(ps) - Invested(ps[i]) + Invested(q)
    ensures TotalOut(ps[i := q]) == TotalOut(ps) - ps[i].cashOut + q.cashOut
  {
    var front, back := ps[..i], ps[i + 1..];
    assert ps == front + [ps[i]] + back;
    assert ps[i := q] == front + [q] + back;
    TotalsAppend(front + [ps[i]], back);
    TotalsAppend(front + [q], back);
    TotalsAppend(front, [ps[i]]);
    TotalsAppend(front, [q]);
    assert [ps[i]][..0] == [] && [q][..0] == [];
  }

  /** The balance (money in less money out) is exactly what the players lost between them. */
  lemma {:induction false} BalanceIsPlayersLoss(ps: seq<Player>)
    ensures TotalIn(ps) - TotalOut(ps) == -TotalProfit(ps)
    decreases |ps|
  {
    if ps != [] {
      BalanceIsPlayersLoss(ps[..|ps| - 1]);
    }
  }
}
