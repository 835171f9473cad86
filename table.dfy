/**
 * The 12-seat table: the seat list (`confirmedPlayers`), the auto-seating
 * loop of `addPlayer` (src/hooks/usePokerGame.ts) and the seat-click state
 * machine of the page (src/app/page.tsx, handleSeatClick).
 */
module Table {
  import opened Types
  import opened Collections

  /** PokerTable draws positions 1..12. */
  const TableSize := 12

  // ---------------------------------------------------------------------------
  // Seat numbers and the table invariant
  // ---------------------------------------------------------------------------

  /** The seat numbers 1..k. */
  function Range(k: int): (r: set<int>)
    ensures forall s :: s in r <==> 1 <= s <= k
    decreases k
  {
    if k <= 0 then {} else Range(k - 1) + {k}
  }

  /** `new Set(confirmedPlayers.map(p => p.seat))` */
  function SeatNumbers(seats: seq<ConfirmedPlayer>): set<int>
  {
    set p | p in seats :: p.seat
  }

  function SeatIds(seats: seq<ConfirmedPlayer>): set<int>
  {
    set p | p in seats :: p.id
  }

  /** Two seat entries belong to different players and sit at different seats. */
  predicate Apart(p: ConfirmedPlayer, q: ConfirmedPlayer)
  {
    p.seat != q.seat && p.id != q.id
  }

  /** Seat numbers are unique and in 1..12, and no player holds two seats. */
  predicate TableValid(seats: seq<ConfirmedPlayer>)
  {
    && (forall k :: 0 <= k < |seats| ==> 1 <= seats[k].seat <= TableSize)
    && Pairwise(seats, Apart)
  }

  predicate NotBothDealers(p: ConfirmedPlayer, q: ConfirmedPlayer)
  {
    !(p.isDealer && q.isDealer)
  }

  /** At most one seat carries the dealer button. */
  predicate OneDealerSeat(seats: seq<ConfirmedPlayer>)
  {
    Pairwise(seats, NotBothDealers)
  }

  lemma {:induction false} RangeSize(k: nat)
    ensures |Range(k)| == k
  {
    if k > 0 {
      RangeSize(k - 1);
      assert k !in Range(k - 1);
    }
  }

  lemma SubsetSize(a: set<int>, b: set<int>)
    requires a <= b
    ensures |a| <= |b|
  {
    assert b == a + (b - a);
    assert a * (b - a) == {};
  }

  /** If the seats 1..k are all taken, at least k seats are taken. */
  lemma RangeWithin(taken: set<int>, k: nat)
    requires forall s :: 1 <= s <= k ==> s in taken
    ensures k <= |taken|
  {
    RangeSize(k);
    SubsetSize(Range(k), taken);
  }

  /** No more distinct seat numbers than seat entries. */
  lemma {:induction false} SeatNumbersBound(seats: seq<ConfirmedPlayer>)
    ensures |SeatNumbers(seats)| <= |seats|
  {
    if seats != [] {
      SeatNumbersBound(seats[1..]);
      assert seats == [seats[0]] + seats[1..];
      assert SeatNumbers(seats) == {seats[0].seat} + SeatNumbers(seats[1..]);
    }
  }

  /** With unique seat numbers there are exactly as many numbers as entries. */
  lemma {:induction false} DistinctSeatNumbers(seats: seq<ConfirmedPlayer>)
    requires Pairwise(seats, Apart)
    ensures |SeatNumbers(seats)| == |seats|
  {
    if seats != [] {
      var tail := seats[1..];
      PairwiseTail(seats, Apart);
      DistinctSeatNumbers(tail);
      assert seats == [seats[0]] + tail;
      assert SeatNumbers(seats) == {seats[0].seat} + SeatNumbers(tail);
    }
  }

  /** A valid table has at most 12 entries. */
  lemma TableAtMostTwelve(seats: seq<ConfirmedPlayer>)
    requires TableValid(seats)
    ensures |seats| <= TableSize
  {
    DistinctSeatNumbers(seats);
    RangeSize(TableSize);
    SubsetSize(SeatNumbers(seats), Range(TableSize));
  }

  // ---------------------------------------------------------------------------
  // Auto-seating (usePokerGame.addPlayer)
  // ---------------------------------------------------------------------------

  /** `seat` is the lowest seat number from 1 up that is not taken. */
  predicate IsLowestFree(seat: int, taken: set<int>)
  {
    1 <= seat && seat !in taken && forall s :: 1 <= s < seat ==> s in taken
  }

  /** `let seat = 1; while (taken.has(seat)) seat++;` */
  method LowestFreeSeat(taken: set<int>) returns (seat: int)
    ensures IsLowestFree(seat, taken)
    ensures seat <= |taken| + 1
  {
    seat := 1;
    while seat in taken
      invariant 1 <= seat <= |taken| + 1
      invariant forall s :: 1 <= s < seat ==> s in taken
      decreases |taken| + 1 - seat
    {
      RangeWithin(taken, seat);
      seat := seat + 1;
    }
  }

  /** While fewer than 12 players are seated the lowest free seat is on the table. */
  lemma LowestFreeOnTable(seats: seq<ConfirmedPlayer>, seat: int)
    requires |seats| < TableSize
    requires IsLowestFree(seat, SeatNumbers(seats))
    ensures 1 <= seat <= TableSize
  {
    RangeWithin(SeatNumbers(seats), seat - 1);
    SeatNumbersBound(seats);
  }

  /** Appending a player at the lowest free seat keeps the table valid. */
  lemma SeatAtLowestKeepsTable(seats: seq<ConfirmedPlayer>, p: ConfirmedPlayer)
    requires TableValid(seats) && |seats| < TableSize
    requires IsLowestFree(p.seat, SeatNumbers(seats)) && p.id !in SeatIds(seats)
    ensures TableValid(seats + [p])
  {
    LowestFreeOnTable(seats, p.seat);
    var r := seats + [p];
    forall i, j | 0 <= i < j < |r| ensures Apart(r[i], r[j]) {
      if j == |seats| {
        assert r[i] in seats;
      }
    }
  }

  // ---------------------------------------------------------------------------
  // Look-ups and the updates the page applies to the seat list
  // ---------------------------------------------------------------------------

  /** `confirmedPlayers.find(p => p.seat === n)` */
  function FindBySeat(seats: seq<ConfirmedPlayer>, n: int): (r: Option<ConfirmedPlayer>)
    ensures r.Some? ==> r.value in seats && r.value.seat == n
    ensures r.Some? ==> exists k :: 0 <= k < |seats| && seats[k] == r.value && forall j :: 0 <= j < k ==> seats[j].seat != n
    ensures r.None? <==> n !in SeatNumbers(seats)
  {
    if seats == [] then None
    else if seats[0].seat == n then Some(seats[0])
    else
      var r := FindBySeat(seats[1..], n);
      if r.Some? then
        var k :| 0 <= k < |seats[1..]| && seats[1..][k] == r.value && forall j :: 0 <= j < k ==> seats[1..][j].seat != n;
        assert seats[k + 1] == r.value && forall j :: 0 <= j < k + 1 ==> seats[j].seat != n;
        r
      else
        assert SeatNumbers(seats) == {seats[0].seat} + SeatNumbers(seats[1..]) by {
          assert seats == [seats[0]] + seats[1..];
        }
        r
  }

  /** `prev.find(x => x.id === id)` */
  function FindById(seats: seq<ConfirmedPlayer>, id: int): (r: Option<ConfirmedPlayer>)
    ensures r.Some? ==> r.value in seats && r.value.id == id
    ensures r.Some? ==> exists k :: 0 <= k < |seats| && seats[k] == r.value && forall j :: 0 <= j < k ==> seats[j].id != id
    ensures r.None? <==> id !in SeatIds(seats)
  {
    if seats == [] then None
    else if seats[0].id == id then Some(seats[0])
    else
      var r := FindById(seats[1..], id);
      if r.Some? then
        var k :| 0 <= k < |seats[1..]| && seats[1..][k] == r.value && forall j :: 0 <= j < k ==> seats[1..][j].id != id;
        assert seats[k + 1] == r.value && forall j :: 0 <= j < k + 1 ==> seats[j].id != id;
        r
      else
        assert SeatIds(seats) == {seats[0].id} + SeatIds(seats[1..]) by {
          assert seats == [seats[0]] + seats[1..];
        }
        r
  }

  /** On a table with unique seats, the search by seat finds the one entry there. */
  lemma FindBySeatAt(seats: seq<ConfirmedPlayer>, i: int)
    requires Pairwise(seats, Apart) && 0 <= i < |seats|
    ensures FindBySeat(seats, seats[i].seat) == Some(seats[i])
  {
    var r := FindBySeat(seats, seats[i].seat);
    var k :| 0 <= k < |seats| && seats[k] == r.value;
  }

  /** On a table with unique ids, the search by id finds the one entry with that id. */
  lemma FindByIdAt(seats: seq<ConfirmedPlayer>, i: int)
    requires Pairwise(seats, Apart) && 0 <= i < |seats|
    ensures FindById(seats, seats[i].id) == Some(seats[i])
  {
    var r := FindById(seats, seats[i].id);
    var k :| 0 <= k < |seats| && seats[k] == r.value;
  }

  /** The swap map: the selected player takes the clicked seat, the occupant takes the selected player's seat. */
  function Exchange(seats: seq<ConfirmedPlayer>, selId: int, selSeat: int, occId: int, occSeat: int): seq<ConfirmedPlayer>
  {
    seq(|seats|, k requires 0 <= k < |seats| =>
      if seats[k].id == selId then seats[k].(seat := occSeat)
      else if seats[k].id == occId then seats[k].(seat := selSeat)
      else seats[k])
  }

  /** The move map: the selected player takes the clicked (empty) seat. */
  function MoveTo(seats: seq<ConfirmedPlayer>, selId: int, n: int): seq<ConfirmedPlayer>
  {
    seq(|seats|, k requires 0 <= k < |seats| =>
      if seats[k].id == selId then seats[k].(seat := n) else seats[k])
  }

  /** `prev.filter(p => p.id !== id)`: used by checkout and by remove-seat. */
  function WithoutSeat(seats: seq<ConfirmedPlayer>, id: int): (r: seq<ConfirmedPlayer>)
    ensures forall p :: p in r <==> p in seats && p.id != id
    ensures SeatIds(r) == SeatIds(seats) - {id}
    ensures SeatNumbers(r) <= SeatNumbers(seats)
  {
    Filter(seats, (p: ConfirmedPlayer) => p.id != id)
  }

  /** The dealer button taken off every seat. */
  function ClearSeatDealers(seats: seq<ConfirmedPlayer>): seq<ConfirmedPlayer>
  {
    seq(|seats|, k requires 0 <= k < |seats| => seats[k].(isDealer := false))
  }

  /** Taking the button off every seat leaves no dealer seat and every player where they sat. */
  lemma ClearSeatDealersKeeps(seats: seq<ConfirmedPlayer>)
    ensures forall k :: 0 <= k < |ClearSeatDealers(seats)| ==> !ClearSeatDealers(seats)[k].isDealer
    ensures SeatIds(ClearSeatDealers(seats)) == SeatIds(seats)
    ensures SeatNumbers(ClearSeatDealers(seats)) == SeatNumbers(seats)
    ensures TableValid(seats) ==> TableValid(ClearSeatDealers(seats))
  {
    var r := ClearSeatDealers(seats);
    forall x | x in SeatIds(seats) ensures x in SeatIds(r) {
      var p :| p in seats && p.id == x;
      var k :| 0 <= k < |seats| && seats[k] == p;
      assert r[k].id == x;
    }
    forall x | x in SeatNumbers(seats) ensures x in SeatNumbers(r) {
      var p :| p in seats && p.seat == x;
      var k :| 0 <= k < |seats| && seats[k] == p;
      assert r[k].seat == x;
    }
    if TableValid(seats) {
      forall i, j | 0 <= i < j < |r| ensures Apart(r[i], r[j]) {
        assert Apart(seats[i], seats[j]);
      }
    }
  }

  /** A new seat keeps at most one dealer seat when it does not deal or no other seat does. */
  lemma AppendSeatKeepsDealer(seats: seq<ConfirmedPlayer>, p: ConfirmedPlayer)
    requires OneDealerSeat(seats)
    requires p.isDealer ==> forall k :: 0 <= k < |seats| ==> !seats[k].isDealer
    ensures OneDealerSeat(seats + [p])
  {
    var r := seats + [p];
    forall i, j | 0 <= i < j < |r| ensures NotBothDealers(r[i], r[j]) {
      if j < |seats| {
        assert NotBothDealers(seats[i], seats[j]);
      }
    }
  }

  lemma SeatIdsAppend(seats: seq<ConfirmedPlayer>, p: ConfirmedPlayer)
    ensures SeatIds(seats + [p]) == SeatIds(seats) + {p.id}
  {
    var r := seats + [p];
    forall x | x in SeatIds(r) ensures x in SeatIds(seats) + {p.id} {
      var q :| q in r && q.id == x;
      var k :| 0 <= k < |r| && r[k] == q;
      if k < |seats| {
        assert seats[k] in seats;
      }
    }
    assert r[|seats|] == p;
    forall x | x in SeatIds(seats) ensures x in SeatIds(r) {
      var q :| q in seats && q.id == x;
      assert q in r;
    }
  }

  /** Removing seats keeps the table valid and keeps at most one dealer seat. */
  lemma WithoutSeatKeepsTable(seats: seq<ConfirmedPlayer>, id: int)
    requires TableValid(seats)
    ensures TableValid(WithoutSeat(seats, id))
    ensures OneDealerSeat(seats) ==> OneDealerSeat(WithoutSeat(seats, id))
  {
    var keep := (p: ConfirmedPlayer) => p.id != id;
    FilterPairwise(seats, keep, Apart);
    if OneDealerSeat(seats) {
      FilterPairwise(seats, keep, NotBothDealers);
    }
    var r := WithoutSeat(seats, id);
    forall k | 0 <= k < |r| ensures 1 <= r[k].seat <= TableSize {
      assert r[k] in seats;
    }
  }

  /** `b` is `a` with possibly changed seat numbers and nothing else changed. */
  predicate OnlySeatsMoved(a: seq<ConfirmedPlayer>, b: seq<ConfirmedPlayer>)
  {
    |a| == |b| && forall k :: 0 <= k < |a| ==> b[k] == a[k].(seat := b[k].seat)
  }

  /** Moving players between seats seats the same players and keeps the dealer button. */
  lemma OnlySeatsMovedKeeps(a: seq<ConfirmedPlayer>, b: seq<ConfirmedPlayer>)
    requires OnlySeatsMoved(a, b)
    ensures SeatIds(b) == SeatIds(a)
    ensures OneDealerSeat(a) ==> OneDealerSeat(b)
  {
    forall x | x in SeatIds(a) ensures x in SeatIds(b) {
      var p :| p in a && p.id == x;
      var k :| 0 <= k < |a| && a[k] == p;
      assert b[k].id == x;
    }
    forall x | x in SeatIds(b) ensures x in SeatIds(a) {
      var p :| p in b && p.id == x;
      var k :| 0 <= k < |b| && b[k] == p;
      assert a[k].id == x;
    }
    if OneDealerSeat(a) {
      forall i, j | 0 <= i < j < |b| ensures NotBothDealers(b[i], b[j]) {
        assert NotBothDealers(a[i], a[j]);
      }
    }
  }

  // ---------------------------------------------------------------------------
  // The seat-click state machine (page.handleSeatClick)
  // ---------------------------------------------------------------------------

  /** What the table shows: the seats and the selected player's id (`selectedSeatId`). */
  datatype View = View(seats: seq<ConfirmedPlayer>, selected: Option<int>)

  /** `if (selectedSeatId)`: JavaScript truthiness, so an id of 0 counts as no selection. */
  predicate HasSelection(selected: Option<int>)
  {
    selected.Some? && selected.value != 0
  }

  /**
   * A click on seat `n`, with the selected player missing from the seat list
   * (checked out while selected) handled by dropping the selection.
   */
  function SeatClick(seats: seq<ConfirmedPlayer>, selected: Option<int>, n: int): View
  {
    var occupant := FindBySeat(seats, n);
    if HasSelection(selected) then
      if occupant.Some? && occupant.value.id == selected.value then
        View(seats, None)
      else if occupant.Some? then
        match FindById(seats, selected.value)
        case Some(mine) => View(Exchange(seats, selected.value, mine.seat, occupant.value.id, n), None)
        case None => View(seats, None)
      else
        View(MoveTo(seats, selected.value, n), None)
    else if occupant.Some? then
      View(seats, Some(occupant.value.id))
    else
      View(seats, selected)
  }

  /** The outcome of a click as the page is written: the swap can throw. */
  datatype Click = Clicked(view: View) | Crashed

  /**
   * handleSeatClick as written: in the swap, `selectedPlayer!.seat` is read
   * for the occupant's entry, and `selectedPlayer` is undefined when the
   * selected id is no longer seated, so the update throws a TypeError.
   */
  function SeatClickAsWritten(seats: seq<ConfirmedPlayer>, selected: Option<int>, n: int): Click
  {
    var occupant := FindBySeat(seats, n);
    if HasSelection(selected) then
      if occupant.Some? && occupant.value.id == selected.value then
        Clicked(View(seats, None))
      else if occupant.Some? then
        match FindById(seats, selected.value)
        case Some(mine) => Clicked(View(Exchange(seats, selected.value, mine.seat, occupant.value.id, n), None))
        case None => Crashed
      else
        Clicked(View(MoveTo(seats, selected.value, n), None))
    else if occupant.Some? then
      Clicked(View(seats, Some(occupant.value.id)))
    else
      Clicked(View(seats, selected))
  }

  /** Idle: clicking a seat changes no seat; an occupied seat selects its occupant, an empty one does nothing. */
  lemma ClickWhenIdle(seats: seq<ConfirmedPlayer>, selected: Option<int>, n: int)
    requires !HasSelection(selected)
    ensures SeatClick(seats, selected, n).seats == seats
    ensures n !in SeatNumbers(seats) ==> SeatClick(seats, selected, n).selected == selected
    ensures n in SeatNumbers(seats) ==>
      exists p :: p in seats && p.seat == n && SeatClick(seats, selected, n).selected == Some(p.id)
    ensures TableValid(seats) ==>
      forall i :: 0 <= i < |seats| && seats[i].seat == n ==> SeatClick(seats, selected, n).selected == Some(seats[i].id)
  {
    if TableValid(seats) {
      forall i | 0 <= i < |seats| && seats[i].seat == n ensures SeatClick(seats, selected, n).selected == Some(seats[i].id) {
        FindBySeatAt(seats, i);
      }
    }
  }

  /** Selected: clicking the selected player's own seat deselects and moves nobody. */
  lemma ClickOwnSeat(seats: seq<ConfirmedPlayer>, selected: Option<int>, i: int)
    requires Pairwise(seats, Apart) && 0 <= i < |seats|
    requires HasSelection(selected) && seats[i].id == selected.value
    ensures SeatClick(seats, selected, seats[i].seat) == View(seats, None)
  {
    FindBySeatAt(seats, i);
  }

  /** Entries i and j with their seat numbers exchanged. */
  function SwappedAt(seats: seq<ConfirmedPlayer>, i: int, j: int): seq<ConfirmedPlayer>
    requires 0 <= i < |seats| && 0 <= j < |seats|
  {
    seats[i := seats[i].(seat := seats[j].seat)][j := seats[j].(seat := seats[i].seat)]
  }

  /** The swap exchanges the seat numbers of entries i and j and changes nothing else. */
  lemma ExchangeAt(seats: seq<ConfirmedPlayer>, i: int, j: int)
    requires Pairwise(seats, Apart) && 0 <= i < |seats| && 0 <= j < |seats| && i != j
    ensures Exchange(seats, seats[i].id, seats[i].seat, seats[j].id, seats[j].seat)
         == SwappedAt(seats, i, j)
  {
    var r := Exchange(seats, seats[i].id, seats[i].seat, seats[j].id, seats[j].seat);
    var u := SwappedAt(seats, i, j);
    forall k | 0 <= k < |seats| ensures r[k] == u[k] {
      if k != i && k != j {
        if k < i { assert Apart(seats[k], seats[i]); } else { assert Apart(seats[i], seats[k]); }
        if k < j { assert Apart(seats[k], seats[j]); } else { assert Apart(seats[j], seats[k]); }
      } else if k == j {
        if i < j { assert Apart(seats[i], seats[j]); } else { assert Apart(seats[j], seats[i]); }
      }
    }
  }

  /** Exchanging the seat numbers of two entries keeps the table valid and occupies the same seats. */
  lemma SwapKeepsTable(seats: seq<ConfirmedPlayer>, i: int, j: int)
    requires TableValid(seats) && 0 <= i < |seats| && 0 <= j < |seats| && i != j
    ensures var u := SwappedAt(seats, i, j);
      TableValid(u) && SeatNumbers(u) == SeatNumbers(seats) && OnlySeatsMoved(seats, u)
  {
    var u := SwappedAt(seats, i, j);
    // position k of u sits where position Partner(k) of seats sat
    forall a, b | 0 <= a < b < |u| ensures Apart(u[a], u[b]) {
      var a' := if a == i then j else if a == j then i else a;
      var b' := if b == i then j else if b == j then i else b;
      assert u[a].seat == seats[a'].seat && u[b].seat == seats[b'].seat;
      assert u[a].id == seats[a].id && u[b].id == seats[b].id;
      assert a' != b';
      if a' < b' { assert Apart(seats[a'], seats[b']); } else { assert Apart(seats[b'], seats[a']); }
    }
    forall x | x in SeatNumbers(seats) ensures x in SeatNumbers(u) {
      var p :| p in seats && p.seat == x;
      var k :| 0 <= k < |seats| && seats[k] == p;
      var k' := if k == i then j else if k == j then i else k;
      assert u[k'].seat == x;
    }
    forall x | x in SeatNumbers(u) ensures x in SeatNumbers(seats) {
      var p :| p in u && p.seat == x;
      var k :| 0 <= k < |u| && u[k] == p;
      var k' := if k == i then j else if k == j then i else k;
      assert seats[k'].seat == x;
    }
  }

  /** Selected player at entry i, click on the seat of entry j: the two exchange seat numbers, all else stays. */
  lemma ClickSwap(seats: seq<ConfirmedPlayer>, selected: Option<int>, i: int, j: int)
    requires TableValid(seats) && 0 <= i < |seats| && 0 <= j < |seats| && i != j
    requires HasSelection(selected) && seats[i].id == selected.value
    ensures SeatClick(seats, selected, seats[j].seat)
         == View(SwappedAt(seats, i, j), None)
    ensures TableValid(SeatClick(seats, selected, seats[j].seat).seats)
    ensures SeatNumbers(SeatClick(seats, selected, seats[j].seat).seats) == SeatNumbers(seats)
  {
    FindBySeatAt(seats, j);
    FindByIdAt(seats, i);
    if i < j { assert Apart(seats[i], seats[j]); } else { assert Apart(seats[j], seats[i]); }
    ExchangeAt(seats, i, j);
    SwapKeepsTable(seats, i, j);
  }

  lemma SwappedAtTwice(seats: seq<ConfirmedPlayer>, i: int, j: int)
    requires 0 <= i < |seats| && 0 <= j < |seats| && i != j
    ensures SwappedAt(SwappedAt(seats, i, j), i, j) == seats
  {
    var s2 := SwappedAt(SwappedAt(seats, i, j), i, j);
    forall k | 0 <= k < |seats| ensures s2[k] == seats[k] {
    }
  }

  /** Swapping the same two players twice, by clicks, restores the original seating. */
  lemma ClickSwapTwice(seats: seq<ConfirmedPlayer>, i: int, j: int)
    requires TableValid(seats) && 0 <= i < |seats| && 0 <= j < |seats| && i != j
    requires seats[i].id != 0
    ensures SeatClick(seats, Some(seats[i].id), seats[j].seat) == View(SwappedAt(seats, i, j), None)
    ensures SeatClick(SwappedAt(seats, i, j), None, seats[j].seat) == View(SwappedAt(seats, i, j), Some(seats[i].id))
    ensures SeatClick(SwappedAt(seats, i, j), Some(seats[i].id), seats[i].seat) == View(seats, None)
  {
    ClickSwap(seats, Some(seats[i].id), i, j);
    var s1 := SwappedAt(seats, i, j);
    assert s1[i].id == seats[i].id && s1[i].seat == seats[j].seat && s1[j].seat == seats[i].seat;
    ClickWhenIdle(s1, None, seats[j].seat);
    ClickSwap(s1, Some(seats[i].id), i, j);
    SwappedAtTwice(seats, i, j);
  }

  /** Selected player at entry i, click on the empty seat n: only that player moves, to n. */
  lemma ClickMove(seats: seq<ConfirmedPlayer>, selected: Option<int>, i: int, n: int)
    requires TableValid(seats) && 0 <= i < |seats| && 1 <= n <= TableSize && n !in SeatNumbers(seats)
    requires HasSelection(selected) && seats[i].id == selected.value
    ensures SeatClick(seats, selected, n) == View(seats[i := seats[i].(seat := n)], None)
    ensures TableValid(seats[i := seats[i].(seat := n)])
    ensures SeatNumbers(seats[i := seats[i].(seat := n)]) == SeatNumbers(seats) - {seats[i].seat} + {n}
  {
    var u := seats[i := seats[i].(seat := n)];
    var r := MoveTo(seats, seats[i].id, n);
    forall k | 0 <= k < |seats| ensures r[k] == u[k] {
      if k < i { assert Apart(seats[k], seats[i]); } else if i < k { assert Apart(seats[i], seats[k]); }
    }
    assert r == u;
    forall a, b | 0 <= a < b < |u| ensures Apart(u[a], u[b]) {
      assert Apart(seats[a], seats[b]);
      if a == i { assert seats[b] in seats; }
      if b == i { assert seats[a] in seats; }
    }
    forall x | x in SeatNumbers(u) ensures x in SeatNumbers(seats) - {seats[i].seat} + {n} {
      var p :| p in u && p.seat == x;
      var k :| 0 <= k < |u| && u[k] == p;
      if k != i {
        if k < i { assert Apart(seats[k], seats[i]); } else { assert Apart(seats[i], seats[k]); }
      }
    }
    forall x | x in SeatNumbers(seats) - {seats[i].seat} + {n} ensures x in SeatNumbers(u) {
      if x == n {
        assert u[i].seat == n;
      } else {
        var p :| p in seats && p.seat == x;
        var k :| 0 <= k < |seats| && seats[k] == p;
        assert k != i && u[k] == p;
      }
    }
  }

  /** Moving a player to N and then on to M leaves that player at M, N free, everyone else in place. */
  lemma ClickMoveTwice(seats: seq<ConfirmedPlayer>, i: int, n: int, m: int)
    requires TableValid(seats) && 0 <= i < |seats| && seats[i].id != 0
    requires 1 <= n <= TableSize && n !in SeatNumbers(seats)
    requires 1 <= m <= TableSize && m != n && (m == seats[i].seat || m !in SeatNumbers(seats))
    ensures var v1 := SeatClick(seats, None, seats[i].seat);
      var v2 := SeatClick(v1.seats, v1.selected, n);
      var v3 := SeatClick(v2.seats, v2.selected, n);
      var v4 := SeatClick(v3.seats, v3.selected, m);
      v4 == View(seats[i := seats[i].(seat := m)], None) && n !in SeatNumbers(v4.seats)
  {
    var p := Some(seats[i].id);
    FindBySeatAt(seats, i);
    assert SeatClick(seats, None, seats[i].seat) == View(seats, p);
    ClickMove(seats, p, i, n);
    var s2 := seats[i := seats[i].(seat := n)];
    FindBySeatAt(s2, i);
    assert SeatClick(s2, None, n) == View(s2, p);
    assert m !in SeatNumbers(s2);
    ClickMove(s2, p, i, m);
    assert s2[i := s2[i].(seat := m)] == seats[i := seats[i].(seat := m)];
  }

  /** Whatever is clicked, a valid table stays valid and seats the same players. */
  lemma ClickKeepsTable(seats: seq<ConfirmedPlayer>, selected: Option<int>, n: int)
    requires TableValid(seats) && 1 <= n <= TableSize
    ensures TableValid(SeatClick(seats, selected, n).seats)
    ensures OnlySeatsMoved(seats, SeatClick(seats, selected, n).seats)
  {
    var v := SeatClick(seats, selected, n);
    var occupant := FindBySeat(seats, n);
    if HasSelection(selected) {
      var mine := FindById(seats, selected.value);
      if occupant.Some? && occupant.value.id != selected.value && mine.Some? {
        var j :| 0 <= j < |seats| && seats[j] == occupant.value;
        var i :| 0 <= i < |seats| && seats[i] == mine.value;
        ClickSwap(seats, selected, i, j);
        SwapKeepsTable(seats, i, j);
      } else if occupant.None? && mine.Some? {
        var i :| 0 <= i < |seats| && seats[i] == mine.value;
        ClickMove(seats, selected, i, n);
      } else if occupant.None? {
        forall k | 0 <= k < |seats| ensures v.seats[k] == seats[k] {
          assert seats[k].id in SeatIds(seats);
        }
        assert v.seats == seats;
      }
    }
  }

  /** Where the page as written does not throw, it does what SeatClick does. */
  lemma AsWrittenAgrees(seats: seq<ConfirmedPlayer>, selected: Option<int>, n: int)
    ensures SeatClickAsWritten(seats, selected, n).Clicked? ==>
      SeatClickAsWritten(seats, selected, n).view == SeatClick(seats, selected, n)
    ensures SeatClickAsWritten(seats, selected, n).Crashed? <==>
      HasSelection(selected) && n in SeatNumbers(seats) && selected.value !in SeatIds(seats)
  {
    if HasSelection(selected) && n in SeatNumbers(seats) && selected.value !in SeatIds(seats) {
      var o := FindBySeat(seats, n).value;
      assert o.id in SeatIds(seats);
    }
  }

  /**
   * Select player 10 at seat 1, check that player out (which removes the seat
   * entry but leaves the selection), then click player 20's seat 2: the swap
   * as written throws.
   */
  lemma StaleSelectionCrashes()
    ensures var seats := [ConfirmedPlayer(10, "Ana", None, 1, false), ConfirmedPlayer(20, "Bia", None, 2, false)];
      var v1 := SeatClick(seats, None, 1);
      var afterCheckout := WithoutSeat(v1.seats, 10);
      v1.selected == Some(10) && SeatClickAsWritten(afterCheckout, v1.selected, 2) == Crashed
  {
    var seats := [ConfirmedPlayer(10, "Ana", None, 1, false), ConfirmedPlayer(20, "Bia", None, 2, false)];
    assert FindBySeat(seats, 1) == Some(seats[0]);
    var rest := WithoutSeat(seats, 10);
    assert seats[1] in rest;
    assert 10 !in SeatIds(rest);
    AsWrittenAgrees(rest, Some(10), 2);
  }
}
