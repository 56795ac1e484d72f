/** The seat picker page (frontend/src/pages/SeatSelection.jsx): the fixed 8 x 16 grid, the
    status each seat gets from the server's booked and locked lists, the toggle that flips one
    seat and keeps the selection list in step with the grid, the running total and the
    checkout guards. The server calls that lock and unlock a seat are not part of this model. */
module SeatSelection {
  import opened Wrappers
  import Seqs
  import Text

  const Rows: string := "ABCDEFGH"
  const SeatsPerRow: nat := 16

  datatype SeatStatus = Available | Booked | Locked

  /** One cell of the grid: `{row, seat, status, selected}`. */
  datatype Cell = Cell(row: char, seat: nat, status: SeatStatus, selected: bool)

  /** A seat as the server lists it; `seat` is the text the template literal renders. A `null`
      entry of the list is `None`. */
  datatype SeatRef = SeatRef(row: string, seat: string)

  datatype SeatsData = SeatsData(bookedSeats: seq<Option<SeatRef>>, lockedSeats: seq<Option<SeatRef>>)

  /** The showtime record the page loaded (`meta`); only its price is read here. */
  datatype ShowMeta = ShowMeta(price: int)

  /** `` `${row}-${seat}` ``. */
  function SeatKey(row: char, seat: nat): string { [row] + "-" + Text.NatToString(seat) }

  lemma {:induction false} SeatKeyInjective(r1: char, s1: nat, r2: char, s2: nat)
    requires SeatKey(r1, s1) == SeatKey(r2, s2)
    ensures r1 == r2 && s1 == s2
  {
    var k1, k2 := SeatKey(r1, s1), SeatKey(r2, s2);
    assert k1[0] == r1 && k2[0] == r2;
    assert k1[2..] == Text.NatToString(s1) && k2[2..] == Text.NatToString(s2);
    Text.NatToStringInjective(s1, s2);
  }

  /** The list entry names the seat, compared after `toLowerCase()` on both sides. */
  function Names(row: char, seat: nat): Option<SeatRef> -> bool
  {
    (s: Option<SeatRef>) => s.Some? && Text.Lower(s.value.row + "-" + s.value.seat) == Text.Lower(SeatKey(row, seat))
  }

  /** `getSeatStatus(row, seat)`: booked wins over locked, and a seat on neither list is free. */
  function GetSeatStatus(data: SeatsData, row: char, seat: nat): (st: SeatStatus)
    ensures st == Booked <==> exists i :: 0 <= i < |data.bookedSeats| && Names(row, seat)(data.bookedSeats[i])
    ensures st == Locked <==>
      (forall i :: 0 <= i < |data.bookedSeats| ==> !Names(row, seat)(data.bookedSeats[i]))
      && exists i :: 0 <= i < |data.lockedSeats| && Names(row, seat)(data.lockedSeats[i])
  {
    if Seqs.Any(data.bookedSeats, Names(row, seat)) then Booked
    else if Seqs.Any(data.lockedSeats, Names(row, seat)) then Locked
    else Available
  }

  /** The comparison ignores the case of the row letter. */
  lemma {:induction false} RowCaseIgnored(ref: SeatRef, row: char, seat: nat)
    requires Text.Lower(ref.row) == [Text.LowerChar(row)] && ref.seat == Text.NatToString(seat)
    ensures Names(row, seat)(Some(ref))
  {
    Text.LowerConcat(ref.row, "-" + ref.seat);
    Text.LowerConcat([row], "-" + Text.NatToString(seat));
    assert ref.row + "-" + ref.seat == ref.row + ("-" + ref.seat);
    assert SeatKey(row, seat) == [row] + ("-" + Text.NatToString(seat));
  }

  /** The grid has the fixed shape: row `r` is `Rows[r]` and holds seats 1..16 in order. */
  ghost predicate Shaped(grid: seq<seq<Cell>>)
  {
    |grid| == |Rows|
    && forall r :: 0 <= r < |grid| ==>
         |grid[r]| == SeatsPerRow
         && forall c :: 0 <= c < |grid[r]| ==> grid[r][c].row == Rows[r] && grid[r][c].seat == c + 1
  }

  function GridRow(data: SeatsData, row: char): (cells: seq<Cell>)
    ensures |cells| == SeatsPerRow
    ensures forall c :: 0 <= c < SeatsPerRow ==>
      cells[c] == Cell(row, c + 1, GetSeatStatus(data, row, c + 1), false)
  {
    seq(SeatsPerRow, (c: int) requires 0 <= c => Cell(row, c + 1, GetSeatStatus(data, row, c + 1), false))
  }

  /** The grid built after loading; every cell starts unselected. */
  function BuildGrid(data: SeatsData): (grid: seq<seq<Cell>>)
    ensures Shaped(grid)
    ensures forall r, c :: 0 <= r < |grid| && 0 <= c < |grid[r]| ==>
      grid[r][c].status == GetSeatStatus(data, Rows[r], c + 1) && !grid[r][c].selected
  {
    seq(|Rows|, (r: int) requires 0 <= r < |Rows| => GridRow(data, Rows[r]))
  }

  /** `createDefaultSeatGrid()`. */
  function DefaultGrid(): (grid: seq<seq<Cell>>)
    ensures Shaped(grid)
    ensures forall r, c :: 0 <= r < |grid| && 0 <= c < |grid[r]| ==> grid[r][c].status == Available && !grid[r][c].selected
  {
    seq(|Rows|, (r: int) requires 0 <= r < |Rows| =>
      seq(SeatsPerRow, (c: int) requires 0 <= c => Cell(Rows[r], c + 1, Available, false)))
  }

  /** With empty lists the built grid is the default grid. */
  lemma DefaultIsEmptyData()
    ensures BuildGrid(SeatsData([], [])) == DefaultGrid()
  {
    var a, b := BuildGrid(SeatsData([], [])), DefaultGrid();
    forall r | 0 <= r < |Rows| ensures a[r] == b[r] {
      assert |a[r]| == |b[r]|;
    }
  }

  /** `meta?.price || 200`. */
  function SeatPrice(meta: Option<ShowMeta>): (p: int)
    ensures p != 0
    ensures meta.Some? && meta.value.price != 0 ==> p == meta.value.price
  {
    if meta.Some? && meta.value.price != 0 then meta.value.price else 200
  }

  /** An entry of the selection list: `{_id, row, seat, price, showtime, locked}`. */
  datatype Pick = Pick(id: string, row: char, seat: nat, price: int, locked: bool)

  function PickId(p: Pick): string { p.id }

  function OtherPick(key: string): Pick -> bool { (p: Pick) => p.id != key }

  predicate Listed(selected: seq<Pick>, key: string)
  {
    exists k :: 0 <= k < |selected| && selected[k].id == key
  }

  /** The page state the picker keeps consistent: a shaped grid, only free seats selected, and a
      selection list holding exactly one entry, at the page's price, per selected cell. */
  ghost predicate Consistent(grid: seq<seq<Cell>>, selected: seq<Pick>, price: int)
  {
    && Shaped(grid)
    && (forall r, c :: 0 <= r < |grid| && 0 <= c < |grid[r]| ==>
          (grid[r][c].selected ==> grid[r][c].status == Available)
          && (grid[r][c].selected <==> Listed(selected, SeatKey(grid[r][c].row, grid[r][c].seat))))
    && (forall k :: 0 <= k < |selected| ==>
          selected[k].id == SeatKey(selected[k].row, selected[k].seat) && selected[k].price == price)
    && Seqs.DistinctBy(selected, PickId)
  }

  /** The toggle of the cell at (r, c) on a state: refused when there is no such cell or it is
      neither free nor selected; otherwise that cell's `selected` flips and its entry is added
      to or removed from the list. */
  function Toggled(grid: seq<seq<Cell>>, selected: seq<Pick>, price: int, r: int, c: int)
    : (res: (seq<seq<Cell>>, seq<Pick>))
    ensures !(0 <= r < |grid| && 0 <= c < |grid[r]|) ==> res == (grid, selected)
    ensures 0 <= r < |grid| && 0 <= c < |grid[r]| && grid[r][c].status != Available && !grid[r][c].selected
      ==> res == (grid, selected)
    ensures 0 <= r < |grid| && 0 <= c < |grid[r]| && (grid[r][c].status == Available || grid[r][c].selected) ==>
      var seat := grid[r][c];
      && |res.0| == |grid|
      && (forall i :: 0 <= i < |grid| && i != r ==> res.0[i] == grid[i])
      && |res.0[r]| == |grid[r]|
      && (forall j :: 0 <= j < |grid[r]| && j != c ==> res.0[r][j] == grid[r][j])
      && res.0[r][c] == seat.(selected := !seat.selected)
      && (!seat.selected ==> res.1 == selected + [Pick(SeatKey(seat.row, seat.seat), seat.row, seat.seat, price, false)])
      && (seat.selected ==> res.1 == Seqs.Filter(selected, OtherPick(SeatKey(seat.row, seat.seat))))
  {
    if !(0 <= r < |grid| && 0 <= c < |grid[r]|) then (grid, selected)
    else
      var seat := grid[r][c];
      if seat.status != Available && !seat.selected then (grid, selected)
      else
        var key := SeatKey(seat.row, seat.seat);
        var picks := if !seat.selected then selected + [Pick(key, seat.row, seat.seat, price, false)]
                     else Seqs.Filter(selected, OtherPick(key));
        (grid[r := grid[r][c := seat.(selected := !seat.selected)]], picks)
  }

  /** Two cells of a shaped grid at different positions name different seats. */
  lemma {:induction false} CellKeysDistinct(grid: seq<seq<Cell>>, r1: int, c1: int, r2: int, c2: int)
    requires Shaped(grid)
    requires 0 <= r1 < |grid| && 0 <= c1 < |grid[r1]| && 0 <= r2 < |grid| && 0 <= c2 < |grid[r2]|
    requires r1 != r2 || c1 != c2
    ensures SeatKey(grid[r1][c1].row, grid[r1][c1].seat) != SeatKey(grid[r2][c2].row, grid[r2][c2].seat)
  {
    if SeatKey(grid[r1][c1].row, grid[r1][c1].seat) == SeatKey(grid[r2][c2].row, grid[r2][c2].seat) {
      SeatKeyInjective(grid[r1][c1].row, grid[r1][c1].seat, grid[r2][c2].row, grid[r2][c2].seat);
    }
  }

  /** Flipping one cell's `selected` keeps the grid's shape and every other cell. */
  lemma FlipKeepsShape(grid: seq<seq<Cell>>, r: int, c: int, g: seq<seq<Cell>>)
    requires Shaped(grid) && 0 <= r < |grid| && 0 <= c < |grid[r]|
    requires g == grid[r := grid[r][c := grid[r][c].(selected := !grid[r][c].selected)]]
    ensures Shaped(g)
    ensures forall i, j :: 0 <= i < |g| && 0 <= j < |g[i]| && (i != r || j != c) ==> g[i][j] == grid[i][j]
  {
  }

  /** Appending an entry lists its key and keeps every other key's listing. */
  lemma ListedAfterAppend(selected: seq<Pick>, p: Pick, other: string)
    ensures Listed(selected + [p], other) <==> Listed(selected, other) || p.id == other
  {
    var s := selected + [p];
    if Listed(s, other) {
      var k :| 0 <= k < |s| && s[k].id == other;
      if k < |selected| {
        assert selected[k].id == other;
      }
    }
    if Listed(selected, other) {
      var k :| 0 <= k < |selected| && selected[k].id == other;
      assert s[k].id == other;
    }
    assert s[|selected|] == p;
  }

  /** Removing the entries with one key unlists it and keeps every other key's listing. */
  lemma ListedAfterRemove(selected: seq<Pick>, key: string, other: string)
    ensures Listed(Seqs.Filter(selected, OtherPick(key)), other) <==> Listed(selected, other) && other != key
  {
    var s := Seqs.Filter(selected, OtherPick(key));
    if Listed(s, other) {
      var k :| 0 <= k < |s| && s[k].id == other;
      assert s[k] in s;
      var m :| 0 <= m < |selected| && selected[m] == s[k];
    }
    if Listed(selected, other) && other != key {
      var k :| 0 <= k < |selected| && selected[k].id == other;
      assert selected[k] in s;
      var m :| 0 <= m < |s| && s[m] == selected[k];
    }
  }

  /** Selecting a free seat keeps the state consistent. */
  lemma {:induction false} SelectKeepsConsistent(grid: seq<seq<Cell>>, selected: seq<Pick>, price: int, r: int, c: int)
    requires Consistent(grid, selected, price)
    requires 0 <= r < |grid| && 0 <= c < |grid[r]| && grid[r][c].status == Available && !grid[r][c].selected
    ensures var res := Toggled(grid, selected, price, r, c); Consistent(res.0, res.1, price)
  {
    var seat := grid[r][c];
    var key := SeatKey(seat.row, seat.seat);
    var p := Pick(key, seat.row, seat.seat, price, false);
    var res := Toggled(grid, selected, price, r, c);
    var g: seq<seq<Cell>>, s: seq<Pick> := res.0, res.1;
    assert s == selected + [p];
    FlipKeepsShape(grid, r, c, g);
    forall i, j | 0 <= i < |g| && 0 <= j < |g[i]|
      ensures (g[i][j].selected ==> g[i][j].status == Available)
      ensures g[i][j].selected <==> Listed(s, SeatKey(g[i][j].row, g[i][j].seat))
    {
      ListedAfterAppend(selected, p, SeatKey(g[i][j].row, g[i][j].seat));
      if i != r || j != c {
        CellKeysDistinct(grid, i, j, r, c);
      }
    }
    forall k, l | 0 <= k < l < |s| ensures PickId(s[k]) != PickId(s[l]) {
      if l == |selected| {
        assert !Listed(selected, key);
        assert selected[k].id != key;
      } else {
        assert s[k] == selected[k] && s[l] == selected[l];
      }
    }
  }

  /** Unselecting a selected seat keeps the state consistent. */
  lemma {:induction false} UnselectKeepsConsistent(grid: seq<seq<Cell>>, selected: seq<Pick>, price: int, r: int, c: int)
    requires Consistent(grid, selected, price)
    requires 0 <= r < |grid| && 0 <= c < |grid[r]| && grid[r][c].selected
    ensures var res := Toggled(grid, selected, price, r, c); Consistent(res.0, res.1, price)
  {
    var seat := grid[r][c];
    var key := SeatKey(seat.row, seat.seat);
    var res := Toggled(grid, selected, price, r, c);
    var g: seq<seq<Cell>>, s: seq<Pick> := res.0, res.1;
    assert s == Seqs.Filter(selected, OtherPick(key));
    FlipKeepsShape(grid, r, c, g);
    Seqs.FilterKeepsDistinct(selected, OtherPick(key), PickId);
    forall i, j | 0 <= i < |g| && 0 <= j < |g[i]|
      ensures (g[i][j].selected ==> g[i][j].status == Available)
      ensures g[i][j].selected <==> Listed(s, SeatKey(g[i][j].row, g[i][j].seat))
    {
      ListedAfterRemove(selected, key, SeatKey(g[i][j].row, g[i][j].seat));
      if i != r || j != c {
        CellKeysDistinct(grid, i, j, r, c);
      }
    }
    forall k | 0 <= k < |s| ensures s[k].id == SeatKey(s[k].row, s[k].seat) && s[k].price == price {
      assert s[k] in selected;
      var m :| 0 <= m < |selected| && selected[m] == s[k];
    }
  }

  /** Every toggle, accepted or refused, keeps the state consistent. */
  lemma {:induction false} ToggleKeepsConsistent(grid: seq<seq<Cell>>, selected: seq<Pick>, price: int, r: int, c: int)
    requires Consistent(grid, selected, price)
    ensures var res := Toggled(grid, selected, price, r, c); Consistent(res.0, res.1, price)
  {
    if 0 <= r < |grid| && 0 <= c < |grid[r]| {
      if grid[r][c].selected {
        UnselectKeepsConsistent(grid, selected, price, r, c);
      } else if grid[r][c].status == Available {
        SelectKeepsConsistent(grid, selected, price, r, c);
      }
    }
  }

  /** `selected.reduce((sum, seat) => sum + (seat.price || 0), 0)`. */
  function Total(selected: seq<Pick>): int
  {
    if selected == [] then 0 else Total(selected[..|selected| - 1]) + selected[|selected| - 1].price
  }

  /** With every entry at the page's price, the total is the seat count times that price. */
  lemma {:induction false} TotalIsCountTimesPrice(selected: seq<Pick>, price: int)
    requires forall k :: 0 <= k < |selected| ==> selected[k].price == price
    ensures Total(selected) == |selected| * price
  {
    if selected != [] {
      TotalIsCountTimesPrice(selected[..|selected| - 1], price);
    }
  }

  datatype CheckoutError = NoSeatSelected | NoShowtime

  datatype CheckoutSeat = CheckoutSeat(row: char, seat: nat, price: int)

  datatype CheckoutState = CheckoutState(showtimePrice: int, seats: seq<CheckoutSeat>, totalAmount: int)

  /** `proceedToCheckout`: refused without a seat, then without the showtime record; otherwise
      the navigation state with the seats in selection order and their total. */
  function Checkout(selected: seq<Pick>, meta: Option<ShowMeta>): (r: Result<CheckoutState, CheckoutError>)
    ensures r == Failure(NoSeatSelected) <==> selected == []
    ensures r == Failure(NoShowtime) <==> selected != [] && meta.None?
    ensures r.Success? ==>
      && r.value.showtimePrice == SeatPrice(meta)
      && |r.value.seats| == |selected|
      && (forall k :: 0 <= k < |selected| ==>
            r.value.seats[k] == CheckoutSeat(selected[k].row, selected[k].seat, selected[k].price))
      && r.value.totalAmount == Total(selected)
  {
    if selected == [] then Failure(NoSeatSelected)
    else if meta.None? then Failure(NoShowtime)
    else
      Success(CheckoutState(SeatPrice(meta),
        seq(|selected|, (k: int) requires 0 <= k < |selected| =>
          CheckoutSeat(selected[k].row, selected[k].seat, selected[k].price)),
        Total(selected)))
  }

  /** The page after `loadData`, and the toggles on it. */
  class SeatPicker {
    var meta: Option<ShowMeta>
    var grid: seq<seq<Cell>>
    var selected: seq<Pick>
    var loadError: bool

    ghost predicate Valid()
      reads this
    {
      Consistent(grid, selected, SeatPrice(meta))
    }

    /** `loadData`: without the showtime record the default grid and the warning; a missing seat
        list counts as empty; otherwise the built grid. */
    constructor (showtime: Option<ShowMeta>, seats: Option<SeatsData>)
      ensures Valid()
      ensures meta == showtime && selected == []
      ensures loadError <==> showtime.None?
      ensures showtime.None? ==> grid == DefaultGrid()
      ensures showtime.Some? ==> grid == BuildGrid(seats.GetOr(SeatsData([], [])))
    {
      meta := showtime;
      selected := [];
      if showtime.None? {
        grid := DefaultGrid();
        loadError := true;
      } else {
        grid := BuildGrid(seats.GetOr(SeatsData([], [])));
        loadError := false;
      }
    }

    /** `toggleSeat(rIdx, cIdx)`: the grid update and the selection update it schedules. */
    method ToggleSeat(r: int, c: int)
      requires Valid()
      modifies this
      ensures Valid()
      ensures (grid, selected) == Toggled(old(grid), old(selected), SeatPrice(meta), r, c)
      ensures meta == old(meta) && loadError == old(loadError)
    {
      ToggleKeepsConsistent(grid, selected, SeatPrice(meta), r, c);
      if !(0 <= r < |grid| && 0 <= c < |grid[r]|) {
        return;
      }
      var seat := grid[r][c];
      if seat.status != Available && !seat.selected {
        return;
      }
      var newSelected := !seat.selected;
      var key := SeatKey(seat.row, seat.seat);
      grid := grid[r := grid[r][c := seat.(selected := newSelected)]];
      if newSelected {
        selected := selected + [Pick(key, seat.row, seat.seat, SeatPrice(meta), false)];
      } else {
        selected := Seqs.Filter(selected, OtherPick(key));
      }
    }

    /** The total shown under the grid. */
    function TotalAmount(): (t: int)
      reads this
      requires Valid()
      ensures t == |selected| * SeatPrice(meta)
    {
      TotalIsCountTimesPrice(selected, SeatPrice(meta));
      Total(selected)
    }
  }
}
