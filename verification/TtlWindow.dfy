/** The rolling window that keeps ticket entries alive: each call refreshes at most a hundred
    entries from where the previous call stopped, and wraps around at the last ticket sold. */
module TtlWindow {
  import opened Common

  const TTL_BUMP_WINDOW := 100
  const PERSISTENT_TTL_THRESHOLD_LEDGERS := 1_555_200
  const PERSISTENT_TTL_BUMP_LEDGERS := 3_110_400

  /** The ledger an entry lives until, after the host was asked to extend it at `ledger`: one that
      lives ninety days of ledgers longer is left alone, any other lives twice that from now. */
  function Extended(until: int, ledger: int): (later: int)
    ensures later >= until && later >= ledger + PERSISTENT_TTL_THRESHOLD_LEDGERS
    ensures later == until <==> until - ledger >= 90 * 86_400 / 5
    ensures later == until || later == ledger + 2 * (90 * 86_400 / 5)
  {
    if until - ledger < PERSISTENT_TTL_THRESHOLD_LEDGERS then ledger + PERSISTENT_TTL_BUMP_LEDGERS else until
  }

  function WindowStart(cursor: nat, total: nat): nat
  {
    Min(cursor, total)
  }

  function WindowEnd(cursor: nat, total: nat): nat
  {
    Min(WindowStart(cursor, total) + TTL_BUMP_WINDOW, total)
  }

  predicate InWindow(cursor: nat, total: nat, id: int)
  {
    WindowStart(cursor, total) < id <= WindowEnd(cursor, total)
  }

  function NextCursor(cursor: nat, total: nat): nat
  {
    if total == 0 then cursor
    else if WindowEnd(cursor, total) >= total then 0
    else WindowEnd(cursor, total)
  }

  class TicketTtls {
    /** Stored tickets, and the ledger each lives until. */
    var liveUntil: map<int, int>
    var lastBumpedIndex: nat

    constructor ()
      ensures liveUntil == map[] && lastBumpedIndex == 0
    {
      liveUntil, lastBumpedIndex := map[], 0;
    }

    /** Refresh up to `limit` entries from `start`, stopping at the first one missing. */
    method ExtendTicketTtls(start: nat, limit: nat, ledger: int) returns (refreshed: nat)
      modifies this`liveUntil
      ensures refreshed <= limit
      ensures forall id :: start <= id < start + refreshed ==> id in old(liveUntil)
      ensures refreshed < limit ==> start + refreshed !in old(liveUntil)
      ensures liveUntil == Refreshed(old(liveUntil), start, refreshed, ledger)
    {
      refreshed := 0;
      var entries := liveUntil;
      while refreshed < limit
        invariant refreshed <= limit
        invariant forall id :: start <= id < start + refreshed ==> id in liveUntil
        invariant entries == Refreshed(liveUntil, start, refreshed, ledger)
      {
        if start + refreshed !in entries {
          break;
        }
        entries := entries[start + refreshed := Extended(entries[start + refreshed], ledger)];
        refreshed := refreshed + 1;
      }
      liveUntil := entries;
    }

    /** With a record for every ticket sold, one call refreshes exactly the window. */
    method BumpRaffleTtl(total: nat, ledger: int) returns (refreshed: nat)
      requires forall id :: 1 <= id <= total ==> id in liveUntil
      modifies this`liveUntil, this`lastBumpedIndex
      ensures refreshed <= TTL_BUMP_WINDOW
      ensures lastBumpedIndex == NextCursor(old(lastBumpedIndex), total)
      ensures liveUntil == Bumped(old(liveUntil), old(lastBumpedIndex), total, ledger)
      ensures forall id :: InWindow(old(lastBumpedIndex), total, id) ==>
                id in liveUntil && liveUntil[id] >= ledger + PERSISTENT_TTL_THRESHOLD_LEDGERS
    {
      if total == 0 {
        return 0;
      }
      var start := Min(lastBumpedIndex, total);
      var end := Min(start + TTL_BUMP_WINDOW, total);
      refreshed := ExtendTicketTtls(start + 1, end - start, ledger);
      lastBumpedIndex := if end >= total then 0 else end;
    }
  }

  function Refreshed(entries: map<int, int>, start: nat, n: nat, ledger: int): map<int, int>
  {
    map id | id in entries :: if start <= id < start + n then Extended(entries[id], ledger) else entries[id]
  }

  /** The entries after a call with a record for every ticket sold. */
  function Bumped(entries: map<int, int>, cursor: nat, total: nat, ledger: int): map<int, int>
  {
    map id | id in entries :: if InWindow(cursor, total, id) then Extended(entries[id], ledger) else entries[id]
  }

  // ---------------------------------------------------------------------------
  // Every ticket is reached

  /** The cursor before call `i` of a sequence of calls. */
  function CursorAt(totals: seq<nat>, cursor: nat, i: nat): nat
    requires i <= |totals|
  {
    if i == 0 then cursor else NextCursor(CursorAt(totals, cursor, i - 1), totals[i - 1])
  }

  ghost predicate Growing(totals: seq<nat>, max: nat)
  {
    && (forall i, j :: 0 <= i <= j < |totals| ==> totals[i] <= totals[j])
    && forall i :: 0 <= i < |totals| ==> totals[i] <= max
  }

  predicate OnGrid(cursor: nat, total: nat)
  {
    cursor % TTL_BUMP_WINDOW == 0 && (cursor == 0 || cursor < total)
  }

  /** How many windows cover `n` tickets. */
  function Windows(n: nat): nat
  {
    (n + TTL_BUMP_WINDOW - 1) / TTL_BUMP_WINDOW
  }

  /** The cursor stays a multiple of the window size, below the number of tickets sold. */
  lemma CursorStaysOnGrid(cursor: nat, total: nat)
    requires OnGrid(cursor, total)
    ensures OnGrid(NextCursor(cursor, total), total)
  {
  }

  /** Windows to go before the one that holds `id`, around the end of at most `max` tickets. */
  function Distance(cursor: nat, id: nat, max: nat): int
    requires id >= 1
  {
    var at, target := cursor / TTL_BUMP_WINDOW, (id - 1) / TTL_BUMP_WINDOW;
    if at <= target then target - at else Windows(max) - at + target
  }

  lemma DistanceIsBounded(cursor: nat, id: nat, max: nat)
    requires 1 <= id <= max && OnGrid(cursor, max)
    ensures 0 <= Distance(cursor, id, max) < Windows(max)
  {
  }

  /** A call refreshes the ticket or comes at least one window closer to it. */
  lemma CallComesCloser(cursor: nat, total: nat, id: nat, max: nat)
    requires 1 <= id <= total <= max && OnGrid(cursor, total)
    ensures InWindow(cursor, total, id) || Distance(NextCursor(cursor, total), id, max) < Distance(cursor, id, max)
  {
    var at, target := cursor / TTL_BUMP_WINDOW, (id - 1) / TTL_BUMP_WINDOW;
    assert cursor == TTL_BUMP_WINDOW * at;
    if at == target {
      assert InWindow(cursor, total, id);
    } else if at < target {
      assert NextCursor(cursor, total) == TTL_BUMP_WINDOW * (at + 1);
    } else if NextCursor(cursor, total) != 0 {
      assert NextCursor(cursor, total) == TTL_BUMP_WINDOW * (at + 1);
    }
  }

  lemma {:induction false} ReachedWithin(totals: seq<nat>, cursor: nat, id: nat, max: nat, from: nat) returns (j: nat)
    requires Growing(totals, max) && from < |totals| && 1 <= id <= totals[from]
    requires OnGrid(CursorAt(totals, cursor, from), totals[from])
    requires from + Distance(CursorAt(totals, cursor, from), id, max) < |totals|
    ensures from <= j <= from + Distance(CursorAt(totals, cursor, from), id, max)
    ensures InWindow(CursorAt(totals, cursor, j), totals[j], id)
    decreases |totals| - from
  {
    var at := CursorAt(totals, cursor, from);
    DistanceIsBounded(at, id, max);
    CallComesCloser(at, totals[from], id, max);
    if InWindow(at, totals[from], id) {
      j := from;
    } else {
      CursorStaysOnGrid(at, totals[from]);
      DistanceIsBounded(NextCursor(at, totals[from]), id, max);
      j := ReachedWithin(totals, cursor, id, max, from + 1);
    }
  }

  /** Every ticket already sold falls into a window within ceil(max / 100) consecutive calls,
      however many tickets are sold in between. */
  lemma EveryTicketIsReached(totals: seq<nat>, cursor: nat, id: nat, max: nat) returns (j: nat)
    requires totals != [] && Growing(totals, max) && |totals| >= Windows(max)
    requires 1 <= id <= totals[0] && OnGrid(cursor, totals[0])
    ensures j < Windows(max) && InWindow(CursorAt(totals, cursor, j), totals[j], id)
  {
    DistanceIsBounded(cursor, id, max);
    j := ReachedWithin(totals, cursor, id, max, 0);
  }

  // ---------------------------------------------------------------------------
  // Every ticket is kept alive

  /** One call of `BumpRaffleTtl`: the tickets sold, the ledger, and the entries it finds. */
  datatype Bump = Bump(total: nat, ledger: int, entries: map<int, int>)

  function Totals(bumps: seq<Bump>): (totals: seq<nat>)
    ensures |totals| == |bumps| && forall i :: 0 <= i < |bumps| ==> totals[i] == bumps[i].total
  {
    seq(|bumps|, i requires 0 <= i < |bumps| => bumps[i].total)
  }

  /** The entries that call `i` of a sequence of calls leaves. */
  function Left(bumps: seq<Bump>, cursor: nat, i: nat): map<int, int>
    requires i < |bumps|
  {
    Bumped(bumps[i].entries, CursorAt(Totals(bumps), cursor, i), bumps[i].total, bumps[i].ledger)
  }

  /** `later` has every entry of `before`, living at least as long. */
  ghost predicate Outlives(before: map<int, int>, later: map<int, int>)
  {
    forall id :: id in before ==> id in later && later[id] >= before[id]
  }

  /** Consecutive calls: the first finds a record for every ticket sold, each finds what the one
      before it left, with new tickets perhaps, and no call comes earlier than the first. */
  ghost predicate Consecutive(bumps: seq<Bump>, cursor: nat)
    requires bumps != []
  {
    && (forall id :: 1 <= id <= bumps[0].total ==> id in bumps[0].entries)
    && (forall i {:trigger Left(bumps, cursor, i)} :: 0 <= i < |bumps| - 1 ==> Outlives(Left(bumps, cursor, i), bumps[i + 1].entries))
    && forall i :: 0 <= i < |bumps| ==> bumps[0].ledger <= bumps[i].ledger
  }

  lemma {:induction false} EntriesOutlive(bumps: seq<Bump>, cursor: nat, i: nat, j: nat)
    requires bumps != [] && Consecutive(bumps, cursor) && i <= j < |bumps|
    ensures Outlives(Left(bumps, cursor, i), Left(bumps, cursor, j))
    ensures Outlives(bumps[i].entries, Left(bumps, cursor, j))
    decreases j
  {
    if i < j {
      EntriesOutlive(bumps, cursor, i, j - 1);
      assert Outlives(Left(bumps, cursor, j - 1), bumps[j].entries);
    }
  }

  /** After ceil(max / 100) consecutive calls every ticket that had been sold at the first of them
      lives at least the threshold beyond that call's ledger, however many are sold meanwhile. */
  lemma EveryTicketIsRefreshed(bumps: seq<Bump>, cursor: nat, id: nat, max: nat)
    requires |bumps| == Windows(max) >= 1 && Growing(Totals(bumps), max) && Consecutive(bumps, cursor)
    requires 1 <= id <= bumps[0].total && OnGrid(cursor, bumps[0].total)
    ensures var left := Left(bumps, cursor, |bumps| - 1);
            id in left && left[id] >= bumps[0].ledger + PERSISTENT_TTL_THRESHOLD_LEDGERS
  {
    var j := EveryTicketIsReached(Totals(bumps), cursor, id, max);
    EntriesOutlive(bumps, cursor, 0, j);
    assert id in Left(bumps, cursor, j);
    EntriesOutlive(bumps, cursor, j, |bumps| - 1);
  }
}
