/** The factory's top-ten boards. A board keeps ten entries and forgets the rest, yet shows what
    a board that remembered every raffle would show. */
module Leaderboard {
  import opened Common

  const LEADERBOARD_CAP := 10

  type Entry = (Address, int)

  ghost predicate Descending(board: seq<Entry>)
  {
    forall i, j :: 0 <= i < j < |board| ==> board[i].1 >= board[j].1
  }

  ghost predicate OncePerRaffle(board: seq<Entry>)
  {
    forall i, j :: 0 <= i < j < |board| ==> board[i].0 != board[j].0
  }

  ghost predicate Lists(board: seq<Entry>, raffle: Address)
  {
    exists i :: 0 <= i < |board| && board[i].0 == raffle
  }

  function Without(board: seq<Entry>, raffle: Address): seq<Entry>
  {
    if board == [] then []
    else
      var last := board[|board| - 1];
      Without(board[..|board| - 1], raffle) + if last.0 != raffle then [last] else []
  }

  /** `after` is a descending arrangement of the old entries of other raffles and the new one,
      cut to `cap`. */
  ghost predicate Upserts(cap: nat, before: seq<Entry>, raffle: Address, metric: int, after: seq<Entry>)
  {
    exists all :: Arranges(before, raffle, metric, all) && after == all[..Min(|all|, cap)]
  }

  ghost predicate Arranges(before: seq<Entry>, raffle: Address, metric: int, all: seq<Entry>)
  {
    Descending(all) && multiset(all) == multiset(Without(before, raffle) + [(raffle, metric)])
  }

  // ---------------------------------------------------------------------------
  // The update, as the factory does it

  lemma SwapIsPermutation(s: seq<Entry>, i: nat, j: nat)
    requires i < j < |s|
    ensures multiset(s[i := s[j]][j := s[i]]) == multiset(s)
  {
  }

  class Leaderboards {
    /** The raffles this factory deployed. */
    var deployed: set<Address>
    var byTickets: seq<Entry>
    var byPrize: seq<Entry>
    var byVolume: seq<Entry>

    constructor ()
      ensures deployed == {} && byTickets == byPrize == byVolume == []
    {
      deployed, byTickets, byPrize, byVolume := {}, [], [], [];
    }

    method Deploy(raffle: Address)
      modifies this`deployed
      ensures deployed == old(deployed) + {raffle}
    {
      deployed := deployed + {raffle};
    }

    /** Only a raffle that the factory deployed may report, about such a raffle, and the report
        updates all three boards. */
    method RecordEntry(caller: Address, raffle: Address, tickets: int, prize: int, volume: int) returns (r: Result<()>)
      modifies this`byTickets, this`byPrize, this`byVolume
      ensures r.Ok? <==> caller in deployed && raffle in deployed
      ensures r.Err? ==> unchanged(this)
      ensures r.Ok? ==>
                && Upserts(LEADERBOARD_CAP, old(byTickets), raffle, tickets, byTickets)
                && Upserts(LEADERBOARD_CAP, old(byPrize), raffle, prize, byPrize)
                && Upserts(LEADERBOARD_CAP, old(byVolume), raffle, volume, byVolume)
    {
      if caller !in deployed {
        return Err(CallerNotRegisteredRaffle);
      }
      if raffle !in deployed {
        return Err(NotAuthorized);
      }
      byTickets := Upsert(byTickets, raffle, tickets);
      byPrize := Upsert(byPrize, raffle, prize);
      byVolume := Upsert(byVolume, raffle, volume);
      return Ok(());
    }
  }

  method Upsert(board: seq<Entry>, raffle: Address, metric: int) returns (next: seq<Entry>)
    ensures Upserts(LEADERBOARD_CAP, board, raffle, metric, next)
  {
    next := [];
    var i := 0;
    while i < |board|
      invariant 0 <= i <= |board|
      invariant next == Without(board[..i], raffle)
    {
      assert board[..i + 1][..i] == board[..i];
      if board[i].0 != raffle {
        next := next + [board[i]];
      }
      i := i + 1;
    }
    assert board[..|board|] == board;
    next := next + [(raffle, metric)];
    next := ExchangeSort(next);
    ghost var all := next;
    assert Arranges(board, raffle, metric, all);
    hide Arranges, Descending, Without;
    while |next| > LEADERBOARD_CAP
      invariant Min(|all|, LEADERBOARD_CAP) <= |next| <= |all| && next == all[..|next|]
    {
      next := next[..|next| - 1];
    }
  }

  ghost predicate Heads(s: seq<Entry>, i: nat)
  {
    forall k, l :: 0 <= k < i && k < l < |s| ==> s[k].1 >= s[l].1
  }

  method ExchangeSort(unsorted: seq<Entry>) returns (s: seq<Entry>)
    ensures Descending(s) && multiset(s) == multiset(unsorted) && |s| == |unsorted|
  {
    s := unsorted;
    var i := 0;
    while i < |s|
      invariant 0 <= i <= |s| == |unsorted| && multiset(s) == multiset(unsorted)
      invariant Heads(s, i)
    {
      s := ExchangeRow(s, i);
      i := i + 1;
    }
  }

  /** Bring the largest of `s[i..]` to position `i`, leaving what comes before it. */
  method ExchangeRow(row: seq<Entry>, i: nat) returns (s: seq<Entry>)
    requires i < |row| && Heads(row, i)
    ensures |s| == |row| && multiset(s) == multiset(row) && Heads(s, i + 1)
  {
    s := row;
    var j := i + 1;
    while j < |s|
      invariant i < j <= |s| == |row| && multiset(s) == multiset(row) && Heads(s, i)
      invariant forall l :: i < l < j ==> s[i].1 >= s[l].1
    {
      if s[j].1 > s[i].1 {
        SwapIsPermutation(s, i, j);
        s := s[i := s[j]][j := s[i]];
      }
      j := j + 1;
    }
  }

  // ---------------------------------------------------------------------------
  // Agreement with a table of every raffle

  /** The board shows the best of `latest`: it is descending, names each raffle once with its
      latest metric, is full unless it names them all, and nothing left off beats what is on. */
  ghost predicate Agrees(cap: nat, board: seq<Entry>, latest: map<Address, int>)
  {
    && Descending(board) && OncePerRaffle(board)
    && (forall i :: 0 <= i < |board| ==> board[i].0 in latest && latest[board[i].0] == board[i].1)
    && |board| == Min(|latest|, cap)
    && NothingBetterOff(board, latest)
  }

  ghost predicate NothingBetterOff(board: seq<Entry>, latest: map<Address, int>)
  {
    forall a, i :: a in latest && !Lists(board, a) && 0 <= i < |board| ==> latest[a] <= board[i].1
  }

  lemma {:induction false} WithoutMembers(board: seq<Entry>, raffle: Address, e: Entry)
    ensures e in Without(board, raffle) <==> e in board && e.0 != raffle
  {
    if board != [] {
      WithoutMembers(board[..|board| - 1], raffle, e);
      assert board == board[..|board| - 1] + [board[|board| - 1]];
    }
  }

  lemma {:induction false} WithoutIsShorter(board: seq<Entry>, raffle: Address)
    requires OncePerRaffle(board)
    ensures OncePerRaffle(Without(board, raffle))
    ensures |Without(board, raffle)| == |board| - if Lists(board, raffle) then 1 else 0
  {
    if board != [] {
      var n := |board| - 1;
      WithoutIsShorter(board[..n], raffle);
      ListsLast(board, raffle);
      forall i | 0 <= i < |Without(board[..n], raffle)|
        ensures Without(board[..n], raffle)[i].0 != board[n].0
      {
        WithoutMembers(board[..n], raffle, Without(board[..n], raffle)[i]);
      }
      if Lists(board[..n], raffle) {
        assert board[n].0 != raffle;
      }
    }
  }

  lemma ListsLast(board: seq<Entry>, raffle: Address)
    requires board != []
    ensures Lists(board, raffle) == (Lists(board[..|board| - 1], raffle) || board[|board| - 1].0 == raffle)
  {
    var n := |board| - 1;
    if Lists(board, raffle) {
      var i :| 0 <= i < |board| && board[i].0 == raffle;
      if i < n {
        assert board[..n][i].0 == raffle;
      }
    }
  }

  function RafflesOf(board: seq<Entry>): set<Address>
  {
    set i | 0 <= i < |board| :: board[i].0
  }

  lemma {:induction false} OncePerRaffleCounts(board: seq<Entry>)
    requires OncePerRaffle(board)
    ensures |RafflesOf(board)| == |board|
  {
    if board != [] {
      var n := |board| - 1;
      OncePerRaffleCounts(board[..n]);
      assert RafflesOf(board) == RafflesOf(board[..n]) + {board[n].0};
      assert board[n].0 !in RafflesOf(board[..n]);
    }
  }

  lemma OnceUnderPermutation(a: seq<Entry>, b: seq<Entry>)
    requires multiset(a) == multiset(b) && OncePerRaffle(a)
    ensures OncePerRaffle(b) && |a| == |b|
  {
    assert |multiset(a)| == |a| && |multiset(b)| == |b|;
    forall i, j | 0 <= i < j < |b|
      ensures b[i].0 != b[j].0
    {
      assert b[i] in multiset(a) && b[j] in multiset(a);
      var k :| 0 <= k < |a| && a[k] == b[i];
      var l :| 0 <= l < |a| && a[l] == b[j];
      OnlyOnce(a, k);
      if k == l {
        Twice(b, i, j);
        assert false;
      }
    }
  }

  lemma OnlyOnce(s: seq<Entry>, k: nat)
    requires k < |s| && OncePerRaffle(s)
    ensures multiset(s)[s[k]] == 1
  {
    assert s == s[..k] + [s[k]] + s[k + 1..];
    assert s[k] !in s[..k] && s[k] !in s[k + 1..];
  }

  lemma Twice(s: seq<Entry>, i: nat, j: nat)
    requires i < j < |s| && s[i] == s[j]
    ensures multiset(s)[s[i]] >= 2
  {
    assert s == s[..j] + [s[j]] + s[j + 1..];
    assert s[i] in s[..j];
  }

  /** What an arrangement of an agreeing board and one new entry contains. */
  lemma ArrangedEntries(cap: nat, board: seq<Entry>, latest: map<Address, int>, raffle: Address, metric: int, all: seq<Entry>)
    requires Agrees(cap, board, latest) && Arranges(board, raffle, metric, all)
    ensures OncePerRaffle(all) && |all| == |board| + if Lists(board, raffle) then 0 else 1
    ensures forall e: Entry :: e in all <==> e == (raffle, metric) || (e in board && e.0 != raffle)
  {
    var kept := Without(board, raffle);
    WithoutIsShorter(board, raffle);
    assert OncePerRaffle(kept + [(raffle, metric)]) by {
      forall i | 0 <= i < |kept|
        ensures kept[i].0 != raffle
      {
        WithoutMembers(board, raffle, kept[i]);
      }
    }
    OnceUnderPermutation(kept + [(raffle, metric)], all);
    forall e: Entry
      ensures e in all <==> e == (raffle, metric) || (e in board && e.0 != raffle)
    {
      SameMembers(kept + [(raffle, metric)], all, e);
      WithoutMembers(board, raffle, e);
    }
  }

  lemma SameMembers(a: seq<Entry>, b: seq<Entry>, e: Entry)
    requires multiset(a) == multiset(b)
    ensures e in a <==> e in b
  {
    assert e in a <==> e in multiset(a);
    assert e in b <==> e in multiset(b);
  }

  /** When one update keeps the board in agreement: unless the raffle was on the board and its
      metric fell below one that is off it. */
  lemma UpsertAgreesIff(cap: nat, board: seq<Entry>, latest: map<Address, int>, raffle: Address, metric: int, after: seq<Entry>)
    requires Agrees(cap, board, latest) && Upserts(cap, board, raffle, metric, after)
    ensures Agrees(cap, after, latest[raffle := metric]) <==>
              (Lists(board, raffle) ==> forall a :: a in latest && !Lists(board, a) ==> latest[a] <= metric)
  {
    var all :| Arranges(board, raffle, metric, all) && after == all[..Min(|all|, cap)];
    ArrangedEntries(cap, board, latest, raffle, metric, all);
    UpsertKeepsShape(cap, board, latest, raffle, metric, all, after);
    if Lists(board, raffle) {
      assert after == all;
      UpsertOnBoard(cap, board, latest, raffle, metric, all);
    } else {
      UpsertOffBoard(cap, board, latest, raffle, metric, all, after);
    }
    assert Agrees(cap, after, latest[raffle := metric]) <==> NothingBetterOff(after, latest[raffle := metric]);
  }

  lemma UpsertKeepsShape(cap: nat, board: seq<Entry>, latest: map<Address, int>, raffle: Address, metric: int, all: seq<Entry>,
                         after: seq<Entry>)
    requires Agrees(cap, board, latest) && Descending(all) && OncePerRaffle(all)
    requires |all| == |board| + if Lists(board, raffle) then 0 else 1
    requires forall e: Entry :: e in all <==> e == (raffle, metric) || (e in board && e.0 != raffle)
    requires after == all[..Min(|all|, cap)]
    ensures var now := latest[raffle := metric];
            && Descending(after) && OncePerRaffle(after)
            && (forall i :: 0 <= i < |after| ==> after[i].0 in now && now[after[i].0] == after[i].1)
            && |after| == Min(|now|, cap)
  {
    CutIsShaped(cap, board, latest, raffle, metric, all, after);
    BoardSize(cap, board, latest, raffle, all, after);
    assert latest[raffle := metric].Keys == latest.Keys + {raffle};
  }

  lemma CutIsShaped(cap: nat, board: seq<Entry>, latest: map<Address, int>, raffle: Address, metric: int, all: seq<Entry>,
                    after: seq<Entry>)
    requires Agrees(cap, board, latest) && Descending(all) && OncePerRaffle(all)
    requires forall e: Entry :: e in all <==> e == (raffle, metric) || (e in board && e.0 != raffle)
    requires after == all[..Min(|all|, cap)]
    ensures var now := latest[raffle := metric];
            && Descending(after) && OncePerRaffle(after)
            && forall i :: 0 <= i < |after| ==> after[i].0 in now && now[after[i].0] == after[i].1
  {
    var now := latest[raffle := metric];
    forall i | 0 <= i < |after|
      ensures after[i].0 in now && now[after[i].0] == after[i].1
    {
      assert after[i] in all;
    }
  }

  lemma BoardSize(cap: nat, board: seq<Entry>, latest: map<Address, int>, raffle: Address, all: seq<Entry>, after: seq<Entry>)
    requires Agrees(cap, board, latest) && |all| == |board| + if Lists(board, raffle) then 0 else 1
    requires after == all[..Min(|all|, cap)]
    ensures |after| == Min(|latest.Keys + {raffle}|, cap)
  {
    hide OncePerRaffle, Descending;
    if Lists(board, raffle) {
      assert latest.Keys + {raffle} == latest.Keys;
    } else if raffle in latest {
      assert latest.Keys + {raffle} == latest.Keys;
      FullBoard(cap, board, latest, raffle);
    } else {
      assert |latest.Keys + {raffle}| == |latest.Keys| + 1;
    }
  }

  lemma FullBoard(cap: nat, board: seq<Entry>, latest: map<Address, int>, raffle: Address)
    requires Agrees(cap, board, latest) && raffle in latest && !Lists(board, raffle)
    ensures |board| == cap
  {
    OncePerRaffleCounts(board);
    if |board| == |latest| {
      SameSize(RafflesOf(board), latest.Keys);
      assert false;
    }
  }

  lemma SameSize(a: set<Address>, b: set<Address>)
    requires a <= b && |a| == |b|
    ensures a == b
  {
    assert b == a + (b - a);
    assert |b| == |a| + |b - a|;
  }

  lemma ListedStays(board: seq<Entry>, raffle: Address, metric: int, all: seq<Entry>, a: Address)
    requires forall e: Entry :: e in all <==> e == (raffle, metric) || (e in board && e.0 != raffle)
    ensures Lists(all, a) <==> a == raffle || Lists(board, a)
  {
    if Lists(all, a) {
      var i :| 0 <= i < |all| && all[i].0 == a;
      assert all[i] in all;
    }
    if a == raffle {
      assert (raffle, metric) in all;
    } else if Lists(board, a) {
      var i :| 0 <= i < |board| && board[i].0 == a;
      assert board[i] in all;
    }
  }

  /** On the board: the others stay, so only the new metric can be too small. */
  lemma UpsertOnBoard(cap: nat, board: seq<Entry>, latest: map<Address, int>, raffle: Address, metric: int, all: seq<Entry>)
    requires Agrees(cap, board, latest) && Lists(board, raffle)
    requires forall e: Entry :: e in all <==> e == (raffle, metric) || (e in board && e.0 != raffle)
    ensures NothingBetterOff(all, latest[raffle := metric]) <==>
              forall a :: a in latest && !Lists(board, a) ==> latest[a] <= metric
  {
    var now := latest[raffle := metric];
    forall a: Address
      ensures Lists(all, a) <==> Lists(board, a)
    {
      ListedStays(board, raffle, metric, all, a);
    }
    assert (raffle, metric) in all;
    var k :| 0 <= k < |all| && all[k] == (raffle, metric);
    if NothingBetterOff(all, now) {
      forall a | a in latest && !Lists(board, a)
        ensures latest[a] <= metric
      {
        assert now[a] <= all[k].1;
      }
    }
    if forall a :: a in latest && !Lists(board, a) ==> latest[a] <= metric {
      forall a, i | a in now && !Lists(all, a) && 0 <= i < |all|
        ensures now[a] <= all[i].1
      {
        assert all[i] in all;
        if all[i] != (raffle, metric) {
          var j :| 0 <= j < |board| && board[j] == all[i];
        }
      }
    }
  }

  /** Off the board: whatever is cut from the arrangement is its smallest entry. */
  lemma UpsertOffBoard(cap: nat, board: seq<Entry>, latest: map<Address, int>, raffle: Address, metric: int, all: seq<Entry>,
                       after: seq<Entry>)
    requires Agrees(cap, board, latest) && !Lists(board, raffle) && Descending(all) && OncePerRaffle(all)
    requires |all| == |board| + 1 && after == all[..Min(|all|, cap)]
    requires forall e: Entry :: e in all <==> e == (raffle, metric) || (e in board && e.0 != raffle)
    ensures NothingBetterOff(after, latest[raffle := metric])
  {
    var now := latest[raffle := metric];
    forall a, i | a in now && !Lists(after, a) && 0 <= i < |after|
      ensures now[a] <= after[i].1
    {
      ListedStays(board, raffle, metric, all, a);
      if Lists(all, a) {
        CutBelowKept(cap, board, latest, raffle, metric, all, after, a, i);
      } else {
        FullBoard(cap, board, latest, a);
        OffBelowAll(cap, board, latest, raffle, metric, all, a, i);
      }
    }
  }

  /** The entry that the cut removes is the last one. */
  lemma CutBelowKept(cap: nat, board: seq<Entry>, latest: map<Address, int>, raffle: Address, metric: int, all: seq<Entry>,
                     after: seq<Entry>, a: Address, i: nat)
    requires Agrees(cap, board, latest) && Descending(all) && after == all[..Min(|all|, cap)]
    requires forall e: Entry :: e in all <==> e == (raffle, metric) || (e in board && e.0 != raffle)
    requires Lists(all, a) && !Lists(after, a) && i < |after|
    ensures a in latest[raffle := metric] && latest[raffle := metric][a] <= after[i].1
  {
    var k :| 0 <= k < |all| && all[k].0 == a;
    assert k >= |after|;
    assert all[k] in all;
    ListedMetric(cap, board, latest, raffle, metric, all[k]);
  }

  lemma ListedMetric(cap: nat, board: seq<Entry>, latest: map<Address, int>, raffle: Address, metric: int, e: Entry)
    requires Agrees(cap, board, latest) && (e == (raffle, metric) || (e in board && e.0 != raffle))
    ensures e.0 in latest[raffle := metric] && latest[raffle := metric][e.0] == e.1
  {
  }

  /** Nine of the ten kept entries are old ones at least as good, so the worst kept is too. */
  lemma OffBelowAll(cap: nat, board: seq<Entry>, latest: map<Address, int>, raffle: Address, metric: int, all: seq<Entry>, a: Address, i: nat)
    requires Agrees(cap, board, latest) && a in latest && !Lists(board, a) && a != raffle
    requires Descending(all) && OncePerRaffle(all) && |all| == |board| + 1 && i < |board| == cap
    requires forall e: Entry :: e in all <==> e == (raffle, metric) || (e in board && e.0 != raffle)
    ensures latest[a] <= all[i].1
  {
    assert all[i] in all;
    if all[i] in board {
      var j :| 0 <= j < |board| && board[j] == all[i];
    } else {
      assert all[|all| - 1] in all;
      assert all[i].0 == raffle != all[|all| - 1].0;
      var j :| 0 <= j < |board| && board[j] == all[|all| - 1];
    }
  }

  // ---------------------------------------------------------------------------
  // Every sequence of recordings

  function Latest(records: seq<Entry>): map<Address, int>
  {
    if records == [] then map[]
    else
      var last := records[|records| - 1];
      Latest(records[..|records| - 1])[last.0 := last.1]
  }

  /** A raffle never reports less than before. */
  ghost predicate NeverDecreases(records: seq<Entry>)
  {
    forall i, j :: 0 <= i < j < |records| && records[i].0 == records[j].0 ==> records[i].1 <= records[j].1
  }

  /** The boards that a sequence of recordings leaves behind, from the empty one. */
  ghost predicate BoardRun(cap: nat, boards: seq<seq<Entry>>, records: seq<Entry>)
  {
    && |boards| == |records| + 1 && boards[0] == []
    && forall i :: 0 <= i < |records| ==> Upserts(cap, boards[i], records[i].0, records[i].1, boards[i + 1])
  }

  lemma {:induction false} LatestWasRecorded(records: seq<Entry>, a: Address) returns (i: nat)
    requires a in Latest(records)
    ensures i < |records| && records[i] == (a, Latest(records)[a])
  {
    var n := |records| - 1;
    if records[n].0 == a {
      i := n;
    } else {
      i := LatestWasRecorded(records[..n], a);
    }
  }

  lemma GrowingUpdateAgrees(cap: nat, board: seq<Entry>, latest: map<Address, int>, raffle: Address, metric: int, after: seq<Entry>)
    requires Agrees(cap, board, latest) && Upserts(cap, board, raffle, metric, after)
    requires raffle in latest ==> latest[raffle] <= metric
    ensures Agrees(cap, after, latest[raffle := metric])
  {
    UpsertAgreesIff(cap, board, latest, raffle, metric, after);
    if Lists(board, raffle) {
      var k :| 0 <= k < |board| && board[k].0 == raffle;
      forall a | a in latest && !Lists(board, a)
        ensures latest[a] <= metric
      {
        assert latest[a] <= board[k].1;
      }
    }
  }

  lemma LatestNeverFalls(records: seq<Entry>, n: nat)
    requires n < |records| && NeverDecreases(records)
    ensures records[n].0 in Latest(records[..n]) ==> Latest(records[..n])[records[n].0] <= records[n].1
  {
    if records[n].0 in Latest(records[..n]) {
      var i := LatestWasRecorded(records[..n], records[n].0);
    }
  }

  lemma LatestGrows(records: seq<Entry>, n: nat)
    requires n < |records|
    ensures Latest(records[..n + 1]) == Latest(records[..n])[records[n].0 := records[n].1]
  {
    assert records[..n + 1][..n] == records[..n];
  }

  /** Recording `n` keeps the board in agreement with the latest metrics. */
  lemma NextBoardAgrees(cap: nat, boards: seq<seq<Entry>>, records: seq<Entry>, n: nat)
    requires BoardRun(cap, boards, records) && NeverDecreases(records) && n < |records|
    requires Agrees(cap, boards[n], Latest(records[..n]))
    ensures Agrees(cap, boards[n + 1], Latest(records[..n + 1]))
  {
    var latest := Latest(records[..n]);
    LatestNeverFalls(records, n);
    LatestGrows(records, n);
    GrowingUpdateAgrees(cap, boards[n], latest, records[n].0, records[n].1, boards[n + 1]);
  }

  lemma {:induction false} BoardAgreesAt(cap: nat, boards: seq<seq<Entry>>, records: seq<Entry>, n: nat)
    requires BoardRun(cap, boards, records) && NeverDecreases(records) && n <= |records|
    ensures Agrees(cap, boards[n], Latest(records[..n]))
  {
    if n == 0 {
      EmptyAgrees(cap);
    } else {
      BoardAgreesAt(cap, boards, records, n - 1);
      NextBoardAgrees(cap, boards, records, n - 1);
    }
  }

  /** After any sequence of recordings in which no raffle's metric ever falls, the board agrees
      with the table of every raffle's latest metric. */
  lemma BoardAgrees(cap: nat, boards: seq<seq<Entry>>, records: seq<Entry>)
    requires BoardRun(cap, boards, records) && NeverDecreases(records)
    ensures Agrees(cap, boards[|records|], Latest(records))
  {
    BoardAgreesAt(cap, boards, records, |records|);
    assert records[..|records|] == records;
  }

  lemma EmptyAgrees(cap: nat)
    ensures Agrees(cap, [], map[])
  {
  }

  /** The ten-entry board shows exactly the ten best metrics of a board that forgets nothing. */
  lemma BoundedMatchesUnbounded(boards: seq<seq<Entry>>, fulls: seq<seq<Entry>>, records: seq<Entry>, all: nat)
    requires NeverDecreases(records) && all >= |records|
    requires BoardRun(LEADERBOARD_CAP, boards, records) && BoardRun(all, fulls, records)
    ensures var board, full := boards[|records|], fulls[|records|];
            && |full| == |Latest(records)| && |board| == Min(|full|, LEADERBOARD_CAP)
            && forall i :: 0 <= i < |board| ==> board[i].1 == full[i].1
  {
    BoardAgrees(LEADERBOARD_CAP, boards, records);
    BoardAgrees(all, fulls, records);
    LatestIsSmall(records);
    var board, full, latest := boards[|records|], fulls[|records|], Latest(records);
    forall i | 0 <= i < |board|
      ensures board[i].1 == full[i].1
    {
      NoneAbove(latest, board, full, i);
      NoneBelow(latest, board, full, i);
    }
  }

  lemma {:induction false} LatestIsSmall(records: seq<Entry>)
    ensures |Latest(records)| <= |records|
  {
    if records != [] {
      var n := |records| - 1;
      LatestIsSmall(records[..n]);
      var before := Latest(records[..n]);
      assert Latest(records).Keys == before.Keys + {records[n].0};
    }
  }

  /** `i + 1` different raffles cannot all be among `i` places. */
  lemma Pigeonhole(few: seq<Entry>, many: seq<Entry>)
    requires OncePerRaffle(many) && OncePerRaffle(few) && |few| < |many|
    ensures exists k :: 0 <= k < |many| && !Lists(few, many[k].0)
  {
    OncePerRaffleCounts(many);
    OncePerRaffleCounts(few);
    if forall k :: 0 <= k < |many| ==> Lists(few, many[k].0) {
      assert RafflesOf(many) <= RafflesOf(few);
      Smaller(RafflesOf(many), RafflesOf(few));
      assert false;
    }
  }

  lemma Smaller(a: set<Address>, b: set<Address>)
    requires a <= b
    ensures |a| <= |b|
  {
    assert b == a + (b - a);
  }

  ghost predicate ShowsAll(latest: map<Address, int>, full: seq<Entry>)
  {
    && Descending(full) && OncePerRaffle(full) && |full| == |latest|
    && forall i :: 0 <= i < |full| ==> full[i].0 in latest && latest[full[i].0] == full[i].1
  }

  lemma ShownSomewhere(latest: map<Address, int>, full: seq<Entry>, a: Address) returns (j: nat)
    requires ShowsAll(latest, full) && a in latest
    ensures j < |full| && full[j] == (a, latest[a])
  {
    OncePerRaffleCounts(full);
    assert RafflesOf(full) <= latest.Keys;
    SameSize(RafflesOf(full), latest.Keys);
    assert a in RafflesOf(full);
    j :| 0 <= j < |full| && full[j].0 == a;
  }

  lemma NoneAbove(latest: map<Address, int>, board: seq<Entry>, full: seq<Entry>, i: nat)
    requires Agrees(LEADERBOARD_CAP, board, latest) && ShowsAll(latest, full) && i < |board| <= |full|
    ensures board[i].1 <= full[i].1
  {
    Pigeonhole(full[..i], board[..i + 1]);
    var k :| 0 <= k < i + 1 && !Lists(full[..i], board[..i + 1][k].0);
    var j := ShownSomewhere(latest, full, board[k].0);
    assert j >= i;
  }

  lemma NoneBelow(latest: map<Address, int>, board: seq<Entry>, full: seq<Entry>, i: nat)
    requires Agrees(LEADERBOARD_CAP, board, latest) && ShowsAll(latest, full) && i < |board| <= |full|
    ensures full[i].1 <= board[i].1
  {
    Pigeonhole(board[..i], full[..i + 1]);
    var k :| 0 <= k < i + 1 && !Lists(board[..i], full[..i + 1][k].0);
    assert full[k].1 <= board[i].1 by {
      if Lists(board, full[k].0) {
        ListedFrom(latest, board, full, i, k);
      }
    }
  }

  /** An entry of the full board that is listed, but not before place `i`, is no better. */
  lemma ListedFrom(latest: map<Address, int>, board: seq<Entry>, full: seq<Entry>, i: nat, k: nat)
    requires Agrees(LEADERBOARD_CAP, board, latest) && ShowsAll(latest, full) && i < |board| && k < |full|
    requires Lists(board, full[k].0) && !Lists(board[..i], full[k].0)
    ensures full[k].1 <= board[i].1
  {
    var j :| 0 <= j < |board| && board[j].0 == full[k].0;
    assert j >= i;
  }
}
