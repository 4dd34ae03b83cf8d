/** From winning ticket indices to winning addresses: the cyclic probe that gives
    each address at most one prize tier while there are other ticket owners left.

    `owners[i]` is the owner of ticket `i + 1`. */
module Winners {
  import opened Common
  import Draw

  function OwnersAt(owners: seq<Address>, indices: seq<nat>): (won: seq<Address>)
    requires forall i :: 0 <= i < |indices| ==> indices[i] < |owners|
    ensures |won| == |indices|
  {
    seq(|indices|, i requires 0 <= i < |indices| => owners[indices[i]])
  }

  ghost function Members(s: seq<Address>): set<Address>
  {
    set a | a in s
  }

  /** The ticket `offset` places after `candidate`, going round. */
  function Cyclic(candidate: nat, offset: nat, n: nat): (index: nat)
    requires candidate < n && offset < n
    ensures index < n
  {
    if candidate + offset < n then candidate + offset else candidate + offset - n
  }

  lemma CyclicIsRemainder(candidate: nat, offset: nat, n: nat)
    requires candidate < n && offset < n
    ensures (candidate + offset) % n == Cyclic(candidate, offset, n)
  {
    var wraps := if candidate + offset < n then 0 else 1;
    Draw.RestIsUnique(candidate + offset, n, wraps, Cyclic(candidate, offset, n));
  }

  /** Every ticket owner has won. */
  ghost predicate Exhausted(owners: seq<Address>, won: seq<Address>)
  {
    forall i :: 0 <= i < |owners| ==> owners[i] in won
  }

  /** The first ticket from `candidate + offset` on, in cyclic order, whose owner has not
      won; `candidate` when the probe comes round without finding one. */
  function ProbeFrom(owners: seq<Address>, won: seq<Address>, candidate: nat, offset: nat): (index: nat)
    requires candidate < |owners| && offset <= |owners|
    ensures index < |owners|
    decreases |owners| - offset
  {
    if offset == |owners| then candidate
    else
      var index := Cyclic(candidate, offset, |owners|);
      if owners[index] !in won then index else ProbeFrom(owners, won, candidate, offset + 1)
  }

  function Resolve(owners: seq<Address>, won: seq<Address>, candidate: nat): (index: nat)
    requires candidate < |owners|
    ensures index < |owners|
  {
    ProbeFrom(owners, won, candidate, 0)
  }

  lemma {:induction false} ProbeSkipsWinners(owners: seq<Address>, won: seq<Address>, candidate: nat, offset: nat)
    requires candidate < |owners| && offset <= |owners|
    ensures var index := ProbeFrom(owners, won, candidate, offset);
            || owners[index] !in won
            || (index == candidate
                && forall o :: offset <= o < |owners| ==> owners[Cyclic(candidate, o, |owners|)] in won)
    decreases |owners| - offset
  {
    if offset == |owners| {
    } else if owners[Cyclic(candidate, offset, |owners|)] !in won {
    } else {
      ProbeSkipsWinners(owners, won, candidate, offset + 1);
    }
  }

  /** The probe visits every ticket: it finds a non-winner whenever there is one, and
      otherwise gives the candidate back. */
  lemma ResolveFindsNonWinner(owners: seq<Address>, won: seq<Address>, candidate: nat)
    requires candidate < |owners|
    ensures var index := Resolve(owners, won, candidate);
            if Exhausted(owners, won) then index == candidate else owners[index] !in won
  {
    ProbeSkipsWinners(owners, won, candidate, 0);
    var index := Resolve(owners, won, candidate);
    if Exhausted(owners, won) {
      assert owners[index] in won;
    } else {
      var i :| 0 <= i < |owners| && owners[i] !in won;
      var o := if i >= candidate then i - candidate else i - candidate + |owners|;
      assert Cyclic(candidate, o, |owners|) == i;
    }
  }

  /** The owner of the ticket `offset` places after `candidate`, round and round. */
  function OwnerAfter(owners: seq<Address>, candidate: nat, offset: nat): Address
    requires owners != []
  {
    owners[(candidate + offset) % |owners|]
  }

  /** Counting from `candidate`, the ticket `offset` places on is the first whose owner has not
      won. */
  ghost predicate FirstNonWinner(owners: seq<Address>, won: seq<Address>, candidate: nat, offset: nat)
    requires owners != []
  {
    && offset < |owners| && OwnerAfter(owners, candidate, offset) !in won
    && forall p: nat :: p < offset ==> OwnerAfter(owners, candidate, p) in won
  }

  /** What resolution has to return: the candidate when every owner has won, and otherwise the
      nearest ticket, going round, of an owner who has not. */
  ghost predicate Nearest(owners: seq<Address>, won: seq<Address>, candidate: nat, index: nat)
    requires owners != []
  {
    if Exhausted(owners, won) then index == candidate
    else exists o: nat :: FirstNonWinner(owners, won, candidate, o) && index == (candidate + o) % |owners|
  }

  lemma {:induction false} ProbeStopsFirst(owners: seq<Address>, won: seq<Address>, candidate: nat, offset: nat) returns (o: nat)
    requires candidate < |owners| && offset <= |owners|
    requires forall p: nat :: p < offset ==> OwnerAfter(owners, candidate, p) in won
    requires exists p: nat :: p < |owners| && OwnerAfter(owners, candidate, p) !in won
    ensures FirstNonWinner(owners, won, candidate, o) && ProbeFrom(owners, won, candidate, offset) == (candidate + o) % |owners|
    decreases |owners| - offset
  {
    if offset < |owners| {
      CyclicIsRemainder(candidate, offset, |owners|);
      if OwnerAfter(owners, candidate, offset) !in won {
        o := offset;
      } else {
        o := ProbeStopsFirst(owners, won, candidate, offset + 1);
      }
    }
  }

  lemma ResolveIsNearest(owners: seq<Address>, won: seq<Address>, candidate: nat)
    requires candidate < |owners|
    ensures Nearest(owners, won, candidate, Resolve(owners, won, candidate))
  {
    ResolveFindsNonWinner(owners, won, candidate);
    if !Exhausted(owners, won) {
      var i :| 0 <= i < |owners| && owners[i] !in won;
      var p := if i >= candidate then i - candidate else i - candidate + |owners|;
      CyclicIsRemainder(candidate, p, |owners|);
      assert OwnerAfter(owners, candidate, p) !in won;
      var o := ProbeStopsFirst(owners, won, candidate, 0);
    }
  }

  method ResolveUniqueWinner(owners: seq<Address>, won: seq<Address>, candidate: nat) returns (index: nat)
    requires candidate < |owners|
    ensures index == Resolve(owners, won, candidate)
    ensures Nearest(owners, won, candidate, index)
  {
    ResolveIsNearest(owners, won, candidate);
    var offset := 0;
    while offset < |owners|
      invariant 0 <= offset <= |owners|
      invariant ProbeFrom(owners, won, candidate, offset) == Resolve(owners, won, candidate)
    {
      CyclicIsRemainder(candidate, offset, |owners|);
      index := (candidate + offset) % |owners|;
      if owners[index] !in won {
        return;
      }
      offset := offset + 1;
    }
    index := candidate;
  }

  // ---------------------------------------------------------------------------
  // All tiers

  /** The ticket indices that win after `taken`, tier by tier. */
  function ResolveAll(owners: seq<Address>, unique: bool, candidates: seq<nat>, taken: seq<nat>): (indices: seq<nat>)
    requires forall i :: 0 <= i < |candidates| ==> candidates[i] < |owners|
    requires forall i :: 0 <= i < |taken| ==> taken[i] < |owners|
    ensures |indices| == |candidates|
    ensures forall i :: 0 <= i < |indices| ==> indices[i] < |owners|
    decreases |candidates|
  {
    if candidates == [] then []
    else
      var index := if unique then Resolve(owners, OwnersAt(owners, taken), candidates[0]) else candidates[0];
      [index] + ResolveAll(owners, unique, candidates[1..], taken + [index])
  }

  /** After `i` candidates the chosen indices, continued, are the full resolution. */
  ghost predicate ResolvedSoFar(owners: seq<Address>, unique: bool, candidates: seq<nat>, indices: seq<nat>, i: nat)
  {
    && i <= |candidates| && (forall j :: 0 <= j < |candidates| ==> candidates[j] < |owners|)
    && (forall j :: 0 <= j < |indices| ==> indices[j] < |owners|)
    && indices + ResolveAll(owners, unique, candidates[i..], indices) == ResolveAll(owners, unique, candidates, [])
  }

  lemma OneMoreResolved(owners: seq<Address>, unique: bool, candidates: seq<nat>, indices: seq<nat>, i: nat)
    requires ResolvedSoFar(owners, unique, candidates, indices, i) && i < |candidates|
    ensures var index := if unique then Resolve(owners, OwnersAt(owners, indices), candidates[i]) else candidates[i];
            ResolvedSoFar(owners, unique, candidates, indices + [index], i + 1)
  {
    var index := if unique then Resolve(owners, OwnersAt(owners, indices), candidates[i]) else candidates[i];
    var rest := ResolveAll(owners, unique, candidates[i + 1..], indices + [index]);
    assert candidates[i..][1..] == candidates[i + 1..];
    assert indices + ([index] + rest) == (indices + [index]) + rest;
  }

  /** The outcome of a draw: the winning ticket indices, in tier order. */
  function DrawOutcome(seed: u64, owners: seq<Address>, tiers: nat, unique: bool): (indices: seq<nat>)
    requires tiers <= |owners| < U32_LIMIT
    ensures |indices| == tiers
    ensures forall i :: 0 <= i < |indices| ==> indices[i] < |owners|
  {
    Draw.SelectionIsExact(seed, |owners|, tiers);
    ResolveAll(owners, unique, Draw.Selected(seed, |owners|, tiers), [])
  }

  /** Without unique winners the drawn tickets win as they are. */
  lemma {:induction false} EveryCandidateWins(owners: seq<Address>, candidates: seq<nat>, taken: seq<nat>)
    requires forall i :: 0 <= i < |candidates| ==> candidates[i] < |owners|
    requires forall i :: 0 <= i < |taken| ==> taken[i] < |owners|
    ensures ResolveAll(owners, false, candidates, taken) == candidates
    decreases |candidates|
  {
    if candidates != [] {
      EveryCandidateWins(owners, candidates[1..], taken + [candidates[0]]);
    }
  }

  /** With them each tier goes to the nearest ticket whose owner has not won an earlier tier. */
  lemma {:induction false} EachTierIsNearest(owners: seq<Address>, candidates: seq<nat>, taken: seq<nat>, i: nat)
    requires forall j :: 0 <= j < |candidates| ==> candidates[j] < |owners|
    requires forall j :: 0 <= j < |taken| ==> taken[j] < |owners|
    requires i < |candidates|
    ensures var won := ResolveAll(owners, true, candidates, taken);
            Nearest(owners, OwnersAt(owners, taken + won[..i]), candidates[i], won[i])
    decreases |candidates|
  {
    var index := Resolve(owners, OwnersAt(owners, taken), candidates[0]);
    var rest := ResolveAll(owners, true, candidates[1..], taken + [index]);
    if i == 0 {
      assert taken + ([index] + rest)[..0] == taken;
      ResolveIsNearest(owners, OwnersAt(owners, taken), candidates[0]);
    } else {
      EachTierIsNearest(owners, candidates[1..], taken + [index], i - 1);
      assert (taken + [index]) + rest[..i - 1] == taken + ([index] + rest)[..i];
    }
  }

  /** The outcome of a draw, tier by tier, from the tickets selected. */
  lemma OutcomeIsNearest(seed: u64, owners: seq<Address>, tiers: nat, i: nat)
    requires i < tiers <= |owners| < U32_LIMIT
    ensures |Draw.Selected(seed, |owners|, tiers)| == tiers && Draw.Selected(seed, |owners|, tiers)[i] < |owners|
    ensures DrawOutcome(seed, owners, tiers, false)[i] == Draw.Selected(seed, |owners|, tiers)[i]
    ensures var won := DrawOutcome(seed, owners, tiers, true);
            Nearest(owners, OwnersAt(owners, won[..i]), Draw.Selected(seed, |owners|, tiers)[i], won[i])
  {
    Draw.SelectionIsExact(seed, |owners|, tiers);
    var candidates := Draw.Selected(seed, |owners|, tiers);
    EveryCandidateWins(owners, candidates, []);
    EachTierIsNearest(owners, candidates, [], i);
    assert [] + DrawOutcome(seed, owners, tiers, true)[..i] == DrawOutcome(seed, owners, tiers, true)[..i];
  }

  lemma MembersGrow(owners: seq<Address>, taken: seq<nat>, index: nat)
    requires forall i :: 0 <= i < |taken| ==> taken[i] < |owners|
    requires index < |owners|
    ensures Members(OwnersAt(owners, taken + [index])) == Members(OwnersAt(owners, taken)) + {owners[index]}
    ensures Members(OwnersAt(owners, taken)) <= Members(owners)
  {
    var before, after := OwnersAt(owners, taken), OwnersAt(owners, taken + [index]);
    assert after == before + [owners[index]];
    forall a | a in before
      ensures a in owners
    {
      var i :| 0 <= i < |before| && before[i] == a;
    }
  }

  /** Each tier adds one address to the winners while an owner without a prize is left. */
  lemma {:induction false} ResolveAllSpreadsPrizes(owners: seq<Address>, candidates: seq<nat>, taken: seq<nat>)
    requires forall i :: 0 <= i < |candidates| ==> candidates[i] < |owners|
    requires forall i :: 0 <= i < |taken| ==> taken[i] < |owners|
    ensures var all := taken + ResolveAll(owners, true, candidates, taken);
            |Members(OwnersAt(owners, all))| == Min(|Members(owners)|, |Members(OwnersAt(owners, taken))| + |candidates|)
    decreases |candidates|
  {
    var won := OwnersAt(owners, taken);
    if candidates == [] {
      assert taken + [] == taken;
      if taken == [] {
      } else {
        MembersGrow(owners, taken, taken[0]);
        SubsetIsSmaller(Members(won), Members(owners));
      }
    } else {
      var index := Resolve(owners, won, candidates[0]);
      ResolveFindsNonWinner(owners, won, candidates[0]);
      MembersGrow(owners, taken, index);
      SubsetIsSmaller(Members(won), Members(owners));
      var rest := ResolveAll(owners, true, candidates[1..], taken + [index]);
      assert taken + ([index] + rest) == (taken + [index]) + rest;
      ResolveAllSpreadsPrizes(owners, candidates[1..], taken + [index]);
      WinnersGrow(owners, won, index);
    }
  }

  lemma WinnersGrow(owners: seq<Address>, won: seq<Address>, index: nat)
    requires index < |owners| && Members(won) <= Members(owners)
    requires Exhausted(owners, won) || owners[index] !in won
    ensures |Members(won) + {owners[index]}| == Min(|Members(owners)|, |Members(won)| + 1)
  {
    assert owners[index] in Members(owners);
    if Exhausted(owners, won) {
      assert Members(won) + {owners[index]} == Members(owners);
      SubsetIsSmaller(Members(won), Members(owners));
    } else {
      assert owners[index] !in Members(won);
      SubsetIsSmaller(Members(won) + {owners[index]}, Members(owners));
    }
  }

  lemma SubsetIsSmaller(a: set<Address>, b: set<Address>)
    requires a <= b
    ensures |a| <= |b|
    ensures |a| == |b| ==> a == b
  {
    assert b == a + (b - a);
    assert |b| == |a| + |b - a|;
  }

  /** With unique winners, exactly min(number of owners, number of tiers) addresses win. */
  lemma UniqueWinnersAreSpread(seed: u64, owners: seq<Address>, tiers: nat)
    requires tiers <= |owners| < U32_LIMIT
    ensures |Members(OwnersAt(owners, DrawOutcome(seed, owners, tiers, true)))| == Min(|Members(owners)|, tiers)
  {
    Draw.SelectionIsExact(seed, |owners|, tiers);
    SpreadFromNobody(owners, Draw.Selected(seed, |owners|, tiers));
  }

  lemma SpreadFromNobody(owners: seq<Address>, candidates: seq<nat>)
    requires forall i :: 0 <= i < |candidates| ==> candidates[i] < |owners|
    ensures |Members(OwnersAt(owners, ResolveAll(owners, true, candidates, [])))|
         == Min(|Members(owners)|, |candidates|)
  {
    ResolveAllSpreadsPrizes(owners, candidates, []);
    assert Members(OwnersAt(owners, [])) == {};
    assert [] + ResolveAll(owners, true, candidates, []) == ResolveAll(owners, true, candidates, []);
  }

  // ---------------------------------------------------------------------------
  // When the winning tickets are distinct

  /** No tier drawn after every owner has won lands on a ticket that has already won. */
  ghost predicate NoLateClash(owners: seq<Address>, candidates: seq<nat>, taken: seq<nat>)
    requires forall i :: 0 <= i < |candidates| ==> candidates[i] < |owners|
    requires forall i :: 0 <= i < |taken| ==> taken[i] < |owners|
    decreases |candidates|
  {
    candidates == [] ||
    var won := OwnersAt(owners, taken);
    && (Exhausted(owners, won) ==> candidates[0] !in taken)
    && NoLateClash(owners, candidates[1..], taken + [Resolve(owners, won, candidates[0])])
  }

  /** The probe itself never repeats a ticket; only its fallback to the candidate can. */
  lemma {:induction false} TicketsDistinctIff(owners: seq<Address>, candidates: seq<nat>, taken: seq<nat>)
    requires forall i :: 0 <= i < |candidates| ==> candidates[i] < |owners|
    requires forall i :: 0 <= i < |taken| ==> taken[i] < |owners|
    requires Draw.Distinct(taken)
    ensures Draw.Distinct(taken + ResolveAll(owners, true, candidates, taken))
       <==> NoLateClash(owners, candidates, taken)
    decreases |candidates|
  {
    if candidates == [] {
      assert taken + [] == taken;
    } else {
      var won := OwnersAt(owners, taken);
      var index := Resolve(owners, won, candidates[0]);
      var rest := ResolveAll(owners, true, candidates[1..], taken + [index]);
      var all := taken + ([index] + rest);
      assert all == (taken + [index]) + rest;
      ResolveFindsNonWinner(owners, won, candidates[0]);
      if index in taken {
        var i :| 0 <= i < |taken| && taken[i] == index;
        assert won[i] == owners[index];
        assert all[i] == all[|taken|];
      } else {
        TicketsDistinctIff(owners, candidates[1..], taken + [index]);
      }
    }
  }

  lemma {:induction false} ManyOwnersNeverClash(owners: seq<Address>, candidates: seq<nat>, taken: seq<nat>)
    requires forall i :: 0 <= i < |candidates| ==> candidates[i] < |owners|
    requires forall i :: 0 <= i < |taken| ==> taken[i] < |owners|
    requires |Members(owners)| >= |taken| + |candidates|
    ensures NoLateClash(owners, candidates, taken)
    decreases |candidates|
  {
    if candidates == [] {
    } else {
      var won := OwnersAt(owners, taken);
      MembersAreFew(won);
      if Exhausted(owners, won) {
        assert Members(owners) <= Members(won);
        SubsetIsSmaller(Members(owners), Members(won));
      }
      ManyOwnersNeverClash(owners, candidates[1..], taken + [Resolve(owners, won, candidates[0])]);
    }
  }

  lemma {:induction false} MembersAreFew(s: seq<Address>)
    ensures |Members(s)| <= |s|
  {
    if s == [] {
    } else {
      var init, last := s[..|s| - 1], s[|s| - 1];
      assert s == init + [last];
      MembersAreFew(init);
      assert Members(s) == Members(init) + {last};
    }
  }

  /** With at least as many owners as tiers, the winning tickets are pairwise distinct. */
  lemma WinningTicketsDistinct(seed: u64, owners: seq<Address>, tiers: nat)
    requires tiers <= |owners| < U32_LIMIT && tiers <= |Members(owners)|
    ensures Draw.Distinct(DrawOutcome(seed, owners, tiers, true))
  {
    Draw.SelectionIsExact(seed, |owners|, tiers);
    ManyOwnersGiveDistinct(owners, Draw.Selected(seed, |owners|, tiers));
  }

  lemma ManyOwnersGiveDistinct(owners: seq<Address>, candidates: seq<nat>)
    requires forall i :: 0 <= i < |candidates| ==> candidates[i] < |owners|
    requires |candidates| <= |Members(owners)|
    ensures Draw.Distinct(ResolveAll(owners, true, candidates, []))
  {
    ManyOwnersNeverClash(owners, candidates, []);
    DistinctFromNothing(owners, candidates, ResolveAll(owners, true, candidates, []));
  }

  lemma DistinctFromNothing(owners: seq<Address>, candidates: seq<nat>, indices: seq<nat>)
    requires forall i :: 0 <= i < |candidates| ==> candidates[i] < |owners|
    requires indices == ResolveAll(owners, true, candidates, [])
    ensures Draw.Distinct(indices) <==> NoLateClash(owners, candidates, [])
  {
    assert [] + indices == indices;
    TicketsDistinctIff(owners, candidates, []);
  }

  // ---------------------------------------------------------------------------
  // A condition on the owners alone

  ghost predicate Candidates(owners: seq<Address>, candidates: seq<nat>)
  {
    Draw.Distinct(candidates) && forall i :: 0 <= i < |candidates| ==> candidates[i] < |owners|
  }

  /** With a single owner every candidate wins itself. */
  lemma {:induction false} OneOwnerKeepsCandidates(owners: seq<Address>, candidates: seq<nat>, taken: seq<nat>)
    requires forall i :: 0 <= i < |candidates| ==> candidates[i] < |owners|
    requires forall i :: 0 <= i < |taken| ==> taken[i] < |owners|
    requires forall i, j :: 0 <= i < |owners| && 0 <= j < |owners| ==> owners[i] == owners[j]
    ensures ResolveAll(owners, true, candidates, taken) == candidates
    decreases |candidates|
  {
    if candidates != [] {
      var won := OwnersAt(owners, taken);
      ResolveFindsNonWinner(owners, won, candidates[0]);
      if taken == [] {
        assert owners[candidates[0]] !in won;
        assert Resolve(owners, won, candidates[0]) == candidates[0];
      } else {
        assert won[0] == owners[taken[0]];
        assert Exhausted(owners, won);
      }
      OneOwnerKeepsCandidates(owners, candidates[1..], taken + [candidates[0]]);
    }
  }

  lemma SingletonOwners(owners: seq<Address>)
    requires |Members(owners)| == 1
    ensures forall i, j :: 0 <= i < |owners| && 0 <= j < |owners| ==> owners[i] == owners[j]
  {
    forall i, j | 0 <= i < |owners| && 0 <= j < |owners|
      ensures owners[i] == owners[j]
    {
      var pair := {owners[i], owners[j]};
      SubsetIsSmaller(pair, Members(owners));
    }
  }

  function Below(n: nat): (all: set<nat>)
    ensures |all| == n && forall i: nat :: i in all <==> i < n
  {
    if n == 0 then {} else Below(n - 1) + {n - 1}
  }

  /** Any number of tickets not used so far, up to all of them. */
  lemma {:induction false} UnusedTickets(n: nat, used: set<nat>, len: nat) returns (more: seq<nat>)
    requires used <= Below(n) && |used| + len <= n
    ensures |more| == len && Draw.Distinct(more)
    ensures forall i :: 0 <= i < len ==> more[i] < n && more[i] !in used
    decreases len
  {
    if len == 0 {
      more := [];
    } else {
      var x := FreeTicket(n, used);
      var rest := UnusedTickets(n, used + {x}, len - 1);
      more := [x] + rest;
    }
  }

  lemma FreeTicket(n: nat, used: set<nat>) returns (x: nat)
    requires used <= Below(n) && |used| < n
    ensures x < n && x !in used
  {
    assert |Below(n) - used| == n - |used|;
    x :| x in Below(n) - used;
  }

  /** What a clash still needs: a ticket that has won without being a candidate, and only
      candidates whose owners have won. */
  ghost predicate Clashable(owners: seq<Address>, taken: seq<nat>, used: set<nat>, x: nat)
  {
    && (forall i :: 0 <= i < |taken| ==> taken[i] < |owners|)
    && used <= Below(|owners|) && x in taken && x !in used
    && forall u :: u in used ==> owners[u] in OwnersAt(owners, taken)
  }

  /** Then candidates for one tier more than there are owners left can make it win again. */
  lemma {:induction false} LateClash(owners: seq<Address>, taken: seq<nat>, used: set<nat>, x: nat, len: nat)
    returns (candidates: seq<nat>)
    requires Clashable(owners, taken, used, x) && |used| + len <= |owners|
    requires |Members(OwnersAt(owners, taken))| + len > |Members(owners)|
    requires Members(OwnersAt(owners, taken)) <= Members(owners)
    ensures |candidates| == len && Candidates(owners, candidates)
    ensures forall i :: 0 <= i < len ==> candidates[i] !in used
    ensures !NoLateClash(owners, candidates, taken)
    decreases len
  {
    var won := OwnersAt(owners, taken);
    SubsetIsSmaller(Members(won), Members(owners));
    if Exhausted(owners, won) {
      candidates := ClashNow(owners, taken, used, x, len);
    } else {
      var y :| 0 <= y < |owners| && owners[y] !in won;
      assert Resolve(owners, won, y) == y;
      OneMoreWinner(owners, taken, y);
      assert Clashable(owners, taken + [y], used + {y}, x) by {
        StillClashable(owners, taken, used, x, y);
      }
      var rest := LateClash(owners, taken + [y], used + {y}, x, len - 1);
      candidates := [y] + rest;
      assert candidates[1..] == rest;
    }
  }

  lemma OneMoreWinner(owners: seq<Address>, taken: seq<nat>, y: nat)
    requires (forall i :: 0 <= i < |taken| ==> taken[i] < |owners|) && y < |owners|
    requires owners[y] !in OwnersAt(owners, taken) && Members(OwnersAt(owners, taken)) <= Members(owners)
    ensures var next := Members(OwnersAt(owners, taken + [y]));
            |next| == |Members(OwnersAt(owners, taken))| + 1 && next <= Members(owners) && |next| <= |Members(owners)|
  {
    MembersGrow(owners, taken, y);
    SubsetIsSmaller(Members(OwnersAt(owners, taken + [y])), Members(owners));
  }

  lemma StillClashable(owners: seq<Address>, taken: seq<nat>, used: set<nat>, x: nat, y: nat)
    requires Clashable(owners, taken, used, x) && y < |owners| && owners[y] !in OwnersAt(owners, taken)
    ensures Clashable(owners, taken + [y], used + {y}, x) && y !in used
  {
    var won, next := OwnersAt(owners, taken), OwnersAt(owners, taken + [y]);
    assert next == won + [owners[y]];
    var i :| 0 <= i < |taken| && taken[i] == x;
    assert won[i] == owners[x];
  }

  lemma ClashNow(owners: seq<Address>, taken: seq<nat>, used: set<nat>, x: nat, len: nat) returns (candidates: seq<nat>)
    requires Clashable(owners, taken, used, x) && |used| + len <= |owners| && len >= 1
    requires Exhausted(owners, OwnersAt(owners, taken))
    ensures |candidates| == len && Candidates(owners, candidates)
    ensures forall i :: 0 <= i < len ==> candidates[i] !in used
    ensures !NoLateClash(owners, candidates, taken)
  {
    var rest := UnusedTickets(|owners|, used + {x}, len - 1);
    candidates := [x] + rest;
  }

  /** Two tickets of one owner, when there are more tickets than owners. */
  lemma SharedOwner(owners: seq<Address>) returns (a: nat, b: nat)
    requires |Members(owners)| < |owners|
    ensures a < b < |owners| && owners[a] == owners[b]
  {
    if forall i, j :: 0 <= i < j < |owners| ==> owners[i] != owners[j] {
      DistinctMembers(owners);
      assert false;
    }
    a, b :| 0 <= a < b < |owners| && owners[a] == owners[b];
  }

  lemma {:induction false} DistinctMembers(s: seq<Address>)
    requires forall i, j :: 0 <= i < j < |s| ==> s[i] != s[j]
    ensures |Members(s)| == |s|
  {
    if s != [] {
      var init, last := s[..|s| - 1], s[|s| - 1];
      assert s == init + [last];
      DistinctMembers(init);
      assert Members(s) == Members(init) + {last};
    }
  }

  /** With at least two owners but fewer than tiers, some candidates make a ticket win twice. */
  lemma SomeCandidatesClash(owners: seq<Address>, tiers: nat) returns (candidates: seq<nat>)
    requires 1 < |Members(owners)| < tiers <= |owners|
    ensures |candidates| == tiers && Candidates(owners, candidates)
    ensures !Draw.Distinct(ResolveAll(owners, true, candidates, []))
  {
    var a, b := SharedOwner(owners);
    var x := SecondWinner(owners, a, b);
    var rest := LateClash(owners, [a, x], {a, b}, x, tiers - 2);
    candidates := [a, b] + rest;
    TwoThenClash(owners, a, b, x, rest);
    DistinctFromNothing(owners, candidates, ResolveAll(owners, true, candidates, []));
  }

  /** The second ticket of an owner passes its prize on to a ticket of somebody else. */
  lemma SecondWinner(owners: seq<Address>, a: nat, b: nat) returns (x: nat)
    requires a < b < |owners| && owners[a] == owners[b] && |Members(owners)| > 1
    ensures x == Resolve(owners, OwnersAt(owners, [a]), b) && Clashable(owners, [a, x], {a, b}, x)
    ensures |Members(OwnersAt(owners, [a, x]))| == 2 && Members(OwnersAt(owners, [a, x])) <= Members(owners)
  {
    var won := OwnersAt(owners, [a]);
    assert won == [owners[a]];
    if Exhausted(owners, won) {
      SubsetIsSmaller(Members(owners), {owners[a]});
    }
    ResolveFindsNonWinner(owners, won, b);
    x := Resolve(owners, won, b);
    assert OwnersAt(owners, [a, x]) == [owners[a], owners[x]];
    assert Members(OwnersAt(owners, [a, x])) == {owners[a], owners[x]};
  }

  lemma TwoThenClash(owners: seq<Address>, a: nat, b: nat, x: nat, rest: seq<nat>)
    requires a < |owners| && b < |owners| && x == Resolve(owners, OwnersAt(owners, [a]), b)
    requires forall i :: 0 <= i < |rest| ==> rest[i] < |owners|
    requires !NoLateClash(owners, rest, [a, x])
    ensures !NoLateClash(owners, [a, b] + rest, [])
  {
    var all := [a, b] + rest;
    assert all[1..] == [b] + rest && ([b] + rest)[1..] == rest;
    assert OwnersAt(owners, []) == [] && Resolve(owners, [], a) == a;
    assert [] + [a] == [a] && [a] + [x] == [a, x];
    assert !NoLateClash(owners, [b] + rest, [a]);
  }

  /** Whatever distinct candidates a draw of `tiers` produces, the winning tickets are distinct:
      exactly when one owner holds every ticket or there are at least as many owners as tiers. */
  lemma AlwaysDistinctIff(owners: seq<Address>, tiers: nat)
    requires 1 <= tiers <= |owners|
    ensures (|Members(owners)| == 1 || |Members(owners)| >= tiers)
       <==> forall candidates: seq<nat> :: |candidates| == tiers && Candidates(owners, candidates) ==>
              Draw.Distinct(ResolveAll(owners, true, candidates, []))
  {
    assert owners[0] in Members(owners);
    if |Members(owners)| == 1 {
      SingletonOwners(owners);
      forall candidates: seq<nat> | |candidates| == tiers && Candidates(owners, candidates)
        ensures Draw.Distinct(ResolveAll(owners, true, candidates, []))
      {
        OneOwnerKeepsCandidates(owners, candidates, []);
      }
    } else if |Members(owners)| >= tiers {
      forall candidates: seq<nat> | |candidates| == tiers && Candidates(owners, candidates)
        ensures Draw.Distinct(ResolveAll(owners, true, candidates, []))
      {
        ManyOwnersGiveDistinct(owners, candidates);
      }
    } else {
      var candidates := SomeCandidatesClash(owners, tiers);
    }
  }

  /** With fewer owners than tiers one ticket can win two tiers: over tickets of A, A and B the
      seed 3 selects 0, 1, 2, which resolve to 0, 2, 2. */
  lemma OneTicketCanWinTwice()
    ensures DrawOutcome(3, [7, 7, 8], 3, true) == [0, 2, 2]
  {
    SeedThreeSelects();
    Draw.SelectionIsExact(3, 3, 3);
    ResolvesTwice();
  }

  lemma SeedThreeSelects()
    ensures Draw.Selected(3, 3, 3) == [0, 1, 2]
  {
    assert Draw.Positions(3, 1, 1) == [0];
    assert Draw.Positions(3, 2, 2) == [1, 0];
    assert Draw.Positions(3, 3, 3) == [0, 1, 0];
    assert Draw.Identity(3) == [0, 1, 2];
    assert Draw.TakeOut([0, 1, 2], 0) == [2, 1];
    assert Draw.TakeOut([2, 1], 1) == [2];
    assert [0, 1, 0][1..] == [1, 0] && [1, 0][1..] == [0];
  }

  lemma ResolvesTwice()
    ensures ResolveAll([7, 7, 8], true, [0, 1, 2], []) == [0, 2, 2]
  {
    var owners: seq<Address> := [7, 7, 8];
    ResolveFindsNonWinner(owners, OwnersAt(owners, []), 0);
    assert OwnersAt(owners, []) == [];
    assert Resolve(owners, [], 0) == 0;
    assert OwnersAt(owners, [0]) == [7];
    assert ProbeFrom(owners, [7], 1, 1) == 2;
    assert Resolve(owners, [7], 1) == 2;
    assert OwnersAt(owners, [0, 2]) == [7, 8];
    ResolveFindsNonWinner(owners, [7, 8], 2);
    assert Resolve(owners, [7, 8], 2) == 2;
    assert ResolveAll(owners, true, [2], [0, 2]) == [2];
    assert ResolveAll(owners, true, [1, 2], [0]) == [2, 2] by {
      assert [1, 2][1..] == [2] && [0] + [2] == [0, 2];
    }
    assert [0, 1, 2][1..] == [1, 2] && [] + [0] == [0];
  }
}
