/**
 * The voting logic of the multi-file version (js/voting.js): the toggle
 * that moves the per-platform counters, the total shown on the page, the
 * ranked results and the statistics.
 */
module Voting {
  import opened Common
  import opened Config
  import Ranking

  /** The sum of the counters of `ids`. */
  function SumOver(ids: seq<int>, counts: map<int, int>): int {
    if ids == [] then 0 else Count(counts, ids[0]) + SumOver(ids[1..], counts)
  }

  /**
   * `Object.values(APP_STATE.allVotes).reduce((a, b) => a + b, 0)`: the sum
   * of all counters, whose keys are the catalog ids.
   */
  function Total(counts: map<int, int>): (r: int)
    ensures (forall id :: Count(counts, id) >= 0) ==> r >= 0
  {
    SumOverNonNegative(PlatformIds(), counts);
    SumOver(PlatformIds(), counts)
  }

  /** Counters that are never negative have a sum that is not negative. */
  lemma {:induction false} SumOverNonNegative(ids: seq<int>, counts: map<int, int>)
    ensures (forall id :: Count(counts, id) >= 0) ==> SumOver(ids, counts) >= 0
  {
    if ids != [] {
      SumOverNonNegative(ids[1..], counts);
    }
  }

  /** Moving one counter by `d` moves the sum by `d` when the id occurs once in `ids`, else not at all. */
  lemma {:induction false} SumOverBump(ids: seq<int>, counts: map<int, int>, id: int, d: int)
    requires Distinct(ids)
    ensures SumOver(ids, counts[id := Count(counts, id) + d]) == SumOver(ids, counts) + (if id in ids then d else 0)
  {
    if ids != [] {
      assert Distinct(ids[1..]);
      SumOverBump(ids[1..], counts, id, d);
      assert id in ids[1..] ==> id != ids[0];
      assert id in ids <==> id == ids[0] || id in ids[1..];
    }
  }

  /** Moving the counter of a catalog platform by `d` moves the total by `d`. */
  lemma TotalBump(counts: map<int, int>, id: int, d: int)
    requires id in IdSet()
    ensures Total(counts[id := Count(counts, id) + d]) == Total(counts) + d
  {
    CatalogIdsDistinct();
    assert PlatformIds()[id - 1] == id;
    SumOverBump(PlatformIds(), counts, id, d);
  }

  /** A sum of counters that are all 0 is 0. */
  lemma {:induction false} SumOverZero(ids: seq<int>, counts: map<int, int>)
    requires forall i :: 0 <= i < |ids| ==> Count(counts, ids[i]) == 0
    ensures SumOver(ids, counts) == 0
  {
    if ids != [] {
      SumOverZero(ids[1..], counts);
    }
  }

  /** After `initializeVotes` the total is 0. */
  lemma InitialTotal(counts: map<int, int>)
    requires forall id :: id in IdSet() ==> id in counts && counts[id] == 0
    ensures Total(counts) == 0
  {
    SumOverZero(PlatformIds(), counts);
  }

  /** The ids that occur in `ids`. */
  function Elems(ids: seq<int>): (r: set<int>)
    ensures forall x :: x in r <==> x in ids
  {
    if ids == [] then {} else {ids[0]} + Elems(ids[1..])
  }

  /**
   * Counters that are never negative sum to at least the number of ids of
   * `ids` that are in `mine`, when each of those is counted at least once.
   */
  lemma {:induction false} SumOverAtLeast(ids: seq<int>, counts: map<int, int>, mine: set<int>)
    requires forall i :: 0 <= i < |ids| ==> Count(counts, ids[i]) >= 0
    requires forall x :: x in mine ==> Count(counts, x) >= 1
    ensures SumOver(ids, counts) >= |mine * Elems(ids)|
  {
    if ids != [] {
      var a, tail := ids[0], Elems(ids[1..]);
      SumOverAtLeast(ids[1..], counts, mine);
      assert Count(counts, a) >= 0;
      if a in mine {
        var x := mine * tail;
        assert mine * Elems(ids) == x + {a};
        assert |x + {a}| <= |x| + 1;
      } else {
        assert mine * Elems(ids) == mine * tail;
      }
    }
  }

  /** When the counters agree with the user's votes, the total counts at least those votes. */
  lemma TotalAtLeastUserVotes(mine: set<int>, counts: map<int, int>)
    requires CountersAgree(mine, counts)
    ensures Total(counts) >= |mine|
  {
    CountersNonNegative(counts);
    SumOverAtLeast(PlatformIds(), counts, mine);
    CatalogCovers(mine);
  }

  lemma CountersNonNegative(counts: map<int, int>)
    requires forall id :: id in IdSet() ==> id in counts && counts[id] >= 0
    ensures forall i :: 0 <= i < |PlatformIds()| ==> Count(counts, PlatformIds()[i]) >= 0
  {
  }

  lemma CatalogCovers(mine: set<int>)
    requires mine <= IdSet()
    ensures mine * Elems(PlatformIds()) == mine
  {
    forall x | x in mine
      ensures x in Elems(PlatformIds())
    {
      assert PlatformIds()[x - 1] == x;
    }
  }

  /** The toast `toggleVote` shows: `CONFIG.MESSAGES.VOTE_ADDED` or `VOTE_REMOVED`. */
  datatype VoteToast = VoteAddedToast | VoteRemovedToast

  function ToastText(t: VoteToast): string {
    match t
    case VoteAddedToast => VOTE_ADDED
    case VoteRemovedToast => VOTE_REMOVED
  }

  /**
   * `toggleVote`, given the checkbox state: a checked box for a platform
   * not yet voted records the vote and raises its counter by one; an
   * unchecked box for a voted platform withdraws it and lowers the counter
   * by one; anything else changes nothing. The toast follows the checkbox.
   */
  method ToggleVote(st: AppState, platformId: int, isChecked: bool) returns (toast: VoteToast)
    requires st.Valid() && platformId in IdSet()
    modifies st
    ensures unchanged(st`currentUser, st`allUsers, st`messages, st`storageAvailable, st`storedMessages)
    ensures st.Valid()
    ensures isChecked && platformId !in old(st.userVotes) ==>
      && st.userVotes == old(st.userVotes) + {platformId}
      && st.allVotes == old(st.allVotes)[platformId := old(st.allVotes)[platformId] + 1]
    ensures !isChecked && platformId in old(st.userVotes) ==>
      && st.userVotes == old(st.userVotes) - {platformId}
      && st.allVotes == old(st.allVotes)[platformId := old(st.allVotes)[platformId] - 1]
    ensures isChecked == (platformId in old(st.userVotes)) ==>
      st.userVotes == old(st.userVotes) && st.allVotes == old(st.allVotes)
    ensures toast == if isChecked then VoteAddedToast else VoteRemovedToast
  {
    var mine, counts := st.userVotes, st.allVotes;
    ToggleKeepsAgreement(mine, counts, platformId, isChecked);
    if isChecked && platformId !in mine {
      st.userVotes := mine + {platformId};
      st.allVotes := counts[platformId := counts[platformId] + 1];
    } else if !isChecked && platformId in mine {
      st.userVotes := mine - {platformId};
      st.allVotes := counts[platformId := counts[platformId] - 1];
    }
    toast := if isChecked then VoteAddedToast else VoteRemovedToast;
  }

  /** Both changes `toggleVote` can make keep the counters in agreement with the user's votes. */
  lemma ToggleKeepsAgreement(mine: set<int>, counts: map<int, int>, id: int, isChecked: bool)
    requires CountersAgree(mine, counts) && id in IdSet()
    ensures isChecked && id !in mine ==> CountersAgree(mine + {id}, counts[id := counts[id] + 1])
    ensures !isChecked && id in mine ==> CountersAgree(mine - {id}, counts[id := counts[id] - 1])
  {
  }

  // ---------------------------------------------------------------------
  // Results and statistics

  /** The sort key of `updateResults`: a platform's counter. */
  function CountKey(counts: map<int, int>): Platform -> int {
    (p: Platform) => Count(counts, p.id)
  }

  /** The platforms in the order `updateResults` lists them: a sorted copy of the catalog. */
  function RankedPlatforms(counts: map<int, int>): (r: seq<Platform>)
    ensures |r| == |PLATFORMS|
  {
    Ranking.SortDesc(PLATFORMS, CountKey(counts))
  }

  /**
   * The ranked list holds each catalog platform once, by non-increasing
   * counter, and platforms with equal counters keep their catalog order.
   */
  lemma RankedPlatformsOrder(counts: map<int, int>)
    ensures var r := RankedPlatforms(counts);
      && |r| == |PLATFORMS|
      && multiset(r) == multiset(PLATFORMS)
      && Ranking.NonIncreasing(r, CountKey(counts))
      && (forall k :: Ranking.WithKey(r, CountKey(counts), k) == Ranking.WithKey(PLATFORMS, CountKey(counts), k))
  {
    Ranking.SortDescSorted(PLATFORMS, CountKey(counts));
    forall k {
      Ranking.SortDescStable(PLATFORMS, CountKey(counts), k);
    }
  }

  /**
   * The index that `reduce((max, p) => key(p) > key(max) ? p : max)` ends
   * on: a maximal key, and the first one among equal maxima.
   */
  function TopIndex<T>(s: seq<T>, key: T -> int): (k: nat)
    requires s != []
    ensures k < |s|
    ensures forall j :: 0 <= j < |s| ==> key(s[j]) <= key(s[k])
    ensures forall j :: 0 <= j < k ==> key(s[j]) < key(s[k])
  {
    if |s| == 1 then 0
    else
      var m := TopIndex(s[..|s| - 1], key);
      if key(s[|s| - 1]) > key(s[m]) then |s| - 1 else m
  }

  /** One entry of `getVotingStats().platforms`, without the floating-point percentage. */
  datatype PlatformStat = PlatformStat(platform: Platform, votes: int)

  /** What `getVotingStats` returns, without the floating-point percentages. */
  datatype VotingStats = VotingStats(totalVotes: int, participants: nat, topPlatform: Platform,
                                     userVotes: nat, platforms: seq<PlatformStat>)

  /**
   * `getVotingStats`: the counter total, the number of users and of own
   * votes, the catalog in its own order with each counter, and the top
   * platform: one whose counter no other exceeds, the first such in
   * catalog order.
   */
  function GetVotingStats(st: AppState): (s: VotingStats)
    reads st
    ensures s.totalVotes == Total(st.allVotes) && s.participants == |st.allUsers| && s.userVotes == |st.userVotes|
    ensures exists k :: (
      && 0 <= k < |PLATFORMS| && s.topPlatform == PLATFORMS[k]
      && (forall j :: 0 <= j < |PLATFORMS| ==> Count(st.allVotes, PLATFORMS[j].id) <= Count(st.allVotes, PLATFORMS[k].id))
      && (forall j :: 0 <= j < k ==> Count(st.allVotes, PLATFORMS[j].id) < Count(st.allVotes, PLATFORMS[k].id)))
    ensures |s.platforms| == |PLATFORMS|
    ensures forall i :: 0 <= i < |PLATFORMS| ==> s.platforms[i] == PlatformStat(PLATFORMS[i], Count(st.allVotes, PLATFORMS[i].id))
  {
    var counts := st.allVotes;
    var k := TopIndex(PLATFORMS, CountKey(counts));
    VotingStats(Total(counts), |st.allUsers|, PLATFORMS[k], |st.userVotes|,
                seq(|PLATFORMS|, i requires 0 <= i < |PLATFORMS| => PlatformStat(PLATFORMS[i], Count(counts, PLATFORMS[i].id))))
  }
}
