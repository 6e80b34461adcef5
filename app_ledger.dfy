/**
 * The vote ledger of the single-file version (app.js), as values: the
 * stored list of vote records that every user shares, the current user's
 * `Map` of votes, and the tallies computed from the stored list.
 */
module AppLedger {
  import opened Common
  import Ranking

  /** One entry of `CONFIG.platforms`. */
  datatype Platform = Platform(id: string, name: string, icon: string)

  /** `CONFIG.platforms`, in catalog order. */
  const PLATFORMS: seq<Platform> := [
    Platform("facebook", "Facebook", "\U{1F4D8}"),
    Platform("twitter", "Twitter/X", "\U{1D54F}"),
    Platform("instagram", "Instagram", "\U{1F4F7}"),
    Platform("tiktok", "TikTok", "\U{1F3B5}"),
    Platform("youtube", "YouTube", "\U{25B6}\U{FE0F}"),
    Platform("telegram", "Telegram", "\U{2708}\U{FE0F}"),
    Platform("whatsapp", "WhatsApp", "\U{1F4AC}"),
    Platform("discord", "Discord", "\U{1F3AE}")
  ]

  /** The catalog's ids, in catalog order. */
  function PlatformIds(): (ids: seq<string>)
    ensures |ids| == |PLATFORMS| && forall i :: 0 <= i < |ids| ==> ids[i] == PLATFORMS[i].id
  {
    seq(|PLATFORMS|, i requires 0 <= i < |PLATFORMS| => PLATFORMS[i].id)
  }

  predicate Distinct(ids: seq<string>) {
    forall i, j :: 0 <= i < j < |ids| ==> ids[i] != ids[j]
  }

  lemma CatalogIdsDistinct()
    ensures Distinct(PlatformIds())
  {
  }

  /**
   * A vote as the shared stored list holds it, and also one entry of the
   * current user's `state.votes` map (its key and its value together).
   */
  datatype VoteRecord = VoteRecord(platformId: string, userId: string, timestamp: string)

  // ---------------------------------------------------------------------
  // Counting

  /** `allVotes.filter(v => v.platformId === p).length`. */
  function VoteCount(records: seq<VoteRecord>, p: string): (n: nat)
    ensures n <= |records|
    ensures n == 0 <==> p !in Keys(records)
  {
    if records == [] then 0
    else (if records[0].platformId == p then 1 else 0) + VoteCount(records[1..], p)
  }

  /** `getTotalVotes`: the length of the stored list. */
  function TotalVotes(records: seq<VoteRecord>): nat {
    |records|
  }

  /** The set of user ids that occur in the list (`new Set(allVotes.map(v => v.userId))`). */
  function UserIds(records: seq<VoteRecord>): (ids: set<string>)
    ensures forall u :: u in ids <==> exists i :: 0 <= i < |records| && records[i].userId == u
  {
    if records == [] then {}
    else
      var rest := UserIds(records[1..]);
      assert forall u :: u in rest <==> exists i :: 1 <= i < |records| && records[i].userId == u by {
        forall u | u in rest ensures exists i :: 1 <= i < |records| && records[i].userId == u {
          var i :| 0 <= i < |records[1..]| && records[1..][i].userId == u;
          assert records[i + 1].userId == u;
        }
      }
      {records[0].userId} + rest
  }

  /** `getUniqueVoters`. */
  function UniqueVoters(records: seq<VoteRecord>): (n: nat)
    ensures records != [] ==> n > 0
  {
    assert records != [] ==> records[0].userId in UserIds(records);
    |UserIds(records)|
  }

  /** There are never more distinct voters than stored votes. */
  lemma {:induction false} UniqueVotersAtMostTotal(records: seq<VoteRecord>)
    ensures UniqueVoters(records) <= TotalVotes(records)
  {
    if records != [] {
      UniqueVotersAtMostTotal(records[1..]);
      assert UserIds(records) == {records[0].userId} + UserIds(records[1..]);
    }
  }

  /** The sum of the counts of the given platform ids. */
  function SumCounts(ids: seq<string>, records: seq<VoteRecord>): nat {
    if ids == [] then 0 else VoteCount(records, ids[0]) + SumCounts(ids[1..], records)
  }

  /** How many times `x` occurs in `ids`. */
  function Occurrences(ids: seq<string>, x: string): nat {
    if ids == [] then 0 else (if ids[0] == x then 1 else 0) + Occurrences(ids[1..], x)
  }

  lemma {:induction false} OccurrencesDistinct(ids: seq<string>, x: string)
    requires Distinct(ids)
    ensures Occurrences(ids, x) == if x in ids then 1 else 0
  {
    if ids != [] {
      OccurrencesDistinct(ids[1..], x);
      if ids[0] == x {
        assert x !in ids[1..];
      } else {
        assert x in ids <==> x in ids[1..] by {
          assert ids == [ids[0]] + ids[1..];
        }
      }
    }
  }

  lemma {:induction false} SumCountsCons(ids: seq<string>, r: VoteRecord, rest: seq<VoteRecord>)
    ensures SumCounts(ids, [r] + rest) == SumCounts(ids, rest) + Occurrences(ids, r.platformId)
  {
    assert ([r] + rest)[1..] == rest;
    if ids != [] {
      SumCountsCons(ids[1..], r, rest);
    }
  }

  /**
   * When every stored record names a catalog platform, the per-platform
   * counts add up to the total.
   */
  lemma {:induction false} CountsSumToTotal(ids: seq<string>, records: seq<VoteRecord>)
    requires Distinct(ids)
    requires forall i :: 0 <= i < |records| ==> records[i].platformId in ids
    ensures SumCounts(ids, records) == TotalVotes(records)
  {
    if records == [] {
      if ids != [] {
        CountsSumToTotal(ids[1..], records);
      }
    } else {
      CountsSumToTotal(ids, records[1..]);
      assert records == [records[0]] + records[1..];
      SumCountsCons(ids, records[0], records[1..]);
      OccurrencesDistinct(ids, records[0].platformId);
    }
  }

  // ---------------------------------------------------------------------
  // Percentages

  /**
   * `calculatePercentage`: `Math.round(count / total * 100)`, or 0 when
   * nothing has been voted. `Math.round` rounds halves up, so the result is
   * the integer nearest to 100 * count / total, the larger one on a tie.
   */
  function Percentage(count: nat, total: nat): (r: nat)
    ensures total == 0 ==> r == 0
    ensures total > 0 ==> 2 * r * total <= 200 * count + total < 2 * (r + 1) * total
  {
    if total > 0 then
      var r := (200 * count + total) / (2 * total);
      assert r * (2 * total) <= 200 * count + total < (r + 1) * (2 * total);
      r
    else 0
  }

  lemma MulLe(a: int, b: int, t: nat)
    requires a <= b
    ensures a * t <= b * t
  {
  }

  /** A share of the votes is a percentage: at most 100, and exactly 100 for all of them. */
  lemma PercentageBounds(count: nat, total: nat)
    requires count <= total
    ensures Percentage(count, total) <= 100
    ensures 0 < total == count ==> Percentage(count, total) == 100
  {
    var r := Percentage(count, total);
    if total > 0 {
      MulLe(count, total, 200);
      if r > 100 {
        MulLe(202, 2 * r, total);
        assert false;
      }
      if count == total && r < 100 {
        MulLe(2 * (r + 1), 200, total);
        assert false;
      }
    }
  }

  // ---------------------------------------------------------------------
  // Results

  /** A platform with its count and percentage, as `updateResults` builds it. */
  datatype PlatformResult = PlatformResult(platform: Platform, voteCount: nat, percentage: nat)

  function ResultKey(r: PlatformResult): int {
    r.voteCount
  }

  /** `CONFIG.platforms.map(...)`: one result per platform, in catalog order. */
  function Tally(records: seq<VoteRecord>): (t: seq<PlatformResult>)
    ensures |t| == |PLATFORMS|
    ensures forall i :: 0 <= i < |t| ==>
      (t[i].platform == PLATFORMS[i]
       && t[i].voteCount == VoteCount(records, PLATFORMS[i].id)
       && t[i].percentage == Percentage(t[i].voteCount, |records|))
  {
    seq(|PLATFORMS|, i requires 0 <= i < |PLATFORMS| =>
      var c := VoteCount(records, PLATFORMS[i].id);
      PlatformResult(PLATFORMS[i], c, Percentage(c, |records|)))
  }

  /** `results.sort((a, b) => b.voteCount - a.voteCount)`. */
  function Results(records: seq<VoteRecord>): (r: seq<PlatformResult>)
    ensures |r| == |PLATFORMS|
  {
    Ranking.SortDesc(Tally(records), ResultKey)
  }

  /**
   * The results rank every catalog platform once, by non-increasing vote
   * count, with ties in catalog order; every percentage is in 0..100.
   */
  lemma ResultsRanked(records: seq<VoteRecord>)
    ensures var r := Results(records);
      && |r| == |PLATFORMS|
      && Ranking.NonIncreasing(r, ResultKey)
      && multiset(r) == multiset(Tally(records))
      && (forall k :: Ranking.WithKey(r, ResultKey, k) == Ranking.WithKey(Tally(records), ResultKey, k))
      && (forall i :: 0 <= i < |r| ==> r[i].percentage <= 100)
  {
    var t := Tally(records);
    var r := Results(records);
    Ranking.SortDescSorted(t, ResultKey);
    forall k {
      Ranking.SortDescStable(t, ResultKey, k);
    }
    forall i | 0 <= i < |r|
      ensures r[i].percentage <= 100
    {
      assert r[i] in multiset(t);
      var j :| 0 <= j < |t| && t[j] == r[i];
      PercentageBounds(t[j].voteCount, |records|);
    }
  }

  /** The sum of the vote counts of a list of results. */
  function SumVotes(t: seq<PlatformResult>): nat {
    if t == [] then 0 else t[0].voteCount + SumVotes(t[1..])
  }

  /** The sum of the percentages of a list of results. */
  function SumPercentages(t: seq<PlatformResult>): nat {
    if t == [] then 0 else t[0].percentage + SumPercentages(t[1..])
  }

  /** When every stored record names a catalog platform, the tally's counts add up to the number of stored votes. */
  lemma TallyCountsAddUp(records: seq<VoteRecord>)
    requires forall i :: 0 <= i < |records| ==> records[i].platformId in PlatformIds()
    ensures SumVotes(Tally(records)) == TotalVotes(records)
  {
    CatalogIdsDistinct();
    CountsSumToTotal(PlatformIds(), records);
    SumVotesTally(records, 0);
    assert Tally(records)[0..] == Tally(records) && PlatformIds()[0..] == PlatformIds();
  }

  /**
   * When every stored record names a catalog platform and there is at least
   * one, the rounded percentages of the tally add up to 100 give or take
   * half a point per platform.
   */
  lemma TallyPercentagesAddUp(records: seq<VoteRecord>)
    requires |records| > 0
    requires forall i :: 0 <= i < |records| ==> records[i].platformId in PlatformIds()
    ensures 200 - |PLATFORMS| < 2 * SumPercentages(Tally(records)) <= 200 + |PLATFORMS|
  {
    var t, total := Tally(records), |records|;
    TallyCountsAddUp(records);
    TallyRounding(records);
    PercentageSumBounds(t, total);
    ScaledIsProduct(t, total);
    RoundedSumBounds(SumPercentages(t), total, |t|);
  }

  /** Each percentage of the tally is 100 times its share, rounded to within half a point. */
  lemma TallyRounding(records: seq<VoteRecord>)
    requires |records| > 0
    ensures forall i :: 0 <= i < |Tally(records)| ==>
      var r, total := Tally(records)[i], |records|;
      2 * r.percentage * total <= 200 * r.voteCount + total < 2 * r.percentage * total + 2 * total
  {
    var t, total := Tally(records), |records|;
    forall i | 0 <= i < |t|
      ensures 2 * t[i].percentage * total <= 200 * t[i].voteCount + total < 2 * t[i].percentage * total + 2 * total
    {
      assert 2 * (t[i].percentage + 1) * total == 2 * t[i].percentage * total + 2 * total;
    }
  }

  /** The arithmetic that turns the summed rounding bounds into bounds on the sum. */
  lemma RoundedSumBounds(p: int, total: int, n: int)
    requires total > 0
    requires 2 * p * total <= 200 * total + n * total < 2 * p * total + 2 * (n * total)
    ensures 200 - n < 2 * p <= 200 + n
  {
    assert (200 + n) * total == 200 * total + n * total;
    assert (2 * p + 2 * n) * total == 2 * p * total + 2 * (n * total);
    if 2 * p > 200 + n {
      MulLe(201 + n, 2 * p, total);
      assert false;
    }
    if 2 * p <= 200 - n {
      MulLe(2 * p + 2 * n, 200 + n, total);
      assert false;
    }
  }

  /** The counts of the tally from platform `k` on are the counts of those platforms. */
  lemma {:induction false} SumVotesTally(records: seq<VoteRecord>, k: nat)
    requires k <= |PLATFORMS|
    ensures SumVotes(Tally(records)[k..]) == SumCounts(PlatformIds()[k..], records)
    decreases |PLATFORMS| - k
  {
    if k < |PLATFORMS| {
      SumVotesTally(records, k + 1);
      assert Tally(records)[k..][1..] == Tally(records)[k + 1..];
      assert PlatformIds()[k..][1..] == PlatformIds()[k + 1..];
    }
  }

  /** Twice the sum of the percentages, each times `total`. */
  function ScaledPercentages(t: seq<PlatformResult>, total: int): int {
    if t == [] then 0 else 2 * t[0].percentage * total + ScaledPercentages(t[1..], total)
  }

  lemma {:induction false} ScaledIsProduct(t: seq<PlatformResult>, total: int)
    ensures ScaledPercentages(t, total) == 2 * SumPercentages(t) * total
  {
    if t != [] {
      ScaledIsProduct(t[1..], total);
      assert 2 * (t[0].percentage + SumPercentages(t[1..])) * total
          == 2 * t[0].percentage * total + 2 * SumPercentages(t[1..]) * total;
    }
  }

  /** Rounding each share to within half a point bounds the sum of the rounded shares. */
  lemma {:induction false} PercentageSumBounds(t: seq<PlatformResult>, total: int)
    requires forall i :: 0 <= i < |t| ==>
      2 * t[i].percentage * total <= 200 * t[i].voteCount + total < 2 * t[i].percentage * total + 2 * total
    ensures ScaledPercentages(t, total) <= 200 * SumVotes(t) + |t| * total
    ensures t != [] ==> 200 * SumVotes(t) + |t| * total < ScaledPercentages(t, total) + 2 * (|t| * total)
  {
    if t != [] {
      var u := t[1..];
      assert forall i :: 0 <= i < |u| ==> u[i] == t[i + 1];
      PercentageSumBounds(u, total);
      MulSucc(|u|, total);
    }
  }

  lemma MulSucc(n: int, total: int)
    ensures (n + 1) * total == n * total + total
  {
  }

  // ---------------------------------------------------------------------
  // The current user's `state.votes` map, kept as its entries in insertion order

  /** The keys (platform ids) of a map, or the platforms named in a list of records. */
  function Keys(v: seq<VoteRecord>): set<string> {
    if v == [] then {} else {v[0].platformId} + Keys(v[1..])
  }

  /** The keys are exactly the platforms some entry names. */
  lemma {:induction false} KeysIndex(v: seq<VoteRecord>)
    ensures forall p :: p in Keys(v) <==> exists i :: 0 <= i < |v| && v[i].platformId == p
  {
    if v != [] {
      KeysIndex(v[1..]);
      forall p | p in Keys(v[1..])
        ensures exists i :: 0 <= i < |v| && v[i].platformId == p
      {
        var i :| 0 <= i < |v[1..]| && v[1..][i].platformId == p;
        assert v[i + 1].platformId == p;
      }
      forall i | 1 <= i < |v|
        ensures v[i].platformId in Keys(v[1..])
      {
        assert v[1..][i - 1] == v[i];
      }
    }
  }

  /** No key occurs twice: the entries form a map. */
  predicate DistinctKeys(v: seq<VoteRecord>) {
    forall i, j :: 0 <= i < j < |v| ==> v[i].platformId != v[j].platformId
  }

  /** The keys of an entry in front of a list. */
  lemma KeysCons(h: VoteRecord, t: seq<VoteRecord>)
    ensures Keys([h] + t) == {h.platformId} + Keys(t)
  {
    assert ([h] + t)[1..] == t;
  }

  /** The keys of a concatenation. */
  lemma {:induction false} KeysAppend(a: seq<VoteRecord>, b: seq<VoteRecord>)
    ensures Keys(a + b) == Keys(a) + Keys(b)
  {
    if a == [] {
      assert a + b == b;
    } else {
      KeysAppend(a[1..], b);
      assert a + b == [a[0]] + (a[1..] + b);
      assert a == [a[0]] + a[1..];
      KeysCons(a[0], a[1..] + b);
      KeysCons(a[0], a[1..]);
    }
  }

  /** The keys of a non-empty list: those of all but its last entry, and the last one's. */
  lemma KeysSnoc(v: seq<VoteRecord>)
    requires v != []
    ensures Keys(v) == Keys(v[..|v| - 1]) + {v[|v| - 1].platformId}
    ensures DistinctKeys(v) ==> v[|v| - 1].platformId !in Keys(v[..|v| - 1])
  {
    var n := |v| - 1;
    SnocLast(v);
    KeysAppend(v[..n], [v[n]]);
    assert Keys([v[n]]) == {v[n].platformId} by {
      assert [v[n]][1..] == [];
    }
    if DistinctKeys(v) {
      KeysIndex(v[..n]);
      forall i | 0 <= i < n
        ensures v[..n][i].platformId != v[n].platformId
      {
      }
    }
  }

  /** Looking up a key in a list with an entry in front. */
  lemma LookupCons(h: VoteRecord, t: seq<VoteRecord>)
    ensures forall q :: Lookup([h] + t, q) == if h.platformId == q then Some(h) else Lookup(t, q)
  {
    assert ([h] + t)[1..] == t;
  }

  lemma SnocLast(v: seq<VoteRecord>)
    requires v != []
    ensures v[..|v| - 1] + [v[|v| - 1]] == v
  {
  }

  /** In a map, the first key does not occur again. */
  lemma HeadNotInTail(v: seq<VoteRecord>)
    requires v != []
    ensures DistinctKeys(v) ==> v[0].platformId !in Keys(v[1..])
  {
    if DistinctKeys(v) {
      KeysIndex(v[1..]);
      forall i | 0 <= i < |v[1..]|
        ensures v[1..][i].platformId != v[0].platformId
      {
        assert v[1..][i] == v[i + 1];
      }
    }
  }

  /** An entry with a new key in front of a map gives a map. */
  lemma ConsDistinct(h: VoteRecord, t: seq<VoteRecord>)
    ensures DistinctKeys(t) && h.platformId !in Keys(t) ==> DistinctKeys([h] + t)
  {
    if DistinctKeys(t) && h.platformId !in Keys(t) {
      KeysIndex(t);
      var w := [h] + t;
      forall i, j | 0 <= i < j < |w|
        ensures w[i].platformId != w[j].platformId
      {
        assert w[j] == t[j - 1];
        if i > 0 {
          assert w[i] == t[i - 1];
        }
      }
    }
  }

  /** `map.get(p)`, with the key attached. */
  function Lookup(v: seq<VoteRecord>, p: string): (r: Option<VoteRecord>)
    ensures r.None? <==> p !in Keys(v)
    ensures r.Some? ==> r.value in v && r.value.platformId == p
  {
    if v == [] then None
    else if v[0].platformId == p then Some(v[0])
    else Lookup(v[1..], p)
  }

  /** `map.delete(p)`: the other entries stay, in their order. */
  function RemoveKey(v: seq<VoteRecord>, p: string): (r: seq<VoteRecord>)
    ensures Keys(r) == Keys(v) - {p}
    ensures forall q :: q != p ==> Lookup(r, q) == Lookup(v, q)
  {
    if v == [] then []
    else if v[0].platformId == p then RemoveKey(v[1..], p)
    else
      var rest := RemoveKey(v[1..], p);
      KeysCons(v[0], rest);
      LookupCons(v[0], rest);
      [v[0]] + rest
  }

  /** `map.delete` keeps the keys distinct. */
  lemma {:induction false} RemoveKeyDistinct(v: seq<VoteRecord>, p: string)
    requires DistinctKeys(v)
    ensures DistinctKeys(RemoveKey(v, p))
  {
    if v != [] {
      RemoveKeyDistinct(v[1..], p);
      if v[0].platformId != p {
        HeadNotInTail(v);
        ConsDistinct(v[0], RemoveKey(v[1..], p));
      }
    }
  }

  /**
   * `map.set(r.platformId, value)`: a present key keeps its place and takes
   * the new value; a new key is added at the end.
   */
  function SetKey(v: seq<VoteRecord>, r: VoteRecord): (w: seq<VoteRecord>)
    ensures Keys(w) == Keys(v) + {r.platformId}
    ensures Lookup(w, r.platformId) == Some(r)
    ensures forall q :: q != r.platformId ==> Lookup(w, q) == Lookup(v, q)
  {
    if v == [] then [r]
    else if v[0].platformId == r.platformId then
      assert ([r] + v[1..])[1..] == v[1..];
      [r] + v[1..]
    else
      var rest := SetKey(v[1..], r);
      assert ([v[0]] + rest)[1..] == rest;
      [v[0]] + rest
  }

  /** `map.set` appends when the key is new. */
  lemma {:induction false} SetKeyAppends(v: seq<VoteRecord>, r: VoteRecord)
    requires r.platformId !in Keys(v)
    ensures SetKey(v, r) == v + [r]
  {
    if v != [] {
      var t := v[1..];
      assert Keys(v) == {v[0].platformId} + Keys(t);
      SetKeyAppends(t, r);
      ConsAppend(v, r);
    }
  }

  lemma ConsAppend(v: seq<VoteRecord>, r: VoteRecord)
    requires v != []
    ensures v + [r] == [v[0]] + (v[1..] + [r])
  {
    assert v == [v[0]] + v[1..];
  }

  /** `map.set` keeps the keys distinct. */
  lemma {:induction false} SetKeyDistinct(v: seq<VoteRecord>, r: VoteRecord)
    requires DistinctKeys(v)
    ensures DistinctKeys(SetKey(v, r))
  {
    if v != [] {
      HeadNotInTail(v);
      if v[0].platformId == r.platformId {
        ConsDistinct(r, v[1..]);
      } else {
        SetKeyDistinct(v[1..], r);
        ConsDistinct(v[0], SetKey(v[1..], r));
      }
    }
  }

  /** The map after `toggleVote(r.platformId)`: the key is removed when present, `r` appended when absent. */
  function Toggled(v: seq<VoteRecord>, r: VoteRecord): (w: seq<VoteRecord>)
    ensures Keys(w) == if r.platformId in Keys(v) then Keys(v) - {r.platformId} else Keys(v) + {r.platformId}
    ensures forall q :: q != r.platformId ==> Lookup(w, q) == Lookup(v, q)
    ensures r.platformId !in Keys(v) ==> Lookup(w, r.platformId) == Some(r)
    ensures DistinctKeys(v) ==> DistinctKeys(w)
  {
    if r.platformId in Keys(v) then
      if DistinctKeys(v) then
        RemoveKeyDistinct(v, r.platformId);
        RemoveKey(v, r.platformId)
      else RemoveKey(v, r.platformId)
    else
      SetKeyAppends(v, r);
      if DistinctKeys(v) then
        SetKeyDistinct(v, r);
        v + [r]
      else v + [r]
  }

  /** A toggle by `user` keeps a map of `user`'s entries a map of `user`'s entries. */
  lemma ToggledOwned(v: seq<VoteRecord>, r: VoteRecord, user: string)
    requires Owned(v, user) && r.userId == user
    ensures Owned(Toggled(v, r), user)
  {
    if r.platformId in Keys(v) {
      RemoveKeyOwned(v, r.platformId, user);
    } else {
      assert Toggled(v, r) == v + [r];
    }
  }

  lemma {:induction false} RemoveKeyOwned(v: seq<VoteRecord>, p: string, user: string)
    requires Owned(v, user)
    ensures Owned(RemoveKey(v, p), user)
  {
    if v != [] {
      RemoveKeyOwned(v[1..], p, user);
    }
  }

  /** Toggling a platform that was not voted for, then toggling it again, gives back the same map. */
  lemma ToggleTwiceFromAbsent(v: seq<VoteRecord>, r: VoteRecord, r': VoteRecord)
    requires r.platformId == r'.platformId && r.platformId !in Keys(v)
    ensures Toggled(Toggled(v, r), r') == v
  {
    var w := Toggled(v, r);
    assert w == v + [r];
    assert r.platformId in Keys(w);
    RemoveAppended(v, r);
  }

  lemma {:induction false} RemoveAppended(v: seq<VoteRecord>, r: VoteRecord)
    requires r.platformId !in Keys(v)
    ensures RemoveKey(v + [r], r.platformId) == v
  {
    if v != [] {
      assert (v + [r])[1..] == v[1..] + [r];
      RemoveAppended(v[1..], r);
    }
  }

  /**
   * Toggling a voted platform twice gives back the same keys and the same
   * entries for every other platform; the toggled platform's entry is the new one.
   */
  lemma ToggleTwiceFromPresent(v: seq<VoteRecord>, r: VoteRecord, r': VoteRecord)
    requires r.platformId == r'.platformId && r.platformId in Keys(v)
    ensures Keys(Toggled(Toggled(v, r), r')) == Keys(v)
    ensures forall q :: q != r.platformId ==> Lookup(Toggled(Toggled(v, r), r'), q) == Lookup(v, q)
    ensures Lookup(Toggled(Toggled(v, r), r'), r.platformId) == Some(r')
  {
  }

  /** The map that `loadStoredData` builds: `map.set` for each record in turn. */
  function LoadedVotes(v: seq<VoteRecord>, records: seq<VoteRecord>): (w: seq<VoteRecord>)
    ensures Keys(w) == Keys(v) + Keys(records)
    ensures DistinctKeys(v) ==> DistinctKeys(w)
  {
    if records == [] then v
    else
      var n := |records| - 1;
      KeysSnoc(records);
      assert DistinctKeys(v) ==> DistinctKeys(SetKey(LoadedVotes(v, records[..n]), records[n])) by {
        if DistinctKeys(v) {
          SetKeyDistinct(LoadedVotes(v, records[..n]), records[n]);
        }
      }
      SetKey(LoadedVotes(v, records[..n]), records[n])
  }

  /** Loading one more record sets its key in what the earlier records loaded. */
  lemma LoadedVotesStep(v: seq<VoteRecord>, records: seq<VoteRecord>, i: int)
    requires 0 <= i < |records|
    ensures LoadedVotes(v, records[..i + 1]) == SetKey(LoadedVotes(v, records[..i]), records[i])
  {
    assert records[..i + 1][..i] == records[..i];
  }

  /** Loading `user`'s records into a map of `user`'s entries keeps it a map of `user`'s entries. */
  lemma {:induction false} LoadedVotesOwned(v: seq<VoteRecord>, records: seq<VoteRecord>, user: string)
    requires Owned(v, user) && Owned(records, user)
    ensures Owned(LoadedVotes(v, records), user)
  {
    if records != [] {
      var n := |records| - 1;
      LoadedVotesOwned(v, records[..n], user);
      SetKeyOwned(LoadedVotes(v, records[..n]), records[n], user);
    }
  }

  lemma {:induction false} SetKeyOwned(v: seq<VoteRecord>, r: VoteRecord, user: string)
    requires Owned(v, user) && r.userId == user
    ensures Owned(SetKey(v, r), user)
  {
    if v != [] && v[0].platformId != r.platformId {
      SetKeyOwned(v[1..], r, user);
    }
  }

  /** Loading records with distinct platforms into an empty map gives exactly those records, in order. */
  lemma {:induction false} LoadedVotesFromEmpty(records: seq<VoteRecord>)
    requires DistinctKeys(records)
    ensures LoadedVotes([], records) == records
  {
    if records != [] {
      var n := |records| - 1;
      LoadedVotesFromEmpty(records[..n]);
      KeysSnoc(records);
      SetKeyAppends(records[..n], records[n]);
      SnocLast(records);
    }
  }

  // ---------------------------------------------------------------------
  // The shared stored list, as `saveVotes` rewrites it

  /** `allVotes.filter(v => v.userId === user)`. */
  function Mine(records: seq<VoteRecord>, user: string): (r: seq<VoteRecord>)
    ensures forall i :: 0 <= i < |r| ==> r[i].userId == user
  {
    if records == [] then []
    else (if records[0].userId == user then [records[0]] else []) + Mine(records[1..], user)
  }

  /** `allVotes.filter(v => v.userId !== user)`. */
  function Others(records: seq<VoteRecord>, user: string): (r: seq<VoteRecord>)
    ensures forall i :: 0 <= i < |r| ==> r[i].userId != user
  {
    if records == [] then []
    else (if records[0].userId != user then [records[0]] else []) + Others(records[1..], user)
  }

  /** Every entry of the map belongs to `user`. */
  predicate Owned(v: seq<VoteRecord>, user: string) {
    forall i :: 0 <= i < |v| ==> v[i].userId == user
  }

  /** What `saveVotes` stores: the other users' records, then the map's entries in insertion order. */
  function SavedVotes(stored: seq<VoteRecord>, user: string, v: seq<VoteRecord>): (r: seq<VoteRecord>)
    ensures Others(r, user) == Others(stored, user) + Others(v, user)
    ensures Mine(r, user) == Mine(v, user)
  {
    FiltersAppend(Others(stored, user), v, user);
    OthersIdempotent(stored, user);
    Others(stored, user) + v
  }

  lemma {:induction false} FiltersAppend(a: seq<VoteRecord>, b: seq<VoteRecord>, user: string)
    ensures Mine(a + b, user) == Mine(a, user) + Mine(b, user)
    ensures Others(a + b, user) == Others(a, user) + Others(b, user)
  {
    if a == [] {
      assert a + b == b;
    } else {
      assert (a + b)[1..] == a[1..] + b;
      FiltersAppend(a[1..], b, user);
    }
  }

  lemma {:induction false} FiltersOwned(v: seq<VoteRecord>, user: string)
    requires Owned(v, user)
    ensures Mine(v, user) == v && Others(v, user) == []
  {
    if v != [] {
      FiltersOwned(v[1..], user);
    }
  }

  lemma {:induction false} OthersIdempotent(s: seq<VoteRecord>, user: string)
    ensures Others(Others(s, user), user) == Others(s, user) && Mine(Others(s, user), user) == []
  {
    if s != [] {
      OthersIdempotent(s[1..], user);
      FiltersAppend(if s[0].userId != user then [s[0]] else [], Others(s[1..], user), user);
    }
  }

  /**
   * `saveVotes` keeps every other user's record, in its original order, and
   * replaces the user's own records by exactly the map's entries.
   */
  lemma SavedVotesSplit(stored: seq<VoteRecord>, user: string, v: seq<VoteRecord>)
    requires Owned(v, user)
    ensures Others(SavedVotes(stored, user, v), user) == Others(stored, user)
    ensures Mine(SavedVotes(stored, user, v), user) == v
  {
    FiltersOwned(v, user);
  }

  /** After `saveVotes`, a platform's count is the other users' count plus one if the user voted for it. */
  lemma SavedVoteCount(stored: seq<VoteRecord>, user: string, v: seq<VoteRecord>, p: string)
    requires DistinctKeys(v)
    ensures VoteCount(SavedVotes(stored, user, v), p) == VoteCount(Others(stored, user), p) + (if p in Keys(v) then 1 else 0)
  {
    VoteCountAppend(Others(stored, user), v, p);
    VoteCountDistinct(v, p);
  }

  lemma {:induction false} VoteCountAppend(a: seq<VoteRecord>, b: seq<VoteRecord>, p: string)
    ensures VoteCount(a + b, p) == VoteCount(a, p) + VoteCount(b, p)
  {
    if a == [] {
      assert a + b == b;
    } else {
      assert (a + b)[1..] == a[1..] + b;
      VoteCountAppend(a[1..], b, p);
    }
  }

  lemma {:induction false} VoteCountDistinct(v: seq<VoteRecord>, p: string)
    requires DistinctKeys(v)
    ensures VoteCount(v, p) == if p in Keys(v) then 1 else 0
  {
    if v != [] {
      VoteCountDistinct(v[1..], p);
      HeadNotInTail(v);
    }
  }

  /** How many records the list holds for one (user, platform) pair. */
  function PairCount(records: seq<VoteRecord>, user: string, p: string): nat {
    if records == [] then 0
    else (if records[0].userId == user && records[0].platformId == p then 1 else 0) + PairCount(records[1..], user, p)
  }

  /** At most one record per user and platform: the ledger's intended invariant. */
  ghost predicate OnePerPair(records: seq<VoteRecord>) {
    forall u, p :: PairCount(records, u, p) <= 1
  }

  lemma {:induction false} PairCountAppend(a: seq<VoteRecord>, b: seq<VoteRecord>, u: string, p: string)
    ensures PairCount(a + b, u, p) == PairCount(a, u, p) + PairCount(b, u, p)
  {
    if a == [] {
      assert a + b == b;
    } else {
      assert (a + b)[1..] == a[1..] + b;
      PairCountAppend(a[1..], b, u, p);
    }
  }

  lemma {:induction false} PairCountOthers(s: seq<VoteRecord>, user: string, u: string, p: string)
    ensures PairCount(Others(s, user), u, p) == if u == user then 0 else PairCount(s, u, p)
  {
    if s != [] {
      PairCountOthers(s[1..], user, u, p);
      PairCountAppend(if s[0].userId != user then [s[0]] else [], Others(s[1..], user), u, p);
    }
  }

  lemma {:induction false} PairCountOwned(v: seq<VoteRecord>, user: string, u: string, p: string)
    requires Owned(v, user) && DistinctKeys(v)
    ensures PairCount(v, u, p) == if u == user && p in Keys(v) then 1 else 0
  {
    if v != [] {
      PairCountOwned(v[1..], user, u, p);
      HeadNotInTail(v);
    }
  }

  /**
   * Saving a map that holds only the current user's entries keeps the
   * stored list at one record per user and platform.
   */
  lemma SaveKeepsOnePerPair(stored: seq<VoteRecord>, user: string, v: seq<VoteRecord>)
    requires OnePerPair(stored) && Owned(v, user) && DistinctKeys(v)
    ensures OnePerPair(SavedVotes(stored, user, v))
  {
    forall u, p
      ensures PairCount(SavedVotes(stored, user, v), u, p) <= 1
    {
      PairCountAppend(Others(stored, user), v, u, p);
      PairCountOthers(stored, user, u, p);
      PairCountOwned(v, user, u, p);
    }
  }

  /**
   * A map holding another user's entry (the previous session's, which
   * `loginUser` leaves in place) is saved under the new user's name next to
   * that user's own stored record, so one vote is stored and counted twice.
   */
  lemma StaleEntrySavedTwice()
    ensures var stored := [VoteRecord("facebook", "Ana", "t0")];
            var v := Toggled([VoteRecord("facebook", "Ana", "t0")], VoteRecord("twitter", "Ben", "t1"));
            var saved := SavedVotes(stored, "Ben", v);
            && saved == [VoteRecord("facebook", "Ana", "t0"), VoteRecord("facebook", "Ana", "t0"), VoteRecord("twitter", "Ben", "t1")]
            && VoteCount(saved, "facebook") == 2
            && !OnePerPair(saved)
  {
    var stored := [VoteRecord("facebook", "Ana", "t0")];
    var v0 := [VoteRecord("facebook", "Ana", "t0")];
    var r := VoteRecord("twitter", "Ben", "t1");
    assert "twitter" !in Keys(v0);
    var v := Toggled(v0, r);
    assert v == v0 + [r];
    var saved := SavedVotes(stored, "Ben", v);
    assert Others(stored, "Ben") == stored;
    assert saved == [VoteRecord("facebook", "Ana", "t0"), VoteRecord("facebook", "Ana", "t0"), r];
    assert saved[1..][1..] == [r];
    assert PairCount(saved[1..][1..], "Ana", "facebook") == 0;
    assert PairCount(saved, "Ana", "facebook") == 2;
  }

  /**
   * The same two votes with the corrected `loginUser`: Ben's map starts
   * empty, so the stored list gains his one vote and every pair occurs once.
   */
  lemma FreshEntriesSavedOnce()
    ensures var ana, ben := VoteRecord("facebook", "Ana", "t0"), VoteRecord("twitter", "Ben", "t1");
            && Toggled([], ana) == [ana] && SavedVotes([], "Ana", [ana]) == [ana]
            && LoadedVotes([], Mine([ana], "Ben")) == []
            && Toggled([], ben) == [ben] && SavedVotes([ana], "Ben", [ben]) == [ana, ben]
            && OnePerPair([ana, ben])
  {
    var ana, ben := VoteRecord("facebook", "Ana", "t0"), VoteRecord("twitter", "Ben", "t1");
    SetKeyAppends([], ana);
    SetKeyAppends([], ben);
    assert [ana][1..] == [] && [ana, ben][1..] == [ben] && [ben][1..] == [];
    assert Others([ana], "Ben") == [ana] + Others([], "Ben") == [ana] + [];
    assert Mine([ana], "Ben") == [];
    forall u, p
      ensures PairCount([ana, ben], u, p) <= 1
    {
      assert PairCount([ana, ben], u, p) == PairCount([ana], u, p) + PairCount([ben], u, p) by {
        PairCountAppend([ana], [ben], u, p);
        assert [ana] + [ben] == [ana, ben];
      }
    }
  }

  lemma {:induction false} MineOthersPartition(s: seq<VoteRecord>, user: string)
    ensures multiset(Others(s, user)) + multiset(Mine(s, user)) == multiset(s)
  {
    if s != [] {
      MineOthersPartition(s[1..], user);
      assert s == [s[0]] + s[1..];
    }
  }

  lemma {:induction false} MinePairCounts(s: seq<VoteRecord>, user: string, p: string)
    ensures VoteCount(Mine(s, user), p) == PairCount(s, user, p)
  {
    if s != [] {
      MinePairCounts(s[1..], user, p);
      VoteCountAppend(if s[0].userId == user then [s[0]] else [], Mine(s[1..], user), p);
    }
  }

  lemma OnePerPairMineDistinct(s: seq<VoteRecord>, user: string)
    requires OnePerPair(s)
    ensures DistinctKeys(Mine(s, user))
  {
    var m := Mine(s, user);
    forall i, j | 0 <= i < j < |m|
      ensures m[i].platformId != m[j].platformId
    {
      if m[i].platformId == m[j].platformId {
        var p := m[i].platformId;
        MinePairCounts(s, user, p);
        CountTwo(m, i, j, p);
        assert false;
      }
    }
  }

  lemma {:induction false} CountTwo(m: seq<VoteRecord>, i: nat, j: nat, p: string)
    requires i < j < |m| && m[i].platformId == p && m[j].platformId == p
    ensures VoteCount(m, p) >= 2
  {
    if i > 0 {
      CountTwo(m[1..], i - 1, j - 1, p);
    } else {
      assert p in Keys(m[1..]) by {
        KeysIndex(m[1..]);
        assert m[1..][j - 1].platformId == p;
      }
    }
  }

  /**
   * Reloading the user's votes from storage and saving them again keeps the
   * stored list the same up to order (the user's records move to the end).
   */
  lemma LoadThenSave(stored: seq<VoteRecord>, user: string)
    requires OnePerPair(stored)
    ensures multiset(SavedVotes(stored, user, LoadedVotes([], Mine(stored, user)))) == multiset(stored)
  {
    OnePerPairMineDistinct(stored, user);
    LoadedVotesFromEmpty(Mine(stored, user));
    MineOthersPartition(stored, user);
  }
}
