/** Toots as the tag timeline returns them, the relevance score, the ranking
    by score and the two list filters (denylisted authors, same day). */
module Toots {
  import opened Wrappers
  import opened JsValues
  import opened Sequences

  /** Seconds since the Unix epoch. */
  type Timestamp = int

  /** The `account` object of a status. `id` may be missing or empty;
      `followers_count` may be missing. */
  datatype Account = Account(id: Option<string>, username: string, followersCount: Option<nat>)

  /** A status of the tag timeline. `account` may be missing. */
  datatype Toot = Toot(
    id: string,
    createdAt: Timestamp,
    favouritesCount: nat,
    reblogsCount: nat,
    account: Option<Account>)

  /** `{...toot, relevanceScore}`: a toot that passed the account guard,
      with its score in tenths of a point. */
  datatype ScoredToot = ScoredToot(
    id: string,
    createdAt: Timestamp,
    favouritesCount: nat,
    reblogsCount: nat,
    account: Account,
    relevanceScore: nat)

  /** The toot a scored toot was made from. */
  function Unscored(s: ScoredToot): Toot
  {
    Toot(s.id, s.createdAt, s.favouritesCount, s.reblogsCount, Some(s.account))
  }

  /** Authors whose toots never make it into the digest. */
  const IgnoredAccounts: seq<string> := ["TagsBR", "TrendsBR", "trending"]

  // ---------------------------------------------------------------- scoring

  /** `toot.account.followers_count || 0`. */
  function FollowersOrZero(a: Account): nat
  {
    match a.followersCount
    case Some(n) => n
    case None => 0
  }

  /** The weighted sum 0.4·favourites + 0.3·boosts + 0.3·followers, in tenths. */
  function ScoreTenths(favourites: nat, reblogs: nat, followers: nat): nat
  {
    4 * favourites + 3 * reblogs + 3 * followers
  }

  /** Math.round on exact reals: the nearest integer, halves rounded up. */
  function MathRound(x: real): int
  {
    (x + 0.5).Floor
  }

  /** On exact arithmetic `Math.round(x * 10) / 10` of the weighted sum is the
      weighted sum itself, and it is `ScoreTenths` tenths. */
  lemma ScoreIsRoundedWeightedSum(favourites: nat, reblogs: nat, followers: nat)
    ensures MathRound(10.0 * (0.4 * favourites as real + 0.3 * reblogs as real + 0.3 * followers as real))
            == ScoreTenths(favourites, reblogs, followers) as int
  {
    var k := ScoreTenths(favourites, reblogs, followers);
    assert 10.0 * (0.4 * favourites as real + 0.3 * reblogs as real + 0.3 * followers as real) == k as real;
    assert (k as real + 0.5).Floor == k;
  }

  /** The account guard of calculateRelevance: the account and its id are there. */
  predicate Scoreable(t: Toot)
  {
    t.account.Some? && Truthy(t.account.value.id)
  }

  /** calculateRelevance: null for a missing toot, account or account id;
      otherwise the toot with its relevance score added. */
  function CalculateRelevance(t: Option<Toot>): (r: Option<ScoredToot>)
    ensures r.None? <==> (t.None? || !Scoreable(t.value))
    ensures r.Some? ==> Unscored(r.value) == t.value
    ensures r.Some? ==> r.value.relevanceScore
                        == ScoreTenths(t.value.favouritesCount, t.value.reblogsCount,
                                       FollowersOrZero(t.value.account.value))
  {
    match t
    case None => None
    case Some(toot) =>
      if toot.account.None? || !Truthy(toot.account.value.id) then None
      else
        var a := toot.account.value;
        var score := 4 * toot.favouritesCount + 3 * toot.reblogsCount + 3 * FollowersOrZero(a);
        Some(ScoredToot(toot.id, toot.createdAt, toot.favouritesCount, toot.reblogsCount, a, score))
  }

  // ---------------------------------------------------------------- ranking

  /** Highest relevance first. */
  predicate SortedByScore(s: seq<ScoredToot>)
  {
    forall i, j :: 0 <= i < j < |s| ==> s[i].relevanceScore >= s[j].relevanceScore
  }

  /** Places `x` before the first element that does not score higher. */
  function InsertByScore(x: ScoredToot, s: seq<ScoredToot>): (r: seq<ScoredToot>)
    ensures |r| == |s| + 1
    ensures multiset(r) == multiset(s) + multiset{x}
  {
    if s == [] || x.relevanceScore >= s[0].relevanceScore then [x] + s
    else
      assert s == [s[0]] + s[1..];
      [s[0]] + InsertByScore(x, s[1..])
  }

  /** Every toot of `s` scores at most `v`. */
  predicate ScoresAtMost(s: seq<ScoredToot>, v: nat)
  {
    forall j :: 0 <= j < |s| ==> s[j].relevanceScore <= v
  }

  /** Inserting a toot scoring at most `v` into toots scoring at most `v`
      yields toots scoring at most `v`. */
  lemma {:induction false} InsertByScoreBounded(x: ScoredToot, s: seq<ScoredToot>, v: nat)
    requires x.relevanceScore <= v && ScoresAtMost(s, v)
    ensures ScoresAtMost(InsertByScore(x, s), v)
  {
    if s != [] && x.relevanceScore < s[0].relevanceScore {
      InsertByScoreBounded(x, s[1..], v);
    }
  }

  /** A toot scoring at least as much as every toot of a ranked list,
      put in front of it, keeps the list ranked. */
  lemma ConsRanked(h: ScoredToot, rest: seq<ScoredToot>)
    requires SortedByScore(rest) && ScoresAtMost(rest, h.relevanceScore)
    ensures SortedByScore([h] + rest)
  {
    var r := [h] + rest;
    forall i, j | 0 <= i < j < |r| ensures r[i].relevanceScore >= r[j].relevanceScore {
      assert r[j] == rest[j - 1];
      if i > 0 {
        assert r[i] == rest[i - 1];
      }
    }
  }

  lemma {:induction false} InsertByScoreRanks(x: ScoredToot, s: seq<ScoredToot>)
    requires SortedByScore(s)
    ensures SortedByScore(InsertByScore(x, s))
  {
    if s != [] && x.relevanceScore < s[0].relevanceScore {
      InsertByScoreRanks(x, s[1..]);
      InsertByScoreBounded(x, s[1..], s[0].relevanceScore);
      ConsRanked(s[0], InsertByScore(x, s[1..]));
    }
  }

  /** `array.sort((a, b) => b.relevanceScore - a.relevanceScore)` with a
      stable sort: highest score first, ties in their original order. */
  function SortByScore(s: seq<ScoredToot>): (r: seq<ScoredToot>)
    ensures |r| == |s| && multiset(r) == multiset(s)
    ensures SortedByScore(r)
  {
    if s == [] then []
    else
      assert s == [s[0]] + s[1..];
      InsertByScoreRanks(s[0], SortByScore(s[1..]));
      InsertByScore(s[0], SortByScore(s[1..]))
  }

  /** The toots that score exactly `v`. */
  function HasScore(v: nat): ScoredToot -> bool
  {
    (t: ScoredToot) => t.relevanceScore == v
  }

  lemma {:induction false} InsertByScoreKeepsTies(x: ScoredToot, s: seq<ScoredToot>, v: nat)
    ensures Keep(InsertByScore(x, s), HasScore(v))
            == if x.relevanceScore == v then [x] + Keep(s, HasScore(v)) else Keep(s, HasScore(v))
  {
    if s == [] || x.relevanceScore >= s[0].relevanceScore {
      assert ([x] + s)[1..] == s;
    } else {
      InsertByScoreKeepsTies(x, s[1..], v);
      var r := InsertByScore(x, s[1..]);
      assert ([s[0]] + r)[1..] == r;
    }
  }

  /** The sort is stable: among toots of equal score the input order survives. */
  lemma {:induction false} SortByScoreIsStable(s: seq<ScoredToot>, v: nat)
    ensures Keep(SortByScore(s), HasScore(v)) == Keep(s, HasScore(v))
  {
    if s != [] {
      SortByScoreIsStable(s[1..], v);
      InsertByScoreKeepsTies(s[0], SortByScore(s[1..]), v);
    }
  }

  /** `toots.map(calculateRelevance)` with the nulls left out. */
  function ScoredToots(toots: seq<Toot>): (r: seq<ScoredToot>)
    ensures |r| <= |toots|
  {
    if toots == [] then []
    else
      match CalculateRelevance(Some(toots[0]))
      case Some(x) => [x] + ScoredToots(toots[1..])
      case None => ScoredToots(toots[1..])
  }

  /** When every toot can be scored, nothing is dropped and order is kept. */
  lemma {:induction false} ScoredTootsAllScoreable(toots: seq<Toot>)
    requires forall i :: 0 <= i < |toots| ==> Scoreable(toots[i])
    ensures |ScoredToots(toots)| == |toots|
    ensures forall i :: 0 <= i < |toots| ==> Some(ScoredToots(toots)[i]) == CalculateRelevance(Some(toots[i]))
  {
    if toots != [] {
      ScoredTootsAllScoreable(toots[1..]);
    }
  }

  /** Scoring drops exactly the toots that cannot be scored and keeps the
      others in input order: with the scores taken off, the result is
      `toots.filter(Scoreable)`. */
  lemma {:induction false} ScoredTootsIsFilter(toots: seq<Toot>)
    ensures Map(ScoredToots(toots), Unscored) == Keep(toots, Scoreable)
  {
    if toots != [] {
      ScoredTootsIsFilter(toots[1..]);
      var rest := ScoredToots(toots[1..]);
      if Scoreable(toots[0]) {
        var x := CalculateRelevance(Some(toots[0])).value;
        assert ([x] + rest)[1..] == rest;
      }
    }
  }

  /** The scored toots stand in input order, each scoreable toot as often
      as in the input. */
  lemma ScoredTootsKeepOrder(toots: seq<Toot>)
    ensures IsSubsequence(Map(ScoredToots(toots), Unscored), toots)
    ensures forall t :: multiset(Map(ScoredToots(toots), Unscored))[t] == if Scoreable(t) then multiset(toots)[t] else 0
  {
    ScoredTootsIsFilter(toots);
    KeepIsSubsequence(toots, Scoreable);
    KeepCounts(toots, Scoreable);
  }

  /** Every scored toot comes from an input toot with that toot's score. */
  lemma {:induction false} ScoredTootsFromInput(toots: seq<Toot>)
    ensures forall x :: x in ScoredToots(toots) ==>
              Unscored(x) in toots && CalculateRelevance(Some(Unscored(x))) == Some(x)
  {
    if toots != [] {
      ScoredTootsFromInput(toots[1..]);
    }
  }

  /** Every toot that can be scored is there, with its score. */
  lemma {:induction false} ScoredTootsComplete(toots: seq<Toot>)
    ensures forall t :: t in toots && Scoreable(t) ==> CalculateRelevance(Some(t)).value in ScoredToots(toots)
  {
    if toots != [] {
      ScoredTootsComplete(toots[1..]);
      assert forall t :: t in toots ==> t == toots[0] || t in toots[1..];
    }
  }

  /** sortTootsByRelevance with the scorer's nulls skipped: the scored toots,
      highest score first. */
  function SortTootsByRelevance(toots: seq<Toot>): (r: seq<ScoredToot>)
    ensures multiset(r) == multiset(ScoredToots(toots))
    ensures SortedByScore(r)
    ensures |r| <= |toots|
  {
    SortByScore(ScoredToots(toots))
  }

  // ---------------------------------------------------------------- filters

  predicate IsIgnored(t: ScoredToot)
  {
    t.account.username in IgnoredAccounts
  }

  predicate Allowed(t: ScoredToot)
  {
    !IsIgnored(t)
  }

  /** removeIgnoredToots: the toots whose author is not on the denylist,
      in their original order. */
  function RemoveIgnoredToots(s: seq<ScoredToot>): (r: seq<ScoredToot>)
    ensures IsSubsequence(r, s)
    ensures forall x :: multiset(r)[x] == if IsIgnored(x) then 0 else multiset(s)[x]
  {
    KeepIsSubsequence(s, Allowed);
    KeepCounts(s, Allowed);
    Keep(s, Allowed)
  }

  /** `moment(toot.created_at).isSame(date, 'day')`, with the calendar day of
      a timestamp given by `dayOf`. */
  function OnDay(dayOf: Timestamp -> int, day: int): ScoredToot -> bool
  {
    (t: ScoredToot) => dayOf(t.createdAt) == day
  }

  /** filterTootsByDate: the toots created on `day`, in their original order. */
  function FilterTootsByDate(s: seq<ScoredToot>, dayOf: Timestamp -> int, day: int): (r: seq<ScoredToot>)
    ensures IsSubsequence(r, s)
    ensures forall x :: multiset(r)[x] == if dayOf(x.createdAt) == day then multiset(s)[x] else 0
  {
    KeepIsSubsequence(s, OnDay(dayOf, day));
    KeepCounts(s, OnDay(dayOf, day));
    Keep(s, OnDay(dayOf, day))
  }

  lemma RemoveIgnoredTootsIdempotent(s: seq<ScoredToot>)
    ensures RemoveIgnoredToots(RemoveIgnoredToots(s)) == RemoveIgnoredToots(s)
  {
    KeepIdempotent(s, Allowed);
  }

  lemma FilterTootsByDateIdempotent(s: seq<ScoredToot>, dayOf: Timestamp -> int, day: int)
    ensures FilterTootsByDate(FilterTootsByDate(s, dayOf, day), dayOf, day) == FilterTootsByDate(s, dayOf, day)
  {
    KeepIdempotent(s, OnDay(dayOf, day));
  }

  /** The denylist and date filters may run in either order. */
  lemma FiltersCommute(s: seq<ScoredToot>, dayOf: Timestamp -> int, day: int)
    ensures RemoveIgnoredToots(FilterTootsByDate(s, dayOf, day))
            == FilterTootsByDate(RemoveIgnoredToots(s), dayOf, day)
  {
    KeepCommutes(s, OnDay(dayOf, day), Allowed);
  }

  /** Filtering a ranked list leaves it ranked. */
  lemma {:induction false} KeepPreservesRanking(s: seq<ScoredToot>, p: ScoredToot -> bool)
    requires SortedByScore(s)
    ensures SortedByScore(Keep(s, p))
  {
    if s != [] {
      KeepPreservesRanking(s[1..], p);
      KeepMembership(s[1..], p);
      var rest := Keep(s[1..], p);
      forall y | y in rest ensures s[0].relevanceScore >= y.relevanceScore {
        var j :| 0 <= j < |s[1..]| && s[1..][j] == y;
        assert s[j + 1] == y;
      }
    }
  }

  // ---------------------------------------------------- as written (finding)

  /** What the source throws when the scorer's null reaches a later stage. */
  datatype Crash = NullRelevance

  /** `calculateRelevance` applied to a fetched toot. */
  function Relevance(t: Toot): Option<ScoredToot>
  {
    CalculateRelevance(Some(t))
  }

  /** The scores of a list in which no entry is null. */
  function Unwrapped(scored: seq<Option<ScoredToot>>): (r: seq<ScoredToot>)
    requires forall i :: 0 <= i < |scored| ==> scored[i].Some?
    ensures |r| == |scored| && forall i :: 0 <= i < |r| ==> Some(r[i]) == scored[i]
  {
    seq(|scored|, i requires 0 <= i < |scored| => scored[i].value)
  }

  /** Lines 198-206 as written: `toots.map(calculateRelevance)` keeps the
      scorer's nulls in the list, and the sort comparator (or, for a single
      toot, removeIgnoredToots) reads a property of null and throws. */
  function RankAsWritten(toots: seq<Toot>): (r: Result<seq<ScoredToot>, Crash>)
    ensures r.Failure? <==> exists i :: 0 <= i < |toots| && !Scoreable(toots[i])
  {
    var scored := Map(toots, Relevance);
    if forall i :: 0 <= i < |scored| ==> scored[i].Some? then
      Success(RemoveIgnoredToots(SortByScore(Unwrapped(scored))))
    else
      Failure(NullRelevance)
  }

  /** One toot without an account crashes the stages as written, while the
      corrected ranking simply skips it. */
  lemma AccountlessTootCrashesRanking()
    ensures var t := Toot("1", 0, 0, 0, None);
            RankAsWritten([t]) == Failure(NullRelevance)
            && RemoveIgnoredToots(SortTootsByRelevance([t])) == []
  {
    var t := Toot("1", 0, 0, 0, None);
    assert !Scoreable([t][0]);
  }

  /** Where the code as written does not crash, it agrees with the corrected ranking. */
  lemma RankAsWrittenAgrees(toots: seq<Toot>)
    requires RankAsWritten(toots).Success?
    ensures RankAsWritten(toots).value == RemoveIgnoredToots(SortTootsByRelevance(toots))
    ensures |SortTootsByRelevance(toots)| == |toots|
  {
    ScoredTootsAllScoreable(toots);
    var scored := Map(toots, Relevance);
    assert Unwrapped(scored) == ScoredToots(toots) by {
      forall i | 0 <= i < |toots| ensures Unwrapped(scored)[i] == ScoredToots(toots)[i] {
        assert Some(Unwrapped(scored)[i]) == Relevance(toots[i]);
      }
    }
  }
}
