/** main without the prompt: pick the day's hashtag, rank and filter the
    fetched toots, and compose the digest that would be offered for posting. */
module Pipeline {
  import opened Wrappers
  import opened JsValues
  import opened Sequences
  import opened Toots
  import opened Usage
  import opened Digest
  import opened Publish

  /** One hashtag per weekday, Sunday first. */
  const Hashtags: seq<string> := [
    "almocodedomingo",
    "segundaficha",
    "tercinema",
    "quartacapa",
    "musiquinta",
    "sextaserie",
    "caturday"
  ]

  /** `hashtags[new Date().getDay()]`: the tag of the day, never empty, and
      a different one for each weekday. */
  function HashtagOfDay(weekday: nat): (h: string)
    requires weekday < 7
    ensures h != ""
    ensures forall d :: 0 <= d < 7 && d != weekday ==> Hashtags[d] != h
  {
    Hashtags[weekday]
  }

  /** Lines 256-259: rank the fetched toots, drop denylisted authors, keep
      today's. */
  function TodaysToots(fetched: seq<Toot>, dayOf: Timestamp -> int, today: int): seq<ScoredToot>
  {
    FilterTootsByDate(RemoveIgnoredToots(SortTootsByRelevance(fetched)), dayOf, today)
  }

  /** Today's toots are ranked, none is by a denylisted author, all are of
      today, and every scored input toot meeting both conditions is there. */
  lemma TodaysTootsSpec(fetched: seq<Toot>, dayOf: Timestamp -> int, today: int)
    ensures SortedByScore(TodaysToots(fetched, dayOf, today))
    ensures forall x :: x in TodaysToots(fetched, dayOf, today) <==>
              x in ScoredToots(fetched) && !IsIgnored(x) && dayOf(x.createdAt) == today
  {
    var ranked := SortTootsByRelevance(fetched);
    var allowed := RemoveIgnoredToots(ranked);
    KeepPreservesRanking(ranked, Allowed);
    KeepPreservesRanking(allowed, OnDay(dayOf, today));
    var r := TodaysToots(fetched, dayOf, today);
    forall x ensures x in r <==> x in ScoredToots(fetched) && !IsIgnored(x) && dayOf(x.createdAt) == today {
      assert x in r <==> multiset(r)[x] > 0;
      assert x in allowed <==> multiset(allowed)[x] > 0;
      assert x in ranked <==> multiset(ranked)[x] > 0;
      assert x in ScoredToots(fetched) <==> multiset(ScoredToots(fetched))[x] > 0;
    }
  }

  /** Lines 253-260: the digest of the day, or null when nothing is left. */
  function DailyDigest(weekday: nat, fetched: seq<Toot>, dayOf: Timestamp -> int, today: int,
                       hist: Option<seq<Option<HistoryEntry>>>): (r: Option<string>)
    requires weekday < 7
    ensures r.None? <==> TodaysToots(fetched, dayOf, today) == []
  {
    GenerateTootText(HashtagOfDay(weekday), Some(TodaysToots(fetched, dayOf, today)), hist)
  }

  /** The toots the digest shows are the best-ranked of the day: none left
      out scores higher than one shown. */
  lemma DigestShowsBestRanked(fetched: seq<Toot>, dayOf: Timestamp -> int, today: int, i: nat, j: nat)
    requires var todays := TodaysToots(fetched, dayOf, today);
             i < Shown(|todays|) <= j < |todays|
    ensures var todays := TodaysToots(fetched, dayOf, today);
            todays[i].relevanceScore >= todays[j].relevanceScore
  {
    TodaysTootsSpec(fetched, dayOf, today);
  }

  /** A digest, when there is one, passes createToot's checks; when there is
      none, answering yes makes createToot throw before any request. */
  lemma DigestAcceptedForPosting(weekday: nat, fetched: seq<Toot>, dayOf: Timestamp -> int, today: int,
                                 hist: Option<seq<Option<HistoryEntry>>>)
    requires weekday < 7
    ensures var d := DailyDigest(weekday, fetched, dayOf, today, hist);
            d.Some? ==> CreateToot(StringText(d.value)).Success?
    ensures var d := DailyDigest(weekday, fetched, dayOf, today, hist);
            d.None? ==> CreateToot(NullText) == Failure(NullDereference)
  {
    var todays := TodaysToots(fetched, dayOf, today);
    if todays != [] {
      DigestNotBlank(HashtagOfDay(weekday), todays, hist);
    }
  }
}
