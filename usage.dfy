/** Tag usage history and calculateSumOfUses. The history is what the tag
    endpoint returns in `history`: one entry per day, most recent first, with
    `uses` and `accounts` as decimal strings. */
module Usage {
  import opened Wrappers
  import opened JsValues

  datatype HistoryEntry = HistoryEntry(day: string, uses: Option<string>, accounts: Option<string>)

  /** `entry && entry.uses`: the entries the sum reads. */
  predicate Counted(e: Option<HistoryEntry>)
  {
    e.Some? && Truthy(e.value.uses)
  }

  /** The running total after the entries of `s`, in order. */
  function UsesTotal(s: seq<Option<HistoryEntry>>): Number
  {
    if s == [] then Num(0)
    else
      var last := s[|s| - 1];
      var before := UsesTotal(s[..|s| - 1]);
      if Counted(last) then Add(before, ParseInt(last.value.uses.value)) else before
  }

  /** calculateSumOfUses on its argument: 0 for a missing history. */
  function SumOfUses(hist: Option<seq<Option<HistoryEntry>>>): Number
  {
    match hist
    case None => Num(0)
    case Some(s) => UsesTotal(s)
  }

  /** calculateSumOfUses. */
  method CalculateSumOfUses(hist: Option<seq<Option<HistoryEntry>>>) returns (total: Number)
    ensures total == SumOfUses(hist)
  {
    if hist.None? {
      return Num(0);
    }
    var entries := hist.value;
    total := Num(0);
    for i := 0 to |entries|
      invariant total == UsesTotal(entries[..i])
    {
      var entry := entries[i];
      assert entries[..i + 1][..i] == entries[..i];
      if entry.Some? && Truthy(entry.value.uses) {
        total := Add(total, ParseInt(entry.value.uses.value));
      }
    }
    assert entries[..|entries|] == entries;
  }

  /** Summing two stretches of history separately and adding gives the total. */
  lemma {:induction false} UsesTotalAppend(a: seq<Option<HistoryEntry>>, b: seq<Option<HistoryEntry>>)
    ensures UsesTotal(a + b) == Add(UsesTotal(a), UsesTotal(b))
  {
    if b == [] {
      assert a + b == a;
    } else {
      var b' := b[..|b| - 1];
      UsesTotalAppend(a, b');
      assert (a + b)[..|a + b| - 1] == a + b';
      assert (a + b)[|a + b| - 1] == b[|b| - 1];
    }
  }

  /** The total is NaN exactly when some counted entry's `uses` does not start with a digit. */
  lemma {:induction false} UsesTotalNaN(s: seq<Option<HistoryEntry>>)
    ensures UsesTotal(s).NaN? <==>
            exists i :: 0 <= i < |s| && Counted(s[i]) && ParseInt(s[i].value.uses.value).NaN?
  {
    if s != [] {
      var init := s[..|s| - 1];
      UsesTotalNaN(init);
      assert forall i :: 0 <= i < |init| ==> init[i] == s[i];
    }
  }

  /** Entries that are null or have no `uses` add nothing. */
  lemma {:induction false} UncountedEntriesAddNothing(s: seq<Option<HistoryEntry>>, e: Option<HistoryEntry>)
    requires !Counted(e)
    ensures UsesTotal(s + [e]) == UsesTotal(s) && UsesTotal([e] + s) == UsesTotal(s)
  {
    assert (s + [e])[..|s|] == s;
    UsesTotalAppend([e], s);
    assert [e][..0] == [];
  }

  /** A history whose counts were written as `${n}` sums to the sum of the counts. */
  lemma {:induction false} UsesTotalOfWrittenCounts(counts: seq<nat>)
    ensures UsesTotal(seq(|counts|, i requires 0 <= i < |counts| =>
                        Some(HistoryEntry("", Some(NatToString(counts[i])), None))))
            == Num(Sum(counts))
  {
    if counts != [] {
      var init := counts[..|counts| - 1];
      UsesTotalOfWrittenCounts(init);
      var s := seq(|counts|, i requires 0 <= i < |counts| =>
                     Some(HistoryEntry("", Some(NatToString(counts[i])), None)));
      assert s[..|s| - 1] == seq(|init|, i requires 0 <= i < |init| =>
                                  Some(HistoryEntry("", Some(NatToString(init[i])), None)));
      ParseIntOfNatToString(counts[|counts| - 1]);
      SumOfInit(counts);
    }
  }

  function Sum(s: seq<nat>): nat
  {
    if s == [] then 0 else s[0] + Sum(s[1..])
  }

  lemma {:induction false} SumOfInit(s: seq<nat>)
    requires s != []
    ensures Sum(s) == Sum(s[..|s| - 1]) + s[|s| - 1]
  {
    if |s| > 1 {
      SumOfInit(s[1..]);
      assert s[1..][..|s| - 2] == s[..|s| - 1][1..];
    }
  }
}
