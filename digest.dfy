/** generateTootLink and generateTootText: the digest toot. The usage
    history the source fetches from the tag endpoint (twice) is a parameter. */
module Digest {
  import opened Wrappers
  import opened JsValues
  import opened Toots
  import opened Usage
  import opened Sequences

  const StatusBaseUrl: string := "https://ursal.zone/web/statuses/"

  /** The digest shows at most this many toots, from the front of the list. */
  const MaxPosts: nat := 5

  /** generateTootLink: the web permalink of a status. */
  function TootLink(id: string): string
  {
    StatusBaseUrl + id
  }

  /** A permalink is the status base URL followed by exactly the status id. */
  lemma TootLinkParts(id: string)
    ensures StatusBaseUrl <= TootLink(id) && TootLink(id)[|StatusBaseUrl|..] == id
  {
  }

  /** Distinct statuses get distinct permalinks. */
  lemma TootLinkInjective(a: string, b: string)
    requires TootLink(a) == TootLink(b)
    ensures a == b
  {
    TootLinkParts(a);
    TootLinkParts(b);
  }

  /** `${relevanceScore}` for a score of `tenths` tenths: "12.3", or "12"
      when there is no fractional part. */
  function ScoreText(tenths: nat): string
  {
    if tenths % 10 == 0 then NatToString(tenths / 10)
    else NatToString(tenths / 10) + "." + [DigitChar(tenths % 10)]
  }

  /** Reads a score in tenths back from its text. */
  function ParseScore(s: string): nat
  {
    var p := LeadingDigits(s);
    if |p| + 2 == |s| && s[|p|] == '.' && IsDigit(s[|p| + 1]) then DigitsValue(p) * 10 + DigitValue(s[|p| + 1])
    else DigitsValue(p) * 10
  }

  /** The score the digest prints reads back as the score itself. */
  lemma ParseScoreText(tenths: nat)
    ensures ParseScore(ScoreText(tenths)) == tenths
  {
    var p := NatToString(tenths / 10);
    DigitsValueOfNatToString(tenths / 10);
    if tenths % 10 == 0 {
      LeadingDigitsOfDigits(p);
    } else {
      var rest := "." + [DigitChar(tenths % 10)];
      var s := ScoreText(tenths);
      assert s == p + rest;
      LeadingDigitsOfDigitsThen(p, rest);
      assert s[|p|] == '.' && s[|p| + 1] == DigitChar(tenths % 10);
      assert DigitValue(s[|p| + 1]) == tenths % 10;
    }
  }

  /** Distinct scores print differently. */
  lemma ScoreTextInjective(a: nat, b: nat)
    requires ScoreText(a) == ScoreText(b)
    ensures a == b
  {
    ParseScoreText(a);
    ParseScoreText(b);
  }

  /** `${account.followers_count}`: a missing count prints as "undefined". */
  function FollowersText(n: Option<nat>): string
  {
    match n
    case Some(k) => NatToString(k)
    case None => "undefined"
  }

  /** `${x || 'unknown'}` for an optional string field: never printed blank. */
  function OrUnknown(s: Option<string>): (r: string)
    ensures |r| > 0
  {
    if Truthy(s) then s.value else "unknown"
  }

  /** The block the digest shows for one toot: author line, counts, permalink. */
  function PostBlock(t: ScoredToot): string
  {
    AuthorLine(t) + (PostStats(t) + LinkLine(t.id))
  }

  /** A post block opens with its author line and ends with its permalink line. */
  lemma PostBlockLayout(t: ScoredToot)
    ensures AuthorLine(t) <= PostBlock(t)
    ensures EndsWith(PostBlock(t), LinkLine(t.id))
  {
    Framed(PostBlock(t), AuthorLine(t), PostStats(t), LinkLine(t.id));
  }

  /** The first line of a post block. */
  function AuthorLine(t: ScoredToot): string
  {
    "Publicado por " + t.account.username + "\n"
  }

  /** Follower count, favourites, boosts and score of one toot. */
  function PostStats(t: ScoredToot): string
  {
    "Seguidores: " + FollowersText(t.account.followersCount) + "\n"
    + "\U{2B50} " + NatToString(t.favouritesCount) + " "
    + "\U{1F504} " + NatToString(t.reblogsCount) + " "
    + "\U{1F4C8} " + ScoreText(t.relevanceScore) + "\n"
  }

  /** The last line of a post block. */
  function LinkLine(id: string): string
  {
    "\U{1F517} " + TootLink(id) + "\n\n"
  }

  /** The parts of a list, one after the other. */
  function Concat(parts: seq<string>): string
  {
    if parts == [] then [] else parts[0] + Concat(parts[1..])
  }

  lemma {:induction false} ConcatAppend(a: seq<string>, b: seq<string>)
    ensures Concat(a + b) == Concat(a) + Concat(b)
  {
    if a == [] {
      assert a + b == b;
    } else {
      ConcatAppend(a[1..], b);
      assert (a + b)[1..] == a[1..] + b;
      assert (a + b)[0] == a[0];
      Regroup(a[0], Concat(a[1..]), Concat(b));
    }
  }

  lemma Regroup(x: string, y: string, z: string)
    ensures x + (y + z) == (x + y) + z
  {
  }

  /** A list split around its `i`-th part. */
  lemma ConcatAround(parts: seq<string>, i: nat)
    requires i < |parts|
    ensures Concat(parts) == Concat(parts[..i]) + (parts[i] + Concat(parts[i + 1..]))
  {
    var rest := parts[i..];
    assert parts == parts[..i] + rest;
    ConcatAppend(parts[..i], rest);
    assert rest[0] == parts[i] && rest[1..] == parts[i + 1..];
  }

  /** The block of each toot of `s`, in order. */
  function BlockList(s: seq<ScoredToot>): seq<string>
  {
    Map(s, PostBlock)
  }

  /** The blocks of `s`, one after the other. */
  function Blocks(s: seq<ScoredToot>): string
  {
    Concat(BlockList(s))
  }

  /** `history?.[0]`: today's entry, when the history has one. */
  function FirstEntry(hist: Option<seq<Option<HistoryEntry>>>): Option<HistoryEntry>
  {
    if hist.Some? && |hist.value| > 0 then hist.value[0] else None
  }

  /** The title line of the digest. */
  function TitleLine(hashtag: string): string
  {
    "Tag do dia: #" + hashtag + "\n\n"
  }

  /** The weekly usage line. */
  function WeeklyLine(total: Number): string
  {
    "Uso da tag na semana: " + NumberText(total) + "\n"
  }

  /** `history?.accounts`. */
  function TodayAccounts(today: Option<HistoryEntry>): Option<string>
  {
    if today.Some? then today.value.accounts else None
  }

  /** `history?.uses`. */
  function TodayUses(today: Option<HistoryEntry>): Option<string>
  {
    if today.Some? then today.value.uses else None
  }

  /** The lines on today's usage: participants and posts, "unknown" when absent. */
  function UsageLines(today: Option<HistoryEntry>): string
  {
    "Participantes: " + OrUnknown(TodayAccounts(today)) + "\n"
    + "Posts hoje: " + OrUnknown(TodayUses(today)) + "\n\n"
  }

  /** Today's usage, then the heading of the post blocks. */
  function TodayLines(today: Option<HistoryEntry>): string
  {
    UsageLines(today) + "Principais posts de hoje:\n\n"
  }

  /** Everything above the first post block. */
  function Header(hashtag: string, hist: Option<seq<Option<HistoryEntry>>>): string
  {
    TitleLine(hashtag) + WeeklyLine(SumOfUses(hist)) + TodayLines(FirstEntry(hist))
  }

  /** How many toots the digest shows. */
  function Shown(n: nat): (k: nat)
    ensures k <= n && k <= MaxPosts
    ensures k == n || k == MaxPosts
  {
    if n < MaxPosts then n else MaxPosts
  }

  /** generateTootText: null when the hashtag is empty or there are no toots;
      otherwise the header followed by the blocks of the first five toots. */
  function GenerateTootText(hashtag: string, toots: Option<seq<ScoredToot>>,
                            hist: Option<seq<Option<HistoryEntry>>>): (r: Option<string>)
    ensures r.None? <==> hashtag == "" || toots.None? || |toots.value| == 0
  {
    if hashtag == "" || toots.None? || |toots.value| == 0 then None
    else
      var s := toots.value;
      Some(Header(hashtag, hist) + Blocks(s[..Shown(|s|)]))
  }

  /** A non-null digest is the header followed by the blocks of the first min(5, n) toots. */
  lemma DigestSplit(hashtag: string, toots: seq<ScoredToot>, hist: Option<seq<Option<HistoryEntry>>>)
    requires hashtag != "" && toots != []
    ensures GenerateTootText(hashtag, Some(toots), hist).value
            == Header(hashtag, hist) + Blocks(toots[..Shown(|toots|)])
  {
  }

  /** A non-null digest opens with its title and the weekly usage line. */
  lemma DigestOpensWithTitle(hashtag: string, toots: seq<ScoredToot>, hist: Option<seq<Option<HistoryEntry>>>)
    requires hashtag != "" && toots != []
    ensures TitleLine(hashtag) + WeeklyLine(SumOfUses(hist)) <= GenerateTootText(hashtag, Some(toots), hist).value
  {
    PrefixOfRegrouped(GenerateTootText(hashtag, Some(toots), hist).value, TitleLine(hashtag), WeeklyLine(SumOfUses(hist)),
                      TodayLines(FirstEntry(hist)), Blocks(toots[..Shown(|toots|)]));
  }

  lemma PrefixOfRegrouped(text: string, a: string, b: string, c: string, d: string)
    requires text == ((a + b) + c) + d
    ensures a + b <= text
  {
    assert text == (a + b) + (c + d);
  }

  /** Right after the title and the weekly line, a non-null digest shows
      today's participants and posts, each `unknown` when absent or empty. */
  lemma DigestShowsTodayUsage(hashtag: string, toots: seq<ScoredToot>, hist: Option<seq<Option<HistoryEntry>>>)
    requires hashtag != "" && toots != []
    ensures OccursAt(GenerateTootText(hashtag, Some(toots), hist).value,
                     |TitleLine(hashtag) + WeeklyLine(SumOfUses(hist))|, UsageLines(FirstEntry(hist)))
  {
    var opening := TitleLine(hashtag) + WeeklyLine(SumOfUses(hist));
    var usage := UsageLines(FirstEntry(hist));
    var rest := "Principais posts de hoje:\n\n" + Blocks(toots[..Shown(|toots|)]);
    Reassociate(GenerateTootText(hashtag, Some(toots), hist).value, opening, usage,
                "Principais posts de hoje:\n\n", Blocks(toots[..Shown(|toots|)]));
    SliceAt(GenerateTootText(hashtag, Some(toots), hist).value, opening, usage, rest);
  }

  lemma Reassociate(text: string, x: string, u: string, p: string, d: string)
    requires text == (x + (u + p)) + d
    ensures text == x + (u + (p + d))
  {
    assert (u + p) + d == u + (p + d);
  }

  /** With no entry for today, both usage fields of the digest read `unknown`. */
  lemma MissingHistoryShowsUnknown(hashtag: string, toots: seq<ScoredToot>, hist: Option<seq<Option<HistoryEntry>>>)
    requires hashtag != "" && toots != [] && FirstEntry(hist).None?
    ensures OccursAt(GenerateTootText(hashtag, Some(toots), hist).value,
                     |TitleLine(hashtag) + WeeklyLine(SumOfUses(hist))|,
                     "Participantes: " + "unknown" + "\n" + "Posts hoje: " + "unknown" + "\n\n")
  {
    DigestShowsTodayUsage(hashtag, toots, hist);
    UnknownUsageLines();
  }

  /** The usage lines for a day without an entry. */
  lemma UnknownUsageLines()
    ensures UsageLines(None) == "Participantes: " + "unknown" + "\n" + "Posts hoje: " + "unknown" + "\n\n"
  {
    assert OrUnknown(None) == "unknown";
  }

  /** A non-null digest is never blank: it opens with its title. */
  lemma DigestNotBlank(hashtag: string, toots: seq<ScoredToot>, hist: Option<seq<Option<HistoryEntry>>>)
    requires hashtag != "" && toots != []
    ensures !AllWhitespace(GenerateTootText(hashtag, Some(toots), hist).value)
  {
    var text := GenerateTootText(hashtag, Some(toots), hist).value;
    assert TitleLine(hashtag)[0] == 'T';
    assert text[0] == 'T';
  }

  /** Only the first five toots matter. */
  lemma DigestUsesOnlyFirstFive(hashtag: string, toots: seq<ScoredToot>, hist: Option<seq<Option<HistoryEntry>>>)
    requires |toots| >= MaxPosts
    ensures GenerateTootText(hashtag, Some(toots), hist) == GenerateTootText(hashtag, Some(toots[..MaxPosts]), hist)
  {
    assert toots[..MaxPosts][..MaxPosts] == toots[..MaxPosts];
  }

  lemma SliceAt(text: string, w: string, y: string, z: string)
    requires text == w + (y + z)
    ensures OccursAt(text, |w|, y)
  {
    assert text[|w|..|w| + |y|] == y;
  }

  /** The block of the `i`-th toot, for each `i` below min(5, n), stands in
      the digest right after the header and the blocks of the toots before it. */
  lemma DigestShowsPost(hashtag: string, toots: seq<ScoredToot>, hist: Option<seq<Option<HistoryEntry>>>, i: nat)
    requires hashtag != "" && i < Shown(|toots|)
    ensures OccursAt(GenerateTootText(hashtag, Some(toots), hist).value,
                     |Header(hashtag, hist) + Blocks(toots[..i])|, PostBlock(toots[i]))
  {
    DigestSplit(hashtag, toots, hist);
    BlocksShowPost(toots, Shown(|toots|), i);
    OccursAfter(GenerateTootText(hashtag, Some(toots), hist).value, Header(hashtag, hist),
                Blocks(toots[..Shown(|toots|)]), Blocks(toots[..i]), PostBlock(toots[i]));
  }

  /** Among the blocks of the first `k` toots, the block of the `i`-th
      stands right after the blocks of the toots before it. */
  lemma BlocksShowPost(toots: seq<ScoredToot>, k: nat, i: nat)
    requires i < k <= |toots|
    ensures OccursAt(Blocks(toots[..k]), |Blocks(toots[..i])|, PostBlock(toots[i]))
  {
    ShownBlocks(toots, k, i);
    PartAt(Blocks(toots[..k]), Blocks(toots[..i]), PostBlock(toots[i]), BlockList(toots[..k]), i);
  }

  /** The blocks of the first `k` toots, cut before the `i`-th, are the
      blocks of the first `i` toots; the `i`-th is the block of `toots[i]`. */
  lemma ShownBlocks(toots: seq<ScoredToot>, k: nat, i: nat)
    requires i < k <= |toots|
    ensures Concat(BlockList(toots[..k])[..i]) == Blocks(toots[..i])
    ensures BlockList(toots[..k])[i] == PostBlock(toots[i])
  {
    MapPrefix(toots[..k], PostBlock, i);
    assert toots[..k][..i] == toots[..i];
  }

  /** The `i`-th part of a list stands right after the parts before it. */
  lemma PartAt(text: string, before: string, piece: string, parts: seq<string>, i: nat)
    requires i < |parts| && text == Concat(parts)
    requires before == Concat(parts[..i]) && piece == parts[i]
    ensures OccursAt(text, |before|, piece)
  {
    ConcatAround(parts, i);
    SliceAt(text, before, piece, Concat(parts[i + 1..]));
  }

  /** A list whose last part ends with `piece` joins into a text ending with `piece`. */
  lemma LastPartEnds(text: string, piece: string, parts: seq<string>)
    requires parts != [] && text == Concat(parts) && EndsWith(parts[|parts| - 1], piece)
    ensures EndsWith(text, piece)
  {
    ConcatLast(parts);
    EndsAfter(text, Concat(parts[..|parts| - 1]), parts[|parts| - 1], piece);
  }

  /** Joined parts are the parts but the last, then the last. */
  lemma ConcatLast(parts: seq<string>)
    requires parts != []
    ensures Concat(parts) == Concat(parts[..|parts| - 1]) + parts[|parts| - 1]
  {
    var init, last := parts[..|parts| - 1], parts[|parts| - 1];
    assert parts == init + [last];
    ConcatAppend(init, [last]);
    assert Concat([last]) == last + Concat([]);
  }

  /** `a + (b + c)` starts with `a` and ends with `c`. */
  lemma Framed(text: string, a: string, b: string, c: string)
    requires text == a + (b + c)
    ensures a <= text && EndsWith(text, c)
  {
    assert text == (a + b) + c;
    assert text[|a + b|..] == c;
  }

  /** What `body` ends with, `head + body` ends with. */
  lemma EndsAfter(text: string, head: string, body: string, piece: string)
    requires text == head + body && EndsWith(body, piece)
    ensures EndsWith(text, piece)
  {
    assert text[|text| - |piece|..] == body[|body| - |piece|..];
  }

  /** The blocks of a non-empty list of toots end with the permalink line of its last toot. */
  lemma BlocksEndWithLastLink(shown: seq<ScoredToot>)
    requires shown != []
    ensures EndsWith(Blocks(shown), LinkLine(Last(shown).id))
  {
    var parts := BlockList(shown);
    PostBlockLayout(Last(shown));
    assert parts[|parts| - 1] == PostBlock(Last(shown));
    LastPartEnds(Blocks(shown), LinkLine(Last(shown).id), parts);
  }

  /** A non-null digest ends with the permalink line of the last toot it shows. */
  lemma DigestEndsWithLastLink(hashtag: string, toots: seq<ScoredToot>, hist: Option<seq<Option<HistoryEntry>>>)
    requires hashtag != "" && toots != []
    ensures EndsWith(GenerateTootText(hashtag, Some(toots), hist).value, LinkLine(Last(toots[..Shown(|toots|)]).id))
  {
    DigestSplit(hashtag, toots, hist);
    BlocksEndWithLastLink(toots[..Shown(|toots|)]);
    EndsAfter(GenerateTootText(hashtag, Some(toots), hist).value, Header(hashtag, hist),
              Blocks(toots[..Shown(|toots|)]), LinkLine(Last(toots[..Shown(|toots|)]).id));
  }
}
