/** The tweet embed component (src/components/TwitterEmbed.tsx): it extracts
    the status ID with its own copy of the tweet pattern and shows either the
    embedded tweet or an "Invalid tweet URL format" notice. */
module TwitterEmbed {
  import opened Wrappers
  import opened Strings
  import opened TweetHelpers

  /** `getTweetId`: the same pattern as `extractTweetId`, with "" for no match. */
  function GetTweetId(url: string): (id: string)
    ensures id == "" <==> ExtractTweetId(url).None?
    ensures id != "" ==> ExtractTweetId(url) == Some(id)
    ensures AllDigits(id)
  {
    match ExtractTweetId(url)
    case Some(m) => m
    case None => ""
  }

  /** What the component renders. */
  datatype EmbedView = InvalidTweetUrl | TweetCard(id: string)

  /** `if (!tweetId)` picks the fallback; otherwise the tweet is embedded. */
  function Render(tweetUrl: string): (v: EmbedView)
    ensures v.InvalidTweetUrl? <==> ExtractTweetId(tweetUrl).None?
    ensures v.TweetCard? ==> |v.id| > 0 && AllDigits(v.id) && ExtractTweetId(tweetUrl) == Some(v.id)
  {
    var tweetId := GetTweetId(tweetUrl);
    if tweetId == "" then InvalidTweetUrl else TweetCard(tweetId)
  }

  /** A link that `isTweetUrl` accepts can still reach the fallback: the
      article body sends `x.com/status/1` here, and it is shown as invalid. */
  lemma TweetUrlCanRenderInvalid()
    ensures IsTweetUrl("x.com/status/1") && Render("x.com/status/1") == InvalidTweetUrl
  {
    TweetUrlWithoutHandle();
  }

  /** Every embedded tweet comes from a link `isTweetUrl` accepts. */
  lemma EmbeddedIsTweetUrl(tweetUrl: string)
    requires Render(tweetUrl).TweetCard?
    ensures IsTweetUrl(tweetUrl)
  {
    ExtractedImpliesTweetUrl(tweetUrl);
  }
}
