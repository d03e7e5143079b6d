# BlacklistDB front end: a Dafny model of its logic

This project models the parts of the BlacklistDB web front end (a React site
for reporting scammers and publishing a blog) that hold logic rather than
markup, and proves properties of them with Dafny 4.11.

- **Blog store** (`BlogContext`). The featured post is the first flagged post.
  The regular posts are the others, compared by id. The search is
  case-insensitive. `fetchPosts` builds the content query and updates state.
  The read-time rule written into the query is a step function of length.
- **Report store** (`ScamReportsContext`). A class with the fields `reports`,
  `banks`, `loading` and `error`. Each remote call takes its outcome as a
  parameter (`Success(data)` or `Failure(thrown)`).
- **Tweet links** (`TweetHelpers`, `TwitterEmbed`). `isTweetUrl` and a
  hand-written matcher for the pattern `(?:twitter|x)\.com\/\w+\/status\/(\d+)`.
  The matcher is proved against a declarative description of an occurrence:
  - it finds every occurrence;
  - it returns only occurrences;
  - it returns the leftmost one, with the maximal digit run.
  The embed component calls the same matcher; its regular expression literal
  is identical to the helper's. What is proved about it is that it yields ""
  exactly where the matcher yields null, and the same ID otherwise.
- **Article card and article page** (`BlogCard`, `BlogPostDetail`). Excerpt
  truncation, defaults and fallbacks, link and block classification, and
  view selection. Fetching and the Like/Save toggles are methods of a page
  class.
- **Report form** (`ReportScammerDialog`). The eleven text fields, updated one
  at a time as an ordered list of entries. Two file slots. The multipart
  payload, built by a loop. The reset after a successful submission.
- **Head manager** (`SeoMeta`). The document head is a sequence of elements,
  each with a tag and an attribute map. The model covers:
  - `updateMetaTag` (find or append);
  - the effect that writes the title, the meta tags, the per-tag elements,
    the canonical link and the structured-data script;
  - the cleanup that removes every element marked `data-seo-tag="true"`.
  It is proved that each of the twelve header values, given non-empty, is
  found in the final head holding that value, and that of the elements the
  header updates append only the description carries a `name`. On an
  article page the published time and the author are written exactly when
  given non-empty. The canonical lookup finds a link with the URL. When the
  canonical URL is absolute, mount followed by unmount keeps exactly the
  unmarked elements that were there before, and any `content` or `href` the
  effect wrote into them stays written. When it is not, `new URL` throws
  before the script is appended, no cleanup is registered, and every marked
  element stays.
- **Donation page and FAQ** (`Donate`, `Faq`). Mutually exclusive preset and
  custom amounts with the submit decision, and a single-open accordion.

Shared modules: `Wrappers` (Option, Outcome), `Strings` (substring and prefix
tests, ASCII lower-casing, JavaScript `trim`, `||` on strings, decimal
printing) and `Sequences` (subsequence, filter).

Two behaviours follow from the code as written:
- The head cleanup does not restore the `content` or `href` values it
  overwrote in elements the page already had
  (`SeoMeta.OverwrittenDescriptionSurvives`).
- The article page keeps its spinner when it has no slug
  (`BlogPostDetail.OpenPage`).

Remote calls and the `parseFloat` result are inputs to the members that use
them. Whether `new URL(canonicalUrl)` succeeds is an input to the head effect. An asynchronous operation is modelled as one step from its
start to its completion.

## Model

| member | source | states |
|---|---|---|
| BlogContext.FeaturedPost | src/context/BlogContext.tsx:53 | no post is featured exactly when no post is flagged; otherwise the result is a flagged post with no flagged post before it |
| BlogContext.RegularPosts | src/context/BlogContext.tsx:56-58 | the whole list when nothing is featured; otherwise every post whose id differs from the featured one, and no other, in list order; never the featured post |
| BlogContext.SearchPosts | src/context/BlogContext.tsx:112-122 | a blank term returns the regular posts; otherwise every regular post that matches the untrimmed term and only those, as a subsequence of the regular posts |
| BlogContext.SearchExcludesFeatured | src/context/BlogContext.tsx:112-122 | search never returns the featured post and only returns fetched posts |
| BlogContext.SearchIgnoresTermCase | src/context/BlogContext.tsx:117-119 | the match is unchanged when the term is lower-cased first |
| BlogContext.MatchesTerm | src/context/BlogContext.tsx:115-120 | the search filter: the lower-cased title contains the lower-cased term, or a non-empty excerpt does (its properties are in SearchPosts and SearchIgnoresTermCase) |
| BlogContext.EffectiveLimit | src/context/BlogContext.tsx:70 | the JavaScript truthiness of `limit`: a limit takes effect if and only if it is given and non-zero, and then it is that limit |
| BlogContext.LimitSlice | src/context/BlogContext.tsx:70-72 | the `[0...limit]` slice is empty unless the limit is given and non-zero, and then it is bracketed |
| BlogContext.LimitSliceReadsBack | src/context/BlogContext.tsx:70-72 | when the limit takes effect, the text between `[0...` and `]` is the decimal form of that limit and reads back as it, with a minus sign exactly for a negative limit |
| BlogContext.BuildQuery | src/context/BlogContext.tsx:67-95 | the query is the type filter and ordering, then the slice, then the projection, each at its position |
| BlogContext.BuildQueryInjective | src/context/BlogContext.tsx:67-95 | two limits give the same query if and only if they have the same effect (both absent or zero, or equal) |
| BlogContext.QueryHasReadTimeRule | src/context/BlogContext.tsx:75-95 | every query contains the read-time `select` rule right after the projection's leading fields |
| BlogContext.ReadTime | src/context/BlogContext.tsx:82-87 | each label, in both directions, for its band of text lengths |
| BlogContext.ReadTimeMonotone | src/context/BlogContext.tsx:82-87 | a longer body never gets a shorter label |
| BlogContext.ReadTimeBoundaries | src/context/BlogContext.tsx:83-86 | lengths 2000, 4000 and 8000 fall in the next bucket |
| BlogContext.StoredError | src/context/BlogContext.tsx:101-105 | a thrown `Error` is stored as is; any other thrown value becomes the fallback message |
| BlogContext.BlogStore.constructor | src/context/BlogContext.tsx:48-50 | no posts, not loading, no error |
| BlogContext.BlogStore.FetchPosts | src/context/BlogContext.tsx:61-108 | sends the built query; success stores the posts and leaves the error cleared; failure keeps the posts and stores the error; loading is off at the end |
| ScamReportsContext.ScamReportsStore.constructor | src/context/ScamReportsContext.tsx:45-48 | empty lists, not loading, no error |
| ScamReportsContext.ScamReportsStore.FetchReports | src/context/ScamReportsContext.tsx:55-66 | success replaces the reports; failure keeps them and sets the fixed message; banks untouched; loading off; nothing raised |
| ScamReportsContext.ScamReportsStore.FetchBanks | src/context/ScamReportsContext.tsx:68-80 | success replaces the banks; failure keeps them and sets the fixed message; reports untouched; loading off; nothing raised |
| ScamReportsContext.ScamReportsStore.CreateReport | src/context/ScamReportsContext.tsx:82-102 | success puts exactly the new report in front; failure keeps the reports, sets the fixed message and re-raises the failure |
| ScamReportsContext.ScamReportsStore.Mount | src/context/ScamReportsContext.tsx:104-107 | reports then banks fetched; the last failure's message wins; earlier errors persist through successes |
| ScamReportsContext.FailedBanksKeepReports | src/context/ScamReportsContext.tsx:68-80 | from a new store, fetched reports survive a failed bank fetch, which sets its own message |
| ScamReportsContext.FetchReportsTwice | src/context/ScamReportsContext.tsx:55-66 | fetching the same list twice is fetching it once |
| ScamReportsContext.ErrorSurvivesSuccess | src/context/ScamReportsContext.tsx:55-66 | no path clears the error, so a success after a failure leaves the failure message |
| TweetHelpers.IsTweetUrlByPosition | src/utils/tweetHelpers.ts:2-7 | `isTweetUrl` holds if and only if a host segment and a `status/` occur at some positions, independently of each other |
| TweetHelpers.IsTweetUrl | src/utils/tweetHelpers.ts:2-7 | `isTweetUrl` itself: a host segment and `status/` both occur (characterised by position in IsTweetUrlByPosition) |
| TweetHelpers.Run | src/utils/tweetHelpers.ts:10 | a run of `\w` or `\d` characters stays within the text |
| TweetHelpers.RunEnd | src/utils/tweetHelpers.ts:10 | the greedy run ends at the end of the text or before a character outside the class |
| TweetHelpers.RunAtLeast | src/utils/tweetHelpers.ts:10 | `n` class characters make a run of at least `n` |
| TweetHelpers.RunIs | src/utils/tweetHelpers.ts:10 | `n` class characters followed by the end of the text or a character outside the class make a run of exactly `n` |
| TweetHelpers.HostAtSpec | src/utils/tweetHelpers.ts:10 | the host alternative found is `twitter` or `x`, and it occurs there |
| TweetHelpers.HostAt | src/utils/tweetHelpers.ts:10 | the `(?:twitter\|x)` alternative tried in order at a position; a host found lies within the text |
| TweetHelpers.MatchAt | src/utils/tweetHelpers.ts:10-11 | a capture is a non-empty string of digits |
| TweetHelpers.DigitRun | src/utils/tweetHelpers.ts:10 | the greedy `\d+` capture consists of digits |
| TweetHelpers.LeftmostSpec | src/utils/tweetHelpers.ts:10-11 | the scan returns the result at the first position that has one, and none exactly when no position has one |
| TweetHelpers.Leftmost | src/utils/tweetHelpers.ts:9-12 | the scan `match` makes over start positions, first to last (its properties are in LeftmostSpec) |
| TweetHelpers.ExtractTweetId | src/utils/tweetHelpers.ts:9-12 | a returned ID is a non-empty string of digits captured by a match at some position |
| TweetHelpers.ExtractTweetIdLeftmost | src/utils/tweetHelpers.ts:9-12 | the returned ID comes from the leftmost position where a match starts; null exactly when no position matches |
| TweetHelpers.MatchAtSound | src/utils/tweetHelpers.ts:10 | a match is an occurrence of the pattern whose digit capture cannot be extended |
| TweetHelpers.MatchAtComplete | src/utils/tweetHelpers.ts:10 | every occurrence is matched at its start, and the capture extends its digits (equals them when maximal) |
| TweetHelpers.ExtractTweetIdSpec | src/utils/tweetHelpers.ts:9-12 | the ID is the maximal capture of an occurrence with no occurrence starting earlier; null if and only if the pattern occurs nowhere |
| TweetHelpers.MatchAtPieces | src/utils/tweetHelpers.ts:2-11 | a match starts with a host segment and contains `status/` |
| TweetHelpers.ExtractedImpliesTweetUrl | src/utils/tweetHelpers.ts:2-11 | an extracted ID implies `isTweetUrl` |
| TweetHelpers.TweetUrlWithoutHandle | src/utils/tweetHelpers.ts:2-11 | `x.com/status/1` passes `isTweetUrl` but yields null |
| TweetHelpers.MatchNeedsLength | src/utils/tweetHelpers.ts:10 | a match needs at least 16 characters from its start |
| TwitterEmbed.GetTweetId | src/components/TwitterEmbed.tsx:10-15 | "" exactly where `extractTweetId` gives null, and the same ID otherwise |
| TwitterEmbed.Render | src/components/TwitterEmbed.tsx:17-31 | the fallback if and only if no ID; otherwise the embed gets a non-empty digit ID |
| TwitterEmbed.TweetUrlCanRenderInvalid | src/components/TwitterEmbed.tsx:19-24 | a link accepted by `isTweetUrl` can reach the invalid-URL fallback |
| TwitterEmbed.EmbeddedIsTweetUrl | src/components/TwitterEmbed.tsx:27-31 | every embedded tweet comes from a link `isTweetUrl` accepts |
| BlogCard.TruncatedExcerpt | src/components/BlogCard.tsx:53-56 | an excerpt over 150 characters becomes its first 150 plus "..." (153 in all); any other excerpt, or none, passes through |
| BlogCard.TruncationIdempotent | src/components/BlogCard.tsx:53-56 | truncating twice is truncating once |
| BlogCard.Href | src/components/BlogCard.tsx:59 | the link is "/blog/" followed by the slug |
| BlogCard.Render | src/components/BlogCard.tsx:21-133 | both links target "/blog/" + slug; excerpt shown if and only if present and non-empty, truncated; the author shown and the read time are the given values, or their defaults when undefined (a given "" stays ""); the title link and the author line appear exactly when not compact; the read-time badge exactly when compact with a non-empty read time; the featured badge exactly when featured |
| BlogPostDetail.LinkRel | src/components/BlogPostDetail.tsx:126-128 | "noreferrer noopener" exactly when the href does not start with "/" |
| BlogPostDetail.RenderLinkMark | src/components/BlogPostDetail.tsx:125-145 | an embed if and only if `isTweetUrl` holds; otherwise an anchor with that href and rel |
| BlogPostDetail.RenderNormalBlock | src/components/BlogPostDetail.tsx:85-105 | an embed if and only if there is exactly one element child whose value passes `isTweetUrl`; otherwise a paragraph of the same children |
| BlogPostDetail.SeveralChildrenAreParagraph | src/components/BlogPostDetail.tsx:87-89 | a block whose child count is not one is a paragraph |
| BlogPostDetail.AuthorName | src/components/BlogPostDetail.tsx:344 | the author's name when non-empty, else "BlacklistDB Team" |
| BlogPostDetail.ReadTimeText | src/components/BlogPostDetail.tsx:350 | the read time when non-empty, else "5 min read" |
| BlogPostDetail.CoverUrl | src/components/BlogPostDetail.tsx:377 | the image URL when non-empty, else the placeholder |
| BlogPostDetail.CategoryTags | src/components/BlogPostDetail.tsx:314 | category chips if and only if the list is present and non-empty |
| BlogPostDetail.FallbacksNonEmpty | src/components/BlogPostDetail.tsx:344-377 | author, read time and cover are never empty |
| BlogPostDetail.SelectView | src/components/BlogPostDetail.tsx:264-290 | spinner if and only if loading; not-found if and only if loaded without a post; otherwise that post |
| BlogPostDetail.CaptionsFollowToggle | src/components/BlogPostDetail.tsx:413-439 | a click changes the caption and a second click restores it |
| BlogPostDetail.LikeCaption | src/components/BlogPostDetail.tsx:424 | "Liked" when liked, else "Like" (properties in CaptionsFollowToggle) |
| BlogPostDetail.SaveCaption | src/components/BlogPostDetail.tsx:439 | "Saved" when bookmarked, else "Save" (properties in CaptionsFollowToggle) |
| BlogPostDetail.PostDetailPage.constructor | src/components/BlogPostDetail.tsx:156-159 | no post, loading, not liked, not bookmarked |
| BlogPostDetail.PostDetailPage.FetchPost | src/components/BlogPostDetail.tsx:161-206 | no slug changes nothing; with a slug loading ends off, success stores the result, failure keeps the post |
| BlogPostDetail.PostDetailPage.ToggleLiked | src/components/BlogPostDetail.tsx:413 | flips `liked` only |
| BlogPostDetail.PostDetailPage.ToggleBookmarked | src/components/BlogPostDetail.tsx:428 | flips `bookmarked` only |
| BlogPostDetail.OpenPage | src/components/BlogPostDetail.tsx:161-206 | a new page with no slug keeps the spinner; a failure or a null result shows not-found; a found post is shown |
| BlogPostDetail.LikeTwice | src/components/BlogPostDetail.tsx:413 | two Like clicks restore everything |
| BlogPostDetail.SaveTwice | src/components/BlogPostDetail.tsx:428 | two Save clicks restore everything |
| ReportScammerDialog.Lookup | src/components/ReportScammerDialog.tsx:57-60 | a field reads as absent exactly when its key is not in the form |
| ReportScammerDialog.LookupFirst | src/components/ReportScammerDialog.tsx:57-60 | a present field reads the value of the first entry under its key |
| ReportScammerDialog.InitialForm | src/components/ReportScammerDialog.tsx:37-49 | eleven fields with the declared keys in order, all "" |
| ReportScammerDialog.SetField | src/components/ReportScammerDialog.tsx:57-60 | setting a field keeps every entry or adds exactly one |
| ReportScammerDialog.SetFieldKeys | src/components/ReportScammerDialog.tsx:57-60 | an existing key keeps its place and the keys stay as they were; an unknown key is appended with its value |
| ReportScammerDialog.SetFieldOthers | src/components/ReportScammerDialog.tsx:57-60 | every entry under another key stays where it was, unchanged |
| ReportScammerDialog.SetFieldLookup | src/components/ReportScammerDialog.tsx:53-61 | the named field reads back the new value and every other field its old one |
| ReportScammerDialog.SetFieldKeepsShape | src/components/ReportScammerDialog.tsx:53-61 | typing into a form field keeps the eleven keys in order |
| ReportScammerDialog.TextParts | src/components/ReportScammerDialog.tsx:79-81 | one text part per entry, same key and value, same order |
| ReportScammerDialog.PayloadShape | src/components/ReportScammerDialog.tsx:76-89 | the text parts first, then the image part if set, then the documents part if set |
| ReportScammerDialog.Payload | src/components/ReportScammerDialog.tsx:76-89 | the multipart payload: the text parts, then the image and documents parts when set (properties in PayloadShape and FormPayloadLength) |
| ReportScammerDialog.FormPayloadLength | src/components/ReportScammerDialog.tsx:76-89 | the form's payload has 11 to 13 parts, the first 11 being its fields in key order |
| ReportScammerDialog.RenderSubmitButton | src/components/ReportScammerDialog.tsx:301-302 | disabled if and only if loading, with the matching caption |
| ReportScammerDialog.ReportDialog.constructor | src/components/ReportScammerDialog.tsx:37-51 | the initial form and both slots empty |
| ReportScammerDialog.ReportDialog.HandleInputChange | src/components/ReportScammerDialog.tsx:53-61 | the named field is set; slots and open state unchanged |
| ReportScammerDialog.ReportDialog.SelectBank | src/components/ReportScammerDialog.tsx:176-181 | only `scammers_bank` is set |
| ReportScammerDialog.ReportDialog.HandleFileChange | src/components/ReportScammerDialog.tsx:63-71 | the first file fills the slot `fileType` names; no file changes nothing |
| ReportScammerDialog.ReportDialog.BuildPayload | src/components/ReportScammerDialog.tsx:76-89 | the loop builds exactly the payload of the form and slots |
| ReportScammerDialog.ReportDialog.Cancel | src/components/ReportScammerDialog.tsx:297 | closes the dialog and keeps the form |
| ReportScammerDialog.ReportDialog.HandleSubmit | src/components/ReportScammerDialog.tsx:73-120 | sends the payload; success prepends the report, leaves the store error as it was, and resets form and slots and closes; failure sets the store message and leaves the dialog as it was |
| SeoMeta.FindElement | src/utils/SEOMeta.tsx:139 | the first matching element at or after the start, or none if none matches |
| SeoMeta.Matches | src/utils/SEOMeta.tsx:139 | the selector `tag[attr="value"]`: the tag and the attribute value are those given |
| SeoMeta.Marked | src/utils/SEOMeta.tsx:111 | the cleanup selector `[data-seo-tag="true"]` |
| SeoMeta.Unmarked | src/utils/SEOMeta.tsx:111-113 | the elements the removal loop leaves, in order (properties in Cleanup and RemoveStep) |
| SeoMeta.SetAttribute | src/utils/SEOMeta.tsx:142 | only the named attribute changes |
| SeoMeta.MetaAttr | src/utils/SEOMeta.tsx:138 | "property" if and only if `isProperty`, else "name" |
| SeoMeta.NewMeta | src/utils/SEOMeta.tsx:144-148 | a marked meta with exactly the lookup attribute, the content and the marker |
| SeoMeta.UpsertMeta | src/utils/SEOMeta.tsx:135-150 | no content changes nothing; a match gets the content and nothing else changes; otherwise one new marked meta is appended |
| SeoMeta.UpsertThenFind | src/utils/SEOMeta.tsx:135-150 | after an update with non-empty content the lookup under the same name finds an element holding that content: the earlier first match, with only its content set, or the new marked meta |
| SeoMeta.UpsertKeeps | src/utils/SEOMeta.tsx:135-150 | an update leaves the element another lookup finds where it is and as it is, when that element does not match the update's own lookup |
| SeoMeta.UpsertKeepsAbsent | src/utils/SEOMeta.tsx:135-150 | an update under another lookup does not create a match where there was none |
| SeoMeta.UpsertAllConcat | src/utils/SEOMeta.tsx:33-49 | running two lists of updates is running one after the other |
| SeoMeta.UpsertAllKeeps | src/utils/SEOMeta.tsx:33-49 | updates none of which matches the element another lookup finds keep it found and unchanged |
| SeoMeta.UpsertAllNames | src/utils/SEOMeta.tsx:135-150 | when every update by `name` uses one name, every appended element carries no other `name` |
| SeoMeta.UpsertAllWrites | src/utils/SEOMeta.tsx:135-150 | an update with non-empty content is found afterwards holding it when no later update can land on its element |
| SeoMeta.DocumentTitle | src/utils/SEOMeta.tsx:31 | the title, the separator and the site name (default "TheBlacklistDB") |
| SeoMeta.HeaderMeta | src/utils/SEOMeta.tsx:33-49 | the twelve updates only rewrite content in place and append marked elements (what they write is in HeaderMetaWrites and HeaderMetaNames) |
| SeoMeta.HeaderUpdateAt | src/utils/SEOMeta.tsx:34-49 | the twelve updates write twelve distinct names, and only the first, the description, is looked up by `name` |
| SeoMeta.HeaderMetaWrites | src/utils/SEOMeta.tsx:33-49 | each of the twelve values given non-empty is found under its name and attribute holding that value; the description found carries no `property` |
| SeoMeta.HeaderMetaNames | src/utils/SEOMeta.tsx:34 | of the appended elements only the description carries a `name`; every other update looks up `property` |
| SeoMeta.TagElement | src/utils/SEOMeta.tsx:57-61 | a marked `article:tag` meta holding the tag |
| SeoMeta.TagElements | src/utils/SEOMeta.tsx:56-62 | one tag element per tag, in order, duplicates kept |
| SeoMeta.ArticleMeta | src/utils/SEOMeta.tsx:52-63 | nothing unless the type is "article"; then the tag elements end the list after the time and author updates, which only rewrite and append |
| SeoMeta.ArticleKeeps | src/utils/SEOMeta.tsx:52-63 | lookups under keys the article stage does not write find what they found before, unchanged |
| SeoMeta.ArticlePublishedTime | src/utils/SEOMeta.tsx:52-54 | on an article page the published time is found holding its value when given non-empty; otherwise its lookup is as before |
| SeoMeta.ArticleAuthor | src/utils/SEOMeta.tsx:52-55 | on an article page the author is found holding its value when given non-empty; otherwise its lookup is as before |
| SeoMeta.SetCanonical | src/utils/SEOMeta.tsx:66-75 | an existing canonical link gets the href; otherwise a marked one is appended |
| SeoMeta.CanonicalFound | src/utils/SEOMeta.tsx:66-75 | afterwards the canonical lookup finds a link whose `href` is the URL |
| SeoMeta.CanonicalKeepsMeta | src/utils/SEOMeta.tsx:66-75 | the canonical link update leaves every meta lookup as it was |
| SeoMeta.Effect | src/utils/SEOMeta.tsx:29-107 | when the canonical URL parses, the structured-data script is the last element and everything before it is the head the effect leaves when `new URL` throws |
| SeoMeta.EffectEvolves | src/utils/SEOMeta.tsx:29-107 | the effect only rewrites `content`/`href` in place and appends marked elements |
| SeoMeta.EffectKeepsMeta | src/utils/SEOMeta.tsx:66-107 | the canonical link and the script leave every meta lookup as the article stage left it |
| SeoMeta.EffectCanonical | src/utils/SEOMeta.tsx:66-75 | in the final head the canonical lookup finds a link whose `href` is the canonical URL |
| SeoMeta.EffectHeaderWrites | src/utils/SEOMeta.tsx:33-49 | in the final head each of the twelve header values given non-empty is found holding that value |
| SeoMeta.EffectArticleWrites | src/utils/SEOMeta.tsx:52-55 | in the final head of an article page the published time and the author given non-empty are found holding their values |
| SeoMeta.EvolvesUnmarked | src/utils/SEOMeta.tsx:110-113 | after such changes cleanup leaves the same unmarked elements, up to `content`/`href` |
| SeoMeta.EffectThenCleanup | src/utils/SEOMeta.tsx:106-120 | when the canonical URL parses, mount then unmount keeps exactly the earlier unmarked elements, in order, with written content kept |
| SeoMeta.OverwrittenDescriptionSurvives | src/utils/SEOMeta.tsx:141-142 | a page's own description meta keeps the description the effect wrote after cleanup |
| SeoMeta.DocumentHead.UpdateMetaTag | src/utils/SEOMeta.tsx:135-150 | the head after `updateMetaTag` is the upsert of the old head |
| SeoMeta.DocumentHead.constructor | src/utils/SEOMeta.tsx:29 | the head the effect runs on: the given title and elements |
| SeoMeta.DocumentHead.ApplySeo | src/utils/SEOMeta.tsx:29-110 | the title is set and the head is the effect of the old head; a cleanup is registered if and only if `new URL` succeeds (line 101) |
| SeoMeta.DocumentHead.ApplyHeaderMeta | src/utils/SEOMeta.tsx:33-49 | the twelve meta updates in their order, so each value is written as HeaderMetaWrites states |
| SeoMeta.DocumentHead.ApplyArticleMeta | src/utils/SEOMeta.tsx:52-63 | the article updates and the tag loop, so the time and the author are written as ArticlePublishedTime and ArticleAuthor state |
| SeoMeta.DocumentHead.AppendTags | src/utils/SEOMeta.tsx:56-62 | the `forEach` appends one marked tag element per tag, in order |
| SeoMeta.DocumentHead.ApplyCanonical | src/utils/SEOMeta.tsx:66-75 | the canonical link update |
| SeoMeta.DocumentHead.Cleanup | src/utils/SEOMeta.tsx:110-120 | exactly the unmarked elements remain, in order; the script pass then finds nothing |
| SeoMeta.RemoveStep | src/utils/SEOMeta.tsx:111-113 | one removal step keeps the element if and only if it is unmarked |
| SeoMeta.NoMarkedScriptLeft | src/utils/SEOMeta.tsx:115-119 | after the first pass no marked script is left |
| SeoMeta.MountThenUnmount | src/utils/SEOMeta.tsx:29-120 | the title is set; when the canonical URL parses, the earlier unmarked elements are all that remain; otherwise no cleanup runs and the head is what the effect left |
| Donate.SubmitDecision | src/pages/donate.tsx:30-38 | a truthy preset wins; else a custom text that parses truthy; the prompt if and only if neither |
| Donate.PresetsPositive | src/pages/donate.tsx:16 | every preset is positive |
| Donate.PresetReachesThankYou | src/pages/donate.tsx:30-36 | a chosen preset always reaches the thank-you branch |
| Donate.CustomUsedWhenTyped | src/pages/donate.tsx:30-38 | in a reachable state typed text decides the outcome |
| Donate.DonationForm.constructor | src/pages/donate.tsx:13-14 | both empty, so exclusive |
| Donate.DonationForm.SelectAmount | src/pages/donate.tsx:18-21 | the preset is set and custom text cleared |
| Donate.DonationForm.ChangeCustomAmount | src/pages/donate.tsx:23-26 | the text is set and the preset cleared |
| Donate.DonationForm.Submit | src/pages/donate.tsx:28-40 | the decision of the current state |
| Donate.TypeAfterPreset | src/pages/donate.tsx:18-38 | typing after a preset discards the preset |
| Donate.PresetAfterTyping | src/pages/donate.tsx:18-38 | a preset after typing is thanked for |
| Faq.Toggled | src/components/FAQ.tsx:42-44 | the open index closes; any other opens alone |
| Faq.ToggleFlips | src/components/FAQ.tsx:42-44 | after a toggle an answer is open if and only if it was not before |
| Faq.ToggleClosesOthers | src/components/FAQ.tsx:42-44 | a toggle hides every other answer |
| Faq.AtMostOneVisible | src/components/FAQ.tsx:113 | two visible answers are the same answer |
| Faq.ToggleTwice | src/components/FAQ.tsx:42-44 | toggling twice restores that answer and closes the others |
| Faq.ToggleStaysInRange | src/components/FAQ.tsx:14-44 | clicking listed questions keeps the open index among them |
| Faq.FaqSection.constructor | src/components/FAQ.tsx:12 | nothing open |
| Faq.FaqSection.ToggleFaq | src/components/FAQ.tsx:42-44 | the new index is the toggle of the old |
| Faq.OpenOne | src/components/FAQ.tsx:12-113 | one click on a fresh section shows that answer and no other |
| Sequences.Filter | src/context/BlogContext.tsx:57 | `Array.filter`: a subsequence of the input holding only kept elements and every kept element |
| Sequences.FilterMultiset | src/context/BlogContext.tsx:57 | each kept element occurs as often as in the input, and a dropped one not at all |
| Strings.ToLower | src/context/BlogContext.tsx:117 | `toLowerCase`: same length, each character lower-cased |
| Strings.Trim | src/context/BlogContext.tsx:113 | `trim`: leading and trailing JavaScript whitespace removed (properties in BlankIffAllWhitespace) |
| Strings.IsBlank | src/context/BlogContext.tsx:113 | `!s.trim()` |
| Strings.BlankIffAllWhitespace | src/context/BlogContext.tsx:113 | a term is blank if and only if every character is JavaScript whitespace |
| Strings.TrimStart | src/context/BlogContext.tsx:113 | a suffix of the text that starts with a non-whitespace character or is empty, all dropped characters being whitespace |
| Strings.TrimEnd | src/context/BlogContext.tsx:113 | a prefix of the text that ends with a non-whitespace character or is empty, all dropped characters being whitespace |
| Strings.ContainsIff | src/utils/tweetHelpers.ts:4-5 | `includes` holds if and only if the text occurs at some position |
| Strings.ToLowerIdempotent | src/context/BlogContext.tsx:117-119 | lower-casing twice is lower-casing once |
| Strings.IntToString | src/context/BlogContext.tsx:71 | the decimal text of an integer is non-empty and starts with `-` exactly for a negative number |
| Strings.IntToStringRoundTrip | src/context/BlogContext.tsx:71 | the decimal text of an integer reads back as that integer |
| Strings.Default | src/components/BlogCard.tsx:26-31 | a default parameter: the value when given, the default when undefined |
| Strings.OrElse | src/components/BlogPostDetail.tsx:344 | `\|\|` on strings: the value when given and non-empty, else the fallback |

## Left out

- Network and transport: axios, the Sanity client and the API configuration are not part of this model. Each remote call's result is an `Outcome` parameter.
- Asynchronous interleaving: the back-to-back fetches at mount share one `loading` flag and can race. Each operation is taken as atomic from start to completion.
- Rendering: React, animation, styling, icons, dialog primitives, toasts, `alert`, `console` output and the share buttons (`window.open` URLs) are not modelled. Views are datatypes holding the data they show.
- Server-side query evaluation: `pt::text`, ordering, slicing and dereferences run on the content server. Only the query string is modelled, and the read-time rule is a standalone function.
- The article page's own fetch query text and its `$slug` parameter are not modelled. `FetchPost` takes the server's answer as a parameter.
- `BlogProvider` is never mounted and the site has no blog route. The store is modelled on its own.
- BlogContext.BuildQuery: `${limit}` is modelled for integers only. Fractional, exponent and `NaN` forms of a JavaScript number are not.
- BlogContext.SearchPosts: lower-casing is ASCII-only. JavaScript's full Unicode `toLowerCase` is not modelled.
- BlogCard.TruncatedExcerpt: lengths count Unicode scalar values. JavaScript counts UTF-16 code units.
- Donate.SubmitDecision: `parseFloat` is the abstract predicate `parsesTruthy`, which says whether the text parses to a number other than 0 and `NaN`. The amount shown in the thank-you message is the typed text, not the parsed number.
- SeoMeta.Effect: the JSON text of the structured-data script and the `new URL(...).origin` in it are not modelled. The script is one fixed marked element. Whether `new URL(canonicalUrl)` succeeds (the URL is absolute) is the input `canonicalParses`, not computed from the URL text.
- SeoMeta.HeaderMetaWrites: the description claim assumes that the page's own description meta carries no `property` attribute (`DescriptionUnshared`). Otherwise a later Open Graph or Twitter update can land on the same element and overwrite its content, as the source does.
- SeoMeta.HeaderMetaNames: "only the description uses `name`" is proved for the header stage, the only stage that looks up by `name`. The article stage, the tags and the canonical link look up by `property` or `rel` only.
- SeoMeta.EffectHeaderWrites: the description case carries the same assumption as HeaderMetaWrites.
- SeoMeta.DocumentHead: selectors run over the modelled head only. The document's body is not part of this model.
- SeoMeta.DocumentHead.Cleanup: the second pass over marked scripts is not run as a loop. A lemma proves it has nothing left to remove.
- ReportScammerDialog.SetField: JavaScript puts integer-like keys first in object order. The form's keys are all non-numeric, so this does not arise.
- BlogPostDetail.RenderNormalBlock: a child whose `props.value` is a non-string with an `includes` method is not modelled. A value is a string or absent.
- BlogPostDetail.FetchPost: the page's `slug` comes from the router and is a parameter.
- `formatDate` depends on `Date`. Dates are kept as the strings the server sends.
