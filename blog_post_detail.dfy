/** The article page (src/components/BlogPostDetail.tsx): how link marks and
    normal blocks of the article body are classified, the page's fetch and
    view states, the display fallbacks and the Like/Save toggles. */
module BlogPostDetail {
  import opened Wrappers
  import opened Strings
  import opened TweetHelpers
  import BlogCard

  const ExternalRel: string := "noreferrer noopener"
  const PlaceholderCover: string := "/placeholder-1200x600.jpg"

  /** The `rel` of a link mark: set only for links that leave the site. */
  function LinkRel(href: string): (rel: Option<string>)
    ensures rel.Some? <==> !StartsWith(href, "/")
    ensures rel.Some? ==> rel.value == ExternalRel
  {
    if !StartsWith(href, "/") then Some(ExternalRel) else None
  }

  datatype LinkView = LinkEmbed(tweetUrl: string) | Anchor(href: string, rel: Option<string>)

  /** The `link` mark: a tweet status link becomes an embed, anything else an anchor. */
  function RenderLinkMark(href: string): (v: LinkView)
    ensures v.LinkEmbed? <==> IsTweetUrl(href)
    ensures v.LinkEmbed? ==> v.tweetUrl == href
    ensures v.Anchor? ==> v.href == href && v.rel == LinkRel(href)
  {
    var rel := LinkRel(href);
    if IsTweetUrl(href) then LinkEmbed(href) else Anchor(href, rel)
  }

  /** A child of a rendered block: plain text, or an element whose
      `props.value` may hold a string. */
  datatype Child = TextChild(text: string) | ElementChild(value: Option<string>)

  datatype BlockView = BlockEmbed(tweetUrl: string) | Paragraph(children: seq<Child>)

  /** The `normal` block. Its condition is written out in the component
      rather than calling `isTweetUrl`; the contract states that the two agree. */
  function RenderNormalBlock(children: seq<Child>): (v: BlockView)
    ensures v.BlockEmbed? <==>
      |children| == 1 && children[0].ElementChild? && children[0].value.Some?
      && IsTweetUrl(children[0].value.value)
    ensures v.BlockEmbed? ==> v.tweetUrl == children[0].value.value
    ensures v.Paragraph? ==> v.children == children
  {
    if |children| == 1 && children[0].ElementChild? && children[0].value.Some?
       && (Contains(children[0].value.value, "twitter.com/") || Contains(children[0].value.value, "x.com/"))
       && Contains(children[0].value.value, "status/")
    then BlockEmbed(children[0].value.value)
    else Paragraph(children)
  }

  /** A block with several children is a paragraph even if one of them is a tweet link. */
  lemma SeveralChildrenAreParagraph(children: seq<Child>)
    requires |children| != 1
    ensures RenderNormalBlock(children) == Paragraph(children)
  {
  }

  datatype AuthorInfo = AuthorInfo(name: string, imageUrl: Option<string>, bio: Option<string>)

  /** The fields of the fetched post the page reads (the body is left out). */
  datatype Article = Article(
    id: string, title: string, slug: string, excerpt: Option<string>,
    author: Option<AuthorInfo>, mainImageUrl: Option<string>, publishedAt: string,
    readTime: Option<string>, categories: Option<seq<string>>)

  /** `post.author?.name || "BlacklistDB Team"`. */
  function AuthorName(a: Article): (s: string)
    ensures a.author.Some? && a.author.value.name != "" ==> s == a.author.value.name
    ensures a.author.None? || a.author.value.name == "" ==> s == BlogCard.DefaultAuthor
  {
    OrElse(if a.author.Some? then Some(a.author.value.name) else None, BlogCard.DefaultAuthor)
  }

  /** `post.readTime || "5 min read"`. */
  function ReadTimeText(a: Article): (s: string)
    ensures a.readTime.Some? && a.readTime.value != "" ==> s == a.readTime.value
    ensures a.readTime.None? || a.readTime.value == "" ==> s == BlogCard.DefaultReadTime
  {
    OrElse(a.readTime, BlogCard.DefaultReadTime)
  }

  /** `post.mainImage?.asset?.url || "/placeholder-1200x600.jpg"`. */
  function CoverUrl(a: Article): (s: string)
    ensures a.mainImageUrl.Some? && a.mainImageUrl.value != "" ==> s == a.mainImageUrl.value
    ensures a.mainImageUrl.None? || a.mainImageUrl.value == "" ==> s == PlaceholderCover
  {
    OrElse(a.mainImageUrl, PlaceholderCover)
  }

  /** The category chips (header and tags section): shown only for a non-empty list. */
  function CategoryTags(a: Article): (tags: Option<seq<string>>)
    ensures tags.Some? <==> a.categories.Some? && |a.categories.value| > 0
    ensures tags.Some? ==> tags.value == a.categories.value
  {
    if a.categories.Some? && |a.categories.value| > 0 then a.categories else None
  }

  /** The page displays a non-empty author, read time and cover whatever the post holds. */
  lemma FallbacksNonEmpty(a: Article)
    ensures AuthorName(a) != "" && ReadTimeText(a) != "" && CoverUrl(a) != ""
  {
  }

  datatype PageView = Spinner | NotFound | ArticleView(article: Article)

  /** The view the page selects: loading first, then a missing post, then the article. */
  function SelectView(isLoading: bool, post: Option<Article>): (v: PageView)
    ensures v.Spinner? <==> isLoading
    ensures v.NotFound? <==> !isLoading && post.None?
    ensures v.ArticleView? ==> post == Some(v.article)
  {
    if isLoading then Spinner
    else if post.None? then NotFound
    else ArticleView(post.value)
  }

  function LikeCaption(liked: bool): string {
    if liked then "Liked" else "Like"
  }

  function SaveCaption(bookmarked: bool): string {
    if bookmarked then "Saved" else "Save"
  }

  /** A click changes the caption, a second click restores it. */
  lemma CaptionsFollowToggle(b: bool)
    ensures LikeCaption(!b) != LikeCaption(b) && LikeCaption(!!b) == LikeCaption(b)
    ensures SaveCaption(!b) != SaveCaption(b) && SaveCaption(!!b) == SaveCaption(b)
  {
  }

  class PostDetailPage {
    var post: Option<Article>
    var isLoading: bool
    var liked: bool
    var bookmarked: bool

    constructor ()
      ensures post == None && isLoading && !liked && !bookmarked
    {
      post := None;
      isLoading := true;
      liked := false;
      bookmarked := false;
    }

    function View(): PageView
      reads this
    {
      SelectView(isLoading, post)
    }

    /** `fetchPost`: without a slug nothing happens; otherwise loading is set,
        a successful fetch stores its result (null when no post has the slug),
        a failed one keeps the post, and loading is cleared. */
    method FetchPost(slug: Option<string>, response: Outcome<Option<Article>>)
      modifies this
      ensures liked == old(liked) && bookmarked == old(bookmarked)
      ensures slug.None? || slug.value == "" ==> post == old(post) && isLoading == old(isLoading)
      ensures slug.Some? && slug.value != "" ==>
        && !isLoading
        && (response.Success? ==> post == response.data)
        && (response.Failure? ==> post == old(post))
    {
      if slug.None? || slug.value == "" {
        return;
      }
      isLoading := true;
      match response {
        case Success(data) =>
          post := data;
        case Failure(_) =>
      }
      isLoading := false;
    }

    method ToggleLiked()
      modifies this
      ensures liked == !old(liked)
      ensures post == old(post) && isLoading == old(isLoading) && bookmarked == old(bookmarked)
    {
      liked := !liked;
    }

    method ToggleBookmarked()
      modifies this
      ensures bookmarked == !old(bookmarked)
      ensures post == old(post) && isLoading == old(isLoading) && liked == old(liked)
    {
      bookmarked := !bookmarked;
    }
  }

  /** A freshly opened page after its fetch: the spinner stays up without a
      slug, a failure or an unknown slug shows "not found", a found post is shown. */
  method OpenPage(slug: Option<string>, response: Outcome<Option<Article>>) returns (view: PageView)
    ensures slug.None? || slug.value == "" ==> view == Spinner
    ensures slug.Some? && slug.value != "" && (response.Failure? || response.data.None?) ==> view == NotFound
    ensures slug.Some? && slug.value != "" && response.Success? && response.data.Some? ==>
      view == ArticleView(response.data.value)
  {
    var page := new PostDetailPage();
    page.FetchPost(slug, response);
    view := page.View();
  }

  /** Two clicks on Like restore it; Save is never touched by Like. */
  method LikeTwice(page: PostDetailPage)
    modifies page
    ensures page.liked == old(page.liked) && page.bookmarked == old(page.bookmarked)
    ensures page.post == old(page.post) && page.isLoading == old(page.isLoading)
  {
    page.ToggleLiked();
    page.ToggleLiked();
  }

  method SaveTwice(page: PostDetailPage)
    modifies page
    ensures page.bookmarked == old(page.bookmarked) && page.liked == old(page.liked)
    ensures page.post == old(page.post) && page.isLoading == old(page.isLoading)
  {
    page.ToggleBookmarked();
    page.ToggleBookmarked();
  }
}
