/** The article card of the blog listings (src/components/BlogCard.tsx):
    excerpt truncation, default props and link targets. Lengths count the
    characters of the string. */
module BlogCard {
  import opened Wrappers
  import opened Strings

  const ExcerptLimit: nat := 150
  const Ellipsis: string := "..."
  const DefaultAuthor: string := "BlacklistDB Team"
  const DefaultReadTime: string := "5 min read"
  const BaseUrl: string := "/blog/"

  /** `truncatedExcerpt`: an excerpt longer than 150 characters is cut to its
      first 150 and followed by "..."; any other excerpt, and an absent one,
      passes through. */
  function TruncatedExcerpt(excerpt: Option<string>): (r: Option<string>)
    ensures excerpt.None? ==> r.None?
    ensures excerpt.Some? && |excerpt.value| > ExcerptLimit ==>
      r.Some? && |r.value| == ExcerptLimit + 3
      && r.value[..ExcerptLimit] == excerpt.value[..ExcerptLimit]
      && r.value[ExcerptLimit..] == Ellipsis
    ensures excerpt.Some? && |excerpt.value| <= ExcerptLimit ==> r == excerpt
  {
    if excerpt.Some? && excerpt.value != "" && |excerpt.value| > ExcerptLimit
    then Some(excerpt.value[..ExcerptLimit] + Ellipsis)
    else excerpt
  }

  /** Truncating a truncated excerpt changes nothing. */
  lemma TruncationIdempotent(excerpt: Option<string>)
    ensures TruncatedExcerpt(TruncatedExcerpt(excerpt)) == TruncatedExcerpt(excerpt)
  {
    var once := TruncatedExcerpt(excerpt);
    if excerpt.Some? && |excerpt.value| > ExcerptLimit {
      assert once.value[..ExcerptLimit] + Ellipsis == once.value;
    }
  }

  /** The props of a card; absent optional props are `None`. */
  datatype CardProps = CardProps(
    id: string, title: string, excerpt: Option<string>, slug: string, date: string,
    author: Option<string>, imageUrl: string, readTime: Option<string>,
    featured: Option<bool>, compact: Option<bool>)

  /** The parts of the card that carry data: links, texts, badges. */
  datatype CardView = CardView(
    titleLink: Option<string>,
    excerptText: Option<string>,
    authorText: Option<string>,
    readTimeText: string,
    readTimeBadge: bool,
    featuredBadge: bool,
    readMoreLink: string)

  function Href(slug: string): (r: string)
    ensures StartsWith(r, BaseUrl) && r[|BaseUrl|..] == slug
  {
    BaseUrl + slug
  }

  /** The card: destructured defaults, then the conditionally rendered parts. */
  function Render(props: CardProps): (v: CardView)
    ensures v.readMoreLink == BaseUrl + props.slug
    ensures v.titleLink.Some? ==> v.titleLink.value == v.readMoreLink
    ensures v.excerptText.Some? <==> props.excerpt.Some? && props.excerpt.value != ""
    ensures v.excerptText.Some? ==> Some(v.excerptText.value) == TruncatedExcerpt(props.excerpt)
    ensures v.authorText.Some? ==> v.authorText.value == Default(props.author, DefaultAuthor)
    ensures props.author.None? && v.authorText.Some? ==> v.authorText.value == DefaultAuthor
    ensures v.readTimeText == Default(props.readTime, DefaultReadTime)
    ensures props.readTime.None? ==> v.readTimeText == DefaultReadTime
    ensures v.titleLink.Some? <==> v.authorText.Some?
    ensures v.titleLink.Some? <==> !(props.compact == Some(true))
    ensures v.readTimeBadge <==> props.compact == Some(true) && v.readTimeText != ""
    ensures v.featuredBadge <==> props.featured == Some(true)
  {
    var author := Default(props.author, DefaultAuthor);
    var readTime := Default(props.readTime, DefaultReadTime);
    var featured := if props.featured.Some? then props.featured.value else false;
    var compact := if props.compact.Some? then props.compact.value else false;
    var shown := TruncatedExcerpt(props.excerpt);
    CardView(
      titleLink := if !compact then Some(Href(props.slug)) else None,
      excerptText := if props.excerpt.Some? && props.excerpt.value != "" then shown else None,
      authorText := if !compact then Some(author) else None,
      readTimeText := readTime,
      readTimeBadge := compact && readTime != "",
      featuredBadge := featured,
      readMoreLink := Href(props.slug))
  }
}
