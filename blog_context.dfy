/** The blog store (src/context/BlogContext.tsx): the fetched post list, its
    featured/regular views, client-side search and the content query that
    `fetchPosts` sends. */
module BlogContext {
  import opened Wrappers
  import opened Strings
  import opened Sequences

  datatype Author = Author(name: string)

  /** A post as the list query projects it (the rich-text body is not modelled). */
  datatype Post = Post(
    id: string, title: string, slug: string, excerpt: Option<string>,
    author: Option<Author>, featured: Option<bool>, readTime: Option<string>,
    publishedAt: string, imageUrl: string)

  /** `post.featured` is truthy. */
  predicate IsFeatured(p: Post) {
    p.featured == Some(true)
  }

  /** `posts.find((post) => post.featured)`: the first flagged post in list order. */
  function FeaturedPost(posts: seq<Post>): (r: Option<Post>)
    ensures r.None? <==> forall i :: 0 <= i < |posts| ==> !IsFeatured(posts[i])
    ensures r.Some? ==> exists i :: 0 <= i < |posts| && posts[i] == r.value && IsFeatured(posts[i])
                                    && forall j :: 0 <= j < i ==> !IsFeatured(posts[j])
    decreases |posts|
  {
    if |posts| == 0 then None
    else if IsFeatured(posts[0]) then Some(posts[0])
    else
      var r := FeaturedPost(posts[1..]);
      assert r.Some? ==> exists i :: 0 < i < |posts| && posts[i] == r.value && IsFeatured(posts[i])
                                     && forall j :: 0 <= j < i ==> !IsFeatured(posts[j]) by {
        if r.Some? {
          var i :| 0 <= i < |posts[1..]| && posts[1..][i] == r.value && IsFeatured(posts[1..][i])
                   && forall j :: 0 <= j < i ==> !IsFeatured(posts[1..][j]);
          assert posts[i + 1] == r.value;
          assert forall j :: 0 <= j < i + 1 ==> !IsFeatured(posts[j]) by {
            forall j | 0 < j < i + 1 ensures !IsFeatured(posts[j]) {
              assert posts[j] == posts[1..][j - 1];
            }
          }
        }
      }
      r
  }

  /** `featuredPost ? posts.filter((post) => post._id !== featuredPost._id) : posts`. */
  function RegularPosts(posts: seq<Post>): (r: seq<Post>)
    ensures FeaturedPost(posts).None? ==> r == posts
    ensures FeaturedPost(posts).Some? ==>
      (forall i :: 0 <= i < |r| ==> r[i].id != FeaturedPost(posts).value.id)
      && (forall i :: 0 <= i < |posts| && posts[i].id != FeaturedPost(posts).value.id ==> posts[i] in r)
      && FeaturedPost(posts).value !in r
    ensures IsSubsequence(r, posts)
  {
    match FeaturedPost(posts)
    case None =>
      SubsequenceOfSelf(posts);
      posts
    case Some(f) => Filter(posts, (p: Post) => p.id != f.id)
  }

  /** The search test of one post: its lower-cased title contains the
      lower-cased term, or it has a non-empty excerpt whose lower-cased text
      contains it. Lower-casing is ASCII-only. */
  predicate MatchesTerm(p: Post, term: string) {
    Contains(ToLower(p.title), ToLower(term))
    || (p.excerpt.Some? && p.excerpt.value != "" && Contains(ToLower(p.excerpt.value), ToLower(term)))
  }

  /** `searchPosts(searchTerm)`: a blank term returns the regular posts
      unchanged; otherwise exactly the regular posts that match the
      (untrimmed) term, in their order. */
  function SearchPosts(posts: seq<Post>, searchTerm: string): (r: seq<Post>)
    ensures IsBlank(searchTerm) ==> r == RegularPosts(posts)
    ensures !IsBlank(searchTerm) ==>
      (forall i :: 0 <= i < |r| ==> MatchesTerm(r[i], searchTerm))
      && (forall i :: 0 <= i < |RegularPosts(posts)| && MatchesTerm(RegularPosts(posts)[i], searchTerm)
            ==> RegularPosts(posts)[i] in r)
    ensures IsSubsequence(r, RegularPosts(posts))
  {
    var regular := RegularPosts(posts);
    if IsBlank(searchTerm) then
      SubsequenceOfSelf(regular);
      regular
    else Filter(regular, (p: Post) => MatchesTerm(p, searchTerm))
  }

  /** Search never returns the featured post, and only returns fetched posts. */
  lemma SearchExcludesFeatured(posts: seq<Post>, searchTerm: string)
    ensures FeaturedPost(posts).Some? ==> FeaturedPost(posts).value !in SearchPosts(posts, searchTerm)
    ensures forall i :: 0 <= i < |SearchPosts(posts, searchTerm)| ==> SearchPosts(posts, searchTerm)[i] in posts
  {
    var regular := RegularPosts(posts);
    var found := SearchPosts(posts, searchTerm);
    SubsequenceMembers(found, regular);
    SubsequenceMembers(regular, posts);
    SubsequenceTransitive(found, regular, posts);
    SubsequenceMembers(found, posts);
  }

  /** The search ignores letter case in the term. */
  lemma SearchIgnoresTermCase(p: Post, searchTerm: string)
    ensures MatchesTerm(p, searchTerm) == MatchesTerm(p, ToLower(searchTerm))
  {
    ToLowerIdempotent(searchTerm);
  }

  /** The parts of the content query. */
  const QueryHead: string := "*[_type == \"post\"] | order(publishedAt desc)"
  const ProjectionHead: string := "{\n        _id, \n        title, \n        slug, \n        \"excerpt\": pt::text(body[0..1]), \n        \"author\": author->{name},\n        featured,\n        \"readTime\": "
  const ReadTimeSelect: string := "select(\n          length(pt::text(body)) < 2000 => \"3 min read\",\n          length(pt::text(body)) < 4000 => \"5 min read\",\n          length(pt::text(body)) < 8000 => \"8 min read\",\n          \"10+ min read\"\n        )"
  const ProjectionTail: string := ",\n        body, \n        publishedAt, \n        mainImage{ \n          asset->{ \n            url \n          } \n        }\n        }"

  function Projection(): string {
    ProjectionHead + ReadTimeSelect + ProjectionTail
  }

  /** The slice is written when `limit` is truthy: given and not 0. */
  function EffectiveLimit(limit: Option<int>): (r: Option<int>)
    ensures r.Some? <==> limit.Some? && limit.value != 0
    ensures r.Some? ==> r == limit
  {
    if limit.Some? && limit.value != 0 then limit else None
  }

  function LimitSlice(limit: Option<int>): (r: string)
    ensures EffectiveLimit(limit).None? ==> r == ""
    ensures EffectiveLimit(limit).Some? ==> StartsWith(r, "[0...") && r[|r| - 1] == ']'
  {
    match EffectiveLimit(limit)
    case None => ""
    case Some(n) => "[0..." + IntToString(n) + "]"
  }

  /** The text between `[0...` and `]` reads back as the limit: its digits,
      after a minus sign for a negative limit. */
  lemma LimitSliceReadsBack(limit: Option<int>)
    requires EffectiveLimit(limit).Some?
    ensures var r := LimitSlice(limit);
      && |r| > 6 && IsIntText(r[5..|r| - 1]) && IntValue(r[5..|r| - 1]) == EffectiveLimit(limit).value
      && (EffectiveLimit(limit).value < 0 <==> r[5] == '-')
  {
    var n := EffectiveLimit(limit).value;
    var r := LimitSlice(limit);
    assert r[5..|r| - 1] == IntToString(n);
    IntToStringRoundTrip(n);
  }

  /** The query `fetchPosts(limit)` builds. */
  function BuildQuery(limit: Option<int>): (q: string)
    ensures |q| == |QueryHead| + |LimitSlice(limit)| + |Projection()|
    ensures StartsWith(q, QueryHead)
    ensures q[|QueryHead|..|q| - |Projection()|] == LimitSlice(limit)
    ensures q[|q| - |Projection()|..] == Projection()
  {
    var head, slice, proj := QueryHead, LimitSlice(limit), Projection();
    var q := head + slice + proj;
    assert q[..|head|] == head;
    assert q[|head|..|q| - |proj|] == slice;
    assert q[|q| - |proj|..] == proj;
    q
  }

  /** The query determines the slice: two limits give the same query exactly
      when they have the same effect. */
  lemma BuildQueryInjective(a: Option<int>, b: Option<int>)
    ensures BuildQuery(a) == BuildQuery(b) <==> EffectiveLimit(a) == EffectiveLimit(b)
  {
    if BuildQuery(a) == BuildQuery(b) {
      var sa, sb := LimitSlice(a), LimitSlice(b);
      assert sa == sb;
      if EffectiveLimit(a).Some? && EffectiveLimit(b).Some? {
        var x, y := EffectiveLimit(a).value, EffectiveLimit(b).value;
        assert sa[5..|sa| - 1] == IntToString(x);
        assert sb[5..|sb| - 1] == IntToString(y);
        IntToStringInjective(x, y);
      }
    }
  }

  /** Every query carries the read-time rule, right after the projection's
      opening fields. */
  lemma QueryHasReadTimeRule(limit: Option<int>)
    ensures OccursAt(BuildQuery(limit), ReadTimeSelect, |QueryHead| + |LimitSlice(limit)| + |ProjectionHead|)
  {
    var head, slice, ph, rt, pt := QueryHead, LimitSlice(limit), ProjectionHead, ReadTimeSelect, ProjectionTail;
    ConcatRegroup(head, slice, ph, rt, pt);
    OccursInMiddle(head + slice + ph, rt, pt);
  }

  /** The read-time rule the query asks the backend to evaluate, as a
      function of the length of the body's plain text. */
  function ReadTime(textLength: nat): (r: string)
    ensures r == "3 min read" <==> textLength < 2000
    ensures r == "5 min read" <==> 2000 <= textLength < 4000
    ensures r == "8 min read" <==> 4000 <= textLength < 8000
    ensures r == "10+ min read" <==> 8000 <= textLength
  {
    if textLength < 2000 then "3 min read"
    else if textLength < 4000 then "5 min read"
    else if textLength < 8000 then "8 min read"
    else "10+ min read"
  }

  /** The position of a label in the ordering of the buckets. */
  function BucketRank(readTime: string): nat {
    if readTime == "3 min read" then 0
    else if readTime == "5 min read" then 1
    else if readTime == "8 min read" then 2
    else 3
  }

  /** A longer body never gets a shorter read-time label. */
  lemma ReadTimeMonotone(a: nat, b: nat)
    requires a <= b
    ensures BucketRank(ReadTime(a)) <= BucketRank(ReadTime(b))
  {
  }

  /** The bucket boundaries belong to the next bucket. */
  lemma ReadTimeBoundaries()
    ensures ReadTime(1999) == "3 min read" && ReadTime(2000) == "5 min read"
    ensures ReadTime(3999) == "5 min read" && ReadTime(4000) == "8 min read"
    ensures ReadTime(7999) == "8 min read" && ReadTime(8000) == "10+ min read"
  {
  }

  const FetchFallbackMessage: string := "We're experience some issues, try reloading the page."

  /** The error `fetchPosts` stores: the thrown `Error` itself, or a new
      `Error` with the fallback message for any other thrown value. */
  function StoredError(thrown: Thrown): (message: string)
    ensures thrown.ThrownError? ==> message == thrown.message
    ensures thrown.ThrownNonError? ==> message == FetchFallbackMessage
  {
    match thrown
    case ThrownError(m) => m
    case ThrownNonError => FetchFallbackMessage
  }

  /** The provider's state: the posts, the loading flag and the error
      (by its message; null is `None`). */
  class BlogStore {
    var posts: seq<Post>
    var isLoading: bool
    var error: Option<string>

    constructor ()
      ensures posts == [] && !isLoading && error == None
    {
      posts := [];
      isLoading := false;
      error := None;
    }

    function Featured(): Option<Post>
      reads this
    {
      FeaturedPost(posts)
    }

    function Regular(): seq<Post>
      reads this
    {
      RegularPosts(posts)
    }

    function Search(searchTerm: string): seq<Post>
      reads this
    {
      SearchPosts(posts, searchTerm)
    }

    /** `fetchPosts(limit)`: set loading and clear the error, build the query,
        await the response, then store the posts or the error, and clear
        loading. Returns the query that was sent. */
    method FetchPosts(limit: Option<int>, response: Outcome<seq<Post>>) returns (query: string)
      modifies this
      ensures query == BuildQuery(limit)
      ensures !isLoading
      ensures response.Success? ==> posts == response.data && error == None
      ensures response.Failure? ==> posts == old(posts) && error == Some(StoredError(response.thrown))
    {
      isLoading := true;
      error := None;
      query := QueryHead;
      if limit.Some? && limit.value != 0 {
        query := query + "[0..." + IntToString(limit.value) + "]";
      }
      assert query == QueryHead + LimitSlice(limit);
      query := query + Projection();
      match response {
        case Success(data) =>
          posts := data;
        case Failure(thrown) =>
          error := Some(StoredError(thrown));
      }
      isLoading := false;
    }
  }
}
