/** The head manager (src/utils/SEOMeta.tsx): find-or-append updates of
    `<meta>` elements, the per-tag elements of an article, the canonical
    link and the structured-data script, all marked with
    `data-seo-tag="true"`, and the cleanup that removes every marked element. */
module SeoMeta {
  import opened Wrappers
  import opened Strings
  import opened Sequences

  const SeoMark: string := "data-seo-tag"
  const DefaultPageType: string := "article"
  const DefaultTwitterHandle: string := "@theBlacklistDB"
  const DefaultSiteName: string := "TheBlacklistDB"

  /** An element of the document head: its tag name and its attributes. */
  datatype Element = Element(tag: string, attrs: map<string, string>)

  /** `[data-seo-tag="true"]`. */
  predicate Marked(e: Element) {
    SeoMark in e.attrs && e.attrs[SeoMark] == "true"
  }

  predicate IsUnmarked(e: Element) {
    !Marked(e)
  }

  /** The elements the cleanup leaves in place, in document order. */
  function Unmarked(els: seq<Element>): seq<Element> {
    Filter(els, IsUnmarked)
  }

  /** `tag[attr="value"]`. */
  predicate Matches(e: Element, tag: string, attr: string, value: string) {
    e.tag == tag && attr in e.attrs && e.attrs[attr] == value
  }

  /** `querySelector`: the index of the first matching element at or after `from`. */
  function FindElement(els: seq<Element>, tag: string, attr: string, value: string, from: nat): (r: Option<nat>)
    ensures r.Some? ==> from <= r.value < |els| && Matches(els[r.value], tag, attr, value)
    ensures r.Some? ==> forall j :: from <= j < r.value ==> !Matches(els[j], tag, attr, value)
    ensures r.None? ==> forall j :: from <= j < |els| ==> !Matches(els[j], tag, attr, value)
    decreases |els| - from
  {
    if from >= |els| then None
    else if Matches(els[from], tag, attr, value) then Some(from)
    else FindElement(els, tag, attr, value, from + 1)
  }

  function SetAttribute(e: Element, key: string, value: string): (r: Element)
    ensures r.tag == e.tag && r.attrs == e.attrs[key := value]
  {
    e.(attrs := e.attrs[key := value])
  }

  /** The attribute `updateMetaTag` looks the tag up by. */
  function MetaAttr(isProperty: bool): (attr: string)
    ensures attr == "property" <==> isProperty
    ensures !isProperty ==> attr == "name"
  {
    if isProperty then "property" else "name"
  }

  /** A meta element created by `updateMetaTag`. */
  function NewMeta(attr: string, name: string, content: string): (e: Element)
    requires attr != "content" && attr != SeoMark
    ensures e.tag == "meta" && Marked(e) && Matches(e, "meta", attr, name)
    ensures "content" in e.attrs && e.attrs["content"] == content
    ensures e.attrs.Keys == {attr, "content", SeoMark}
  {
    Element("meta", map[attr := name, "content" := content, SeoMark := "true"])
  }

  /** Two states of the same element that differ at most in `content` and
      `href`, the only attributes this component overwrites. */
  ghost predicate Similar(a: Element, b: Element) {
    && a.tag == b.tag
    && forall k :: k != "content" && k != "href" ==>
         (k in a.attrs <==> k in b.attrs) && (k in a.attrs ==> a.attrs[k] == b.attrs[k])
  }

  lemma SimilarKeepsMark(a: Element, b: Element)
    requires Similar(a, b)
    ensures Marked(a) <==> Marked(b)
  {
    assert SeoMark != "content" && SeoMark != "href";
  }

  /** `b` is `a` after in-place updates of `content`/`href` and appends of marked elements. */
  ghost predicate Evolves(a: seq<Element>, b: seq<Element>) {
    && |a| <= |b|
    && (forall i :: 0 <= i < |a| ==> Similar(a[i], b[i]))
    && (forall i :: |a| <= i < |b| ==> Marked(b[i]))
  }

  lemma EvolvesRefl(a: seq<Element>)
    ensures Evolves(a, a)
  {
  }

  lemma EvolvesTrans(a: seq<Element>, b: seq<Element>, c: seq<Element>)
    requires Evolves(a, b) && Evolves(b, c)
    ensures Evolves(a, c)
  {
    forall i | |a| <= i < |c|
      ensures Marked(c[i])
    {
      if i < |b| {
        SimilarKeepsMark(b[i], c[i]);
      }
    }
  }

  lemma AppendMarkedEvolves(a: seq<Element>, tail: seq<Element>)
    requires forall i :: 0 <= i < |tail| ==> Marked(tail[i])
    ensures Evolves(a, a + tail)
  {
  }

  /** `updateMetaTag(name, content, isProperty)` on the list of head elements. */
  function UpsertMeta(els: seq<Element>, name: string, content: Option<string>, isProperty: bool): (r: seq<Element>)
    ensures content.None? || content.value == "" ==> r == els
    ensures content.Some? && content.value != "" ==>
      match FindElement(els, "meta", MetaAttr(isProperty), name, 0)
      case Some(i) =>
        |r| == |els| && r[i] == SetAttribute(els[i], "content", content.value)
        && forall j :: 0 <= j < |els| && j != i ==> r[j] == els[j]
      case None =>
        r == els + [NewMeta(MetaAttr(isProperty), name, content.value)]
    ensures Evolves(els, r)
  {
    if content.None? || content.value == "" then els
    else
      var attr := MetaAttr(isProperty);
      match FindElement(els, "meta", attr, name, 0)
      case Some(i) => els[i := SetAttribute(els[i], "content", content.value)]
      case None => els + [NewMeta(attr, name, content.value)]
  }

  predicate HasContent(e: Element, content: string) {
    "content" in e.attrs && e.attrs["content"] == content
  }

  /** The first match is at `i` when `i` matches and nothing before it does. */
  lemma FindIs(els: seq<Element>, tag: string, attr: string, value: string, i: nat)
    requires i < |els| && Matches(els[i], tag, attr, value)
    requires forall j :: 0 <= j < i ==> !Matches(els[j], tag, attr, value)
    ensures FindElement(els, tag, attr, value, 0) == Some(i)
  {
  }

  /** Appending elements none of which matches leaves a lookup as it was. */
  lemma FindBefore(a: seq<Element>, b: seq<Element>, tag: string, attr: string, value: string)
    requires forall j :: 0 <= j < |b| ==> !Matches(b[j], tag, attr, value)
    ensures FindElement(a + b, tag, attr, value, 0) == FindElement(a, tag, attr, value, 0)
  {
    match FindElement(a, tag, attr, value, 0)
    case Some(i) =>
      FindIs(a + b, tag, attr, value, i);
    case None =>
      assert forall j :: 0 <= j < |a + b| ==> !Matches((a + b)[j], tag, attr, value) by {
        forall j | 0 <= j < |a + b|
          ensures !Matches((a + b)[j], tag, attr, value)
        {
          if j >= |a| {
            assert (a + b)[j] == b[j - |a|];
          }
        }
      }
  }

  /** After an update with non-empty content, looking the name up finds an
      element holding that content: the first match, rewritten, or the
      element appended for it. */
  lemma UpsertThenFind(els: seq<Element>, name: string, content: string, isProperty: bool)
    requires content != ""
    ensures var r := UpsertMeta(els, name, Some(content), isProperty);
      var f := FindElement(r, "meta", MetaAttr(isProperty), name, 0);
      && f.Some? && HasContent(r[f.value], content)
      && (f.value < |els| ==>
            && FindElement(els, "meta", MetaAttr(isProperty), name, 0) == f
            && r[f.value] == SetAttribute(els[f.value], "content", content))
      && (f.value >= |els| ==> r[f.value] == NewMeta(MetaAttr(isProperty), name, content))
  {
    var r := UpsertMeta(els, name, Some(content), isProperty);
    var attr := MetaAttr(isProperty);
    match FindElement(els, "meta", attr, name, 0)
    case Some(i) =>
      FindIs(r, "meta", attr, name, i);
    case None =>
      FindIs(r, "meta", attr, name, |els|);
  }

  /** One `updateMetaTag` call: the name, the content, and whether the tag
      is looked up by `property` rather than by `name`. */
  datatype MetaUpdate = MetaUpdate(name: string, content: Option<string>, isProperty: bool)

  /** An update leaves the element another lookup finds where it is and as
      it is, unless that element also matches the update's own lookup. */
  lemma UpsertKeeps(els: seq<Element>, u: MetaUpdate, attr: string, key: string, i: nat)
    requires attr != "content"
    requires FindElement(els, "meta", attr, key, 0) == Some(i)
    requires !Matches(els[i], "meta", MetaAttr(u.isProperty), u.name)
    ensures FindElement(UpsertMeta(els, u.name, u.content, u.isProperty), "meta", attr, key, 0) == Some(i)
    ensures UpsertMeta(els, u.name, u.content, u.isProperty)[i] == els[i]
  {
    var r := UpsertMeta(els, u.name, u.content, u.isProperty);
    if u.content.Some? && u.content.value != "" {
      match FindElement(els, "meta", MetaAttr(u.isProperty), u.name, 0)
      case Some(j) =>
        forall m | 0 <= m < i
          ensures !Matches(r[m], "meta", attr, key)
        {
          assert !Matches(els[m], "meta", attr, key);
        }
        FindIs(r, "meta", attr, key, i);
      case None =>
        FindIs(r, "meta", attr, key, i);
    }
  }

  /** An update under another lookup does not create a match where there was none. */
  lemma UpsertKeepsAbsent(els: seq<Element>, u: MetaUpdate, attr: string, key: string)
    requires attr == "name" || attr == "property"
    requires FindElement(els, "meta", attr, key, 0).None?
    requires !(MetaAttr(u.isProperty) == attr && u.name == key)
    ensures FindElement(UpsertMeta(els, u.name, u.content, u.isProperty), "meta", attr, key, 0).None?
  {
    var r := UpsertMeta(els, u.name, u.content, u.isProperty);
    if u.content.Some? && u.content.value != "" {
      match FindElement(els, "meta", MetaAttr(u.isProperty), u.name, 0)
      case Some(j) =>
        assert forall m :: 0 <= m < |r| ==> !Matches(r[m], "meta", attr, key) by {
          forall m | 0 <= m < |r|
            ensures !Matches(r[m], "meta", attr, key)
          {
            assert !Matches(els[m], "meta", attr, key);
          }
        }
      case None =>
        FindBefore(els, [NewMeta(MetaAttr(u.isProperty), u.name, u.content.value)], "meta", attr, key);
    }
  }

  /** The updates one after another. */
  function UpsertAll(els: seq<Element>, us: seq<MetaUpdate>): (r: seq<Element>)
    ensures Evolves(els, r)
    decreases |us|
  {
    if |us| == 0 then els
    else
      var e := UpsertMeta(els, us[0].name, us[0].content, us[0].isProperty);
      var r := UpsertAll(e, us[1..]);
      EvolvesTrans(els, e, r);
      r
  }

  lemma UpsertAllFirst(els: seq<Element>, us: seq<MetaUpdate>)
    requires |us| > 0
    ensures UpsertAll(els, us) == UpsertAll(UpsertMeta(els, us[0].name, us[0].content, us[0].isProperty), us[1..])
  {
  }

  /** Running two lists of updates is running one after the other. */
  lemma {:induction false} UpsertAllConcat(els: seq<Element>, a: seq<MetaUpdate>, b: seq<MetaUpdate>)
    ensures UpsertAll(els, a + b) == UpsertAll(UpsertAll(els, a), b)
    decreases |a|
  {
    if |a| == 0 {
      assert a + b == b;
    } else {
      var e := UpsertMeta(els, a[0].name, a[0].content, a[0].isProperty);
      assert (a + b)[0] == a[0] && (a + b)[1..] == a[1..] + b;
      UpsertAllFirst(els, a + b);
      UpsertAllFirst(els, a);
      UpsertAllConcat(e, a[1..], b);
    }
  }

  /** Running the updates is running the first `k`, then the `k`-th, then the rest. */
  lemma UpsertAllAt(els: seq<Element>, us: seq<MetaUpdate>, k: nat)
    requires k < |us|
    ensures UpsertAll(els, us)
         == UpsertAll(UpsertMeta(UpsertAll(els, us[..k]), us[k].name, us[k].content, us[k].isProperty), us[k + 1..])
  {
    var rest := [us[k]] + us[k + 1..];
    assert us == us[..k] + rest;
    UpsertAllConcat(els, us[..k], rest);
    UpsertAllFirst(UpsertAll(els, us[..k]), rest);
    assert rest[1..] == us[k + 1..];
  }

  /** Updates none of which matches the element another lookup finds keep
      that element as it is. */
  lemma {:induction false} UpsertAllKeeps(els: seq<Element>, us: seq<MetaUpdate>, attr: string, key: string, i: nat)
    requires attr != "content"
    requires FindElement(els, "meta", attr, key, 0) == Some(i)
    requires forall j :: 0 <= j < |us| ==> !Matches(els[i], "meta", MetaAttr(us[j].isProperty), us[j].name)
    ensures FindElement(UpsertAll(els, us), "meta", attr, key, 0) == Some(i)
    ensures UpsertAll(els, us)[i] == els[i]
    decreases |us|
  {
    if |us| > 0 {
      var e := UpsertMeta(els, us[0].name, us[0].content, us[0].isProperty);
      UpsertKeeps(els, us[0], attr, key, i);
      assert forall j :: 0 <= j < |us[1..]| ==> us[1..][j] == us[j + 1];
      UpsertAllKeeps(e, us[1..], attr, key, i);
    }
  }

  /** `"name" in e` only as `name`. */
  predicate NamedOnly(e: Element, name: string) {
    "name" in e.attrs ==> e.attrs["name"] == name
  }

  /** When every update looked up by `name` uses the same name, every element
      the updates append carries no other `name`. */
  lemma {:induction false} UpsertAllNames(els: seq<Element>, us: seq<MetaUpdate>, name: string)
    requires forall j :: 0 <= j < |us| && !us[j].isProperty ==> us[j].name == name
    ensures forall i :: |els| <= i < |UpsertAll(els, us)| ==> NamedOnly(UpsertAll(els, us)[i], name)
    decreases |us|
  {
    if |us| > 0 {
      var e := UpsertMeta(els, us[0].name, us[0].content, us[0].isProperty);
      var r := UpsertAll(e, us[1..]);
      assert forall j :: 0 <= j < |us[1..]| ==> us[1..][j] == us[j + 1];
      UpsertAllNames(e, us[1..], name);
      UpsertNames(els, us[0], name);
      if |els| < |e| {
        assert Similar(e[|els|], r[|els|]);
      }
    }
  }

  /** The element one update appends, if any, carries no other `name`. */
  lemma UpsertNames(els: seq<Element>, u: MetaUpdate, name: string)
    requires !u.isProperty ==> u.name == name
    ensures var e := UpsertMeta(els, u.name, u.content, u.isProperty);
      |e| <= |els| + 1 && (|els| < |e| ==> NamedOnly(e[|els|], name))
  {
    var e := UpsertMeta(els, u.name, u.content, u.isProperty);
    if |els| < |e| {
      var n := NewMeta(MetaAttr(u.isProperty), u.name, u.content.value);
      assert e == els + [n];
    }
  }

  /** The props, with the optional ones as options. */
  datatype SeoProps = SeoProps(
    title: string, description: Option<string>, imageUrl: Option<string>,
    canonicalUrl: string, pageType: Option<string>, publishedAt: Option<string>,
    authorName: Option<string>, tags: Option<seq<string>>,
    twitterHandle: Option<string>, siteName: Option<string>)

  function SiteName(p: SeoProps): string {
    Default(p.siteName, DefaultSiteName)
  }

  function PageType(p: SeoProps): string {
    Default(p.pageType, DefaultPageType)
  }

  function Tags(p: SeoProps): seq<string> {
    if p.tags.Some? then p.tags.value else []
  }

  /** `document.title`. */
  function DocumentTitle(p: SeoProps): (t: string)
    ensures t == p.title + " | " + SiteName(p)
    ensures p.siteName.None? ==> t == p.title + " | TheBlacklistDB"
  {
    p.title + " | " + SiteName(p)
  }

  /** The description, Open Graph and Twitter card updates, in their order,
      with the defaults applied. */
  function HeaderUpdates(p: SeoProps): seq<MetaUpdate> {
    [ MetaUpdate("description", p.description, false),
      MetaUpdate("og:title", Some(p.title), true),
      MetaUpdate("og:description", p.description, true),
      MetaUpdate("og:image", p.imageUrl, true),
      MetaUpdate("og:url", Some(p.canonicalUrl), true),
      MetaUpdate("og:type", Some(PageType(p)), true),
      MetaUpdate("og:site_name", Some(SiteName(p)), true),
      MetaUpdate("twitter:card", Some("summary_large_image"), true),
      MetaUpdate("twitter:title", Some(p.title), true),
      MetaUpdate("twitter:description", p.description, true),
      MetaUpdate("twitter:image", p.imageUrl, true),
      MetaUpdate("twitter:site", Some(Default(p.twitterHandle, DefaultTwitterHandle)), true) ]
  }

  /** The position of a name among the meta names this component writes, in
      the order it writes them; 15 for any other name. */
  function MetaNameIndex(name: string): nat {
    if name == "description" then 0
    else if name == "og:title" then 1
    else if name == "og:description" then 2
    else if name == "og:image" then 3
    else if name == "og:url" then 4
    else if name == "og:type" then 5
    else if name == "og:site_name" then 6
    else if name == "twitter:card" then 7
    else if name == "twitter:title" then 8
    else if name == "twitter:description" then 9
    else if name == "twitter:image" then 10
    else if name == "twitter:site" then 11
    else if name == "article:published_time" then 12
    else if name == "article:author" then 13
    else if name == "article:tag" then 14
    else 15
  }

  /** The `k`-th header update writes the `k`-th name, and only the first,
      the description, is looked up by `name`. So the names are distinct. */
  lemma HeaderUpdateAt(p: SeoProps, k: nat)
    requires k < |HeaderUpdates(p)|
    ensures MetaNameIndex(HeaderUpdates(p)[k].name) == k
    ensures HeaderUpdates(p)[k].isProperty <==> k != 0
  {
    if k == 0 {
    } else if k == 1 {
    } else if k == 2 {
    } else if k == 3 {
    } else if k == 4 {
    } else if k == 5 {
    } else if k == 6 {
    } else if k == 7 {
    } else if k == 8 {
    } else if k == 9 {
    } else if k == 10 {
    } else {
      assert k == 11;
    }
  }

  function HeaderMeta(els: seq<Element>, p: SeoProps): (r: seq<Element>)
    ensures Evolves(els, r)
  {
    UpsertAll(els, HeaderUpdates(p))
  }

  /** The page's own description meta, if it has one, carries no `property`
      attribute (so no Open Graph or Twitter lookup can land on it). */
  predicate DescriptionUnshared(els: seq<Element>) {
    forall i :: 0 <= i < |els| && Matches(els[i], "meta", "name", "description") ==> "property" !in els[i].attrs
  }

  /** An update by `name` on a head where nothing it can land on carries
      `property` finds, afterwards, an element without `property`. */
  lemma UpsertByNameUnshared(els: seq<Element>, name: string, content: string)
    requires content != ""
    requires forall m :: 0 <= m < |els| && Matches(els[m], "meta", "name", name) ==> "property" !in els[m].attrs
    ensures var r := UpsertMeta(els, name, Some(content), false);
      var f := FindElement(r, "meta", "name", name, 0);
      f.Some? && "property" !in r[f.value].attrs
  {
    UpsertThenFind(els, name, content, false);
  }

  /** One update, non-empty, followed by updates that cannot land on the
      element it wrote: afterwards it is found holding its content. Later
      updates are all `property` lookups, under other names; for an update
      by `name`, nothing it can land on carries `property`. */
  lemma {:induction false} UpsertThenRest(els: seq<Element>, u: MetaUpdate, rest: seq<MetaUpdate>)
    requires u.content.Some? && u.content.value != ""
    requires forall j :: 0 <= j < |rest| ==> rest[j].isProperty
    requires u.isProperty ==> forall j :: 0 <= j < |rest| ==> rest[j].name != u.name
    requires !u.isProperty ==>
      forall m :: 0 <= m < |els| && Matches(els[m], "meta", "name", u.name) ==> "property" !in els[m].attrs
    ensures var r := UpsertAll(UpsertMeta(els, u.name, u.content, u.isProperty), rest);
      var f := FindElement(r, "meta", MetaAttr(u.isProperty), u.name, 0);
      && f.Some? && HasContent(r[f.value], u.content.value)
      && (!u.isProperty ==> "property" !in r[f.value].attrs)
  {
    var attr := MetaAttr(u.isProperty);
    var step := UpsertMeta(els, u.name, u.content, u.isProperty);
    UpsertThenFind(els, u.name, u.content.value, u.isProperty);
    var i := FindElement(step, "meta", attr, u.name, 0).value;
    if !u.isProperty {
      UpsertByNameUnshared(els, u.name, u.content.value);
    }
    UpsertAllKeeps(step, rest, attr, u.name, i);
  }

  /** The `k`-th of a list of updates, non-empty, is found afterwards holding
      its content, when every later update is a `property` lookup that cannot
      land on the same element: under another name, or, for a first update
      by `name`, because no element it can land on carries `property`. */
  lemma UpsertAllWrites(els: seq<Element>, us: seq<MetaUpdate>, k: nat)
    requires k < |us| && us[k].content.Some? && us[k].content.value != ""
    requires forall j :: k < j < |us| ==> us[j].isProperty
    requires us[k].isProperty ==> forall j :: k < j < |us| ==> us[j].name != us[k].name
    requires !us[k].isProperty ==>
      k == 0 && forall m :: 0 <= m < |els| && Matches(els[m], "meta", "name", us[k].name) ==> "property" !in els[m].attrs
    ensures var r := UpsertAll(els, us);
      var f := FindElement(r, "meta", MetaAttr(us[k].isProperty), us[k].name, 0);
      && f.Some? && HasContent(r[f.value], us[k].content.value)
      && (!us[k].isProperty ==> "property" !in r[f.value].attrs)
  {
    var rest := us[k + 1..];
    UpsertAllAt(els, us, k);
    if !us[k].isProperty {
      assert us[..0] == [];
    }
    assert forall j :: 0 <= j < |rest| ==> rest[j] == us[k + 1 + j];
    UpsertThenRest(UpsertAll(els, us[..k]), us[k], rest);
  }

  /** Every header update with non-empty content is found afterwards holding
      that content; the description meta found carries no `property`. */
  lemma HeaderMetaWrites(els: seq<Element>, p: SeoProps, k: nat)
    requires k < |HeaderUpdates(p)|
    requires HeaderUpdates(p)[k].content.Some? && HeaderUpdates(p)[k].content.value != ""
    requires k == 0 ==> DescriptionUnshared(els)
    ensures var u := HeaderUpdates(p)[k];
      var r := HeaderMeta(els, p);
      var f := FindElement(r, "meta", MetaAttr(u.isProperty), u.name, 0);
      && f.Some? && HasContent(r[f.value], u.content.value)
      && (k == 0 ==> "property" !in r[f.value].attrs)
  {
    var us := HeaderUpdates(p);
    HeaderUpdateAt(p, k);
    forall j | k < j < |us|
      ensures us[j].isProperty && us[j].name != us[k].name
    {
      HeaderUpdateAt(p, j);
    }
    UpsertAllWrites(els, us, k);
  }

  /** Of the elements the header updates append, only the description
      carries a `name` attribute. */
  lemma HeaderMetaNames(els: seq<Element>, p: SeoProps)
    ensures forall i :: |els| <= i < |HeaderMeta(els, p)| ==> NamedOnly(HeaderMeta(els, p)[i], "description")
  {
    var us := HeaderUpdates(p);
    forall j | 0 <= j < |us| && !us[j].isProperty
      ensures us[j].name == "description"
    {
      HeaderUpdateAt(p, j);
    }
    UpsertAllNames(els, us, "description");
  }

  /** The element appended for one article tag. */
  function TagElement(tag: string): (e: Element)
    ensures Marked(e) && Matches(e, "meta", "property", "article:tag")
    ensures "content" in e.attrs && e.attrs["content"] == tag
  {
    Element("meta", map["property" := "article:tag", "content" := tag, SeoMark := "true"])
  }

  /** One tag element per tag, in order, duplicates included. */
  function TagElements(tags: seq<string>): (r: seq<Element>)
    ensures |r| == |tags|
    ensures forall i :: 0 <= i < |tags| ==> r[i] == TagElement(tags[i])
  {
    seq(|tags|, i requires 0 <= i < |tags| => TagElement(tags[i]))
  }

  /** The article-only updates: published time and author when present, then the tags. */
  function ArticleMeta(els: seq<Element>, p: SeoProps): (r: seq<Element>)
    ensures PageType(p) != "article" ==> r == els
    ensures PageType(p) == "article" ==>
      && |Tags(p)| <= |r|
      && r[|r| - |Tags(p)|..] == TagElements(Tags(p))
      && Evolves(els, r[..|r| - |Tags(p)|])
    ensures Evolves(els, r)
  {
    if PageType(p) != "article" then els
    else
      var e1 := if p.publishedAt.Some? && p.publishedAt.value != ""
                then UpsertMeta(els, "article:published_time", p.publishedAt, true) else els;
      var e2 := if p.authorName.Some? && p.authorName.value != ""
                then UpsertMeta(e1, "article:author", p.authorName, true) else e1;
      EvolvesTrans(els, e1, e2);
      var r := e2 + TagElements(Tags(p));
      assert r[..|e2|] == e2;
      AppendMarkedEvolves(e2, TagElements(Tags(p)));
      EvolvesTrans(els, e2, r);
      r
  }

  /** No tag element matches a `name` lookup or a `property` lookup of
      another name. */
  lemma FindBeforeTags(a: seq<Element>, tags: seq<string>, attr: string, key: string)
    requires attr == "name" || (attr == "property" && key != "article:tag")
    ensures FindElement(a + TagElements(tags), "meta", attr, key, 0) == FindElement(a, "meta", attr, key, 0)
  {
    FindBefore(a, TagElements(tags), "meta", attr, key);
  }

  /** A lookup under a key the article stage does not write: what was found
      stays found and as it was, and nothing is found where nothing was,
      provided the element found does not also carry one of the article keys. */
  lemma ArticleKeeps(els: seq<Element>, p: SeoProps, attr: string, key: string)
    requires attr == "name" || attr == "property"
    requires attr == "property" ==> key != "article:published_time" && key != "article:author" && key != "article:tag"
    requires match FindElement(els, "meta", attr, key, 0)
      case Some(i) =>
        !Matches(els[i], "meta", "property", "article:published_time") && !Matches(els[i], "meta", "property", "article:author")
      case None => true
    ensures var r := ArticleMeta(els, p);
      var f := FindElement(els, "meta", attr, key, 0);
      && FindElement(r, "meta", attr, key, 0) == f
      && (f.Some? ==> r[f.value] == els[f.value])
  {
    if PageType(p) == "article" {
      var pt := MetaUpdate("article:published_time", p.publishedAt, true);
      var au := MetaUpdate("article:author", p.authorName, true);
      var e1 := UpsertMeta(els, pt.name, pt.content, pt.isProperty);
      var e2 := UpsertMeta(e1, au.name, au.content, au.isProperty);
      FindBeforeTags(e2, Tags(p), attr, key);
      match FindElement(els, "meta", attr, key, 0)
      case Some(i) =>
        UpsertKeeps(els, pt, attr, key, i);
        UpsertKeeps(e1, au, attr, key, i);
      case None =>
        UpsertKeepsAbsent(els, pt, attr, key);
        UpsertKeepsAbsent(e1, au, attr, key);
    }
  }

  /** On an article page the published time is written exactly when it is
      given and non-empty; otherwise its lookup finds what it found before,
      unchanged. */
  lemma ArticlePublishedTime(els: seq<Element>, p: SeoProps)
    requires PageType(p) == "article"
    ensures var r := ArticleMeta(els, p);
      var f := FindElement(r, "meta", "property", "article:published_time", 0);
      && (p.publishedAt.Some? && p.publishedAt.value != "" ==> f.Some? && HasContent(r[f.value], p.publishedAt.value))
      && (p.publishedAt.None? || p.publishedAt.value == "" ==>
            f == FindElement(els, "meta", "property", "article:published_time", 0) && (f.Some? ==> r[f.value] == els[f.value]))
  {
    var key := "article:published_time";
    var au := MetaUpdate("article:author", p.authorName, true);
    var e1 := UpsertMeta(els, key, p.publishedAt, true);
    var e2 := UpsertMeta(e1, au.name, au.content, au.isProperty);
    FindBeforeTags(e2, Tags(p), "property", key);
    if p.publishedAt.Some? && p.publishedAt.value != "" {
      UpsertThenFind(els, key, p.publishedAt.value, true);
      var i := FindElement(e1, "meta", "property", key, 0).value;
      UpsertKeeps(e1, au, "property", key, i);
    } else {
      match FindElement(els, "meta", "property", key, 0)
      case Some(i) =>
        UpsertKeeps(els, au, "property", key, i);
      case None =>
        UpsertKeepsAbsent(els, au, "property", key);
    }
  }

  /** On an article page the author is written exactly when it is given and
      non-empty; otherwise its lookup finds what it found before, unchanged. */
  lemma ArticleAuthor(els: seq<Element>, p: SeoProps)
    requires PageType(p) == "article"
    ensures var r := ArticleMeta(els, p);
      var f := FindElement(r, "meta", "property", "article:author", 0);
      && (p.authorName.Some? && p.authorName.value != "" ==> f.Some? && HasContent(r[f.value], p.authorName.value))
      && (p.authorName.None? || p.authorName.value == "" ==>
            f == FindElement(els, "meta", "property", "article:author", 0) && (f.Some? ==> r[f.value] == els[f.value]))
  {
    var key := "article:author";
    var pt := MetaUpdate("article:published_time", p.publishedAt, true);
    var e1 := UpsertMeta(els, pt.name, pt.content, pt.isProperty);
    var e2 := UpsertMeta(e1, key, p.authorName, true);
    FindBeforeTags(e2, Tags(p), "property", key);
    if p.authorName.Some? && p.authorName.value != "" {
      UpsertThenFind(e1, key, p.authorName.value, true);
    } else {
      match FindElement(els, "meta", "property", key, 0)
      case Some(i) =>
        UpsertKeeps(els, pt, "property", key, i);
      case None =>
        UpsertKeepsAbsent(els, pt, "property", key);
    }
  }

  /** The canonical link: an existing `link[rel="canonical"]` gets its `href`;
      otherwise a marked one is appended. */
  function SetCanonical(els: seq<Element>, url: string): (r: seq<Element>)
    ensures match FindElement(els, "link", "rel", "canonical", 0)
      case Some(i) =>
        |r| == |els| && r[i] == SetAttribute(els[i], "href", url)
        && forall j :: 0 <= j < |els| && j != i ==> r[j] == els[j]
      case None =>
        r == els + [Element("link", map["rel" := "canonical", "href" := url, SeoMark := "true"])]
    ensures Evolves(els, r)
  {
    match FindElement(els, "link", "rel", "canonical", 0)
    case Some(i) => els[i := SetAttribute(els[i], "href", url)]
    case None => els + [Element("link", map["rel" := "canonical", "href" := url, SeoMark := "true"])]
  }

  /** The structured-data script (its JSON text is not modelled). */
  const JsonLdScript: Element := Element("script", map["type" := "application/ld+json", SeoMark := "true"])

  /** The head after the effect has run. `canonicalParses` says whether
      `new URL(canonicalUrl)` succeeds, that is, whether the URL is absolute;
      when it does not, the effect throws after the canonical link and
      before the script is appended. */
  function Effect(els: seq<Element>, p: SeoProps, canonicalParses: bool): (r: seq<Element>)
    ensures canonicalParses ==> |r| > 0 && r[|r| - 1] == JsonLdScript
    ensures canonicalParses ==> r[..|r| - 1] == Effect(els, p, false)
  {
    var staged := SetCanonical(ArticleMeta(HeaderMeta(els, p), p), p.canonicalUrl);
    if canonicalParses then staged + [JsonLdScript] else staged
  }

  /** The effect only rewrites `content`/`href` in place and appends marked elements. */
  lemma EffectEvolves(els: seq<Element>, p: SeoProps, canonicalParses: bool)
    ensures Evolves(els, Effect(els, p, canonicalParses))
  {
    var e1 := HeaderMeta(els, p);
    var e2 := ArticleMeta(e1, p);
    var e3 := SetCanonical(e2, p.canonicalUrl);
    EvolvesTrans(els, e1, e2);
    EvolvesTrans(els, e2, e3);
    AppendMarkedEvolves(e3, [JsonLdScript]);
    EvolvesTrans(els, e3, e3 + [JsonLdScript]);
  }

  /** The canonical link update leaves every meta lookup as it was. */
  lemma CanonicalKeepsMeta(a: seq<Element>, url: string, attr: string, key: string)
    requires attr == "name" || attr == "property"
    ensures var c := SetCanonical(a, url);
      var f := FindElement(a, "meta", attr, key, 0);
      && FindElement(c, "meta", attr, key, 0) == f
      && (f.Some? ==> c[f.value] == a[f.value])
  {
    var c := SetCanonical(a, url);
    match FindElement(a, "meta", attr, key, 0)
    case Some(i) =>
      forall m | 0 <= m < i
        ensures !Matches(c[m], "meta", attr, key)
      {
        assert !Matches(a[m], "meta", attr, key);
      }
      FindIs(c, "meta", attr, key, i);
    case None =>
      assert forall m :: 0 <= m < |c| ==> !Matches(c[m], "meta", attr, key) by {
        forall m | 0 <= m < |c|
          ensures !Matches(c[m], "meta", attr, key)
        {
          if m < |a| {
            assert !Matches(a[m], "meta", attr, key);
          }
        }
      }
  }

  /** The canonical link and the script leave every meta lookup as the
      article stage left it. */
  lemma EffectKeepsMeta(els: seq<Element>, p: SeoProps, canonicalParses: bool, attr: string, key: string)
    requires attr == "name" || attr == "property"
    ensures var a := ArticleMeta(HeaderMeta(els, p), p);
      var r := Effect(els, p, canonicalParses);
      var f := FindElement(a, "meta", attr, key, 0);
      && FindElement(r, "meta", attr, key, 0) == f
      && (f.Some? ==> r[f.value] == a[f.value])
  {
    var a := ArticleMeta(HeaderMeta(els, p), p);
    var c := SetCanonical(a, p.canonicalUrl);
    CanonicalKeepsMeta(a, p.canonicalUrl, attr, key);
    FindBefore(c, [JsonLdScript], "meta", attr, key);
  }

  /** After the canonical update the canonical lookup finds a link whose
      `href` is the URL. */
  lemma CanonicalFound(a: seq<Element>, url: string)
    ensures var c := SetCanonical(a, url);
      var f := FindElement(c, "link", "rel", "canonical", 0);
      f.Some? && "href" in c[f.value].attrs && c[f.value].attrs["href"] == url
  {
    var c := SetCanonical(a, url);
    match FindElement(a, "link", "rel", "canonical", 0)
    case Some(i) =>
      FindIs(c, "link", "rel", "canonical", i);
    case None =>
      FindIs(c, "link", "rel", "canonical", |a|);
  }

  /** After the effect the canonical lookup finds a link whose `href` is the
      canonical URL. */
  lemma EffectCanonical(els: seq<Element>, p: SeoProps, canonicalParses: bool)
    ensures var r := Effect(els, p, canonicalParses);
      var f := FindElement(r, "link", "rel", "canonical", 0);
      f.Some? && "href" in r[f.value].attrs && r[f.value].attrs["href"] == p.canonicalUrl
  {
    var c := SetCanonical(ArticleMeta(HeaderMeta(els, p), p), p.canonicalUrl);
    CanonicalFound(ArticleMeta(HeaderMeta(els, p), p), p.canonicalUrl);
    FindBefore(c, [JsonLdScript], "link", "rel", "canonical");
  }

  /** Each header value given non-empty is found in the final head holding
      that value (the description under the same condition as in
      `HeaderMetaWrites`). */
  lemma EffectHeaderWrites(els: seq<Element>, p: SeoProps, canonicalParses: bool, k: nat)
    requires k < |HeaderUpdates(p)|
    requires HeaderUpdates(p)[k].content.Some? && HeaderUpdates(p)[k].content.value != ""
    requires k == 0 ==> DescriptionUnshared(els)
    ensures var u := HeaderUpdates(p)[k];
      var r := Effect(els, p, canonicalParses);
      var f := FindElement(r, "meta", MetaAttr(u.isProperty), u.name, 0);
      f.Some? && HasContent(r[f.value], u.content.value)
  {
    var u := HeaderUpdates(p)[k];
    var attr := MetaAttr(u.isProperty);
    var h := HeaderMeta(els, p);
    HeaderMetaWrites(els, p, k);
    HeaderUpdateAt(p, k);
    ArticleKeeps(h, p, attr, u.name);
    EffectKeepsMeta(els, p, canonicalParses, attr, u.name);
  }

  /** Each article value given non-empty on an article page is found in the
      final head holding that value. */
  lemma EffectArticleWrites(els: seq<Element>, p: SeoProps, canonicalParses: bool)
    requires PageType(p) == "article"
    ensures var r := Effect(els, p, canonicalParses);
      var f := FindElement(r, "meta", "property", "article:published_time", 0);
      p.publishedAt.Some? && p.publishedAt.value != "" ==> f.Some? && HasContent(r[f.value], p.publishedAt.value)
    ensures var r := Effect(els, p, canonicalParses);
      var f := FindElement(r, "meta", "property", "article:author", 0);
      p.authorName.Some? && p.authorName.value != "" ==> f.Some? && HasContent(r[f.value], p.authorName.value)
  {
    var h := HeaderMeta(els, p);
    ArticlePublishedTime(h, p);
    ArticleAuthor(h, p);
    EffectKeepsMeta(els, p, canonicalParses, "property", "article:published_time");
    EffectKeepsMeta(els, p, canonicalParses, "property", "article:author");
  }

  lemma {:induction false} UnmarkedPointwise(a: seq<Element>, c: seq<Element>)
    requires |a| == |c| && forall i :: 0 <= i < |a| ==> Similar(a[i], c[i])
    ensures |Unmarked(a)| == |Unmarked(c)|
    ensures forall i :: 0 <= i < |Unmarked(a)| ==> Similar(Unmarked(a)[i], Unmarked(c)[i])
    decreases |a|
  {
    if |a| > 0 {
      UnmarkedPointwise(a[1..], c[1..]);
      SimilarKeepsMark(a[0], c[0]);
      var ra, rc := Unmarked(a[1..]), Unmarked(c[1..]);
      if IsUnmarked(a[0]) {
        assert Unmarked(a) == [a[0]] + ra;
        assert Unmarked(c) == [c[0]] + rc;
      } else {
        assert Unmarked(a) == ra;
        assert Unmarked(c) == rc;
      }
    }
  }

  /** What survives the cleanup after an evolution is what survived before it,
      element for element, up to `content` and `href`. */
  lemma EvolvesUnmarked(a: seq<Element>, b: seq<Element>)
    requires Evolves(a, b)
    ensures |Unmarked(b)| == |Unmarked(a)|
    ensures forall i :: 0 <= i < |Unmarked(a)| ==> Similar(Unmarked(a)[i], Unmarked(b)[i])
  {
    var front, back := b[..|a|], b[|a|..];
    assert b == front + back;
    FilterConcat(front, back, IsUnmarked);
    FilterNone(back, IsUnmarked);
    UnmarkedPointwise(a, front);
  }

  /** Mount then unmount: the pre-existing unmarked elements all survive, in
      order, with the same tags and the same other attributes, but any
      `content` or `href` the effect wrote stays written. */
  lemma EffectThenCleanup(els: seq<Element>, p: SeoProps)
    ensures |Unmarked(Effect(els, p, true))| == |Unmarked(els)|
    ensures forall i :: 0 <= i < |Unmarked(els)| ==> Similar(Unmarked(els)[i], Unmarked(Effect(els, p, true))[i])
  {
    EffectEvolves(els, p, true);
    EvolvesUnmarked(els, Effect(els, p, true));
  }

  /** An unmarked description meta keeps the description written into it after cleanup. */
  lemma OverwrittenDescriptionSurvives(d: string, description: string)
    requires description != ""
    ensures UpsertMeta([Element("meta", map["name" := "description", "content" := d])], "description", Some(description), false)
            == [Element("meta", map["name" := "description", "content" := description])]
    ensures Unmarked([Element("meta", map["name" := "description", "content" := description])])
            == [Element("meta", map["name" := "description", "content" := description])]
  {
    var e := Element("meta", map["name" := "description", "content" := d]);
    assert Matches(e, "meta", "name", "description");
    assert map["name" := "description", "content" := d]["content" := description]
        == map["name" := "description", "content" := description];
    var e' := Element("meta", map["name" := "description", "content" := description]);
    assert IsUnmarked(e');
    assert Unmarked([e']) == [e'] + Unmarked([e'][1..]);
  }

  class DocumentHead {
    var title: string
    var elements: seq<Element>

    constructor (title: string, elements: seq<Element>)
      ensures this.title == title && this.elements == elements
    {
      this.title := title;
      this.elements := elements;
    }

    /** `updateMetaTag`: nothing for absent or empty content; otherwise the
        first matching meta gets the content, or a marked one is appended. */
    method UpdateMetaTag(name: string, content: Option<string>, isProperty: bool)
      modifies this
      ensures elements == UpsertMeta(old(elements), name, content, isProperty)
      ensures title == old(title)
    {
      if content.None? || content.value == "" {
        return;
      }
      var attr := MetaAttr(isProperty);
      var found := FindElement(elements, "meta", attr, name, 0);
      if found.Some? {
        var i := found.value;
        elements := elements[i := SetAttribute(elements[i], "content", content.value)];
      } else {
        elements := elements + [NewMeta(attr, name, content.value)];
      }
    }

    /** The effect body: title, meta updates, tags, canonical link, script.
        When `new URL(canonicalUrl)` throws, the body stops before the
        script and returns no cleanup; `cleanupRegistered` says whether it
        returned one. */
    method ApplySeo(p: SeoProps, canonicalParses: bool) returns (cleanupRegistered: bool)
      modifies this
      ensures title == DocumentTitle(p)
      ensures elements == Effect(old(elements), p, canonicalParses)
      ensures cleanupRegistered == canonicalParses
    {
      var siteName := Default(p.siteName, DefaultSiteName);
      title := p.title + " | " + siteName;
      ApplyHeaderMeta(p);
      ApplyArticleMeta(p);
      ApplyCanonical(p.canonicalUrl);
      if !canonicalParses {
        return false;
      }
      elements := elements + [JsonLdScript];
      cleanupRegistered := true;
    }

    /** The description, Open Graph and Twitter card updates. `pending`
        holds the updates still to run. */
    method ApplyHeaderMeta(p: SeoProps)
      modifies this
      ensures elements == HeaderMeta(old(elements), p) && title == old(title)
    {
      var siteName := Default(p.siteName, DefaultSiteName);
      var pageType := Default(p.pageType, DefaultPageType);
      var twitterHandle := Default(p.twitterHandle, DefaultTwitterHandle);
      ghost var pending := HeaderUpdates(p);
      UpsertAllFirst(elements, pending);
      UpdateMetaTag("description", p.description, false);
      pending := pending[1..];
      UpsertAllFirst(elements, pending);
      UpdateMetaTag("og:title", Some(p.title), true);
      pending := pending[1..];
      UpsertAllFirst(elements, pending);
      UpdateMetaTag("og:description", p.description, true);
      pending := pending[1..];
      UpsertAllFirst(elements, pending);
      UpdateMetaTag("og:image", p.imageUrl, true);
      pending := pending[1..];
      UpsertAllFirst(elements, pending);
      UpdateMetaTag("og:url", Some(p.canonicalUrl), true);
      pending := pending[1..];
      UpsertAllFirst(elements, pending);
      UpdateMetaTag("og:type", Some(pageType), true);
      pending := pending[1..];
      UpsertAllFirst(elements, pending);
      UpdateMetaTag("og:site_name", Some(siteName), true);
      pending := pending[1..];
      UpsertAllFirst(elements, pending);
      UpdateMetaTag("twitter:card", Some("summary_large_image"), true);
      pending := pending[1..];
      UpsertAllFirst(elements, pending);
      UpdateMetaTag("twitter:title", Some(p.title), true);
      pending := pending[1..];
      UpsertAllFirst(elements, pending);
      UpdateMetaTag("twitter:description", p.description, true);
      pending := pending[1..];
      UpsertAllFirst(elements, pending);
      UpdateMetaTag("twitter:image", p.imageUrl, true);
      pending := pending[1..];
      UpsertAllFirst(elements, pending);
      UpdateMetaTag("twitter:site", Some(twitterHandle), true);
      pending := pending[1..];
    }

    /** The article-only updates and the `forEach` over the tags. */
    method ApplyArticleMeta(p: SeoProps)
      modifies this
      ensures elements == ArticleMeta(old(elements), p) && title == old(title)
    {
      var pageType := Default(p.pageType, DefaultPageType);
      var tags := if p.tags.Some? then p.tags.value else [];
      if pageType == "article" {
        if p.publishedAt.Some? && p.publishedAt.value != "" {
          UpdateMetaTag("article:published_time", p.publishedAt, true);
        }
        if p.authorName.Some? && p.authorName.value != "" {
          UpdateMetaTag("article:author", p.authorName, true);
        }
        AppendTags(tags);
      }
    }

    /** The `forEach` over the tags: one marked element per tag, in order. */
    method AppendTags(tags: seq<string>)
      modifies this
      ensures elements == old(elements) + TagElements(tags) && title == old(title)
    {
      for i := 0 to |tags|
        invariant elements == old(elements) + TagElements(tags[..i])
        invariant title == old(title)
      {
        assert TagElements(tags[..i + 1]) == TagElements(tags[..i]) + [TagElement(tags[i])];
        elements := elements + [TagElement(tags[i])];
      }
      assert tags[..|tags|] == tags;
    }

    /** The canonical link update. */
    method ApplyCanonical(url: string)
      modifies this
      ensures elements == SetCanonical(old(elements), url) && title == old(title)
    {
      var canonical := FindElement(elements, "link", "rel", "canonical", 0);
      if canonical.Some? {
        var i := canonical.value;
        elements := elements[i := SetAttribute(elements[i], "href", url)];
      } else {
        elements := elements + [Element("link", map["rel" := "canonical", "href" := url, SeoMark := "true"])];
      }
    }

    /** The effect's cleanup: every marked element is removed in document
        order; the second pass over marked scripts then finds none. */
    method Cleanup()
      modifies this
      ensures elements == Unmarked(old(elements))
      ensures title == old(title)
    {
      var marked := elements;
      for i := 0 to |marked|
        invariant elements == Unmarked(marked[..i]) + marked[i..]
        invariant title == old(title)
      {
        RemoveStep(marked, i, elements);
        if Marked(marked[i]) {
          var j := |Unmarked(marked[..i])|;
          elements := elements[..j] + elements[j + 1..];
        }
      }
      assert marked[..|marked|] == marked;
      NoMarkedScriptLeft(elements);
    }
  }

  lemma UnmarkedSnoc(s: seq<Element>, x: Element)
    ensures Unmarked(s + [x]) == Unmarked(s) + (if IsUnmarked(x) then [x] else [])
  {
    FilterConcat(s, [x], IsUnmarked);
    assert Unmarked([x]) == (if IsUnmarked(x) then [x] else []) by {
      assert [x][1..] == [];
    }
  }

  /** One step of the removal loop: the `i`-th element stays iff it is unmarked. */
  lemma RemoveStep(marked: seq<Element>, i: nat, elements: seq<Element>)
    requires i < |marked| && elements == Unmarked(marked[..i]) + marked[i..]
    ensures var j := |Unmarked(marked[..i])|;
      && j < |elements| && elements[j] == marked[i]
      && (Marked(marked[i]) ==> elements[..j] + elements[j + 1..] == Unmarked(marked[..i + 1]) + marked[i + 1..])
      && (!Marked(marked[i]) ==> elements == Unmarked(marked[..i + 1]) + marked[i + 1..])
  {
    assert marked[..i + 1] == marked[..i] + [marked[i]];
    UnmarkedSnoc(marked[..i], marked[i]);
    var u := Unmarked(marked[..i]);
    assert elements[..|u|] == u;
    assert elements[|u| + 1..] == marked[i + 1..];
    assert marked[i..] == [marked[i]] + marked[i + 1..];
  }

  predicate IsMarkedScript(e: Element) {
    e.tag == "script" && Marked(e)
  }

  /** After the first pass no marked script is left for the second one. */
  lemma NoMarkedScriptLeft(els: seq<Element>)
    requires forall i :: 0 <= i < |els| ==> IsUnmarked(els[i])
    ensures Filter(els, IsMarkedScript) == []
  {
    FilterNone(els, IsMarkedScript);
  }

  /** Mounting and unmounting the component on a head. With an absolute
      canonical URL every marked element goes again; otherwise the effect
      threw, no cleanup runs, and the head keeps everything it wrote. */
  method MountThenUnmount(head: DocumentHead, p: SeoProps, canonicalParses: bool)
    modifies head
    ensures head.title == DocumentTitle(p)
    ensures canonicalParses ==>
      && |head.elements| == |Unmarked(old(head.elements))|
      && forall i :: 0 <= i < |head.elements| ==> Similar(Unmarked(old(head.elements))[i], head.elements[i])
    ensures !canonicalParses ==> head.elements == Effect(old(head.elements), p, false)
  {
    var registered := head.ApplySeo(p, canonicalParses);
    if registered {
      head.Cleanup();
      EffectThenCleanup(old(head.elements), p);
    }
  }
}
