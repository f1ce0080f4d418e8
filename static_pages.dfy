/**
 * The pure parts of the static site generator: the page count and the
 * posts of each index page, the pagination links, the featured/regular
 * split, the previous/next neighbours of a post, the reading time and the
 * excerpt. `strip_tags` and `str_word_count` are foreign functions and come
 * in as parameters.
 */
module StaticPages {
  import opened Php
  import opened PostEntity

  /** A published post as `findPublished` returns it: the post and the joined extras. */
  datatype PostData = PostData(post: Post, extra: Extra)

  /** The `extra` part of a published post: category name and path, tag names (absent when not joined). */
  datatype Extra = Extra(categoryName: Option<string>, categoryPath: Option<string>, tags: Option<seq<string>>)

  /** The foreign functions the generator calls. */
  datatype Oracles = Oracles(
    stripTags: string -> string,
    wordCount: string -> nat,
    jsonLength: seq<SearchRecord> -> nat)

  /** A post formatted for a listing (`formatPostForTemplate`). */
  datatype Card = Card(row: PostRow, category: Option<CardCategory>, tags: Option<seq<string>>, readingTime: int)

  datatype CardCategory = CardCategory(name: string, path: Value)

  datatype Pagination = Pagination(current: nat, total: nat, prev: Option<string>, next: Option<string>)

  datatype NavLink = NavLink(title: string, slug: string)

  /** One record of `search-index.json`. */
  datatype SearchRecord = SearchRecord(title: string, url: string, excerpt: string, content: string, tags: seq<string>)

  // ---------------------------------------------------------------- pages

  /** `max(1, (int) ceil($total / $postsPerPage))`; a negative page size gives one page. */
  function TotalPages(total: nat, perPage: int): (t: nat)
    requires perPage != 0
    ensures t >= 1
    ensures perPage > 0 && total > 0 ==> (t - 1) * perPage < total <= t * perPage
    ensures perPage > 0 && total == 0 ==> t == 1
    ensures perPage < 0 ==> t == 1
  {
    if perPage < 0 || total == 0 then 1
    else
      var t := (total + perPage - 1) / perPage;
      assert t * perPage <= total + perPage - 1 < (t + 1) * perPage;
      t
  }

  /** `array_slice($s, $offset, $length)` for a non-negative offset; a negative length stops that far from the end. */
  function ArraySlice<T>(s: seq<T>, offset: nat, length: int): (r: seq<T>)
    ensures offset >= |s| ==> r == []
    ensures length >= 0 && offset < |s| ==> r == s[offset..if offset + length <= |s| then offset + length else |s|]
    ensures length < 0 && offset < |s| ==> r == (if offset <= |s| + length then s[offset..|s| + length] else [])
  {
    if offset >= |s| then []
    else if length >= 0 then s[offset..if offset + length <= |s| then offset + length else |s|]
    else if offset <= |s| + length then s[offset..|s| + length]
    else []
  }

  /** The posts of index page `page` (counting from 1). */
  function PagePosts<T>(posts: seq<T>, perPage: int, page: nat): seq<T>
    requires page >= 1 && (perPage < 0 ==> page == 1)
  {
    ArraySlice(posts, (page - 1) * perPage, perPage)
  }

  /** With a positive page size, page p holds the posts at offsets (p-1)*S up to p*S-1. */
  lemma PageHoldsItsOffsets<T>(posts: seq<T>, perPage: int, page: nat)
    requires perPage > 0 && page >= 1
    ensures var r := PagePosts(posts, perPage, page);
      |r| <= perPage
      && forall j :: 0 <= j < |r| ==> (page - 1) * perPage + j < |posts| && r[j] == posts[(page - 1) * perPage + j]
  {
  }

  /** The pages 1..k laid end to end. */
  function Paged<T>(posts: seq<T>, perPage: int, k: nat): seq<T>
    requires perPage > 0
  {
    if k == 0 then [] else Paged(posts, perPage, k - 1) + PagePosts(posts, perPage, k)
  }

  /** The first k pages hold exactly the first k*S posts, in order. */
  lemma {:induction false} PagedPrefix<T>(posts: seq<T>, perPage: int, k: nat)
    requires perPage > 0
    ensures Paged(posts, perPage, k) == posts[..if k * perPage <= |posts| then k * perPage else |posts|]
  {
    if k > 0 {
      PagedPrefix(posts, perPage, k - 1);
      assert k * perPage == (k - 1) * perPage + perPage;
    }
  }

  /** All the pages together hold every published post exactly once, in order. */
  lemma PagesCoverPosts<T>(posts: seq<T>, perPage: int)
    requires perPage > 0
    ensures Paged(posts, perPage, TotalPages(|posts|, perPage)) == posts
  {
    PagedPrefix(posts, perPage, TotalPages(|posts|, perPage));
  }

  /** Where page k is served: "/" for the first page, "/page/k/" after it. */
  function PageUrl(k: nat): string
  {
    if k == 1 then "/" else "/page/" + NatToString(k) + "/"
  }

  /** `prepareIndexData`'s pagination block: none for a single page. */
  function PaginationFor(page: nat, totalPages: nat): (p: Option<Pagination>)
    ensures p.None? <==> totalPages <= 1
  {
    if totalPages <= 1 then None
    else Some(Pagination(
      page, totalPages,
      if page > 1 then (if page == 2 then Some("/") else Some("/page/" + NatToString(page - 1) + "/")) else None,
      if page < totalPages then Some("/page/" + NatToString(page + 1) + "/") else None))
  }

  /** The links of a page point to the neighbouring pages: none before the first or after the last. */
  lemma PaginationLinks(page: nat, totalPages: nat)
    requires 1 <= page <= totalPages && totalPages > 1
    ensures var p := PaginationFor(page, totalPages).value;
      && p.current == page && p.total == totalPages
      && (page == 1 ==> p.prev.None?)
      && (page > 1 ==> p.prev == Some(PageUrl(page - 1)))
      && (page == totalPages ==> p.next.None?)
      && (page < totalPages ==> p.next == Some(PageUrl(page + 1)))
  {
  }

  // ---------------------------------------------------------------- featured split

  /** The posts `prepareIndexData` puts in the featured block: featured posts, on page 1 only. */
  function Featured(posts: seq<PostData>, page: nat): (r: seq<PostData>)
    ensures |r| <= |posts|
  {
    if posts == [] then []
    else
      var last := posts[|posts| - 1];
      Featured(posts[..|posts| - 1], page) + (if last.post.isFeatured && page == 1 then [last] else [])
  }

  /** The other posts of the page, in their order. */
  function Regular(posts: seq<PostData>, page: nat): (r: seq<PostData>)
    ensures |r| <= |posts|
  {
    if posts == [] then []
    else
      var last := posts[|posts| - 1];
      Regular(posts[..|posts| - 1], page) + (if last.post.isFeatured && page == 1 then [] else [last])
  }

  lemma SplitLast<T>(s: seq<T>)
    requires |s| > 0
    ensures s == s[..|s| - 1] + [s[|s| - 1]]
  {
  }

  /** Splitting one more post adds it to one of the two blocks. */
  lemma SplitStep(posts: seq<PostData>, i: nat, page: nat)
    requires i < |posts|
    ensures Featured(posts[..i + 1], page) == Featured(posts[..i], page) + if posts[i].post.isFeatured && page == 1 then [posts[i]] else []
    ensures Regular(posts[..i + 1], page) == Regular(posts[..i], page) + if posts[i].post.isFeatured && page == 1 then [] else [posts[i]]
  {
    assert posts[..i + 1][..i] == posts[..i];
  }

  /**
   * The featured block holds featured posts only and the regular block, on
   * page 1, none; after page 1 the featured block is empty and the regular
   * block is the whole page.
   */
  lemma {:induction false} SplitBlocks(posts: seq<PostData>, page: nat)
    ensures forall i :: 0 <= i < |Featured(posts, page)| ==> Featured(posts, page)[i].post.isFeatured
    ensures page == 1 ==> forall i :: 0 <= i < |Regular(posts, page)| ==> !Regular(posts, page)[i].post.isFeatured
    ensures page != 1 ==> Featured(posts, page) == [] && Regular(posts, page) == posts
  {
    if posts != [] {
      SplitBlocks(posts[..|posts| - 1], page);
      SplitLast(posts);
    }
  }

  /** The two blocks together hold every post of the page once. */
  lemma {:induction false} SplitFeatured(posts: seq<PostData>, page: nat)
    ensures multiset(Featured(posts, page)) + multiset(Regular(posts, page)) == multiset(posts)
  {
    if posts != [] {
      var init, last := posts[..|posts| - 1], posts[|posts| - 1];
      SplitFeatured(init, page);
      SplitLast(posts);
      assert multiset(posts) == multiset(init) + multiset{last};
      if last.post.isFeatured && page == 1 {
        assert Featured(posts, page) == Featured(init, page) + [last];
        assert Regular(posts, page) == Regular(init, page);
      } else {
        assert Featured(posts, page) == Featured(init, page);
        assert Regular(posts, page) == Regular(init, page) + [last];
      }
    }
  }

  // ---------------------------------------------------------------- neighbours

  /** The index of the first post carrying `id`. */
  function FirstWithId(all: seq<PostData>, id: Option<int>): (r: Option<nat>)
    ensures r.Some? ==> r.value < |all| && all[r.value].post.id == id
                        && forall j :: 0 <= j < r.value ==> all[j].post.id != id
    ensures r.None? ==> forall j :: 0 <= j < |all| ==> all[j].post.id != id
  {
    if all == [] then None
    else if all[0].post.id == id then Some(0)
    else match FirstWithId(all[1..], id)
      case None => None
      case Some(k) => Some(k + 1)
  }

  /** The index of the first post at or after `from` that does not carry `id`. */
  function FirstOtherFrom(all: seq<PostData>, from: nat, id: Option<int>): (r: Option<nat>)
    ensures r.Some? ==> from <= r.value < |all| && all[r.value].post.id != id
                        && forall j :: from <= j < r.value ==> all[j].post.id == id
    ensures r.None? ==> forall j :: from <= j < |all| ==> all[j].post.id == id
    decreases |all| - from
  {
    if from >= |all| then None
    else if all[from].post.id != id then Some(from)
    else FirstOtherFrom(all, from + 1, id)
  }

  function Link(d: PostData): NavLink
  {
    NavLink(d.post.title, d.post.slug)
  }

  /**
   * What the loop of `preparePostData` leaves in `prevPost`: the post just
   * before the first one carrying `id`, or the last post when none does.
   */
  function PrevOf(all: seq<PostData>, id: Option<int>): Option<NavLink>
  {
    match FirstWithId(all, id)
    case None => if all == [] then None else Some(Link(all[|all| - 1]))
    case Some(i) => if i == 0 then None else Some(Link(all[i - 1]))
  }

  /** What it leaves in `nextPost`: the first later post with another id. */
  function NextOf(all: seq<PostData>, id: Option<int>): Option<NavLink>
  {
    match FirstWithId(all, id)
    case None => None
    case Some(i) =>
      match FirstOtherFrom(all, i + 1, id)
      case None => None
      case Some(j) => Some(Link(all[j]))
  }

  predicate DistinctIds(all: seq<PostData>)
  {
    forall i, j :: 0 <= i < j < |all| ==> all[i].post.id != all[j].post.id
  }

  /**
   * With distinct ids, the neighbours of the post at index i are the
   * entries at i-1 and i+1 of the whole published list, none at the ends.
   */
  lemma NeighboursInList(all: seq<PostData>, i: nat)
    requires DistinctIds(all) && i < |all|
    ensures PrevOf(all, all[i].post.id) == if i == 0 then None else Some(Link(all[i - 1]))
    ensures NextOf(all, all[i].post.id) == if i + 1 == |all| then None else Some(Link(all[i + 1]))
  {
    var id := all[i].post.id;
    assert FirstWithId(all, id) == Some(i);
    if i + 1 < |all| {
      assert all[i + 1].post.id != id;
      assert FirstOtherFrom(all, i + 1, id) == Some(i + 1);
    }
  }

  // ---------------------------------------------------------------- reading time

  /** `max(1, (int) ceil($words / 200))`. */
  function ReadingTime(words: nat): (minutes: nat)
    ensures minutes >= 1
    ensures words > 0 ==> (minutes - 1) * 200 < words <= minutes * 200
    ensures words == 0 ==> minutes == 1
  {
    if words == 0 then 1 else (words + 199) / 200
  }

  /** The words counted for a post: its HTML when present, else its Markdown, without tags. */
  function ReadingTimeOf(o: Oracles, p: Post): nat
  {
    ReadingTime(o.wordCount(o.stripTags(p.contentHtml.GetOr(p.contentMd))))
  }

  /** `formatPostForTemplate`. */
  function CardOf(o: Oracles, d: PostData): Card
  {
    Card(
      ToArray(d.post),
      if d.extra.categoryName.Some?
      then Some(CardCategory(d.extra.categoryName.value,
                             if d.extra.categoryPath.Some? then VStr(d.extra.categoryPath.value) else IntOrNull(d.post.categoryId)))
      else None,
      d.extra.tags,
      ReadingTimeOf(o, d.post))
  }

  function Cards(o: Oracles, posts: seq<PostData>): (r: seq<Card>)
    ensures |r| == |posts| && forall i :: 0 <= i < |posts| ==> r[i] == CardOf(o, posts[i])
  {
    seq(|posts|, i requires 0 <= i < |posts| => CardOf(o, posts[i]))
  }

  // ---------------------------------------------------------------- excerpt

  /** PCRE's `\s` without the u flag: space, tab, newline, vertical tab, form feed, carriage return. */
  predicate IsSpace(c: char)
  {
    c == ' ' || c == '\t' || c == '\n' || c == '\U{0B}' || c == '\U{0C}' || c == '\r'
  }

  /** Text whose white space is single spaces only. */
  predicate SingleSpaced(t: string)
  {
    && (forall i :: 0 <= i < |t| ==> IsSpace(t[i]) ==> t[i] == ' ')
    && (forall i :: 0 <= i < |t| - 1 ==> !(t[i] == ' ' && t[i + 1] == ' '))
  }

  /** `preg_replace('/\s+/', ' ', $s)`; `inRun` says a run of white space is already open. */
  function CollapseSpace(s: string, inRun: bool): (r: string)
    ensures SingleSpaced(r)
    ensures inRun && |r| > 0 ==> r[0] != ' '
    decreases |s|
  {
    if s == [] then []
    else if !IsSpace(s[0]) then [s[0]] + CollapseSpace(s[1..], false)
    else if inRun then CollapseSpace(s[1..], true)
    else " " + CollapseSpace(s[1..], true)
  }

  /** The text an excerpt is cut from: tags stripped, white space collapsed, trimmed. */
  function ExcerptText(o: Oracles, content: string): string
  {
    Trim(CollapseSpace(o.stripTags(content), false), TrimSpace)
  }

  /**
   * Where a text longer than `length` bytes is cut: at the last space among
   * the characters held whole by its first `length` bytes, or after them
   * when there is none.
   */
  function CutPoint(text: string, length: nat): (k: nat)
    requires ByteLength(text) > length
    ensures var p := BytePrefix(text, length);
      && k <= p < |text|
      && (k == p ==> forall j :: 0 <= j < p ==> text[j] != ' ')
      && (k < p ==> text[k] == ' ' && forall j :: k < j < p ==> text[j] != ' ')
  {
    var p := BytePrefix(text, length);
    assert p < |text| by {
      if p == |text| {
        assert text[..p] == text;
      }
    }
    match LastIndexOf(text[..p], ' ')
    case Some(i) => i
    case None => p
  }

  /** `generateExcerpt`, with the length limit in bytes as `strlen` counts them. */
  function Excerpt(o: Oracles, content: string, length: nat): (r: string)
    ensures |r| <= |ExcerptText(o, content)| + 3
  {
    var text := ExcerptText(o, content);
    if ByteLength(text) <= length then text else text[..CutPoint(text, length)] + "..."
  }

  /**
   * Whether `generateExcerpt` cuts a character in two: the text is longer
   * than `length` bytes, no space comes before the limit, and the limit
   * falls inside a multi-byte character, so `substr` keeps only that
   * character's leading bytes, which are not valid UTF-8.
   */
  predicate CutsCharacter(o: Oracles, content: string, length: nat)
  {
    var text := ExcerptText(o, content);
    && ByteLength(text) > length
    && CutPoint(text, length) == BytePrefix(text, length)
    && ByteLength(text[..BytePrefix(text, length)]) < length
  }

  /**
   * Otherwise the byte cut falls on a character boundary: a longer text is
   * cut before a space or after exactly `length` bytes, so the excerpt is
   * the one `substr` gives.
   */
  lemma WholeCharacterCut(o: Oracles, content: string, length: nat)
    requires ByteLength(ExcerptText(o, content)) > length && !CutsCharacter(o, content, length)
    ensures var text := ExcerptText(o, content);
      var k := CutPoint(text, length);
      text[k] == ' ' || ByteLength(text[..k]) == length
  {
    var text := ExcerptText(o, content);
    var k := CutPoint(text, length);
    if k != BytePrefix(text, length) {
      assert text[k] == ' ';
    }
  }

  /**
   * A text of at most `length` bytes comes back whole; a longer one is cut
   * to a prefix of at most `length` bytes, before a space or, in a first
   * stretch with no space, after the last character that fits, and gets
   * "...".
   */
  lemma ExcerptShape(o: Oracles, content: string, length: nat)
    ensures var text := ExcerptText(o, content);
      var r := Excerpt(o, content, length);
      && (ByteLength(text) <= length ==> r == text)
      && (ByteLength(text) > length ==>
            && |r| >= 3 && r[|r| - 3..] == "..."
            && var k := |r| - 3;
               && k < |text| && r[..k] == text[..k] && ByteLength(text[..k]) <= length
               && (text[k] == ' ' || k == BytePrefix(text, length)))
  {
    var text := ExcerptText(o, content);
    if ByteLength(text) > length {
      var k := CutPoint(text, length);
      var p := BytePrefix(text, length);
      ByteLengthPrefix(text, k, p);
    }
  }

  lemma SliceSingleSpaced(t: string, a: nat, b: nat)
    requires a <= b <= |t| && SingleSpaced(t)
    ensures SingleSpaced(t[a..b])
  {
    assert forall i :: 0 <= i < b - a ==> t[a..b][i] == t[a + i];
  }

  /** Trimming a single-spaced text keeps it single-spaced and leaves no space at either end. */
  lemma TrimSingleSpaced(c: string)
    requires SingleSpaced(c)
    ensures var t := Trim(c, TrimSpace);
      SingleSpaced(t) && (|t| > 0 ==> t[0] != ' ' && t[|t| - 1] != ' ')
  {
    var t := Trim(c, TrimSpace);
    var a := |c| - |LTrim(c, TrimSpace)|;
    SliceSingleSpaced(c, a, a + |t|);
  }

  /** An excerpt's text has no white space but single spaces, none at either end. */
  lemma ExcerptTextSpaces(o: Oracles, content: string)
    ensures var t := ExcerptText(o, content);
      SingleSpaced(t) && (|t| > 0 ==> t[0] != ' ' && t[|t| - 1] != ' ')
  {
    var c := CollapseSpace(o.stripTags(content), false);
    assert SingleSpaced(c);
    TrimSingleSpaced(c);
    assert ExcerptText(o, content) == Trim(c, TrimSpace);
  }
}
