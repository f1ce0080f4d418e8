/**
 * The tag service: the `tags` table as a map from id to row, sharing the
 * `post_tags` join table with the post service; the slug rules, the
 * cascade on delete, the per-tag post count and a post's tags ordered by
 * name.
 *
 * Names are ordered as SQLite's default BINARY collation orders UTF-8
 * text, which is the order of code points, character by character.
 */
module TagService {
  import opened Php
  import opened TagEntity
  import Slugs
  import PostService

  /** The `tags` table: each stored tag under its id. */
  type Table = map<int, Tag>

  type Link = PostService.Link

  // ---------------------------------------------------------------- the join table

  /** `DELETE FROM post_tags WHERE tag_id = ?`: the other rows, in their order. */
  function WithoutTag(links: seq<Link>, tagId: int): (r: seq<Link>)
    ensures |r| <= |links|
    ensures forall l :: l in r <==> l in links && l.tagId != tagId
  {
    if links == [] then []
    else (if links[0].tagId == tagId then [] else [links[0]]) + WithoutTag(links[1..], tagId)
  }

  /** `countPosts`: the number of join rows carrying the tag. */
  function PostCount(links: seq<Link>, tagId: int): (n: nat)
    ensures n <= |links|
    ensures n == 0 <==> forall l :: l in links ==> l.tagId != tagId
  {
    if links == [] then 0
    else (if links[0].tagId == tagId then 1 else 0) + PostCount(links[1..], tagId)
  }

  /** Deleting a tag's rows leaves it no post and leaves every other tag's count as it was. */
  lemma {:induction false} PostCountWithoutTag(links: seq<Link>, tagId: int, other: int)
    ensures PostCount(WithoutTag(links, tagId), tagId) == 0
    ensures other != tagId ==> PostCount(WithoutTag(links, tagId), other) == PostCount(links, other)
  {
    if links != [] {
      PostCountWithoutTag(links[1..], tagId, other);
      var rest := WithoutTag(links[1..], tagId);
      if links[0].tagId == tagId {
        assert WithoutTag(links, tagId) == rest by {
          assert [] + rest == rest;
        }
      } else {
        var kept := [links[0]] + rest;
        assert WithoutTag(links, tagId) == kept;
        assert kept[0] == links[0] && kept[1..] == rest;
        assert PostCount(kept, tagId) == PostCount(rest, tagId);
        assert PostCount(kept, other) == (if links[0].tagId == other then 1 else 0) + PostCount(rest, other);
      }
    }
  }

  // ---------------------------------------------------------------- names in order

  /** `a` sorts before `b` or equals it: code point by code point, a prefix first. */
  predicate NameLe(a: string, b: string)
  {
    a == [] || (b != [] && (a[0] < b[0] || (a[0] == b[0] && NameLe(a[1..], b[1..]))))
  }

  /** Any two names compare. */
  lemma {:induction false} NameLeTotal(a: string, b: string)
    ensures NameLe(a, b) || NameLe(b, a)
  {
    if a != [] && b != [] && a[0] == b[0] {
      NameLeTotal(a[1..], b[1..]);
    }
  }

  /** The tags are ordered by name. */
  predicate SortedByName(tags: seq<Tag>)
  {
    forall i :: 0 < i < |tags| ==> NameLe(tags[i - 1].name, tags[i].name)
  }

  /** `tag` placed before the first tag of a name-ordered list whose name does not sort below its own. */
  function InsertByName(tag: Tag, tags: seq<Tag>): (r: seq<Tag>)
    requires SortedByName(tags)
    ensures SortedByName(r)
    ensures multiset(r) == multiset(tags) + multiset{tag}
    ensures r != [] && (r[0] == tag || (tags != [] && r[0] == tags[0]))
  {
    if tags == [] || NameLe(tag.name, tags[0].name) then
      [tag] + tags
    else
      NameLeTotal(tag.name, tags[0].name);
      var rest := InsertByName(tag, tags[1..]);
      assert tags == [tags[0]] + tags[1..];
      [tags[0]] + rest
  }

  /** The rows of an `ORDER BY name` over `tags`: ordered by name, the same tags, ties in their first order. */
  function SortByName(tags: seq<Tag>): (r: seq<Tag>)
    ensures SortedByName(r)
    ensures multiset(r) == multiset(tags)
  {
    if tags == [] then []
    else
      assert tags == [tags[0]] + tags[1..];
      InsertByName(tags[0], SortByName(tags[1..]))
  }

  /** The join of `post_tags` with `tags` for one post: one tag per join row, in the join table's order. */
  function JoinedTags(rows: Table, links: seq<Link>, postId: int): (r: seq<Tag>)
    ensures forall t :: t in r ==> exists id :: id in rows && rows[id] == t && PostService.Link(postId, id) in links
    ensures forall id :: id in rows && PostService.Link(postId, id) in links ==> rows[id] in r
  {
    if links == [] then []
    else
      var l := links[0];
      (if l.postId == postId && l.tagId in rows then [rows[l.tagId]] else []) + JoinedTags(rows, links[1..], postId)
  }

  /** An entry of `findByPost`. */
  datatype Summary = Summary(id: Option<int>, name: string, slug: string)

  function SummaryOf(t: Tag): Summary
  {
    Summary(t.id, t.name, t.slug)
  }

  /** The entries of `findByPost` for the tags, in their order. */
  function Summaries(tags: seq<Tag>): (r: seq<Summary>)
    ensures |r| == |tags|
    ensures forall i :: 0 <= i < |r| ==> r[i] == SummaryOf(tags[i])
  {
    seq(|tags|, i requires 0 <= i < |tags| => SummaryOf(tags[i]))
  }

  /** The entries of any reordering of the join are one per join row, each a linked tag, and cover every linked tag. */
  lemma SummariesOfJoin(rows: Table, links: seq<Link>, postId: int, tags: seq<Tag>)
    requires multiset(tags) == multiset(JoinedTags(rows, links, postId))
    ensures |Summaries(tags)| == |JoinedTags(rows, links, postId)|
    ensures forall i :: 0 <= i < |tags| ==>
      exists id :: id in rows && PostService.Link(postId, id) in links && Summaries(tags)[i] == SummaryOf(rows[id])
    ensures forall id :: id in rows && PostService.Link(postId, id) in links ==> SummaryOf(rows[id]) in Summaries(tags)
  {
    var joined := JoinedTags(rows, links, postId);
    assert |tags| == |multiset(tags)| == |multiset(joined)| == |joined|;
    forall i | 0 <= i < |tags|
      ensures exists id :: id in rows && PostService.Link(postId, id) in links && Summaries(tags)[i] == SummaryOf(rows[id])
    {
      assert tags[i] in multiset(joined);
      assert tags[i] in joined;
    }
    forall id | id in rows && PostService.Link(postId, id) in links
      ensures SummaryOf(rows[id]) in Summaries(tags)
    {
      assert rows[id] in joined;
      assert rows[id] in multiset(tags);
      var i :| 0 <= i < |tags| && tags[i] == rows[id];
      assert Summaries(tags)[i] == SummaryOf(rows[id]);
    }
  }

  // ---------------------------------------------------------------- the service

  /** The slugs of the tags other than `excludeId`, as `slugExists` sees them. */
  function SlugsOf(t: Table, excludeId: Option<int>): (used: set<string>)
    ensures forall id :: id in t && excludeId != Some(id) ==> t[id].slug in used
  {
    set id | id in t && excludeId != Some(id) :: t[id].slug
  }

  /** No two tags share a slug, an empty or "0" slug aside. */
  ghost predicate DistinctSlugs(t: Table)
  {
    forall i, j :: i in t && j in t && i != j && !IsFalsy(t[i].slug) ==> t[i].slug != t[j].slug
  }

  class Service {
    /** The `tags` table. */
    var rows: Table
    /** The `post_tags` table, in insertion order. */
    var postTags: seq<Link>
    /** The id the next insertion receives. */
    var nextId: int

    /** Every row is stored under its own id, below the counter. */
    ghost predicate Valid()
      reads this`rows, this`nextId
    {
      && nextId >= 1
      && forall id :: id in rows ==> rows[id].id == Some(id) && 1 <= id < nextId
    }

    constructor(t: Table, links: seq<Link>, next: int)
      requires next >= 1 && forall id :: id in t ==> t[id].id == Some(id) && 1 <= id < next
      ensures rows == t && postTags == links && nextId == next && Valid()
    {
      rows := t;
      postTags := links;
      nextId := next;
    }

    /** `findByPostId`: the post's tags, one per join row, ordered by name. */
    function FindByPostId(postId: int): (r: seq<Tag>)
      reads this`rows, this`postTags
      ensures SortedByName(r)
      ensures multiset(r) == multiset(JoinedTags(rows, postTags, postId))
    {
      SortByName(JoinedTags(rows, postTags, postId))
    }

    /**
     * `findByPost`: the id, name and slug of exactly the tags linked to the
     * post, one entry per join row, ordered by name.
     */
    function FindByPost(postId: int): (r: seq<Summary>)
      reads this`rows, this`postTags
      ensures |r| == |JoinedTags(rows, postTags, postId)|
      ensures forall i :: 0 < i < |r| ==> NameLe(r[i - 1].name, r[i].name)
      ensures forall i :: 0 <= i < |r| ==>
        exists id :: id in rows && PostService.Link(postId, id) in postTags && r[i] == SummaryOf(rows[id])
      ensures forall id :: id in rows && PostService.Link(postId, id) in postTags ==> SummaryOf(rows[id]) in r
    {
      var tags := FindByPostId(postId);
      SummariesOfJoin(rows, postTags, postId, tags);
      Summaries(tags)
    }

    /** `countPosts`. */
    function CountPosts(tagId: int): (n: nat)
      reads this`postTags
      ensures n == 0 <==> forall l :: l in postTags ==> l.tagId != tagId
    {
      PostCount(postTags, tagId)
    }

    /** `findById`. */
    function FindById(id: int): (r: Option<Tag>)
      reads this`rows
      ensures r.Some? <==> id in rows
      ensures r.Some? ==> r.value == rows[id]
    {
      if id in rows then Some(rows[id]) else None
    }

    /** `findBySlug`: a tag with that slug, the lowest id of several, or nothing. */
    function FindBySlug(slug: string): (r: Option<Tag>)
      reads this`rows
      ensures r.Some? <==> exists id :: id in rows && rows[id].slug == slug
      ensures r.Some? ==> exists id :: && id in rows && rows[id].slug == slug && r.value == rows[id]
                                     && forall j :: j in rows && rows[j].slug == slug ==> id <= j
    {
      var ids := set id | id in rows && rows[id].slug == slug;
      assert forall id :: id in rows && rows[id].slug == slug ==> id in ids;
      if ids == {} then None
      else
        var id := Lowest(ids);
        assert id in rows && rows[id].slug == slug;
        Some(rows[id])
    }

    /** `slugExists`: some tag other than `excludeId` carries the slug. */
    predicate SlugExists(slug: string, excludeId: Option<int>)
      reads this`rows
    {
      exists id :: id in rows && excludeId != Some(id) && rows[id].slug == slug
    }

    lemma SlugExistsIffUsed(slug: string, excludeId: Option<int>)
      ensures SlugExists(slug, excludeId) <==> slug in SlugsOf(rows, excludeId)
    {
    }

    /**
     * `generateUniqueSlug`: the slug of the name, or the first of its
     * suffixed forms `-1`, `-2`, ... that no other tag carries.
     */
    method GenerateUniqueSlug(name: string, excludeId: Option<int>) returns (slug: string)
      ensures !SlugExists(slug, excludeId)
      ensures exists k: nat ::
        && slug == Slugs.Candidate(GenerateSlug(name), k)
        && forall j :: 0 <= j < k ==> SlugExists(Slugs.Candidate(GenerateSlug(name), j), excludeId)
    {
      slug := Slugs.UniqueSlug(GenerateSlug(name), SlugsOf(rows, excludeId));
      SlugExistsIffUsed(slug, excludeId);
      ghost var k: nat :| slug == Slugs.Candidate(GenerateSlug(name), k)
        && forall j :: 0 <= j < k ==> Slugs.Candidate(GenerateSlug(name), j) in SlugsOf(rows, excludeId);
      forall j | 0 <= j < k ensures SlugExists(Slugs.Candidate(GenerateSlug(name), j), excludeId) {
        SlugExistsIffUsed(Slugs.Candidate(GenerateSlug(name), j), excludeId);
      }
    }

    /**
     * `create`: an empty slug is replaced by a unique one and the row is
     * inserted under the next id; the returned tag carries the id and the slug.
     */
    method Create(tag: Tag) returns (r: Tag)
      requires Valid()
      modifies this`rows, this`nextId
      ensures Valid()
      ensures nextId == old(nextId) + 1
      ensures r == tag.(id := Some(old(nextId)), slug := r.slug)
      ensures !IsFalsy(tag.slug) ==> r.slug == tag.slug
      ensures IsFalsy(tag.slug) ==>
        && r.slug !in SlugsOf(old(rows), None)
        && exists k: nat :: r.slug == Slugs.Candidate(GenerateSlug(tag.name), k)
      ensures old(nextId) !in old(rows) && rows == old(rows)[old(nextId) := r]
    {
      r := tag;
      if IsFalsy(r.slug) {
        var slug := GenerateUniqueSlug(r.name, None);
        SlugExistsIffUsed(slug, None);
        r := r.(slug := slug);
      }
      var id := nextId;
      r := r.(id := Some(id));
      rows := rows[id := r];
      nextId := nextId + 1;
    }

    /** `update`: the row with the tag's id takes its slug, name and description; nothing else changes. */
    method Update(tag: Tag) returns (ok: bool)
      requires Valid()
      modifies this`rows
      ensures Valid() && ok
      ensures tag.id.Some? && tag.id.value in old(rows) ==> rows == old(rows)[tag.id.value := tag]
      ensures tag.id.None? || tag.id.value !in old(rows) ==> rows == old(rows)
    {
      if tag.id.Some? && tag.id.value in rows {
        var id := tag.id.value;
        rows := rows[id := rows[id].(slug := tag.slug, name := tag.name, description := tag.description)];
      }
      ok := true;
    }

    /** `delete`: the tag's `post_tags` rows go, then the tag. */
    method Delete(id: int) returns (ok: bool)
      requires Valid()
      modifies this`rows, this`postTags
      ensures Valid() && ok
      ensures rows == old(rows) - {id}
      ensures postTags == WithoutTag(old(postTags), id)
    {
      postTags := WithoutTag(postTags, id);
      rows := rows - {id};
      ok := true;
    }
  }
}
