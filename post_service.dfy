/**
 * The post service: the `posts` table as a map from id to row, the
 * `post_tags` join table as its rows in insertion order, the publication
 * date rule, the tag synchronisation and the per-status count.
 *
 * The clock is a parameter (`now`, in seconds). Ids come from a counter
 * above every id ever stored, as an AUTOINCREMENT key does. Rows are kept
 * as `Post` values with no tag ids; reading a post attaches its tag ids
 * from `post_tags`, as `findById` does.
 */
module PostService {
  import opened Php
  import opened PostEntity
  import Slugs

  /** The `posts` table: each stored post under its id. */
  type Table = map<int, Post>

  /** A row of `post_tags`. */
  datatype Link = Link(postId: int, tagId: int)

  // ---------------------------------------------------------------- the join table

  /** `getTagIds`: the tag ids linked to the post, in the order their rows were inserted. */
  function TagIdsOf(links: seq<Link>, postId: int): (ids: seq<int>)
    ensures |ids| <= |links|
    ensures forall t :: t in ids <==> Link(postId, t) in links
  {
    if links == [] then []
    else (if links[0].postId == postId then [links[0].tagId] else []) + TagIdsOf(links[1..], postId)
  }

  /** `DELETE FROM post_tags WHERE post_id = ?`: the other rows, in their order. */
  function WithoutPost(links: seq<Link>, postId: int): (r: seq<Link>)
    ensures |r| <= |links|
    ensures forall l :: l in r <==> l in links && l.postId != postId
  {
    if links == [] then []
    else (if links[0].postId == postId then [] else [links[0]]) + WithoutPost(links[1..], postId)
  }

  /** The rows the insertion loop of `syncTags` adds: one per entry of `tagIds`, in order. */
  function LinksFor(postId: int, tagIds: seq<int>): (r: seq<Link>)
    ensures |r| == |tagIds|
    ensures forall i :: 0 <= i < |r| ==> r[i] == Link(postId, tagIds[i])
  {
    seq(|tagIds|, i requires 0 <= i < |tagIds| => Link(postId, tagIds[i]))
  }

  lemma {:induction false} TagIdsOfAppend(a: seq<Link>, b: seq<Link>, postId: int)
    ensures TagIdsOf(a + b, postId) == TagIdsOf(a, postId) + TagIdsOf(b, postId)
  {
    if a != [] {
      assert (a + b)[0] == a[0];
      assert (a + b)[1..] == a[1..] + b;
      TagIdsOfAppend(a[1..], b, postId);
      var head := if a[0].postId == postId then [a[0].tagId] else [];
      calc {
        TagIdsOf(a + b, postId);
        head + TagIdsOf(a[1..] + b, postId);
        head + (TagIdsOf(a[1..], postId) + TagIdsOf(b, postId));
        (head + TagIdsOf(a[1..], postId)) + TagIdsOf(b, postId);
        TagIdsOf(a, postId) + TagIdsOf(b, postId);
      }
    } else {
      assert a + b == b;
    }
  }

  /** The inserted rows give back exactly `tagIds` for the post and nothing for any other. */
  lemma {:induction false} TagIdsOfLinksFor(postId: int, tagIds: seq<int>, other: int)
    ensures TagIdsOf(LinksFor(postId, tagIds), postId) == tagIds
    ensures other != postId ==> TagIdsOf(LinksFor(postId, tagIds), other) == []
  {
    if tagIds != [] {
      assert LinksFor(postId, tagIds)[1..] == LinksFor(postId, tagIds[1..]);
      TagIdsOfLinksFor(postId, tagIds[1..], other);
    }
  }

  /** Deleting a post's rows leaves it none and leaves every other post's rows as they were. */
  lemma {:induction false} TagIdsOfWithoutPost(links: seq<Link>, postId: int, other: int)
    ensures TagIdsOf(WithoutPost(links, postId), postId) == []
    ensures other != postId ==> TagIdsOf(WithoutPost(links, postId), other) == TagIdsOf(links, other)
  {
    if links != [] {
      var head := if links[0].postId == postId then [] else [links[0]];
      TagIdsOfAppend(head, WithoutPost(links[1..], postId), postId);
      TagIdsOfAppend(head, WithoutPost(links[1..], postId), other);
      TagIdsOfWithoutPost(links[1..], postId, other);
    }
  }

  /**
   * After `syncTags(postId, tagIds)` the post's tag ids are exactly
   * `tagIds`, one row per entry and in order, and every other post's are
   * as they were.
   */
  lemma SyncedTagIds(before: seq<Link>, postId: int, tagIds: seq<int>, other: int)
    ensures TagIdsOf(WithoutPost(before, postId) + LinksFor(postId, tagIds), postId) == tagIds
    ensures other != postId ==>
      TagIdsOf(WithoutPost(before, postId) + LinksFor(postId, tagIds), other) == TagIdsOf(before, other)
  {
    var kept, added := WithoutPost(before, postId), LinksFor(postId, tagIds);
    TagIdsOfAppend(kept, added, postId);
    TagIdsOfAppend(kept, added, other);
    TagIdsOfWithoutPost(before, postId, other);
    TagIdsOfLinksFor(postId, tagIds, other);
    assert TagIdsOf(kept + added, postId) == [] + tagIds;
    assert other != postId ==> TagIdsOf(kept + added, other) == TagIdsOf(before, other) + [];
  }

  // ---------------------------------------------------------------- publication date

  /**
   * The `published_at` that `update` writes over `existing`: the clock
   * when the post moves into `published` from any other status, the
   * stored value otherwise.
   */
  function NextPublishedAt(existing: Post, status: string, now: int): (at: Option<int>)
    ensures existing.publishedAt.Some? ==> at.Some?
    ensures status != StatusPublished ==> at == existing.publishedAt
    ensures at != existing.publishedAt ==>
      at == Some(now) && status == StatusPublished && existing.status != StatusPublished
    ensures status == StatusPublished && existing.status != StatusPublished ==> at == Some(now)
  {
    if status == StatusPublished && existing.status != StatusPublished then Some(now) else existing.publishedAt
  }

  /** Once published, further edits that keep the post published leave its date alone. */
  lemma StaysPublishedKeepsDate(existing: Post, now: int)
    requires existing.status == StatusPublished
    ensures NextPublishedAt(existing, StatusPublished, now) == existing.publishedAt
  {
  }

  /**
   * Unpublishing keeps the date, but publishing again moves it to the new
   * clock: the date is that of the latest move into `published`, not the
   * first.
   */
  lemma RepublishMovesDate(post: Post, t1: int, t2: int, t3: int)
    requires post.status == StatusPublished && post.publishedAt == Some(t1) && t1 != t3
    ensures var draft := post.(status := StatusDraft, publishedAt := NextPublishedAt(post, StatusDraft, t2));
      && draft.publishedAt == Some(t1)
      && NextPublishedAt(draft, StatusPublished, t3) == Some(t3)
      && NextPublishedAt(draft, StatusPublished, t3) != post.publishedAt
  {
  }

  // ---------------------------------------------------------------- counting by status

  /** A row of `SELECT status, COUNT(*) FROM posts GROUP BY status`. */
  datatype StatusCount = StatusCount(status: string, count: int)

  /** Row `i` is the last of `groups` for `status`. */
  predicate IsLastFor(groups: seq<StatusCount>, i: int, status: string)
  {
    0 <= i < |groups| && groups[i].status == status && forall j :: i < j < |groups| ==> groups[j].status != status
  }

  /** The count of the last row of `groups` for `status`, or `absent` when there is none. */
  function LastCount(groups: seq<StatusCount>, status: string, absent: int): (n: int)
    ensures (forall i :: 0 <= i < |groups| ==> groups[i].status != status) ==> n == absent
  {
    if groups == [] then absent
    else if groups[|groups| - 1].status == status then groups[|groups| - 1].count
    else LastCount(groups[..|groups| - 1], status, absent)
  }

  /** The count is that of the last row for the status. */
  lemma {:induction false} LastCountIsLast(groups: seq<StatusCount>, i: int, status: string, absent: int)
    requires IsLastFor(groups, i, status)
    ensures LastCount(groups, status, absent) == groups[i].count
    decreases |groups|
  {
    var n := |groups| - 1;
    if i < n {
      assert IsLastFor(groups[..n], i, status);
      LastCountIsLast(groups[..n], i, status, absent);
    }
  }

  /** The three statuses `countByStatus` always reports. */
  const KnownStatuses: set<string> := {StatusDraft, StatusPublished, StatusArchived}

  /** The statuses the grouped rows name. */
  function GroupStatuses(groups: seq<StatusCount>): (s: set<string>)
    ensures forall i :: 0 <= i < |groups| ==> groups[i].status in s
    ensures forall x :: x in s ==> exists i :: 0 <= i < |groups| && groups[i].status == x
  {
    set i | 0 <= i < |groups| :: groups[i].status
  }

  /**
   * `countByStatus` over the grouped rows the query returns: every known
   * status is present, 0 unless a row names it, and each row's count is
   * written under its status.
   */
  method CountByStatus(groups: seq<StatusCount>) returns (result: map<string, int>)
    ensures result.Keys == KnownStatuses + GroupStatuses(groups)
    ensures forall s :: s in result ==> result[s] == LastCount(groups, s, 0)
  {
    result := map[StatusDraft := 0, StatusPublished := 0, StatusArchived := 0];
    for i := 0 to |groups|
      invariant result.Keys == KnownStatuses + GroupStatuses(groups[..i])
      invariant forall s :: s in result ==> result[s] == LastCount(groups[..i], s, 0)
    {
      GroupStep(groups, i);
      result := result[groups[i].status := groups[i].count];
    }
    assert groups[..|groups|] == groups;
  }

  /** One more grouped row: its count becomes the last for its status, and its status joins the named ones. */
  lemma GroupStep(groups: seq<StatusCount>, i: int)
    requires 0 <= i < |groups|
    ensures GroupStatuses(groups[..i + 1]) == GroupStatuses(groups[..i]) + {groups[i].status}
    ensures forall s ::
      (LastCount(groups[..i + 1], s, 0) == if s == groups[i].status then groups[i].count else LastCount(groups[..i], s, 0))
  {
    var g := groups[..i + 1];
    assert g[..|g| - 1] == groups[..i];
    assert g[|g| - 1] == groups[i];
    forall s ensures LastCount(g, s, 0) == if s == groups[i].status then groups[i].count else LastCount(groups[..i], s, 0) {
    }
  }

  /** How many posts have the status. */
  function CountOf(rows: Table, status: string): nat
  {
    |set id | id in rows && rows[id].status == status|
  }

  /** `groups` is what the grouping query returns for `rows`: one row per status present, with its count. */
  ghost predicate GroupedBy(groups: seq<StatusCount>, rows: Table)
  {
    && (forall i, j :: 0 <= i < j < |groups| ==> groups[i].status != groups[j].status)
    && (forall i :: 0 <= i < |groups| ==> groups[i].count == CountOf(rows, groups[i].status))
    && (forall id :: id in rows ==> rows[id].status in GroupStatuses(groups))
  }

  /** Over the grouped rows of a table, the count reported for a status is the number of its posts. */
  lemma CountsAreRowCounts(groups: seq<StatusCount>, rows: Table, status: string)
    requires GroupedBy(groups, rows)
    ensures LastCount(groups, status, 0) == CountOf(rows, status)
  {
    if status in GroupStatuses(groups) {
      var i :| 0 <= i < |groups| && groups[i].status == status;
      assert IsLastFor(groups, i, status);
      LastCountIsLast(groups, i, status, 0);
    } else {
      forall id | id in rows ensures rows[id].status != status {
        assert rows[id].status in GroupStatuses(groups);
      }
      assert (set id | id in rows && rows[id].status == status) == {};
    }
  }

  // ---------------------------------------------------------------- the service

  /** The slugs of the posts other than `excludeId`, as `slugExists` sees them. */
  function SlugsOf(t: Table, excludeId: Option<int>): (used: set<string>)
    ensures forall id :: id in t && excludeId != Some(id) ==> t[id].slug in used
  {
    set id | id in t && excludeId != Some(id) :: t[id].slug
  }

  /** No two posts share a slug, an empty or "0" slug aside. */
  ghost predicate DistinctSlugs(t: Table)
  {
    forall i, j :: i in t && j in t && i != j && !IsFalsy(t[i].slug) ==> t[i].slug != t[j].slug
  }

  class Service {
    /** The `posts` table. */
    var rows: Table
    /** The `post_tags` table, in insertion order. */
    var postTags: seq<Link>
    /** The id the next insertion receives. */
    var nextId: int

    /** Every row is stored under its own id, below the counter, with no tag ids of its own. */
    ghost predicate Valid()
      reads this`rows, this`nextId
    {
      && nextId >= 1
      && forall id :: id in rows ==> rows[id].id == Some(id) && 1 <= id < nextId && rows[id].tagIds == []
    }

    constructor(t: Table, links: seq<Link>, next: int)
      requires next >= 1
      requires forall id :: id in t ==> t[id].id == Some(id) && 1 <= id < next && t[id].tagIds == []
      ensures rows == t && postTags == links && nextId == next && Valid()
    {
      rows := t;
      postTags := links;
      nextId := next;
    }

    /** `getTagIds`. */
    function TagIds(postId: int): (ids: seq<int>)
      reads this
      ensures forall t :: t in ids <==> Link(postId, t) in postTags
    {
      TagIdsOf(postTags, postId)
    }

    /** `findById`: the row with that id and its tag ids, or nothing. */
    function FindById(id: int): (r: Option<Post>)
      reads this
      ensures r.Some? <==> id in rows
      ensures r.Some? ==> r.value == rows[id].(tagIds := TagIdsOf(postTags, id))
    {
      if id in rows then Some(rows[id].(tagIds := TagIds(id))) else None
    }

    /**
     * `findBySlug`: the row with that slug and its tag ids, or nothing; of
     * several rows with the slug, the scan meets the lowest id first.
     */
    function FindBySlug(slug: string): (r: Option<Post>)
      reads this
      ensures r.Some? <==> exists id :: id in rows && rows[id].slug == slug
      ensures r.Some? ==> exists id :: && id in rows && rows[id].slug == slug
                                     && r.value == rows[id].(tagIds := TagIdsOf(postTags, id))
                                     && forall j :: j in rows && rows[j].slug == slug ==> id <= j
    {
      var ids := set id | id in rows && rows[id].slug == slug;
      assert forall id :: id in rows && rows[id].slug == slug ==> id in ids;
      if ids == {} then None
      else
        var id := Lowest(ids);
        assert id in rows && rows[id].slug == slug;
        Some(rows[id].(tagIds := TagIds(id)))
    }

    /** `slugExists`: some post other than `excludeId` carries the slug. */
    predicate SlugExists(slug: string, excludeId: Option<int>)
      reads this
    {
      exists id :: id in rows && excludeId != Some(id) && rows[id].slug == slug
    }

    lemma SlugExistsIffUsed(slug: string, excludeId: Option<int>)
      ensures SlugExists(slug, excludeId) <==> slug in SlugsOf(rows, excludeId)
    {
    }

    /**
     * `generateUniqueSlug`: the slug of the title, or the first of its
     * suffixed forms `-1`, `-2`, ... that no other post carries.
     */
    method GenerateUniqueSlug(title: string, excludeId: Option<int>) returns (slug: string)
      ensures !SlugExists(slug, excludeId)
      ensures exists k: nat ::
        && slug == Slugs.Candidate(GenerateSlug(title), k)
        && forall j :: 0 <= j < k ==> SlugExists(Slugs.Candidate(GenerateSlug(title), j), excludeId)
    {
      slug := Slugs.UniqueSlug(GenerateSlug(title), SlugsOf(rows, excludeId));
      SlugExistsIffUsed(slug, excludeId);
      ghost var k: nat :| slug == Slugs.Candidate(GenerateSlug(title), k)
        && forall j :: 0 <= j < k ==> Slugs.Candidate(GenerateSlug(title), j) in SlugsOf(rows, excludeId);
      forall j | 0 <= j < k ensures SlugExists(Slugs.Candidate(GenerateSlug(title), j), excludeId) {
        SlugExistsIffUsed(Slugs.Candidate(GenerateSlug(title), j), excludeId);
      }
    }

    /** `syncTags`: the post's rows are deleted, then one row is inserted per entry of `tagIds`. */
    method SyncTags(postId: int, tagIds: seq<int>)
      modifies this`postTags
      ensures postTags == WithoutPost(old(postTags), postId) + LinksFor(postId, tagIds)
    {
      postTags := WithoutPost(postTags, postId);
      ghost var kept := postTags;
      if |tagIds| > 0 {
        for i := 0 to |tagIds|
          invariant postTags == kept + LinksFor(postId, tagIds[..i])
        {
          assert LinksFor(postId, tagIds[..i + 1]) == LinksFor(postId, tagIds[..i]) + [Link(postId, tagIds[i])];
          postTags := postTags + [Link(postId, tagIds[i])];
        }
        assert tagIds[..|tagIds|] == tagIds;
      } else {
        assert LinksFor(postId, tagIds) == [];
      }
    }

    /** The slug `create` stores: the post's own, or a unique one from its title when it is empty. */
    method CreationSlug(post: Post) returns (slug: string)
      ensures !IsFalsy(post.slug) ==> slug == post.slug
      ensures IsFalsy(post.slug) ==>
        && slug !in SlugsOf(rows, None)
        && exists k: nat :: slug == Slugs.Candidate(GenerateSlug(post.title), k)
    {
      slug := post.slug;
      if IsFalsy(slug) {
        slug := GenerateUniqueSlug(post.title, None);
        SlugExistsIffUsed(slug, None);
      }
    }

    /**
     * `create`: an empty slug is replaced by a unique one, the row is
     * inserted under the next id with `published_at` set to the clock
     * exactly when the status is `published`, and the tags are synchronised.
     * The returned post carries the new id and the slug.
     */
    method Create(post: Post, now: int) returns (r: Post)
      requires Valid()
      modifies this`rows, this`nextId, this`postTags
      ensures Valid()
      ensures nextId == old(nextId) + 1
      ensures r == post.(id := Some(old(nextId)), slug := r.slug)
      ensures !IsFalsy(post.slug) ==> r.slug == post.slug
      ensures IsFalsy(post.slug) ==>
        && r.slug !in SlugsOf(old(rows), None)
        && exists k: nat :: r.slug == Slugs.Candidate(GenerateSlug(post.title), k)
      ensures old(nextId) !in old(rows) && old(nextId) in rows
      ensures rows == old(rows)[old(nextId) := rows[old(nextId)]]
      ensures rows[old(nextId)] == r.(viewCount := 0, publishedAt := rows[old(nextId)].publishedAt, tagIds := [])
      ensures rows[old(nextId)].publishedAt.Some? <==> post.status == StatusPublished
      ensures rows[old(nextId)].publishedAt.Some? ==> rows[old(nextId)].publishedAt == Some(now)
      ensures postTags == WithoutPost(old(postTags), old(nextId)) + LinksFor(old(nextId), post.tagIds)
    {
      var slug := CreationSlug(post);
      var publishedAt := if post.status == StatusPublished then Some(now) else None;
      var id := nextId;
      r := post.(slug := slug, id := Some(id));
      rows := rows[id := r.(viewCount := 0, publishedAt := publishedAt, tagIds := [])];
      nextId := nextId + 1;
      SyncTags(id, r.tagIds);
    }

    /**
     * `update`: the row with the post's id gets the post's editable
     * columns, keeping its author and view count, with the date of
     * `NextPublishedAt`; the tags are synchronised even when no row has
     * that id.
     */
    method Update(post: Post, now: int) returns (ok: bool)
      requires Valid() && post.id.Some?
      modifies this`rows, this`postTags
      ensures Valid() && ok
      ensures var id := post.id.value;
        && (id in old(rows) ==> rows == old(rows)[id := post.(
              authorId := old(rows)[id].authorId,
              viewCount := old(rows)[id].viewCount,
              publishedAt := NextPublishedAt(old(rows)[id], post.status, now),
              tagIds := [])])
        && (id !in old(rows) ==> rows == old(rows))
      ensures postTags == WithoutPost(old(postTags), post.id.value) + LinksFor(post.id.value, post.tagIds)
    {
      var id := post.id.value;
      var existing := FindById(id);
      if existing.Some? {
        var publishedAt := NextPublishedAt(existing.value, post.status, now);
        rows := rows[id := post.(authorId := existing.value.authorId, viewCount := existing.value.viewCount,
                                 publishedAt := publishedAt, tagIds := [])];
      }
      ok := true;
      SyncTags(id, post.tagIds);
    }

    /** `delete`: the post's `post_tags` rows go, then the post. */
    method Delete(id: int) returns (ok: bool)
      requires Valid()
      modifies this`rows, this`postTags
      ensures Valid() && ok
      ensures rows == old(rows) - {id}
      ensures postTags == WithoutPost(old(postTags), id)
    {
      postTags := WithoutPost(postTags, id);
      rows := rows - {id};
      ok := true;
    }
  }
}
