/**
 * The back office's post actions: reading the posted form, validating it,
 * and creating, editing, updating and deleting posts through the post
 * service. The author is the signed-in user's id (the middleware has
 * already admitted the request); the Markdown renderer is a parameter.
 */
module AdminPostController {
  import opened Php
  import opened Forms
  import opened PostEntity
  import PostService
  import Slugs

  const PostsUrl := "/admin/posts"

  const TitleRequired := "Le titre est requis."
  const TitleTooShort := "Le titre doit faire au moins 3 caractères."
  const ContentRequired := "Le contenu est requis."
  const StatusInvalid := "Statut invalide."

  /** The form's fields as `getPostData` reads them. */
  datatype PostData = PostData(
    title: string,
    slug: string,
    slugLocked: bool,
    contentMd: string,
    excerpt: string,
    status: string,
    categoryId: Option<int>,
    seoTitle: string,
    seoDescription: string,
    ogImage: string,
    isFeatured: bool,
    tagIds: seq<int>)

  /** `getEmptyPost`: the form of a new post. */
  const EmptyPost := PostData("", "", false, "", "", StatusDraft, None, "", "", "", false, [])

  /**
   * `getPostData`: the text fields trimmed (the Markdown and the status
   * kept as posted), the check boxes by presence, the category as an id or
   * nothing, the tag ids cast one by one.
   */
  function GetPostData(form: Form): (d: PostData)
    ensures d.title == Trimmed(form, "title") && d.slug == Trimmed(form, "slug")
    ensures d.contentMd == TextOr(form, "content_md", "")
    ensures d.status == TextOr(form, "status", StatusDraft)
    ensures d.slugLocked <==> "slug_locked" in form
    ensures d.isFeatured <==> "is_featured" in form
    ensures d.categoryId == OptionalId(form, "category_id")
    ensures d.tagIds == IntList(form, "tag_ids")
  {
    PostData(
      Trimmed(form, "title"),
      Trimmed(form, "slug"),
      "slug_locked" in form,
      TextOr(form, "content_md", ""),
      Trimmed(form, "excerpt"),
      TextOr(form, "status", StatusDraft),
      OptionalId(form, "category_id"),
      Trimmed(form, "seo_title"),
      Trimmed(form, "seo_description"),
      Trimmed(form, "og_image"),
      "is_featured" in form,
      IntList(form, "tag_ids"))
  }

  /** An empty submission reads as the form of a new post. */
  lemma EmptySubmissionIsEmptyPost()
    ensures GetPostData(map[]) == EmptyPost
  {
  }

  /**
   * `validatePost`: the title is required and at least 3 bytes, the
   * Markdown is required, a given slug must have the slug format and belong
   * to no other post, and the status must be a known one.
   */
  function ValidatePost(d: PostData, owner: SlugOwner, postId: Option<int>): (errors: Errors)
    ensures errors.Keys <= {"title", "content_md", "slug", "status"}
    ensures errors == map[] <==>
      && !IsFalsy(d.title) && ByteLength(d.title) >= 3
      && !IsFalsy(d.contentMd)
      && (IsFalsy(d.slug) || (Slugs.MatchesSlugPattern(d.slug) && (owner.Unowned? || owner.id == postId)))
      && d.status in Statuses
    ensures "title" in errors ==> errors["title"] == (if IsFalsy(d.title) then TitleRequired else TitleTooShort)
    ensures "content_md" in errors ==> errors["content_md"] == ContentRequired
    ensures "slug" in errors ==> SlugError(d.slug, owner, postId) == Some(errors["slug"])
    ensures "status" in errors <==> d.status !in Statuses
  {
    var errors := With(map[], "title", LengthError(d.title, 3, TitleRequired, TitleTooShort));
    var errors := With(errors, "content_md", if IsFalsy(d.contentMd) then Some(ContentRequired) else None);
    var errors := With(errors, "slug", SlugError(d.slug, owner, postId));
    With(errors, "status", if d.status in Statuses then None else Some(StatusInvalid))
  }

  /** `post` with the form's fields written over it, as `store` and `update` do. */
  function Edited(post: Post, d: PostData, markdown: string -> string): Post
  {
    post.(
      slug := d.slug,
      slugLocked := d.slugLocked,
      title := d.title,
      contentMd := d.contentMd,
      contentHtml := Some(markdown(d.contentMd)),
      excerpt := NullIfFalsy(d.excerpt),
      status := d.status,
      categoryId := NullIfZero(d.categoryId),
      seoTitle := NullIfFalsy(d.seoTitle),
      seoDescription := NullIfFalsy(d.seoDescription),
      ogImage := NullIfFalsy(d.ogImage),
      isFeatured := d.isFeatured,
      tagIds := d.tagIds)
  }

  /**
   * A slug the validator accepts for a new post is carried by no post; for
   * an edited post, by no other post as long as no two posts shared a slug.
   */
  lemma AcceptedSlugIsFree(posts: PostService.Service, slug: string, postId: Option<int>)
    requires posts.Valid() && (postId.None? || PostService.DistinctSlugs(posts.rows))
    requires !IsFalsy(slug)
    requires SlugError(slug, OwnerOf(posts.FindBySlug(slug), (row: Post) => row.id), postId).None?
    ensures slug !in PostService.SlugsOf(posts.rows, postId)
  {
  }

  /** A row gets an empty slug, or one no other row carries: slugs stay distinct. */
  lemma FreshSlugKeepsDistinct(t: PostService.Table, id: int, p: Post)
    requires PostService.DistinctSlugs(t)
    requires IsFalsy(p.slug) || p.slug !in PostService.SlugsOf(t, Some(id))
    ensures PostService.DistinctSlugs(t[id := p])
  {
  }

  /** Nothing was written. */
  twostate predicate Untouched(posts: PostService.Service)
    reads posts
  {
    posts.rows == old(posts.rows) && posts.nextId == old(posts.nextId) && posts.postTags == old(posts.postTags)
  }

  /**
   * `post` was inserted under the next id, with a slug of its own or, when
   * it had none, one no post carried, `published_at` set exactly when it is
   * published, and its tags linked.
   */
  twostate predicate Created(posts: PostService.Service, new post: Post, now: int)
    reads posts
  {
    var id := old(posts.nextId);
    && posts.nextId == id + 1 && id !in old(posts.rows) && id in posts.rows
    && posts.rows == old(posts.rows)[id := posts.rows[id]]
    && posts.rows[id] == post.(id := Some(id), slug := posts.rows[id].slug, viewCount := 0,
                               publishedAt := posts.rows[id].publishedAt, tagIds := [])
    && (!IsFalsy(post.slug) ==> posts.rows[id].slug == post.slug)
    && posts.rows[id].slug !in PostService.SlugsOf(old(posts.rows), None)
    && (posts.rows[id].publishedAt.Some? <==> post.status == StatusPublished)
    && (posts.rows[id].publishedAt.Some? ==> posts.rows[id].publishedAt == Some(now))
    && posts.postTags == PostService.WithoutPost(old(posts.postTags), id) + PostService.LinksFor(id, post.tagIds)
  }

  /**
   * The row `id` now holds `post`, with the publication date `update`
   * computes from the old row, and its tags are `post`'s.
   */
  twostate predicate Overwritten(posts: PostService.Service, id: int, new post: Post, now: int)
    reads posts
  {
    && id in old(posts.rows)
    && posts.rows == old(posts.rows)[id := post.(
         publishedAt := PostService.NextPublishedAt(old(posts.rows)[id], post.status, now), tagIds := [])]
    && posts.postTags == PostService.WithoutPost(old(posts.postTags), id) + PostService.LinksFor(id, post.tagIds)
  }

  /**
   * `store`: a rejected form is shown again with its errors and nothing is
   * written; an accepted one is created with the author and the rendered
   * Markdown, and slugs stay distinct.
   */
  method Store(posts: PostService.Service, authorId: Option<int>, markdown: string -> string, form: Form, now: int)
    returns (outcome: Outcome)
    requires posts.Valid()
    modifies posts`rows, posts`nextId, posts`postTags
    ensures posts.Valid()
    ensures var d := GetPostData(form);
      var errors := ValidatePost(d, OwnerOf(old(posts.FindBySlug(d.slug)), (row: Post) => row.id), None);
      && (errors != map[] ==> outcome == FormShown(errors) && Untouched(posts))
      && (errors == map[] ==>
            && outcome == Redirected(PostsUrl, Some(Success("Article créé avec succès.")))
            && Created(posts, Edited(Blank.(authorId := authorId), d, markdown), now))
    ensures PostService.DistinctSlugs(old(posts.rows)) ==> PostService.DistinctSlugs(posts.rows)
  {
    var d := GetPostData(form);
    var errors := ValidatePost(d, OwnerOf(posts.FindBySlug(d.slug), (row: Post) => row.id), None);
    if errors != map[] {
      return FormShown(errors);
    }
    if !IsFalsy(d.slug) {
      AcceptedSlugIsFree(posts, d.slug, None);
    }
    Insert(posts, Edited(Blank.(authorId := authorId), d, markdown), now);
    outcome := Redirected(PostsUrl, Some(Success("Article créé avec succès.")));
  }

  /** The write `store` makes once the form is accepted: the new post goes to the service. */
  method Insert(posts: PostService.Service, post: Post, now: int)
    requires posts.Valid()
    requires !IsFalsy(post.slug) ==> post.slug !in PostService.SlugsOf(posts.rows, None)
    modifies posts`rows, posts`nextId, posts`postTags
    ensures posts.Valid()
    ensures Created(posts, post, now)
    ensures PostService.DistinctSlugs(old(posts.rows)) ==> PostService.DistinctSlugs(posts.rows)
  {
    ghost var before := posts.rows;
    var created := posts.Create(post, now);
    if PostService.DistinctSlugs(before) {
      FreshSlugKeepsDistinct(before, created.id.value, posts.rows[created.id.value]);
    }
  }

  /** `edit`: an unknown id goes back to the list with an error; a known one shows its form. */
  method Edit(posts: PostService.Service, id: int) returns (outcome: Outcome, post: Option<Post>)
    ensures id !in posts.rows ==> outcome == Redirected(PostsUrl, Some(Failure("Article introuvable."))) && post.None?
    ensures id in posts.rows ==> outcome == FormShown(map[]) && post == posts.FindById(id)
  {
    post := posts.FindById(id);
    if post.None? {
      return Redirected(PostsUrl, Some(Failure("Article introuvable."))), None;
    }
    outcome := FormShown(map[]);
  }

  /**
   * `update`: an unknown id goes back to the list; a rejected form is shown
   * again and nothing is written; an accepted one overwrites the post's
   * editable fields and tags, and slugs stay distinct.
   */
  method Update(posts: PostService.Service, id: int, markdown: string -> string, form: Form, now: int)
    returns (outcome: Outcome)
    requires posts.Valid()
    modifies posts`rows, posts`postTags
    ensures posts.Valid()
    ensures id !in old(posts.rows) ==>
      && outcome == Redirected(PostsUrl, Some(Failure("Article introuvable.")))
      && Untouched(posts)
    ensures id in old(posts.rows) ==>
      var d := GetPostData(form);
      var errors := ValidatePost(d, OwnerOf(old(posts.FindBySlug(d.slug)), (row: Post) => row.id), Some(id));
      && (errors != map[] ==> outcome == FormShown(errors) && Untouched(posts))
      && (errors == map[] ==>
            && outcome == Redirected(PostsUrl, Some(Success("Article mis à jour avec succès.")))
            && Overwritten(posts, id, Edited(old(posts.rows)[id], d, markdown), now))
    ensures PostService.DistinctSlugs(old(posts.rows)) ==> PostService.DistinctSlugs(posts.rows)
  {
    var found := posts.FindById(id);
    if found.None? {
      return Redirected(PostsUrl, Some(Failure("Article introuvable.")));
    }
    var d := GetPostData(form);
    var errors := ValidatePost(d, OwnerOf(posts.FindBySlug(d.slug), (row: Post) => row.id), Some(id));
    if errors != map[] {
      return FormShown(errors);
    }
    if PostService.DistinctSlugs(posts.rows) && !IsFalsy(d.slug) {
      AcceptedSlugIsFree(posts, d.slug, Some(id));
    }
    Overwrite(posts, found.value, d, markdown, now);
    outcome := Redirected(PostsUrl, Some(Success("Article mis à jour avec succès.")));
  }

  /** The write `update` makes once the form is accepted: the found post, edited, goes to the service. */
  method Overwrite(posts: PostService.Service, found: Post, d: PostData, markdown: string -> string, now: int)
    requires posts.Valid() && found.id.Some? && found.id.value in posts.rows
    requires found == posts.FindById(found.id.value).value
    requires PostService.DistinctSlugs(posts.rows) && !IsFalsy(d.slug) ==>
      d.slug !in PostService.SlugsOf(posts.rows, found.id)
    modifies posts`rows, posts`postTags
    ensures posts.Valid()
    ensures Overwritten(posts, found.id.value, Edited(old(posts.rows)[found.id.value], d, markdown), now)
    ensures PostService.DistinctSlugs(old(posts.rows)) ==> PostService.DistinctSlugs(posts.rows)
  {
    var id := found.id.value;
    ghost var before := posts.rows;
    var _ := posts.Update(Edited(found, d, markdown), now);
    assert Edited(found, d, markdown).(tagIds := []) == Edited(before[id], d, markdown).(tagIds := []);
    if PostService.DistinctSlugs(before) {
      assert posts.rows[id].slug == d.slug;
      FreshSlugKeepsDistinct(before, id, posts.rows[id]);
    }
  }

  /** `delete`: the service always reports success, so the list shows the success message. */
  method Delete(posts: PostService.Service, id: int) returns (outcome: Outcome)
    requires posts.Valid()
    modifies posts`rows, posts`postTags
    ensures posts.Valid()
    ensures posts.rows == old(posts.rows) - {id}
    ensures posts.postTags == PostService.WithoutPost(old(posts.postTags), id)
    ensures outcome == Redirected(PostsUrl, Some(Success("Article supprimé avec succès.")))
  {
    var ok := posts.Delete(id);
    outcome := if ok then Redirected(PostsUrl, Some(Success("Article supprimé avec succès.")))
               else Redirected(PostsUrl, Some(Failure("Erreur lors de la suppression.")));
  }
}
