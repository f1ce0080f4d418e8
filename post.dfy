/**
 * The Post entity: its fields and defaults, its database-row codec, its slug
 * generator and its status helpers. Timestamps are integer seconds;
 * `createdAt` and `updatedAt` are not carried.
 */
module PostEntity {
  import opened Php
  import Slugs

  const StatusDraft := "draft"
  const StatusPublished := "published"
  const StatusArchived := "archived"

  /** `STATUSES`: each known status and its label. */
  const Statuses: map<string, string> :=
    map[StatusDraft := "Brouillon", StatusPublished := "Publié", StatusArchived := "Archivé"]

  datatype Post = Post(
    id: Option<int>,
    slug: string,
    slugLocked: bool,
    title: string,
    contentMd: string,
    contentHtml: Option<string>,
    excerpt: Option<string>,
    status: string,
    categoryId: Option<int>,
    authorId: Option<int>,
    seoTitle: Option<string>,
    seoDescription: Option<string>,
    ogImage: Option<string>,
    isFeatured: bool,
    viewCount: int,
    publishedAt: Option<int>,
    tagIds: seq<int>)

  /** A post built with every constructor default. */
  const Blank: Post :=
    Post(None, "", false, "", "", None, None, StatusDraft, None, None, None, None, None, false, 0, None, [])

  /** The keys of a post row: the `posts` columns plus the two keys `toArray` adds. */
  datatype Column =
    | Id | Slug | SlugLocked | Title | ContentMd | ContentHtml | Excerpt | Status
    | StatusCaption | CategoryId | AuthorId | SeoTitle | SeoDescription | OgImage
    | IsFeatured | ViewCount | PublishedAt | TagIds

  /** A post row, keyed by column. */
  type PostRow = Row<Column>

  /** `fromArray`: a database row read with the constructor defaults for missing or null columns. */
  function FromArray(row: PostRow): (p: Post)
    ensures p.tagIds == []
    ensures p.id.Some? <==> IsSet(row, Id)
    ensures !IsSet(row, Status) ==> p.status == StatusDraft
    ensures !IsSet(row, IsFeatured) ==> !p.isFeatured
  {
    Post(
      OptInt(row, Id),
      ToStr(Coalesce(row, Slug, VStr(""))),
      ToBool(Coalesce(row, SlugLocked, VBool(false))),
      ToStr(Coalesce(row, Title, VStr(""))),
      ToStr(Coalesce(row, ContentMd, VStr(""))),
      OptStr(row, ContentHtml),
      OptStr(row, Excerpt),
      ToStr(Coalesce(row, Status, VStr(StatusDraft))),
      OptInt(row, CategoryId),
      OptInt(row, AuthorId),
      OptStr(row, SeoTitle),
      OptStr(row, SeoDescription),
      OptStr(row, OgImage),
      ToBool(Coalesce(row, IsFeatured, VBool(false))),
      ToInt(Coalesce(row, ViewCount, VInt(0))),
      OptInt(row, PublishedAt),
      [])
  }

  /** `toArray`: the row written to the database and handed to templates. */
  function ToArray(p: Post): (row: PostRow)
    ensures StatusCaption in row && row[StatusCaption] == VStr(StatusLabel(p))
  {
    map[
      Id := IntOrNull(p.id),
      Slug := VStr(p.slug),
      SlugLocked := BoolToInt(p.slugLocked),
      Title := VStr(p.title),
      ContentMd := VStr(p.contentMd),
      ContentHtml := StrOrNull(p.contentHtml),
      Excerpt := StrOrNull(p.excerpt),
      Status := VStr(p.status),
      StatusCaption := VStr(StatusLabel(p)),
      CategoryId := IntOrNull(p.categoryId),
      AuthorId := IntOrNull(p.authorId),
      SeoTitle := StrOrNull(p.seoTitle),
      SeoDescription := StrOrNull(p.seoDescription),
      OgImage := StrOrNull(p.ogImage),
      IsFeatured := BoolToInt(p.isFeatured),
      ViewCount := VInt(p.viewCount),
      PublishedAt := IntOrNull(p.publishedAt),
      TagIds := VList(seq(|p.tagIds|, i requires 0 <= i < |p.tagIds| => VInt(p.tagIds[i])))
    ]
  }

  /*
   * What `toArray` writes under each column `fromArray` reads, in four
   * groups so that each proof stays small.
   */

  ghost predicate StoresIdentity(row: PostRow, p: Post)
  {
    Id in row && row[Id] == IntOrNull(p.id)
    && Slug in row && row[Slug] == VStr(p.slug)
    && SlugLocked in row && row[SlugLocked] == BoolToInt(p.slugLocked)
  }

  ghost predicate StoresContent(row: PostRow, p: Post)
  {
    Title in row && row[Title] == VStr(p.title)
    && ContentMd in row && row[ContentMd] == VStr(p.contentMd)
    && ContentHtml in row && row[ContentHtml] == StrOrNull(p.contentHtml)
  }

  ghost predicate StoresPublication(row: PostRow, p: Post)
  {
    Excerpt in row && row[Excerpt] == StrOrNull(p.excerpt)
    && Status in row && row[Status] == VStr(p.status)
    && CategoryId in row && row[CategoryId] == IntOrNull(p.categoryId)
    && AuthorId in row && row[AuthorId] == IntOrNull(p.authorId)
  }

  ghost predicate StoresExtras(row: PostRow, p: Post)
  {
    SeoTitle in row && row[SeoTitle] == StrOrNull(p.seoTitle)
    && SeoDescription in row && row[SeoDescription] == StrOrNull(p.seoDescription)
    && OgImage in row && row[OgImage] == StrOrNull(p.ogImage)
    && IsFeatured in row && row[IsFeatured] == BoolToInt(p.isFeatured)
    && ViewCount in row && row[ViewCount] == VInt(p.viewCount)
    && PublishedAt in row && row[PublishedAt] == IntOrNull(p.publishedAt)
  }

  lemma ToArrayStoresIdentity(p: Post)
    ensures StoresIdentity(ToArray(p), p)
  {
  }

  lemma ToArrayStoresContent(p: Post)
    ensures StoresContent(ToArray(p), p)
  {
  }

  lemma ToArrayStoresPublication(p: Post)
    ensures StoresPublication(ToArray(p), p)
  {
  }

  lemma ToArrayStoresExtras(p: Post)
    ensures StoresExtras(ToArray(p), p)
  {
  }

  /** `fromArray` reads back any row holding those cells, whatever else the row holds, except the tag ids. */
  lemma FromArrayOfStored(row: PostRow, p: Post)
    requires StoresIdentity(row, p) && StoresContent(row, p)
    requires StoresPublication(row, p) && StoresExtras(row, p)
    ensures FromArray(row) == p.(tagIds := [])
  {
  }

  /** Reading back a written row gives the post again, except its tag ids, which `fromArray` never reads. */
  lemma ArrayRoundTrip(p: Post)
    ensures FromArray(ToArray(p)) == p.(tagIds := [])
  {
    ToArrayStoresIdentity(p);
    ToArrayStoresContent(p);
    ToArrayStoresPublication(p);
    ToArrayStoresExtras(p);
    FromArrayOfStored(ToArray(p), p);
  }

  /** An empty row gives the constructor's defaults. */
  lemma EmptyRowIsBlank()
    ensures FromArray(map[]) == Blank
  {
  }

  /** `generateSlug`: a well-formed slug from the title, "article" when nothing is left. */
  function GenerateSlug(title: string): (slug: string)
    ensures Slugs.WellFormedSlug(slug)
  {
    Slugs.Slugify(title, "article")
  }

  predicate IsPublished(p: Post) { p.status == StatusPublished }

  predicate IsDraft(p: Post) { p.status == StatusDraft }

  /** `getStatusLabel`: the label of a known status, "Inconnu" otherwise. */
  function StatusLabel(p: Post): (caption: string)
    ensures p.status in Statuses ==> caption == Statuses[p.status]
    ensures caption == "Inconnu" <==> p.status !in Statuses
  {
    if p.status in Statuses then Statuses[p.status] else "Inconnu"
  }

  /** `getStatusClass`: published posts are "success", drafts "warning", every other status "secondary". */
  function StatusClass(p: Post): (cls: string)
    ensures cls == "success" <==> IsPublished(p)
    ensures cls == "warning" <==> IsDraft(p)
    ensures cls in {"success", "warning", "secondary"}
  {
    match p.status
    case "published" => "success"
    case "draft" => "warning"
    case "archived" => "secondary"
    case _ => "secondary"
  }
}
