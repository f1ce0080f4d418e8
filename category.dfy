/**
 * The Category entity: a node of the category tree with a materialised
 * `path` of ids and a `depth`, its row codec, its slug generator and the
 * indented label used in select boxes.
 */
module CategoryEntity {
  import opened Php
  import Slugs

  datatype Category = Category(
    id: Option<int>,
    slug: string,
    name: string,
    description: Option<string>,
    parentId: Option<int>,
    path: string,
    depth: int,
    sortOrder: int)

  /** The columns of the `categories` table. */
  datatype Column = Id | Slug | Name | Description | ParentId | Path | Depth | SortOrder

  /** A category row, keyed by column. */
  type CategoryRow = Row<Column>

  /** A category built with every constructor default. */
  const Blank: Category := Category(None, "", "", None, None, "", 0, 0)

  /** `fromArray`: a row read with the constructor defaults for missing or null columns. */
  function FromArray(row: CategoryRow): (c: Category)
    ensures c.id.Some? <==> IsSet(row, Id)
    ensures c.parentId.Some? <==> IsSet(row, ParentId)
    ensures !IsSet(row, Depth) ==> c.depth == 0
  {
    Category(
      OptInt(row, Id),
      ToStr(Coalesce(row, Slug, VStr(""))),
      ToStr(Coalesce(row, Name, VStr(""))),
      OptStr(row, Description),
      OptInt(row, ParentId),
      ToStr(Coalesce(row, Path, VStr(""))),
      ToInt(Coalesce(row, Depth, VInt(0))),
      ToInt(Coalesce(row, SortOrder, VInt(0))))
  }

  /** `toArray`. */
  function ToArray(c: Category): (row: CategoryRow)
    ensures row.Keys == {Id, Slug, Name, Description, ParentId, Path, Depth, SortOrder}
  {
    map[
      Id := IntOrNull(c.id),
      Slug := VStr(c.slug),
      Name := VStr(c.name),
      Description := StrOrNull(c.description),
      ParentId := IntOrNull(c.parentId),
      Path := VStr(c.path),
      Depth := VInt(c.depth),
      SortOrder := VInt(c.sortOrder)
    ]
  }

  /** Reading back a written row gives the category again. */
  lemma ArrayRoundTrip(c: Category)
    ensures FromArray(ToArray(c)) == c
  {
    var row := ToArray(c);
    OptIntRoundTrip(c.id, row, Id);
    OptIntRoundTrip(c.parentId, row, ParentId);
    OptStrRoundTrip(c.description, row, Description);
  }

  /** `generateSlug`: a well-formed slug from the name, "category" when nothing is left. */
  function GenerateSlug(name: string): (slug: string)
    ensures Slugs.WellFormedSlug(slug)
  {
    Slugs.Slugify(name, "category")
  }

  /** `isRoot`: a category without a parent. */
  predicate IsRoot(c: Category)
  {
    c.parentId.None?
  }

  /** `str_repeat('— ', n)`. */
  function Indent(n: nat): (r: string)
    ensures |r| == 2 * n
    ensures forall i :: 0 <= i < |r| ==> r[i] == if i % 2 == 0 then '—' else ' '
  {
    if n == 0 then [] else "— " + Indent(n - 1)
  }

  /** `getIndentedName`: one "— " per level of depth, then the name (`str_repeat` rejects a negative depth). */
  function IndentedName(c: Category): (caption: string)
    requires c.depth >= 0
    ensures |caption| == 2 * c.depth + |c.name|
    ensures caption[2 * c.depth..] == c.name
    ensures forall i :: 0 <= i < 2 * c.depth ==> caption[i] == if i % 2 == 0 then '—' else ' '
    ensures c.depth == 0 ==> caption == c.name
  {
    Indent(c.depth) + c.name
  }
}
