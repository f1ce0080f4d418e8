/** The Tag entity: its fields, row codec and slug generator. */
module TagEntity {
  import opened Php
  import Slugs

  datatype Tag = Tag(id: Option<int>, slug: string, name: string, description: Option<string>)

  /** The columns of the `tags` table. */
  datatype Column = Id | Slug | Name | Description

  /** A tag row, keyed by column. */
  type TagRow = Row<Column>

  /** A tag built with every constructor default. */
  const Blank: Tag := Tag(None, "", "", None)

  /** `fromArray`. */
  function FromArray(row: TagRow): (t: Tag)
    ensures t.id.Some? <==> IsSet(row, Id)
    ensures !IsSet(row, Slug) ==> t.slug == ""
  {
    Tag(OptInt(row, Id), ToStr(Coalesce(row, Slug, VStr(""))),
        ToStr(Coalesce(row, Name, VStr(""))), OptStr(row, Description))
  }

  /** `toArray`. */
  function ToArray(t: Tag): (row: TagRow)
    ensures row.Keys == {Id, Slug, Name, Description}
  {
    map[Id := IntOrNull(t.id), Slug := VStr(t.slug), Name := VStr(t.name),
        Description := StrOrNull(t.description)]
  }

  /** Reading back a written row gives the tag again. */
  lemma ArrayRoundTrip(t: Tag)
    ensures FromArray(ToArray(t)) == t
  {
    var row := ToArray(t);
    OptIntRoundTrip(t.id, row, Id);
    OptStrRoundTrip(t.description, row, Description);
  }

  /** `generateSlug`: a well-formed slug from the name, "tag" when nothing is left. */
  function GenerateSlug(name: string): (slug: string)
    ensures Slugs.WellFormedSlug(slug)
  {
    Slugs.Slugify(name, "tag")
  }
}
