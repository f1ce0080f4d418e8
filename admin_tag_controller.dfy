/**
 * The back office's tag actions: reading and validating the posted form,
 * and creating, editing, updating and deleting tags through the tag
 * service.
 */
module AdminTagController {
  import opened Php
  import opened Forms
  import opened TagEntity
  import TagService

  const TagsUrl := "/admin/tags"

  /** The form's fields, trimmed, as `store` and `update` read them. */
  datatype TagData = TagData(name: string, slug: string, description: string)

  function ReadTag(form: Form): (d: TagData)
    ensures d.name == Trimmed(form, "name") && d.slug == Trimmed(form, "slug")
    ensures d.description == Trimmed(form, "description")
  {
    TagData(Trimmed(form, "name"), Trimmed(form, "slug"), Trimmed(form, "description"))
  }

  /** `tag` with the form's fields written over it. */
  function Edited(tag: Tag, d: TagData): Tag
  {
    tag.(name := d.name, slug := d.slug, description := NullIfFalsy(d.description))
  }

  /**
   * A slug the validator accepts for a new tag is carried by no tag; for
   * an edited tag, by no other tag as long as no two tags shared a slug.
   */
  lemma AcceptedSlugIsFree(tags: TagService.Service, slug: string, tagId: Option<int>)
    requires tags.Valid() && (tagId.None? || TagService.DistinctSlugs(tags.rows))
    requires !IsFalsy(slug)
    requires SlugError(slug, OwnerOf(tags.FindBySlug(slug), (row: Tag) => row.id), tagId).None?
    ensures slug !in TagService.SlugsOf(tags.rows, tagId)
  {
  }

  /** A row gets an empty slug, or one no other row carries: slugs stay distinct. */
  lemma FreshSlugKeepsDistinct(t: TagService.Table, id: int, tag: Tag)
    requires TagService.DistinctSlugs(t)
    requires IsFalsy(tag.slug) || tag.slug !in TagService.SlugsOf(t, Some(id))
    ensures TagService.DistinctSlugs(t[id := tag])
  {
  }

  /**
   * `store`: a rejected form is shown again and nothing is written; an
   * accepted one is created, and slugs stay distinct.
   */
  method Store(tags: TagService.Service, form: Form) returns (outcome: Outcome)
    requires tags.Valid()
    modifies tags`rows, tags`nextId
    ensures tags.Valid()
    ensures var d := ReadTag(form);
      var errors := NameAndSlugErrors(d.name, d.slug, OwnerOf(old(tags.FindBySlug(d.slug)), (row: Tag) => row.id), None);
      var id := old(tags.nextId);
      && (errors != map[] ==>
            outcome == FormShown(errors) && tags.rows == old(tags.rows) && tags.nextId == id)
      && (errors == map[] ==>
            && outcome == Redirected(TagsUrl, Some(Success("Tag créé avec succès.")))
            && tags.nextId == id + 1 && id !in old(tags.rows) && id in tags.rows
            && tags.rows == old(tags.rows)[id := Edited(Blank, d).(id := Some(id), slug := tags.rows[id].slug)]
            && (!IsFalsy(d.slug) ==> tags.rows[id].slug == d.slug)
            && tags.rows[id].slug !in TagService.SlugsOf(old(tags.rows), None))
    ensures TagService.DistinctSlugs(old(tags.rows)) ==> TagService.DistinctSlugs(tags.rows)
  {
    var d := ReadTag(form);
    var errors := NameAndSlugErrors(d.name, d.slug, OwnerOf(tags.FindBySlug(d.slug), (row: Tag) => row.id), None);
    if errors != map[] {
      return FormShown(errors);
    }
    if !IsFalsy(d.slug) {
      AcceptedSlugIsFree(tags, d.slug, None);
    }
    ghost var before := tags.rows;
    var created := tags.Create(Edited(Blank, d));
    if TagService.DistinctSlugs(before) {
      FreshSlugKeepsDistinct(before, created.id.value, created);
    }
    outcome := Redirected(TagsUrl, Some(Success("Tag créé avec succès.")));
  }

  /** `edit`: an unknown id goes back to the list with an error; a known one shows its form. */
  method Edit(tags: TagService.Service, id: int) returns (outcome: Outcome, tag: Option<Tag>)
    ensures id !in tags.rows ==> outcome == Redirected(TagsUrl, Some(Failure("Tag introuvable."))) && tag.None?
    ensures id in tags.rows ==> outcome == FormShown(map[]) && tag == Some(tags.rows[id])
  {
    tag := tags.FindById(id);
    if tag.None? {
      return Redirected(TagsUrl, Some(Failure("Tag introuvable."))), None;
    }
    outcome := FormShown(map[]);
  }

  /**
   * `update`: an unknown id goes back to the list; a rejected form is shown
   * again and nothing is written; an accepted one overwrites the tag's
   * name, slug and description, and slugs stay distinct.
   */
  method Update(tags: TagService.Service, id: int, form: Form) returns (outcome: Outcome)
    requires tags.Valid()
    modifies tags`rows
    ensures tags.Valid()
    ensures id !in old(tags.rows) ==>
      outcome == Redirected(TagsUrl, Some(Failure("Tag introuvable."))) && tags.rows == old(tags.rows)
    ensures id in old(tags.rows) ==>
      var d := ReadTag(form);
      var errors := NameAndSlugErrors(d.name, d.slug, OwnerOf(old(tags.FindBySlug(d.slug)), (row: Tag) => row.id), Some(id));
      && (errors != map[] ==> outcome == FormShown(errors) && tags.rows == old(tags.rows))
      && (errors == map[] ==>
            && outcome == Redirected(TagsUrl, Some(Success("Tag mis à jour avec succès.")))
            && tags.rows == old(tags.rows)[id := Edited(old(tags.rows)[id], d)])
    ensures TagService.DistinctSlugs(old(tags.rows)) ==> TagService.DistinctSlugs(tags.rows)
  {
    var found := tags.FindById(id);
    if found.None? {
      return Redirected(TagsUrl, Some(Failure("Tag introuvable.")));
    }
    var d := ReadTag(form);
    var errors := NameAndSlugErrors(d.name, d.slug, OwnerOf(tags.FindBySlug(d.slug), (row: Tag) => row.id), Some(id));
    if errors != map[] {
      return FormShown(errors);
    }
    if TagService.DistinctSlugs(tags.rows) && !IsFalsy(d.slug) {
      AcceptedSlugIsFree(tags, d.slug, Some(id));
    }
    ghost var before := tags.rows;
    var _ := tags.Update(Edited(found.value, d));
    if TagService.DistinctSlugs(before) {
      FreshSlugKeepsDistinct(before, id, Edited(found.value, d));
    }
    outcome := Redirected(TagsUrl, Some(Success("Tag mis à jour avec succès.")));
  }

  /** `delete`: the service always reports success, so the list shows the success message. */
  method Delete(tags: TagService.Service, id: int) returns (outcome: Outcome)
    requires tags.Valid()
    modifies tags`rows, tags`postTags
    ensures tags.Valid()
    ensures tags.rows == old(tags.rows) - {id}
    ensures tags.postTags == TagService.WithoutTag(old(tags.postTags), id)
    ensures outcome == Redirected(TagsUrl, Some(Success("Tag supprimé avec succès.")))
  {
    var ok := tags.Delete(id);
    outcome := if ok then Redirected(TagsUrl, Some(Success("Tag supprimé avec succès.")))
               else Redirected(TagsUrl, Some(Failure("Erreur lors de la suppression.")));
  }
}
