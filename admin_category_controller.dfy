/**
 * The back office's category actions: reading and validating the posted
 * form, the parent a category may take, the parent choices of the edit
 * form, and creating, updating and deleting categories through the
 * category service.
 *
 * `update` and `delete` keep the category tree free of loops (`Acyclic`).
 * For `update` the model uses the corrected parent rule `SafeParent`,
 * which refuses every category at or below the edited one; the source
 * refuses only the category itself (`SelfParentOnly`). `store` does not
 * check the parent at all, so a parent id equal to the id the new row
 * receives makes that row its own parent.
 */
module AdminCategoryController {
  import opened Php
  import opened Forms
  import opened CategoryEntity
  import CategoryService
  import Slugs

  const CategoriesUrl := "/admin/categories"

  /** The form's fields as `store` and `update` read them. */
  datatype CategoryData = CategoryData(name: string, slug: string, description: string, parentId: Option<int>, sortOrder: int)

  /** The fields trimmed, the parent as an id or nothing, the sort order cast (0 when absent). */
  function ReadCategory(form: Form): (d: CategoryData)
    ensures d.name == Trimmed(form, "name") && d.slug == Trimmed(form, "slug")
    ensures d.description == Trimmed(form, "description")
    ensures d.parentId == OptionalId(form, "parent_id")
    ensures d.sortOrder == IntField(form, "sort_order", 0)
  {
    CategoryData(Trimmed(form, "name"), Trimmed(form, "slug"), Trimmed(form, "description"),
                 OptionalId(form, "parent_id"), IntField(form, "sort_order", 0))
  }

  /** `category` with the form's fields and the parent `parent` written over it. */
  function Edited(category: Category, d: CategoryData, parent: Option<int>): Category
  {
    category.(name := d.name, slug := d.slug, description := NullIfFalsy(d.description),
              parentId := parent, sortOrder := d.sortOrder)
  }

  // ---------------------------------------------------------------- the parent a category may take

  /** Following parent links never comes back: some ranking orders them. */
  ghost predicate Acyclic(links: CategoryService.Links)
  {
    exists rank :: CategoryService.Ranked(links, rank)
  }

  /**
   * The parent `update` keeps as written: the chosen one, unless it is the
   * category itself, in which case the current one.
   */
  function SelfParentOnly(chosen: Option<int>, id: int, current: Option<int>): (p: Option<int>)
    ensures p == Some(id) ==> current == Some(id)
    ensures chosen != Some(id) ==> p == chosen
  {
    if chosen == Some(id) then current else chosen
  }

  /**
   * Whether walking up the parent links from `from` meets `target`; a walk
   * longer than `fuel` steps counts as meeting it.
   */
  function ClimbsTo(links: CategoryService.Links, from: Option<int>, target: int, fuel: nat): (met: bool)
    ensures from == Some(target) ==> met
    ensures from.None? ==> !met
    decreases fuel
  {
    match from
    case None => false
    case Some(p) =>
      if p == target || fuel == 0 then true
      else if p !in links then false
      else ClimbsTo(links, links[p], target, fuel - 1)
  }

  /** A category below `id` is met when walking up from it, whatever the number of steps allowed. */
  lemma {:induction false} BelowClimbs(links: CategoryService.Links, rank: map<int, nat>, p: int, id: int, fuel: nat)
    requires CategoryService.Ranked(links, rank) && CategoryService.Below(links, rank, p, id)
    ensures ClimbsTo(links, Some(p), id, fuel)
    decreases fuel
  {
    if p != id && fuel > 0 {
      CategoryService.BelowParent(links, rank, p, id);
      var q := links[p].value;
      if q != id {
        BelowClimbs(links, rank, q, id, fuel - 1);
      }
    }
  }

  /**
   * The parent `update` keeps: the chosen one, unless the walk up from it
   * meets the category itself, in which case the current one.
   */
  function SafeParent(links: CategoryService.Links, chosen: Option<int>, id: int, current: Option<int>): (p: Option<int>)
    ensures p == chosen || p == current
    ensures chosen.None? ==> p.None?
    ensures chosen == Some(id) ==> p == current
    ensures chosen.Some? && !ClimbsTo(links, chosen, id, |links|) ==> p == chosen
  {
    if chosen.Some? && ClimbsTo(links, chosen, id, |links|) then current else chosen
  }

  /** The ranking after `id` moves under `p`: `id`'s subtree keeps its ranks, everything else rises above it. */
  ghost function Reranked(links: CategoryService.Links, rank: map<int, nat>, id: int, p: Option<int>): map<int, nat>
    requires CategoryService.Ranked(links, rank) && id in links
  {
    var lift := rank[id] + 1;
    var moved := map d | d in rank :: if d == id || CategoryService.Below(links, rank, d, id) then rank[d] else rank[d] + lift;
    if p.Some? && p.value !in rank then moved[p.value := lift] else moved
  }

  /**
   * Moving a category under a parent that is neither itself nor below it
   * keeps the links free of loops.
   */
  lemma ReparentKeepsRanked(links: CategoryService.Links, rank: map<int, nat>, id: int, p: Option<int>)
    requires CategoryService.Ranked(links, rank) && id in links
    requires p.Some? ==> p.value != id && !CategoryService.Below(links, rank, p.value, id)
    ensures CategoryService.Ranked(links[id := p], Reranked(links, rank, id, p))
  {
    var r := Reranked(links, rank, id, p);
    var after := links[id := p];
    forall d | d in after
      ensures d in r && (after[d].Some? ==> after[d].value in r && r[d] < r[after[d].value])
    {
      if d != id && after[d].Some? {
        var q := after[d].value;
        if CategoryService.Below(links, rank, d, id) {
          CategoryService.BelowParent(links, rank, d, id);
        } else if q == id || CategoryService.Below(links, rank, q, id) {
          if q == id {
            CategoryService.BelowChild(links, rank, d, d, id);
          } else {
            CategoryService.BelowTrans(links, rank, d, q, id);
          }
        }
      }
    }
  }

  /**
   * The guard keeps the tree free of loops: whatever parent is posted, the
   * one `SafeParent` keeps leaves the links acyclic.
   */
  lemma SafeParentKeepsTree(links: CategoryService.Links, id: int, chosen: Option<int>)
    requires Acyclic(links) && id in links
    ensures Acyclic(links[id := SafeParent(links, chosen, id, links[id])])
  {
    var rank :| CategoryService.Ranked(links, rank);
    var p := SafeParent(links, chosen, id, links[id]);
    if p == chosen && chosen.Some? {
      if CategoryService.Below(links, rank, chosen.value, id) {
        BelowClimbs(links, rank, chosen.value, id, |links|);
      }
    }
    if p == links[id] {
      assert links[id := p] == links;
    } else {
      ReparentKeepsRanked(links, rank, id, p);
    }
  }

  /** The links 1 -> 2 -> 1 have no ranking. */
  lemma LoopHasNoRank(rank: map<int, nat>)
    ensures !CategoryService.Ranked(map[1 := Some(2), 2 := Some(1)], rank)
  {
    var loop: CategoryService.Links := map[1 := Some(2), 2 := Some(1)];
    assert 1 in loop && loop[1] == Some(2) && 2 in loop && loop[2] == Some(1);
  }

  /**
   * As written, the guard lets a category move under its own child: with
   * category 2 a child of category 1, choosing 2 as the parent of 1 is
   * kept, and the links 1 -> 2 -> 1 form a loop that no ranking orders (the
   * service's recursive path rewrite then never ends). The corrected guard
   * keeps the current parent.
   */
  lemma ChildAsParentMakesLoop()
    ensures Acyclic(map[1 := None, 2 := Some(1)])
    ensures SelfParentOnly(Some(2), 1, None) == Some(2)
    ensures !Acyclic(map[1 := Some(2), 2 := Some(1)])
    ensures SafeParent(map[1 := None, 2 := Some(1)], Some(2), 1, None) == None
  {
    var links: CategoryService.Links := map[1 := None, 2 := Some(1)];
    assert CategoryService.Ranked(links, map[1 := 1, 2 := 0]);
    var loop: CategoryService.Links := map[1 := Some(2), 2 := Some(1)];
    forall rank: map<int, nat> ensures !CategoryService.Ranked(loop, rank) {
      LoopHasNoRank(rank);
    }
    assert ClimbsTo(links, Some(2), 1, 2);
  }

  /** A category that is its own parent is a loop no ranking orders. */
  lemma OwnParentLoops(links: CategoryService.Links, id: int)
    requires id in links && links[id] == Some(id)
    ensures !Acyclic(links)
  {
    forall rank: map<int, nat> ensures !CategoryService.Ranked(links, rank) {
      assert id in links;
    }
  }

  /** The rows after `update`: only the edited row's parent link changes. */
  lemma StoredLinks(t: CategoryService.Table, c: Category)
    requires c.id.Some? && c.id.value in t
    ensures CategoryService.LinksOf(CategoryService.Stored(t, CategoryService.Hierarchy(t, c)))
         == CategoryService.LinksOf(t)[c.id.value := c.parentId]
  {
  }

  /**
   * `t` is `t0` once `update` has written `row` as category `id` and
   * rewritten the paths below it: every row below `id` carries its parent's
   * path and depth, every other row is as written, and only paths and
   * depths moved.
   */
  ghost predicate SubtreeFollows(t0: CategoryService.Table, id: int, row: Category, t: CategoryService.Table)
  {
    var links := CategoryService.LinksOf(t0[id := row]);
    exists rank :: CategoryService.Ranked(links, rank)
      && CategoryService.Rewritten(links, rank, id, row.path, row.depth, t0[id := row], t)
  }

  // ---------------------------------------------------------------- the parent choices

  /** `array_filter` of the options on an id different from `self`, in order. */
  function ParentOptions(options: seq<CategoryService.SelectOption>, self: Option<int>): (r: seq<CategoryService.SelectOption>)
    ensures forall o :: o in r <==> o in options && o.id != self
    ensures |r| <= |options|
    ensures (forall i :: 0 <= i < |options| ==> options[i].id != self) ==> r == options
  {
    if options == [] then []
    else
      var rest := ParentOptions(options[1..], self);
      assert forall o :: o in options <==> o == options[0] || o in options[1..];
      if options[0].id != self then [options[0]] + rest else rest
  }

  /** The filter keeps the order: the choices of two lists one after the other are the first list's, then the second's. */
  lemma {:induction false} ParentOptionsJoin(a: seq<CategoryService.SelectOption>, b: seq<CategoryService.SelectOption>, self: Option<int>)
    ensures ParentOptions(a + b, self) == ParentOptions(a, self) + ParentOptions(b, self)
  {
    if a != [] {
      assert (a + b)[0] == a[0] && (a + b)[1..] == a[1..] + b;
      ParentOptionsJoin(a[1..], b, self);
    } else {
      assert a + b == b;
    }
  }

  // ---------------------------------------------------------------- the actions

  /**
   * The row `create` stores for the accepted form `d` under `id`, over the
   * table `t0`: the form's fields; the posted slug, or when it is empty the
   * first free suffixed form of the slug of the name; the posted parent,
   * unchecked; and the path and depth that parent gives, the path ending in
   * the id.
   */
  ghost predicate NewRow(t0: CategoryService.Table, id: int, d: CategoryData, row: Category)
  {
    && row == Edited(Blank, d, d.parentId).(id := Some(id), slug := row.slug, path := row.path, depth := row.depth)
    && (!IsFalsy(d.slug) ==> row.slug == d.slug)
    && (IsFalsy(d.slug) ==>
          && row.slug !in CategoryService.SlugsOf(t0, None)
          && exists k: nat :: row.slug == Slugs.Candidate(GenerateSlug(d.name), k))
    && (d.parentId.None? ==> row.path == IntToString(id) && row.depth == 0)
    && (d.parentId.Some? && d.parentId.value in t0 ==>
          row.path == t0[d.parentId.value].path + "/" + IntToString(id) && row.depth == t0[d.parentId.value].depth + 1)
    && (d.parentId.Some? && d.parentId.value !in t0 && d.parentId != Some(id) ==>
          row.path == IntToString(id) && row.depth == 0)
    && (d.parentId == Some(id) ==> row.path == "/" + IntToString(id) && row.depth == 0)
  }

  /** The accepted `store`: the row is created under the next id; a parent equal to that id makes a loop. */
  method Insert(categories: CategoryService.Service, d: CategoryData) returns (id: int)
    requires categories.Valid()
    modifies categories
    ensures categories.Valid()
    ensures id == old(categories.nextId) && categories.nextId == id + 1 && id in categories.rows
    ensures categories.rows == old(categories.rows)[id := categories.rows[id]]
    ensures NewRow(old(categories.rows), id, d, categories.rows[id])
    ensures d.parentId == Some(id) ==> !Acyclic(CategoryService.LinksOf(categories.rows))
  {
    var created := categories.Create(Edited(Blank, d, d.parentId));
    id := created.id.value;
    if d.parentId == created.id {
      OwnParentLoops(CategoryService.LinksOf(categories.rows), id);
    }
  }

  /**
   * `store`: a rejected form is shown again and nothing is written; an
   * accepted one is created with the form's fields, its parent unchecked:
   * naming the id the row receives makes it its own parent.
   */
  method Store(categories: CategoryService.Service, form: Form) returns (outcome: Outcome)
    requires categories.Valid()
    modifies categories
    ensures categories.Valid()
    ensures var d := ReadCategory(form);
      var errors := NameAndSlugErrors(d.name, d.slug, OwnerOf(old(categories.FindBySlug(d.slug)), (row: Category) => row.id), None);
      var id := old(categories.nextId);
      && (errors != map[] ==>
            outcome == FormShown(errors) && categories.rows == old(categories.rows) && categories.nextId == id)
      && (errors == map[] ==>
            && outcome == Redirected(CategoriesUrl, Some(Success("Catégorie créée avec succès.")))
            && categories.nextId == id + 1 && id in categories.rows
            && categories.rows == old(categories.rows)[id := categories.rows[id]]
            && NewRow(old(categories.rows), id, d, categories.rows[id])
            && (d.parentId == Some(id) ==> !Acyclic(CategoryService.LinksOf(categories.rows))))
  {
    var d := ReadCategory(form);
    var errors := NameAndSlugErrors(d.name, d.slug, OwnerOf(categories.FindBySlug(d.slug), (row: Category) => row.id), None);
    if errors != map[] {
      return FormShown(errors);
    }
    var _ := Insert(categories, d);
    outcome := Redirected(CategoriesUrl, Some(Success("Catégorie créée avec succès.")));
  }

  /**
   * `edit`: an unknown id goes back to the list; a known one shows its
   * form, with every category of the listing but itself as a parent choice.
   */
  method Edit(categories: CategoryService.Service, id: int, listing: seq<Category>)
    returns (outcome: Outcome, parents: seq<CategoryService.SelectOption>)
    requires forall i :: 0 <= i < |listing| ==> listing[i].depth >= 0
    ensures id !in categories.rows ==>
      outcome == Redirected(CategoriesUrl, Some(Failure("Catégorie introuvable."))) && parents == []
    ensures id in categories.rows ==> outcome == FormShown(map[])
    ensures forall o :: o in parents <==>
      id in categories.rows && o.id != categories.rows[id].id
      && exists i :: 0 <= i < |listing| && o == CategoryService.SelectOption(listing[i].id, IndentedName(listing[i]), listing[i].depth)
  {
    var category := categories.FindById(id);
    if category.None? {
      return Redirected(CategoriesUrl, Some(Failure("Catégorie introuvable."))), [];
    }
    var all := CategoryService.FindAllForSelect(listing);
    parents := ParentOptions(all, category.value.id);
    outcome := FormShown(map[]);
    forall o | o in all
      ensures exists i :: 0 <= i < |listing| && o == CategoryService.SelectOption(listing[i].id, IndentedName(listing[i]), listing[i].depth)
    {
      var i :| 0 <= i < |all| && all[i] == o;
      assert o == CategoryService.SelectOption(listing[i].id, IndentedName(listing[i]), listing[i].depth);
    }
    forall o | exists i :: 0 <= i < |listing| && o == CategoryService.SelectOption(listing[i].id, IndentedName(listing[i]), listing[i].depth)
      ensures o in all
    {
      var i :| 0 <= i < |listing| && o == CategoryService.SelectOption(listing[i].id, IndentedName(listing[i]), listing[i].depth);
      assert all[i] == o;
    }
  }

  /**
   * The accepted `update` of `current`: the row is written with the parent
   * `SafeParent` keeps and its hierarchy recomputed, then the rows below it
   * follow it.
   */
  method Rewrite(categories: CategoryService.Service, current: Category, d: CategoryData)
    requires categories.Valid() && Acyclic(CategoryService.LinksOf(categories.rows))
    requires current.id.Some? && current.id.value in categories.rows && categories.rows[current.id.value] == current
    modifies categories`rows
    ensures categories.Valid() && Acyclic(CategoryService.LinksOf(categories.rows))
    ensures var id := current.id.value;
      var written := CategoryService.Hierarchy(old(categories.rows),
        Edited(current, d, SafeParent(CategoryService.LinksOf(old(categories.rows)), d.parentId, id, current.parentId)));
      && id in categories.rows && categories.rows[id] == written
      && SubtreeFollows(old(categories.rows), id, written, categories.rows)
  {
    var id := current.id.value;
    var links := CategoryService.LinksOf(categories.rows);
    var parent := SafeParent(links, d.parentId, id, current.parentId);
    var category := Edited(current, d, parent);
    SafeParentKeepsTree(links, id, d.parentId);
    StoredLinks(categories.rows, category);
    ghost var rank :| CategoryService.Ranked(links[id := parent], rank);
    var _ := categories.Update(category, rank);
    ghost var written := CategoryService.Hierarchy(old(categories.rows), category);
    assert CategoryService.Rewritten(CategoryService.LinksOf(old(categories.rows)[id := written]), rank, id,
      written.path, written.depth, old(categories.rows)[id := written], categories.rows);
    CategoryService.OnlyPathsKeepLinks(old(categories.rows)[id := written], categories.rows);
  }

  /**
   * `update`: an unknown id goes back to the list; a rejected form is shown
   * again and nothing is written; an accepted one is `Rewrite`: the row
   * with the parent `SafeParent` keeps and its hierarchy recomputed, the
   * rows below it following it, every other row as it was, and the tree
   * still free of loops.
   */
  method Update(categories: CategoryService.Service, id: int, form: Form) returns (outcome: Outcome)
    requires categories.Valid() && Acyclic(CategoryService.LinksOf(categories.rows))
    modifies categories`rows
    ensures categories.Valid() && Acyclic(CategoryService.LinksOf(categories.rows))
    ensures id !in old(categories.rows) ==>
      outcome == Redirected(CategoriesUrl, Some(Failure("Catégorie introuvable."))) && categories.rows == old(categories.rows)
    ensures id in old(categories.rows) ==>
      var d := ReadCategory(form);
      var errors := NameAndSlugErrors(d.name, d.slug, OwnerOf(old(categories.FindBySlug(d.slug)), (row: Category) => row.id), Some(id));
      var current := old(categories.rows)[id];
      var written := CategoryService.Hierarchy(old(categories.rows),
        Edited(current, d, SafeParent(CategoryService.LinksOf(old(categories.rows)), d.parentId, id, current.parentId)));
      && (errors != map[] ==> outcome == FormShown(errors) && categories.rows == old(categories.rows))
      && (errors == map[] ==>
            && outcome == Redirected(CategoriesUrl, Some(Success("Catégorie mise à jour avec succès.")))
            && id in categories.rows && categories.rows[id] == written
            && SubtreeFollows(old(categories.rows), id, written, categories.rows))
  {
    var found := categories.FindById(id);
    if found.None? {
      return Redirected(CategoriesUrl, Some(Failure("Catégorie introuvable.")));
    }
    var d := ReadCategory(form);
    var errors := NameAndSlugErrors(d.name, d.slug, OwnerOf(categories.FindBySlug(d.slug), (row: Category) => row.id), Some(id));
    if errors != map[] {
      return FormShown(errors);
    }
    Rewrite(categories, found.value, d);
    outcome := Redirected(CategoriesUrl, Some(Success("Catégorie mise à jour avec succès.")));
  }

  /**
   * `delete`: the row goes, its children become roots and every other row
   * is as it was; the service always reports success, and the tree stays
   * free of loops.
   */
  method Delete(categories: CategoryService.Service, id: int) returns (outcome: Outcome)
    requires categories.Valid()
    modifies categories`rows
    ensures categories.Valid()
    ensures old(Acyclic(CategoryService.LinksOf(categories.rows))) ==> Acyclic(CategoryService.LinksOf(categories.rows))
    ensures categories.rows.Keys == old(categories.rows).Keys - {id}
    ensures forall c :: c in categories.rows ==>
      categories.rows[c] == if old(categories.rows)[c].parentId == Some(id) then old(categories.rows)[c].(parentId := None)
                            else old(categories.rows)[c]
    ensures forall c :: c in categories.rows ==> categories.rows[c].parentId != Some(id)
    ensures outcome == Redirected(CategoriesUrl, Some(Success("Catégorie supprimée avec succès.")))
  {
    ghost var before := categories.rows;
    var ok := categories.Delete(id);
    if Acyclic(CategoryService.LinksOf(before)) {
      ghost var rank :| CategoryService.Ranked(CategoryService.LinksOf(before), rank);
      CategoryService.DeleteKeepsRanked(before, categories.rows, id, rank);
    }
    outcome := if ok then Redirected(CategoriesUrl, Some(Success("Catégorie supprimée avec succès.")))
               else Redirected(CategoriesUrl, Some(Failure("Erreur lors de la suppression.")));
  }
}
