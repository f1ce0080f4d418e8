/**
 * The category service: the `categories` table as a map from id to row,
 * the materialised `path` and `depth` computed at creation, and their
 * propagation down the tree when a category is updated.
 *
 * Ids come from a counter above every id ever stored, as an AUTOINCREMENT
 * key does. The parent links may form any graph the table allows; the
 * recursive propagation only ends when they do not loop, so the update
 * takes a ranking of the links as a ghost witness of that.
 */
module CategoryService {
  import opened Php
  import opened CategoryEntity
  import Slugs

  /** The table: each stored category under its id. */
  type Table = map<int, Category>

  /** The parent link of every row. */
  type Links = map<int, Option<int>>

  function LinksOf(t: Table): (links: Links)
    ensures links.Keys == t.Keys
  {
    map id | id in t :: t[id].parentId
  }

  // ---------------------------------------------------------------- the shape of the tree

  /**
   * A ranking of the links: every row, and every id a row names as its
   * parent, has a rank, and a child ranks strictly below its parent. One
   * exists exactly when following parent links never comes back.
   */
  ghost predicate Ranked(links: Links, rank: map<int, nat>)
  {
    forall d :: d in links ==>
      d in rank && (links[d].Some? ==> links[d].value in rank && rank[d] < rank[links[d].value])
  }

  /** `d` lies strictly below `q`: it is a child of `q` or lies below one. */
  ghost predicate Below(links: Links, rank: map<int, nat>, d: int, q: int)
    requires Ranked(links, rank)
    decreases if q in rank then rank[q] else 0
  {
    q in rank && exists c :: c in links && links[c] == Some(q) && (d == c || Below(links, rank, d, c))
  }

  /** What lies below `q` is a row and ranks below `q`. */
  lemma {:induction false} BelowRank(links: Links, rank: map<int, nat>, d: int, q: int)
    requires Ranked(links, rank) && Below(links, rank, d, q)
    ensures d in links && d in rank && q in rank && rank[d] < rank[q]
    decreases rank[q]
  {
    var c :| c in links && links[c] == Some(q) && (d == c || Below(links, rank, d, c));
    if d != c {
      BelowRank(links, rank, d, c);
    }
  }

  /** The parent of what lies below `q` is `q` itself or lies below `q` too. */
  lemma {:induction false} BelowParent(links: Links, rank: map<int, nat>, d: int, q: int)
    requires Ranked(links, rank) && Below(links, rank, d, q)
    ensures d in links && links[d].Some?
    ensures links[d].value == q || Below(links, rank, links[d].value, q)
    decreases rank[q]
  {
    var c :| c in links && links[c] == Some(q) && (d == c || Below(links, rank, d, c));
    if d != c {
      BelowParent(links, rank, d, c);
      var p := links[d].value;
      assert c in links && links[c] == Some(q) && (p == c || Below(links, rank, p, c));
    }
  }

  /** A child of `c` lies below `c`, and what lies below a child of `q` lies below `q`. */
  lemma BelowChild(links: Links, rank: map<int, nat>, d: int, c: int, q: int)
    requires Ranked(links, rank) && c in links && links[c] == Some(q)
    requires d == c || Below(links, rank, d, c)
    ensures Below(links, rank, d, q)
  {
  }

  /** A child of what lies below `q` lies below `q` too. */
  lemma {:induction false} BelowTrans(links: Links, rank: map<int, nat>, d: int, p: int, q: int)
    requires Ranked(links, rank) && d in links && links[d] == Some(p) && Below(links, rank, p, q)
    ensures Below(links, rank, d, q)
    decreases rank[q]
  {
    var c :| c in links && links[c] == Some(q) && (p == c || Below(links, rank, p, c));
    if p == c {
      BelowChild(links, rank, d, d, c);
    } else {
      BelowTrans(links, rank, d, p, c);
    }
    BelowChild(links, rank, d, c, q);
  }

  /** How far `d` ranks below `q`. */
  function Gap(rank: map<int, nat>, d: int, q: int): nat
  {
    if d in rank && q in rank && rank[d] < rank[q] then rank[q] - rank[d] else 0
  }

  /** The child of `q` on the way up from `d`. */
  ghost function Branch(links: Links, rank: map<int, nat>, d: int, q: int): (b: int)
    requires Ranked(links, rank) && Below(links, rank, d, q)
    decreases Gap(rank, d, q)
  {
    BelowRank(links, rank, d, q);
    BelowParent(links, rank, d, q);
    var p := links[d].value;
    if p == q then d
    else
      BelowRank(links, rank, p, q);
      Branch(links, rank, p, q)
  }

  /** The branch is a child of `q` and `d` is it or lies below it. */
  lemma {:induction false} BranchIsChild(links: Links, rank: map<int, nat>, d: int, q: int)
    requires Ranked(links, rank) && Below(links, rank, d, q)
    ensures var b := Branch(links, rank, d, q);
      b in links && links[b] == Some(q) && (d == b || Below(links, rank, d, b))
    decreases Gap(rank, d, q)
  {
    BelowRank(links, rank, d, q);
    BelowParent(links, rank, d, q);
    var p := links[d].value;
    if p != q {
      BelowRank(links, rank, p, q);
      BranchIsChild(links, rank, p, q);
      var b := Branch(links, rank, p, q);
      if p == b {
        BelowChild(links, rank, d, d, b);
      } else {
        BelowTrans(links, rank, d, p, b);
      }
    }
  }

  /** Whatever lies in the subtree of a child `c` of `q` has `c` as its branch: the subtrees of two children never meet. */
  lemma {:induction false} BranchOfChild(links: Links, rank: map<int, nat>, d: int, c: int, q: int)
    requires Ranked(links, rank) && c in links && links[c] == Some(q)
    requires d == c || Below(links, rank, d, c)
    ensures Below(links, rank, d, q) && Branch(links, rank, d, q) == c
    decreases Gap(rank, d, c)
  {
    BelowChild(links, rank, d, c, q);
    if d != c {
      BelowRank(links, rank, d, c);
      BelowParent(links, rank, d, c);
      var p := links[d].value;
      if p == q {
        if q != c {
          BelowRank(links, rank, q, c);
        }
        assert false;
      }
      if p != c {
        BelowRank(links, rank, p, c);
      }
      BranchOfChild(links, rank, p, c, q);
    }
  }

  /** Nothing lies below itself. */
  lemma NotBelowItself(links: Links, rank: map<int, nat>, d: int)
    requires Ranked(links, rank)
    ensures !Below(links, rank, d, d)
  {
    if Below(links, rank, d, d) {
      BelowRank(links, rank, d, d);
    }
  }

  // ---------------------------------------------------------------- the stored paths

  /** `t` differs from `t0` at most in the paths and depths of its rows. */
  ghost predicate OnlyPathsMoved(t0: Table, t: Table)
  {
    t.Keys == t0.Keys && forall d :: d in t ==> t[d] == t0[d].(path := t[d].path, depth := t[d].depth)
  }

  lemma OnlyPathsKeepLinks(t0: Table, t: Table)
    requires OnlyPathsMoved(t0, t)
    ensures LinksOf(t) == LinksOf(t0)
  {
    forall d | d in t ensures LinksOf(t)[d] == LinksOf(t0)[d] {
      assert t[d].parentId == t0[d].parentId;
    }
  }

  /**
   * Row `d` carries the path and depth its parent gives it: the parent's
   * path, "/" and the row's id, and one more than the parent's depth, the
   * parent `q` having `path` and `depth`.
   */
  ghost predicate FollowsParent(t: Table, q: int, path: string, depth: int, d: int)
    requires d in t
  {
    && t[d].parentId.Some?
    && var p := t[d].parentId.value;
      if p == q then t[d].path == path + "/" + IntToString(d) && t[d].depth == depth + 1
      else p in t && t[d].path == t[p].path + "/" + IntToString(d) && t[d].depth == t[p].depth + 1
  }

  /** `calculateHierarchy`: a root gets path "" and depth 0; a child of a stored parent gets that parent's depth plus one. */
  function Hierarchy(t: Table, c: Category): (r: Category)
    ensures r == c.(path := r.path, depth := r.depth)
    ensures c.parentId.None? ==> r.path == "" && r.depth == 0
    ensures c.parentId.Some? ==> r.path == c.path
    ensures c.parentId.Some? && c.parentId.value in t ==> r.depth == t[c.parentId.value].depth + 1
    ensures c.parentId.Some? && c.parentId.value !in t ==> r == c
  {
    match c.parentId
    case None => c.(path := "", depth := 0)
    case Some(p) => if p in t then c.(depth := t[p].depth + 1) else c
  }

  /** The slugs of the rows other than `excludeId`, as `slugExists` sees them. */
  function SlugsOf(t: Table, excludeId: Option<int>): (used: set<string>)
    ensures forall id :: id in t && excludeId != Some(id) ==> t[id].slug in used
  {
    set id | id in t && excludeId != Some(id) :: t[id].slug
  }

  /**
   * What `updateChildrenPaths` of `q`, whose path and depth are `path` and
   * `depth`, does to `t0`: only paths and depths move, every row below `q`
   * follows its parent and every other row is as it was.
   */
  ghost predicate Rewritten(links: Links, rank: map<int, nat>, q: int, path: string, depth: int, t0: Table, t: Table)
    requires Ranked(links, rank)
  {
    && OnlyPathsMoved(t0, t)
    && (forall d :: d in t && !Below(links, rank, d, q) ==> t[d] == t0[d])
    && (forall d :: d in t && Below(links, rank, d, q) ==> FollowsParent(t, q, path, depth, d))
  }

  /** A row for `findAllForSelect`: the id, the indented name and the depth. */
  datatype SelectOption = SelectOption(id: Option<int>, name: string, depth: int)

  /** A row `update` writes: the table with row `c`'s id replaced, or unchanged when no row has that id. */
  function Stored(t: Table, c: Category): (r: Table)
    ensures c.id.Some? && c.id.value in t ==> r == t[c.id.value := c]
    ensures c.id.None? || c.id.value !in t ==> r == t
  {
    if c.id.Some? && c.id.value in t then t[c.id.value := c] else t
  }

  class Service {
    /** The `categories` table. */
    var rows: Table
    /** The id the next insertion receives. */
    var nextId: int

    /** Every row is stored under its own id, and ids are positive and below the counter. */
    ghost predicate Valid()
      reads this
    {
      && nextId >= 1
      && forall id :: id in rows ==> rows[id].id == Some(id) && 1 <= id < nextId
    }

    constructor(t: Table, next: int)
      requires next >= 1 && forall id :: id in t ==> t[id].id == Some(id) && 1 <= id < next
      ensures rows == t && nextId == next && Valid()
    {
      rows := t;
      nextId := next;
    }

    /** `findById`. */
    function FindById(id: int): (r: Option<Category>)
      reads this
      ensures r.Some? <==> id in rows
      ensures r.Some? ==> r.value == rows[id]
    {
      if id in rows then Some(rows[id]) else None
    }

    /** `findBySlug`: a row with that slug, the lowest id of several, or nothing. */
    function FindBySlug(slug: string): (r: Option<Category>)
      reads this
      ensures r.Some? <==> exists id :: id in rows && rows[id].slug == slug
      ensures r.Some? ==> exists id :: && id in rows && rows[id].slug == slug && r.value == rows[id]
                                     && forall j :: j in rows && rows[j].slug == slug ==> id <= j
    {
      var ids := set id | id in rows && rows[id].slug == slug;
      assert forall id :: id in rows && rows[id].slug == slug ==> id in ids;
      if ids == {} then None
      else
        var id := Lowest(ids);
        assert id in rows && rows[id].slug == slug;
        Some(rows[id])
    }

    /** `slugExists`: some row other than `excludeId` carries the slug. */
    predicate SlugExists(slug: string, excludeId: Option<int>)
      reads this
    {
      exists id :: id in rows && excludeId != Some(id) && rows[id].slug == slug
    }

    lemma SlugExistsIffUsed(slug: string, excludeId: Option<int>)
      ensures SlugExists(slug, excludeId) <==> slug in SlugsOf(rows, excludeId)
    {
    }

    /**
     * `generateUniqueSlug`: the slug of the name, or the first of its
     * suffixed forms `-1`, `-2`, ... that no other row carries.
     */
    method GenerateUniqueSlug(name: string, excludeId: Option<int>) returns (slug: string)
      ensures !SlugExists(slug, excludeId)
      ensures exists k: nat ::
        && slug == Slugs.Candidate(GenerateSlug(name), k)
        && forall j :: 0 <= j < k ==> SlugExists(Slugs.Candidate(GenerateSlug(name), j), excludeId)
    {
      slug := Slugs.UniqueSlug(GenerateSlug(name), SlugsOf(rows, excludeId));
      SlugExistsIffUsed(slug, excludeId);
      ghost var k: nat :| slug == Slugs.Candidate(GenerateSlug(name), k)
        && forall j :: 0 <= j < k ==> Slugs.Candidate(GenerateSlug(name), j) in SlugsOf(rows, excludeId);
      forall j | 0 <= j < k ensures SlugExists(Slugs.Candidate(GenerateSlug(name), j), excludeId) {
        SlugExistsIffUsed(Slugs.Candidate(GenerateSlug(name), j), excludeId);
      }
    }

    /** `updatePath`: a root's path is its id; a child's is its stored parent's path, "/" and its id. */
    method UpdatePath(c: Category) returns (r: Category)
      requires c.id.Some?
      modifies this`rows
      ensures r == c.(path := r.path)
      ensures c.parentId.None? ==> r.path == IntToString(c.id.value)
      ensures c.parentId.Some? && c.parentId.value in old(rows) ==>
        r.path == old(rows)[c.parentId.value].path + "/" + IntToString(c.id.value)
      ensures c.parentId.Some? && c.parentId.value !in old(rows) ==> r.path == IntToString(c.id.value)
      ensures c.id.value in old(rows) ==> rows == old(rows)[c.id.value := old(rows)[c.id.value].(path := r.path)]
      ensures c.id.value !in old(rows) ==> rows == old(rows)
    {
      var id := c.id.value;
      r := c;
      if c.parentId.None? {
        r := r.(path := IntToString(id));
      } else {
        var parent := FindById(c.parentId.value);
        if parent.Some? {
          r := r.(path := parent.value.path + "/" + IntToString(id));
        } else {
          r := r.(path := IntToString(id));
        }
      }
      if id in rows {
        rows := rows[id := rows[id].(path := r.path)];
      }
    }

    /**
     * `create`: an empty slug is replaced by a unique one, the row is
     * inserted under the next id with the hierarchy computed from its
     * parent, and its path is then rewritten with its id.
     */
    method Create(c: Category) returns (r: Category)
      requires Valid()
      modifies this
      ensures Valid()
      ensures nextId == old(nextId) + 1 && r.id == Some(old(nextId))
      ensures rows == old(rows)[old(nextId) := r]
      ensures !IsFalsy(c.slug) ==> r.slug == c.slug
      ensures IsFalsy(c.slug) ==>
        && r.slug !in SlugsOf(old(rows), None)
        && exists k: nat :: r.slug == Slugs.Candidate(GenerateSlug(c.name), k)
      ensures r == c.(id := r.id, slug := r.slug, path := r.path, depth := Hierarchy(old(rows), c).depth)
      ensures c.parentId.None? ==> r.path == IntToString(old(nextId))
      ensures c.parentId.Some? && c.parentId.value in old(rows) ==>
        r.path == old(rows)[c.parentId.value].path + "/" + IntToString(old(nextId))
      ensures c.parentId.Some? && c.parentId.value !in old(rows) && c.parentId.value != old(nextId) ==>
        r.path == IntToString(old(nextId))
      ensures c.parentId == Some(old(nextId)) ==> r.path == c.path + "/" + IntToString(old(nextId))
    {
      var cat := c;
      if IsFalsy(cat.slug) {
        var slug := GenerateUniqueSlug(cat.name, None);
        SlugExistsIffUsed(slug, None);
        cat := cat.(slug := slug);
      }
      cat := Hierarchy(rows, cat);
      var id := nextId;
      cat := cat.(id := Some(id));
      ghost var before := rows;
      rows := rows[id := cat];
      nextId := nextId + 1;
      r := UpdatePath(cat);
      assert rows == before[id := r] by {
        assert rows == before[id := cat][id := r];
      }
    }

    /**
     * `updateChildrenPaths`: every child of `parent` gets the parent's path,
     * "/" and its id, and one more than the parent's depth, and then the
     * same is done below it, in the order the query returns the children.
     */
    method UpdateChildrenPaths(parent: Category, ghost rank: map<int, nat>)
      requires Valid() && parent.id.Some? && Ranked(LinksOf(rows), rank)
      modifies this`rows
      ensures Valid()
      ensures Rewritten(LinksOf(old(rows)), rank, parent.id.value, parent.path, parent.depth, old(rows), rows)
      decreases if parent.id.value in rank then rank[parent.id.value] + 1 else 0
    {
      var q := parent.id.value;
      ghost var links := LinksOf(rows);
      ghost var start := rows;
      var children := set c | c in rows && rows[c].parentId == Some(q);
      var todo := children;
      ProgressStart(links, rank, q, parent.path, parent.depth, start);
      while todo != {}
        invariant todo <= children && Valid() && LinksOf(rows) == links
        invariant Progress(links, rank, q, parent.path, parent.depth, children - todo, start, rows)
        decreases todo
      {
        HasElement(todo);
        var c :| c in todo;
        assert c in start && start[c].parentId == Some(q) && c !in children - todo;
        assert children - (todo - {c}) == (children - todo) + {c};
        ghost var before := rows;
        var child := rows[c].(path := parent.path + "/" + IntToString(c), depth := parent.depth + 1);
        assert child.id == Some(c);
        rows := rows[c := child];
        ghost var mid := rows;
        OnlyPathsKeepLinks(before, mid);
        UpdateChildrenPaths(child, rank);
        ChildStep(links, rank, q, parent.path, parent.depth, children - todo, c, start, before, child, mid, rows);
        todo := todo - {c};
      }
      ProgressDone(links, rank, q, parent.path, parent.depth, children, start, rows);
    }

    /** `update`: the row is rewritten with its hierarchy recomputed, then the paths below it are. */
    method Update(c: Category, ghost rank: map<int, nat>) returns (ok: bool)
      requires Valid() && Ranked(LinksOf(Stored(rows, Hierarchy(rows, c))), rank)
      modifies this`rows
      ensures Valid() && ok
      ensures var written := Stored(old(rows), Hierarchy(old(rows), c));
        && OnlyPathsMoved(written, rows)
        && (c.id.Some? && c.id.value in old(rows) ==> rows[c.id.value] == Hierarchy(old(rows), c))
        && (c.id.None? ==> rows == written)
        && (c.id.Some? ==> forall d :: d in rows && !Below(LinksOf(written), rank, d, c.id.value) ==> rows[d] == written[d])
        && (c.id.Some? ==> forall d :: d in rows && Below(LinksOf(written), rank, d, c.id.value) ==>
              FollowsParent(rows, c.id.value, Hierarchy(old(rows), c).path, Hierarchy(old(rows), c).depth, d))
    {
      var cat := Hierarchy(rows, c);
      rows := Stored(rows, cat);
      ok := true;
      if cat.id.Some? {
        UpdateChildrenPaths(cat, rank);
        NotBelowItself(LinksOf(Stored(old(rows), cat)), rank, c.id.value);
      }
    }

    /**
     * `delete`: the row goes; following the foreign key's ON DELETE SET
     * NULL its children lose their parent but keep their path and depth.
     */
    method Delete(id: int) returns (ok: bool)
      requires Valid()
      modifies this`rows
      ensures Valid() && ok
      ensures rows.Keys == old(rows).Keys - {id}
      ensures forall d :: d in rows ==>
        rows[d] == if old(rows)[d].parentId == Some(id) then old(rows)[d].(parentId := None) else old(rows)[d]
      ensures forall d :: d in rows ==> rows[d].parentId != Some(id)
    {
      rows := map d | d in rows && d != id ::
        if rows[d].parentId == Some(id) then rows[d].(parentId := None) else rows[d];
      ok := true;
    }
  }

  /**
   * Deleting a row and clearing the links to it keeps the links free of
   * loops: a ranking of the old links still ranks the new ones.
   */
  lemma DeleteKeepsRanked(t0: Table, t: Table, id: int, rank: map<int, nat>)
    requires Ranked(LinksOf(t0), rank)
    requires t.Keys == t0.Keys - {id}
    requires forall d :: d in t ==>
      t[d] == if t0[d].parentId == Some(id) then t0[d].(parentId := None) else t0[d]
    ensures Ranked(LinksOf(t), rank)
  {
    forall d | d in t && t[d].parentId.Some?
      ensures t[d].parentId.value in rank && rank[d] < rank[t[d].parentId.value]
    {
      assert t[d].parentId == t0[d].parentId && LinksOf(t0)[d] == t0[d].parentId;
    }
  }

  /** The rows of the subtrees of the children `done` of `q`. */
  ghost predicate Done(links: Links, rank: map<int, nat>, q: int, done: set<int>, d: int)
    requires Ranked(links, rank)
  {
    Below(links, rank, d, q) && Branch(links, rank, d, q) in done
  }

  /**
   * Where the loop of `updateChildrenPaths` stands: only paths and depths
   * moved, the subtrees of the finished children `done` follow their
   * parents and every other row is as it was.
   */
  ghost predicate Progress(links: Links, rank: map<int, nat>, q: int, path: string, depth: int,
                           done: set<int>, start: Table, t: Table)
    requires Ranked(links, rank)
  {
    && OnlyPathsMoved(start, t)
    && (forall d :: d in t && !Done(links, rank, q, done, d) ==> t[d] == start[d])
    && (forall d :: d in t && Done(links, rank, q, done, d) ==> FollowsParent(t, q, path, depth, d))
  }

  lemma ProgressStart(links: Links, rank: map<int, nat>, q: int, path: string, depth: int, start: Table)
    requires Ranked(links, rank)
    ensures Progress(links, rank, q, path, depth, {}, start, start)
  {
  }

  /** Once every child is finished, exactly the rows below `q` follow their parents. */
  lemma ProgressDone(links: Links, rank: map<int, nat>, q: int, path: string, depth: int,
                     children: set<int>, start: Table, t: Table)
    requires Ranked(links, rank) && links == LinksOf(start)
    requires children == set c | c in start && start[c].parentId == Some(q)
    requires Progress(links, rank, q, path, depth, children, start, t)
    ensures Rewritten(links, rank, q, path, depth, start, t)
  {
    forall d | d in t ensures Done(links, rank, q, children, d) <==> Below(links, rank, d, q) {
      if Below(links, rank, d, q) {
        BranchIsChild(links, rank, d, q);
      }
    }
  }

  /** One pass of the loop of `updateChildrenPaths`: child `c` and its subtree join the finished ones. */
  lemma ChildStep(links: Links, rank: map<int, nat>, q: int, path: string, depth: int, done: set<int>, c: int,
                  start: Table, before: Table, child: Category, mid: Table, after: Table)
    requires Ranked(links, rank) && LinksOf(start) == links && c in start && start[c].parentId == Some(q) && c !in done
    requires Progress(links, rank, q, path, depth, done, start, before)
    requires c in before && child == before[c].(path := path + "/" + IntToString(c), depth := depth + 1)
    requires mid == before[c := child] && child.id == Some(c)
    requires Ranked(LinksOf(mid), rank) && Rewritten(LinksOf(mid), rank, c, child.path, child.depth, mid, after)
    ensures Progress(links, rank, q, path, depth, done + {c}, start, after)
    ensures LinksOf(after) == links
  {
    assert links[c] == Some(q);
    OnlyPathsKeepLinks(start, before);
    assert OnlyPathsMoved(before, mid);
    OnlyPathsKeepLinks(before, mid);
    OnlyPathsKeepLinks(mid, after);
    NotBelowItself(links, rank, c);
    assert after[c] == mid[c];
    forall d | d in after && !Done(links, rank, q, done + {c}, d) ensures after[d] == start[d] {
      if d == c || Below(links, rank, d, c) {
        BranchOfChild(links, rank, d, c, q);
      }
    }
    forall d | d in after && Done(links, rank, q, done + {c}, d) ensures FollowsParent(after, q, path, depth, d) {
      if d == c || Below(links, rank, d, c) {
        InChildSubtree(links, rank, q, path, depth, c, after, d);
      } else {
        BranchIsChild(links, rank, d, q);
        OutsideChildSubtree(links, rank, q, path, depth, done, c, before, after, d);
      }
    }
  }

  /** A row of the subtree of child `c` follows its parent once `c` and the rows below it do. */
  lemma InChildSubtree(links: Links, rank: map<int, nat>, q: int, path: string, depth: int, c: int, after: Table, d: int)
    requires Ranked(links, rank) && c in links && links[c] == Some(q) && LinksOf(after) == links
    requires c in after && after[c].path == path + "/" + IntToString(c) && after[c].depth == depth + 1
    requires d in after && (d == c || Below(links, rank, d, c))
    requires forall d :: d in after && Below(links, rank, d, c) ==> FollowsParent(after, c, after[c].path, after[c].depth, d)
    ensures FollowsParent(after, q, path, depth, d)
  {
    assert after[c].parentId == links[c];
    if d != c {
      BelowParent(links, rank, d, c);
      var p := links[d].value;
      assert after[d].parentId == links[d];
      if p != c {
        BelowRank(links, rank, p, c);
      }
    }
  }

  /** A finished row outside the subtree of child `c` keeps its value and its parent's. */
  lemma OutsideChildSubtree(links: Links, rank: map<int, nat>, q: int, path: string, depth: int, done: set<int>, c: int,
                            before: Table, after: Table, d: int)
    requires Ranked(links, rank) && c in links && links[c] == Some(q) && c !in done && LinksOf(before) == links
    requires d in after && Done(links, rank, q, done, d) && d != c && !Below(links, rank, d, c)
    requires d in before && FollowsParent(before, q, path, depth, d)
    requires after.Keys == before.Keys
    requires forall d :: d in after && !Below(links, rank, d, c) && d != c ==> after[d] == before[d]
    ensures FollowsParent(after, q, path, depth, d)
  {
    BelowParent(links, rank, d, q);
    var p := links[d].value;
    assert before[d].parentId == links[d];
    if p != q {
      assert Branch(links, rank, p, q) == Branch(links, rank, d, q);
      if p == c || Below(links, rank, p, c) {
        BranchOfChild(links, rank, p, c, q);
      }
    }
  }

  /**
   * `findAllForSelect`: one option per category in the order the query
   * returns them, with the name indented by depth.
   */
  method FindAllForSelect(categories: seq<Category>) returns (result: seq<SelectOption>)
    requires forall i :: 0 <= i < |categories| ==> categories[i].depth >= 0
    ensures |result| == |categories|
    ensures forall i :: 0 <= i < |categories| ==>
      result[i] == SelectOption(categories[i].id, IndentedName(categories[i]), categories[i].depth)
  {
    result := [];
    for i := 0 to |categories|
      invariant |result| == i
      invariant forall j :: 0 <= j < i ==>
        result[j] == SelectOption(categories[j].id, IndentedName(categories[j]), categories[j].depth)
    {
      var cat := categories[i];
      result := result + [SelectOption(cat.id, IndentedName(cat), cat.depth)];
    }
  }
}
