/**
 * The static site generator: a run writes the index pages, one page per
 * published post, the category and tag pages with their listings and the
 * JSON search index into an output directory, under a lock, and appends a
 * report to a log. The output directory is a map from path to the page a
 * template receives; the lock is a flag whose acquisition is an input.
 */
module StaticGenerator {
  import opened Php
  import opened PostEntity
  import opened StaticPages
  import CategoryEntity
  import TagEntity

  datatype Result<T> = Ok(value: T) | Err(error: string)

  /** A tag as the tag pages show it. */
  datatype TagLink = TagLink(id: Option<int>, name: string, slug: string)

  /** A post page's `post` entry: the row plus its category, its tags and its reading time. */
  datatype PostView = PostView(row: PostRow, category: Option<CategoryEntity.CategoryRow>, tags: seq<TagLink>, readingTime: nat)

  /** The data each template receives. */
  datatype Page =
    | IndexPage(featured: seq<Card>, regular: seq<Card>, pagination: Option<Pagination>)
    | PostPage(post: PostView, prev: Option<NavLink>, next: Option<NavLink>)
    | CategoryPage(category: CategoryEntity.CategoryRow, posts: seq<Card>)
    | TagPage(tag: TagLink, posts: seq<Card>)
    | CategoriesPage(categories: seq<CategoryEntity.CategoryRow>)
    | TagsPage(tags: seq<TagLink>)

  datatype Output = Html(template: string, page: Page) | Json(records: seq<SearchRecord>)

  /** One file written: its path under the output directory and its content. */
  datatype Write = Write(path: string, output: Output)

  type Files = map<string, Output>

  /** What the database holds during a run, as the services return it. */
  datatype Content = Content(
    perPageSetting: Value,
    published: seq<PostData>,
    categories: seq<CategoryEntity.Category>,
    tags: seq<TagEntity.Tag>,
    postsOfCategory: Option<int> -> seq<PostData>,
    postsOfTag: Option<int> -> seq<PostData>,
    categoryById: int -> Option<CategoryEntity.Category>,
    tagsOfPost: Option<int> -> seq<TagLink>)

  datatype StepName = IndexStep | PostsStep | CategoriesStep | TagsStep | SearchStep

  /** The entry a step adds to the report. */
  datatype StepLog = Pages(pages: nat) | Count(count: nat) | Stats(posts: nat, size: nat)

  /** The files a step writes, in order, and its report entry. */
  datatype Step = Step(writes: seq<Write>, log: StepLog)

  /** The report of `generateAll`. */
  datatype RunLog =
    | Busy(message: string)
    | Report(steps: seq<StepLog>, success: bool, error: Option<string>, generatedAt: Option<int>)

  datatype LogEntry = LogEntry(at: int, log: RunLog)

  const BusyMessage := "Une génération est déjà en cours"
  const DivisionByZero := "Division by zero"
  /** The `TypeError` `writeFile` raises when `json_encode` returned false instead of a string. */
  const EncodeError := "Blog\\Service\\StaticGenerator::writeFile(): Argument #2 ($content) must be of type string, bool given"

  /** The steps of a run, in order. */
  const Steps: seq<StepName> := [IndexStep, PostsStep, CategoriesStep, TagsStep, SearchStep]

  // ---------------------------------------------------------------- writing files

  /** Rendering fails on a page whose template file does not exist. */
  function RenderError(w: Write, templates: set<string>): (e: Option<string>)
    ensures e.Some? <==> w.output.Html? && w.output.template !in templates
    ensures e.Some? ==> e.value == "Template not found: " + w.output.template
  {
    if w.output.Html? && w.output.template !in templates
    then Some("Template not found: " + w.output.template) else None
  }

  /** The files after every write of `ws`, later writes replacing earlier ones. */
  function Written(files: Files, ws: seq<Write>): Files
    decreases |ws|
  {
    if ws == [] then files else Written(files[ws[0].path := ws[0].output], ws[1..])
  }

  /** The writes in order up to the first that fails to render: the error, if any, and the files then. */
  function Apply(files: Files, ws: seq<Write>, templates: set<string>): (Option<string>, Files)
    decreases |ws|
  {
    if ws == [] then (None, files)
    else match RenderError(ws[0], templates)
      case Some(e) => (Some(e), files)
      case None => Apply(files[ws[0].path := ws[0].output], ws[1..], templates)
  }

  /** One step of `Apply`, from position i of the writes. */
  lemma ApplyAt(files: Files, ws: seq<Write>, i: nat, templates: set<string>)
    requires i < |ws|
    ensures Apply(files, ws[i..], templates) ==
      match RenderError(ws[i], templates)
      case Some(e) => (Some(e), files)
      case None => Apply(files[ws[i].path := ws[i].output], ws[i + 1..], templates)
  {
    assert ws[i..][1..] == ws[i + 1..];
  }

  /** With every template present, every page is written. */
  lemma {:induction false} ApplyAllRendered(files: Files, ws: seq<Write>, templates: set<string>)
    requires forall i :: 0 <= i < |ws| ==> RenderError(ws[i], templates).None?
    ensures Apply(files, ws, templates) == (None, Written(files, ws))
    decreases |ws|
  {
    if ws != [] {
      assert RenderError(ws[0], templates).None?;
      ApplyAllRendered(files[ws[0].path := ws[0].output], ws[1..], templates);
    }
  }

  /**
   * A failed render stops the step: its error is that of the first page
   * whose template is missing, and exactly the pages before it are written.
   */
  lemma {:induction false} ApplyStopsAtFirstFailure(files: Files, ws: seq<Write>, templates: set<string>, k: nat)
    requires k < |ws| && RenderError(ws[k], templates).Some?
    requires forall i :: 0 <= i < k ==> RenderError(ws[i], templates).None?
    ensures Apply(files, ws, templates) == (RenderError(ws[k], templates), Written(files, ws[..k]))
    decreases |ws|
  {
    if k == 0 {
      assert ws[..0] == [];
    } else {
      assert RenderError(ws[0], templates).None?;
      var next := files[ws[0].path := ws[0].output];
      ApplyStopsAtFirstFailure(next, ws[1..], templates, k - 1);
      assert ws[..k][1..] == ws[1..][..k - 1];
    }
  }

  /** A write no later write replaces is what the files hold at its path. */
  lemma {:induction false} WrittenLast(files: Files, ws: seq<Write>, i: nat)
    requires i < |ws|
    requires forall j :: i < j < |ws| ==> ws[j].path != ws[i].path
    ensures ws[i].path in Written(files, ws) && Written(files, ws)[ws[i].path] == ws[i].output
    decreases |ws|
  {
    if i == 0 {
      WrittenKeeps(files[ws[0].path := ws[0].output], ws[1..], ws[0].path);
    } else {
      WrittenLast(files[ws[0].path := ws[0].output], ws[1..], i - 1);
    }
  }

  /** A path no write touches keeps its content. */
  lemma {:induction false} WrittenKeeps(files: Files, ws: seq<Write>, path: string)
    requires forall j :: 0 <= j < |ws| ==> ws[j].path != path
    ensures path in Written(files, ws) <==> path in files
    ensures path in files ==> Written(files, ws)[path] == files[path]
    decreases |ws|
  {
    if ws != [] {
      WrittenKeeps(files[ws[0].path := ws[0].output], ws[1..], path);
    }
  }

  /** The files a step leaves and its report entry, or the exception it raised. */
  function Execute(plan: Result<Step>, templates: set<string>, files: Files): (Result<StepLog>, Files)
  {
    match plan
    case Err(e) => (Err(e), files)
    case Ok(step) =>
      var (e, f) := Apply(files, step.writes, templates);
      (if e.Some? then Err(e.value) else Ok(step.log), f)
  }

  /** A planned step ends with the error of its first failed render, or else with its report entry. */
  lemma ExecutePlanned(plan: Result<Step>, templates: set<string>, files: Files)
    requires plan.Ok?
    ensures var a := Apply(files, plan.value.writes, templates);
      && Execute(plan, templates, files).0 == (if a.0.Some? then Err(a.0.value) else Ok(plan.value.log))
      && Execute(plan, templates, files).1 == a.1
  {
  }

  // ---------------------------------------------------------------- the pages of a run

  /** `prepareIndexData`. */
  function IndexData(o: Oracles, posts: seq<PostData>, page: nat, totalPages: nat): Page
  {
    IndexPage(Cards(o, Featured(posts, page)), Cards(o, Regular(posts, page)), PaginationFor(page, totalPages))
  }

  function PageKey(k: nat): string
  {
    "/page/" + NatToString(k) + "/index.html"
  }

  /** The posts-per-page option, cast to an integer. */
  function PerPage(c: Content): int
  {
    ToInt(c.perPageSetting)
  }

  function IndexPageOf(c: Content, o: Oracles, k: nat): Page
    requires PerPage(c) != 0 && 1 <= k <= TotalPages(|c.published|, PerPage(c))
  {
    var s := PerPage(c);
    IndexData(o, PagePosts(c.published, s, k), k, TotalPages(|c.published|, s))
  }

  /** `generateIndex`: the home page, then "/page/k/index.html" for every page k; no page size is a division by zero. */
  function IndexPlan(c: Content, o: Oracles): (r: Result<Step>)
    ensures r.Err? <==> PerPage(c) == 0
  {
    var s := PerPage(c);
    if s == 0 then Err(DivisionByZero)
    else
      var t := TotalPages(|c.published|, s);
      Ok(Step(
        [Write("/index.html", Html("public/index", IndexPageOf(c, o, 1)))]
        + seq(t, i requires 0 <= i < t => Write(PageKey(i + 1), Html("public/index", IndexPageOf(c, o, i + 1)))),
        Pages(t)))
  }

  /** The home page comes first, then page k at position k. */
  lemma IndexWriteAt(c: Content, o: Oracles, k: nat)
    requires PerPage(c) != 0 && k <= TotalPages(|c.published|, PerPage(c))
    ensures var ws := IndexPlan(c, o).value.writes;
      |ws| == TotalPages(|c.published|, PerPage(c)) + 1
      && ws[k] == if k == 0 then Write("/index.html", Html("public/index", IndexPageOf(c, o, 1)))
                  else Write(PageKey(k), Html("public/index", IndexPageOf(c, o, k)))
  {
    var t := TotalPages(|c.published|, PerPage(c));
    var rest := seq(t, i requires 0 <= i < t => Write(PageKey(i + 1), Html("public/index", IndexPageOf(c, o, i + 1))));
    var ws := IndexPlan(c, o).value.writes;
    assert ws == [Write("/index.html", Html("public/index", IndexPageOf(c, o, 1)))] + rest;
    if k > 0 {
      assert ws[k] == rest[k - 1];
    }
  }

  /** The k-th write of `generateIndex`: the home page first, then page k. */
  function IndexWrite(c: Content, o: Oracles, k: nat): Write
    requires PerPage(c) != 0 && k <= TotalPages(|c.published|, PerPage(c))
  {
    if k == 0 then Write("/index.html", Html("public/index", IndexPageOf(c, o, 1)))
    else Write(PageKey(k), Html("public/index", IndexPageOf(c, o, k)))
  }

  /** `preparePostData`: the post with its category, tags and reading time, and its neighbours in `all`. */
  function PostPageOf(c: Content, o: Oracles, p: Post, all: seq<PostData>): Page
  {
    var category :=
      if p.categoryId.Some? && p.categoryId.value != 0 && c.categoryById(p.categoryId.value).Some?
      then Some(CategoryEntity.ToArray(c.categoryById(p.categoryId.value).value))
      else None;
    PostPage(PostView(ToArray(p), category, c.tagsOfPost(p.id), ReadingTimeOf(o, p)),
             PrevOf(all, p.id), NextOf(all, p.id))
  }

  function PostKey(slug: string): string
  {
    "/post/" + slug + "/index.html"
  }

  /** `generatePosts`: one page per published post. */
  function PostsPlan(c: Content, o: Oracles): Step
  {
    var ps := c.published;
    Step(seq(|ps|, i requires 0 <= i < |ps| =>
           Write(PostKey(ps[i].post.slug), Html("public/post", PostPageOf(c, o, ps[i].post, ps)))),
         Count(|ps|))
  }

  /** A category's page lives under its path, or under its slug when the path is empty or "0". */
  function CategoryKey(cat: CategoryEntity.Category): string
  {
    "/category/" + (if IsFalsy(cat.path) then cat.slug else cat.path) + "/index.html"
  }

  function CategoryRows(cats: seq<CategoryEntity.Category>): (rows: seq<CategoryEntity.CategoryRow>)
    ensures |rows| == |cats| && forall i :: 0 <= i < |cats| ==> rows[i] == CategoryEntity.ToArray(cats[i])
  {
    seq(|cats|, i requires 0 <= i < |cats| => CategoryEntity.ToArray(cats[i]))
  }

  /** `generateCategories`: one page per category listing its posts, then the list of categories. */
  function CategoriesPlan(c: Content, o: Oracles): Step
  {
    var cs := c.categories;
    Step(seq(|cs|, i requires 0 <= i < |cs| =>
           Write(CategoryKey(cs[i]),
                 Html("public/index", CategoryPage(CategoryEntity.ToArray(cs[i]), Cards(o, c.postsOfCategory(cs[i].id))))))
         + [Write("/categories/index.html", Html("public/categories", CategoriesPage(CategoryRows(cs))))],
         Count(|cs|))
  }

  function LinkOf(t: TagEntity.Tag): TagLink
  {
    TagLink(t.id, t.name, t.slug)
  }

  function TagLinks(ts: seq<TagEntity.Tag>): (links: seq<TagLink>)
    ensures |links| == |ts| && forall i :: 0 <= i < |ts| ==> links[i] == LinkOf(ts[i])
  {
    seq(|ts|, i requires 0 <= i < |ts| => LinkOf(ts[i]))
  }

  function TagKey(t: TagEntity.Tag): string
  {
    "/tag/" + t.slug + "/index.html"
  }

  /** `generateTags`: one page per tag listing its posts, then the list of tags. */
  function TagsPlan(c: Content, o: Oracles): Step
  {
    var ts := c.tags;
    Step(seq(|ts|, i requires 0 <= i < |ts| =>
           Write(TagKey(ts[i]), Html("public/index", TagPage(LinkOf(ts[i]), Cards(o, c.postsOfTag(ts[i].id))))))
         + [Write("/tags/index.html", Html("public/tags", TagsPage(TagLinks(ts))))],
         Count(|ts|))
  }

  /**
   * The search record of a post: the stored excerpt unless it is empty or
   * "0", else one cut from the Markdown; the content is the rendered HTML
   * without its tags, empty when there is none.
   */
  function RecordOf(o: Oracles, d: PostData): (r: SearchRecord)
    ensures r.url == "/post/" + d.post.slug + "/" && r.title == d.post.title
    ensures d.post.excerpt.Some? && !IsFalsy(d.post.excerpt.value) ==> r.excerpt == d.post.excerpt.value
    ensures d.post.excerpt.None? || IsFalsy(d.post.excerpt.value) ==> r.excerpt == StaticPages.Excerpt(o, d.post.contentMd, 150)
    ensures r.content == o.stripTags(d.post.contentHtml.GetOr(""))
    ensures r.tags == d.extra.tags.GetOr([])
  {
    SearchRecord(
      d.post.title,
      "/post/" + d.post.slug + "/",
      if d.post.excerpt.Some? && !IsFalsy(d.post.excerpt.value) then d.post.excerpt.value
      else StaticPages.Excerpt(o, d.post.contentMd, 150),
      o.stripTags(d.post.contentHtml.GetOr("")),
      d.extra.tags.GetOr([]))
  }

  /** `f` applied to every element, in order, built from the front as a loop appends. */
  function MapEach<A, B>(f: A -> B, xs: seq<A>): (ys: seq<B>)
    ensures |ys| == |xs|
  {
    if xs == [] then [] else MapEach(f, xs[..|xs| - 1]) + [f(xs[|xs| - 1])]
  }

  /** The i-th element of the mapped sequence is `f` of the i-th element. */
  lemma {:induction false} MapEachAt<A, B>(f: A -> B, xs: seq<A>, i: nat)
    requires i < |xs|
    ensures MapEach(f, xs)[i] == f(xs[i])
  {
    var init := xs[..|xs| - 1];
    if i < |init| {
      MapEachAt(f, init, i);
      assert init[i] == xs[i];
    }
  }

  /** One record per published post, in order. */
  function SearchRecords(o: Oracles, ps: seq<PostData>): (rs: seq<SearchRecord>)
    ensures |rs| == |ps|
  {
    MapEach((d: PostData) => RecordOf(o, d), ps)
  }

  /** The i-th search record is the record of the i-th post. */
  lemma SearchRecordAt(o: Oracles, ps: seq<PostData>, i: nat)
    requires i < |ps|
    ensures SearchRecords(o, ps)[i] == RecordOf(o, ps[i])
  {
    MapEachAt((d: PostData) => RecordOf(o, d), ps, i);
  }

  /** The record of `d` carries an excerpt `generateExcerpt` cut inside a character, which `json_encode` refuses. */
  predicate BrokenExcerpt(o: Oracles, d: PostData)
  {
    (d.post.excerpt.None? || IsFalsy(d.post.excerpt.value)) && StaticPages.CutsCharacter(o, d.post.contentMd, 150)
  }

  /** `json_encode` of the records of `ps` gives a string: no record carries a broken excerpt. */
  predicate Encodable(o: Oracles, ps: seq<PostData>)
  {
    forall i :: 0 <= i < |ps| ==> !BrokenExcerpt(o, ps[i])
  }

  /**
   * `generateSearchIndex`: the JSON file and, as report, the number of
   * records and the JSON's length; when a record cannot be encoded,
   * `json_encode` gives false and `writeFile` raises a `TypeError` before
   * anything is written.
   */
  function SearchPlan(c: Content, o: Oracles): (r: Result<Step>)
    ensures r.Err? <==> exists i :: 0 <= i < |c.published| && BrokenExcerpt(o, c.published[i])
    ensures r.Err? ==> r.error == EncodeError
    ensures r.Ok? ==> r.value.log.Stats? && r.value.log.posts == |c.published|
    ensures r.Ok? ==> |r.value.writes| == 1 && r.value.writes[0].path == "/search-index.json"
  {
    var rs := SearchRecords(o, c.published);
    if !Encodable(o, c.published) then Err(EncodeError)
    else Ok(Step([Write("/search-index.json", Json(rs))], Stats(|rs|, o.jsonLength(rs))))
  }

  /** The plan of one step: the index step fails on a page size of 0, the search step on a broken excerpt. */
  function Plan(c: Content, o: Oracles, s: StepName): (r: Result<Step>)
    ensures r.Err? <==> (s == IndexStep && PerPage(c) == 0) || (s == SearchStep && !Encodable(o, c.published))
    ensures r.Err? ==> r.error == (if s == IndexStep then DivisionByZero else EncodeError)
  {
    match s
    case IndexStep => IndexPlan(c, o)
    case PostsStep => Ok(PostsPlan(c, o))
    case CategoriesStep => Ok(CategoriesPlan(c, o))
    case TagsStep => Ok(TagsPlan(c, o))
    case SearchStep => SearchPlan(c, o)
  }

  /** The loop of `generateSearchIndex`: one record per post, in order. */
  method CollectRecords(o: Oracles, posts: seq<PostData>) returns (records: seq<SearchRecord>)
    ensures records == SearchRecords(o, posts)
  {
    records := [];
    var i := 0;
    while i < |posts|
      invariant 0 <= i <= |posts|
      invariant records == SearchRecords(o, posts[..i])
    {
      assert posts[..i + 1][..i] == posts[..i];
      records := records + [RecordOf(o, posts[i])];
      i := i + 1;
    }
    assert posts[..i] == posts;
  }

  /** The plans of the five steps, in order. */
  function Plans(c: Content, o: Oracles): (ps: seq<Result<Step>>)
    ensures |ps| == |Steps| && forall k :: 0 <= k < |Steps| ==> ps[k] == Plan(c, o, Steps[k])
  {
    PlansFrom(c, o, 0)
  }

  /** The plans of the steps from position k on. */
  function PlansFrom(c: Content, o: Oracles, k: nat): (ps: seq<Result<Step>>)
    requires k <= |Steps|
    ensures |ps| == |Steps| - k && forall j :: 0 <= j < |ps| ==> ps[j] == Plan(c, o, Steps[k + j])
    decreases |Steps| - k
  {
    if k == |Steps| then [] else [Plan(c, o, Steps[k])] + PlansFrom(c, o, k + 1)
  }

  /**
   * The steps from position k on, after the report entries `done`: the
   * outcome (all entries, or the exception), the entries of the steps that
   * finished, and the files.
   */
  function RunFrom(plans: seq<Result<Step>>, templates: set<string>, k: nat,
                   done: seq<StepLog>, files: Files): (r: (Result<seq<StepLog>>, seq<StepLog>, Files))
    ensures |done| <= |r.1| && r.1[..|done|] == done
    ensures r.0.Ok? ==> r.0.value == r.1 && |r.1| == |done| + (if k <= |plans| then |plans| - k else 0)
    ensures r.0.Err? ==> k < |plans| && |r.1| < |done| + (|plans| - k)
    decreases |plans| - k
  {
    if k >= |plans| then (Ok(done), done, files)
    else
      var (r, f) := Execute(plans[k], templates, files);
      if r.Err? then (Err(r.error), done, f) else RunFrom(plans, templates, k + 1, done + [r.value], f)
  }

  /** `generateAll` with the lock held: the report and the files it leaves. */
  function Run(plans: seq<Result<Step>>, templates: set<string>, files: Files, now: int): (r: (RunLog, Files))
    ensures r.0.Report?
    ensures r.0.success <==> r.0.error.None?
    ensures r.0.success <==> r.0.generatedAt == Some(now)
    ensures r.0.success ==> |r.0.steps| == |plans|
    ensures !r.0.success ==> |r.0.steps| < |plans|
  {
    var (r, entries, f) := RunFrom(plans, templates, 0, [], files);
    if r.Ok? then (Report(entries, true, None, Some(now)), f)
    else (Report(entries, false, Some(r.error), None), f)
  }

  // ---------------------------------------------------------------- the generator

  class Generator {
    const content: Content
    const oracles: Oracles
    /** The templates that exist. */
    const templates: set<string>
    /** The output directory. */
    var files: Files
    var lockHeld: bool
    /** The generation log, one entry per run that held the lock. */
    var savedLogs: seq<LogEntry>

    constructor(content: Content, oracles: Oracles, templates: set<string>, files: Files)
      ensures this.content == content && this.oracles == oracles && this.templates == templates
      ensures this.files == files && !lockHeld && savedLogs == []
    {
      this.content := content;
      this.oracles := oracles;
      this.templates := templates;
      this.files := files;
      lockHeld := false;
      savedLogs := [];
    }

    /** `renderTemplate` then `writeFile`: a missing template raises before anything is written. */
    method RenderAndWrite(w: Write) returns (error: Option<string>)
      modifies this`files
      ensures error == RenderError(w, templates)
      ensures files == if error.None? then old(files)[w.path := w.output] else old(files)
    {
      error := RenderError(w, templates);
      if error.None? {
        files := files[w.path := w.output];
      }
    }

    /** The loop of `prepareIndexData` that splits the page's posts. */
    method PrepareIndexData(posts: seq<PostData>, page: nat, totalPages: nat) returns (data: Page)
      ensures data == IndexData(oracles, posts, page, totalPages)
    {
      var featured: seq<Card> := [];
      var regular: seq<Card> := [];
      var i := 0;
      while i < |posts|
        invariant 0 <= i <= |posts|
        invariant featured == Cards(oracles, Featured(posts[..i], page))
        invariant regular == Cards(oracles, Regular(posts[..i], page))
      {
        var d := posts[i];
        CardsSplitStep(oracles, posts, i, page);
        if d.post.isFeatured && page == 1 {
          featured := featured + [CardOf(oracles, d)];
        } else {
          regular := regular + [CardOf(oracles, d)];
        }
        i := i + 1;
      }
      assert posts[..i] == posts;
      data := IndexPage(featured, regular, PaginationFor(page, totalPages));
    }

    /** The loop of `preparePostData` that finds the neighbours of the post with id `id`. */
    method FindNeighbours(id: Option<int>, all: seq<PostData>) returns (prev: Option<NavLink>, next: Option<NavLink>)
      ensures prev == PrevOf(all, id) && next == NextOf(all, id)
    {
      prev, next := None, None;
      var found := false;
      var i := 0;
      while i < |all|
        invariant 0 <= i <= |all| && next.None?
        invariant found <==> FirstWithId(all, id).Some? && FirstWithId(all, id).value < i
        invariant !found ==> prev == if i == 0 then None else Some(Link(all[i - 1]))
        invariant found ==> prev == PrevOf(all, id)
        invariant found ==> FirstOtherFrom(all, FirstWithId(all, id).value + 1, id) == FirstOtherFrom(all, i, id)
      {
        var p := all[i];
        if p.post.id == id {
          found := true;
        } else if !found {
          prev := Some(Link(p));
        } else {
          next := Some(Link(p));
          return;
        }
        i := i + 1;
      }
    }

    /** `preparePostData`. */
    method PreparePostData(post: Post, all: seq<PostData>) returns (data: Page)
      ensures data == PostPageOf(content, oracles, post, all)
    {
      var prev, next := FindNeighbours(post.id, all);
      var category := None;
      if post.categoryId.Some? && post.categoryId.value != 0 {
        var found := content.categoryById(post.categoryId.value);
        if found.Some? {
          category := Some(CategoryEntity.ToArray(found.value));
        }
      }
      data := PostPage(PostView(ToArray(post), category, content.tagsOfPost(post.id), ReadingTimeOf(oracles, post)), prev, next);
    }

    /** `generateIndex`. */
    method GenerateIndex() returns (r: Result<StepLog>)
      modifies this`files
      ensures r == Execute(Plan(content, oracles, IndexStep), templates, old(files)).0
      ensures files == Execute(Plan(content, oracles, IndexStep), templates, old(files)).1
    {
      var perPage := ToInt(content.perPageSetting);
      if perPage == 0 {
        return Err(DivisionByZero);
      }
      ghost var ws := IndexPlan(content, oracles).value.writes;
      ExecutePlanned(Plan(content, oracles, IndexStep), templates, files);
      IndexWriteAt(content, oracles, 0);
      forall k | 0 <= k < |ws| ensures ws[k] == IndexWrite(content, oracles, k) {
        IndexWriteAt(content, oracles, k);
      }
      var e := WriteIndexPages(ws);
      if e.Some? {
        return Err(e.value);
      }
      return Ok(Pages(TotalPages(|content.published|, perPage)));
    }

    /**
     * The loop of `generateIndex` over its planned writes `ws`: page 1 is
     * written as the home page and then as "/page/1/index.html", every
     * other page once; the first page that fails to render stops it.
     */
    method WriteIndexPages(ghost ws: seq<Write>) returns (e: Option<string>)
      requires PerPage(content) != 0
      requires |ws| == TotalPages(|content.published|, PerPage(content)) + 1
      requires forall k :: 0 <= k < |ws| ==> ws[k] == IndexWrite(content, oracles, k)
      modifies this`files
      ensures Apply(old(files), ws, templates) == (e, files)
    {
      var perPage := ToInt(content.perPageSetting);
      var posts := content.published;
      var totalPages := TotalPages(|posts|, perPage);
      var page := 1;
      while page <= totalPages
        invariant 1 <= page <= totalPages + 1
        invariant Apply(old(files), ws, templates) == Apply(files, ws[if page == 1 then 0 else page..], templates)
      {
        var data := PrepareIndexData(PagePosts(posts, perPage, page), page, totalPages);
        if page == 1 {
          e := WriteAt(ws, 0, Write("/index.html", Html("public/index", data)));
          if e.Some? {
            return;
          }
        }
        e := WriteAt(ws, page, Write(PageKey(page), Html("public/index", data)));
        if e.Some? {
          return;
        }
        page := page + 1;
      }
      e := None;
    }

    /** Writing the planned write at position k: `Apply` from k stops with its error or moves on to k + 1. */
    method WriteAt(ghost ws: seq<Write>, k: nat, w: Write) returns (e: Option<string>)
      requires k < |ws| && ws[k] == w
      modifies this`files
      ensures e.Some? ==> Apply(old(files), ws[k..], templates) == (e, files)
      ensures e.None? ==> Apply(old(files), ws[k..], templates) == Apply(files, ws[k + 1..], templates)
    {
      ApplyAt(files, ws, k, templates);
      e := RenderAndWrite(w);
    }

    /** `generatePosts`. */
    method GeneratePosts() returns (r: Result<StepLog>)
      modifies this`files
      ensures r == Execute(Plan(content, oracles, PostsStep), templates, old(files)).0
      ensures files == Execute(Plan(content, oracles, PostsStep), templates, old(files)).1
    {
      var posts := content.published;
      ghost var ws := PostsPlan(content, oracles).writes;
      ExecutePlanned(Plan(content, oracles, PostsStep), templates, files);
      var i := 0;
      while i < |posts|
        invariant 0 <= i <= |posts|
        invariant Apply(old(files), ws, templates) == Apply(files, ws[i..], templates)
      {
        var post := posts[i].post;
        var data := PreparePostData(post, posts);
        ApplyAt(files, ws, i, templates);
        var e := RenderAndWrite(Write(PostKey(post.slug), Html("public/post", data)));
        if e.Some? {
          return Err(e.value);
        }
        i := i + 1;
      }
      return Ok(Count(|posts|));
    }

    /** `generateCategories`. */
    method GenerateCategories() returns (r: Result<StepLog>)
      modifies this`files
      ensures r == Execute(Plan(content, oracles, CategoriesStep), templates, old(files)).0
      ensures files == Execute(Plan(content, oracles, CategoriesStep), templates, old(files)).1
    {
      var categories := content.categories;
      ghost var ws := CategoriesPlan(content, oracles).writes;
      assert Plan(content, oracles, CategoriesStep) == Ok(CategoriesPlan(content, oracles));
      ExecutePlanned(Plan(content, oracles, CategoriesStep), templates, files);
      var i := 0;
      while i < |categories|
        invariant 0 <= i <= |categories|
        invariant Apply(old(files), ws, templates) == Apply(files, ws[i..], templates)
      {
        var category := categories[i];
        var data := CategoryPage(CategoryEntity.ToArray(category), Cards(oracles, content.postsOfCategory(category.id)));
        ApplyAt(files, ws, i, templates);
        var e := RenderAndWrite(Write(CategoryKey(category), Html("public/index", data)));
        if e.Some? {
          return Err(e.value);
        }
        i := i + 1;
      }
      ApplyAt(files, ws, i, templates);
      var e := RenderAndWrite(Write("/categories/index.html", Html("public/categories", CategoriesPage(CategoryRows(categories)))));
      if e.Some? {
        return Err(e.value);
      }
      return Ok(Count(|categories|));
    }

    /** `generateTags`. */
    method GenerateTags() returns (r: Result<StepLog>)
      modifies this`files
      ensures r == Execute(Plan(content, oracles, TagsStep), templates, old(files)).0
      ensures files == Execute(Plan(content, oracles, TagsStep), templates, old(files)).1
    {
      var tags := content.tags;
      ghost var ws := TagsPlan(content, oracles).writes;
      ExecutePlanned(Plan(content, oracles, TagsStep), templates, files);
      var i := 0;
      while i < |tags|
        invariant 0 <= i <= |tags|
        invariant Apply(old(files), ws, templates) == Apply(files, ws[i..], templates)
      {
        var tag := tags[i];
        var data := TagPage(LinkOf(tag), Cards(oracles, content.postsOfTag(tag.id)));
        ApplyAt(files, ws, i, templates);
        var e := RenderAndWrite(Write(TagKey(tag), Html("public/index", data)));
        if e.Some? {
          return Err(e.value);
        }
        i := i + 1;
      }
      ApplyAt(files, ws, i, templates);
      var e := RenderAndWrite(Write("/tags/index.html", Html("public/tags", TagsPage(TagLinks(tags)))));
      if e.Some? {
        return Err(e.value);
      }
      return Ok(Count(|tags|));
    }

    /** `generateSearchIndex`. */
    method GenerateSearchIndex() returns (r: Result<StepLog>)
      modifies this`files
      ensures r == Execute(Plan(content, oracles, SearchStep), templates, old(files)).0
      ensures files == Execute(Plan(content, oracles, SearchStep), templates, old(files)).1
    {
      var records := CollectRecords(oracles, content.published);
      if !Encodable(oracles, content.published) {
        return Err(EncodeError);
      }
      ghost var ws := SearchPlan(content, oracles).value.writes;
      ExecutePlanned(Plan(content, oracles, SearchStep), templates, files);
      ApplyAt(files, ws, 0, templates);
      var e := RenderAndWrite(Write("/search-index.json", Json(records)));
      return Ok(Stats(|records|, oracles.jsonLength(records)));
    }

    /**
     * The `try` block of `generateAll`: the five steps in order, the first
     * exception ending the run with the entries of the steps before it.
     */
    method RunSteps() returns (outcome: Result<seq<StepLog>>, entries: seq<StepLog>)
      modifies this`files
      ensures (outcome, entries, files) == RunFrom(Plans(content, oracles), templates, 0, [], old(files))
    {
      ghost var plans := Plans(content, oracles);
      ghost var goal := RunFrom(plans, templates, 0, [], files);
      entries := [];
      RunFromAt(plans, templates, 0, entries, files);
      assert plans[0] == Plan(content, oracles, IndexStep);
      var r := GenerateIndex();
      if r.Err? {
        return Err(r.error), entries;
      }
      entries := entries + [r.value];
      assert goal == RunFrom(plans, templates, 1, entries, files);
      RunFromAt(plans, templates, 1, entries, files);
      assert plans[1] == Plan(content, oracles, PostsStep);
      r := GeneratePosts();
      if r.Err? {
        return Err(r.error), entries;
      }
      entries := entries + [r.value];
      assert goal == RunFrom(plans, templates, 2, entries, files);
      RunFromAt(plans, templates, 2, entries, files);
      assert plans[2] == Plan(content, oracles, CategoriesStep);
      r := GenerateCategories();
      if r.Err? {
        return Err(r.error), entries;
      }
      entries := entries + [r.value];
      assert goal == RunFrom(plans, templates, 3, entries, files);
      RunFromAt(plans, templates, 3, entries, files);
      assert plans[3] == Plan(content, oracles, TagsStep);
      r := GenerateTags();
      if r.Err? {
        return Err(r.error), entries;
      }
      entries := entries + [r.value];
      assert goal == RunFrom(plans, templates, 4, entries, files);
      RunFromAt(plans, templates, 4, entries, files);
      assert plans[4] == Plan(content, oracles, SearchStep);
      r := GenerateSearchIndex();
      if r.Err? {
        return Err(r.error), entries;
      }
      entries := entries + [r.value];
      return Ok(entries), entries;
    }

    /** `acquireLock`, whose outcome (another run holds the lock, the wait timed out) is an input. */
    method AcquireLock(acquired: bool)
      modifies this`lockHeld
      ensures lockHeld == acquired
    {
      lockHeld := acquired;
    }

    method ReleaseLock()
      modifies this`lockHeld
      ensures !lockHeld
    {
      lockHeld := false;
    }

    /** `saveLog`: appends the report, stamped with the time. */
    method SaveLog(log: RunLog, now: int)
      modifies this`savedLogs
      ensures savedLogs == old(savedLogs) + [LogEntry(now, log)]
    {
      savedLogs := savedLogs + [LogEntry(now, log)];
    }

    /**
     * `generateAll`. Without the lock it reports that a run is in progress
     * and touches nothing; with it, it runs the five steps in order,
     * stopping at the first exception, releases the lock and logs the report.
     */
    method GenerateAll(acquired: bool, now: int) returns (log: RunLog)
      modifies this`files, this`lockHeld, this`savedLogs
      ensures !lockHeld
      ensures !acquired ==> log == Busy(BusyMessage) && files == old(files) && savedLogs == old(savedLogs)
      ensures acquired ==> (log, files) == Run(Plans(content, oracles), templates, old(files), now)
      ensures acquired ==> savedLogs == old(savedLogs) + [LogEntry(now, log)]
    {
      AcquireLock(acquired);
      if !lockHeld {
        return Busy(BusyMessage);
      }
      var outcome, entries := RunSteps();
      if outcome.Ok? {
        log := Report(entries, true, None, Some(now));
      } else {
        log := Report(entries, false, Some(outcome.error), None);
      }
      ReleaseLock();
      SaveLog(log, now);
    }
  }

  /** Formatting one more post appends one card. */
  lemma CardsAppend(o: Oracles, posts: seq<PostData>, d: PostData)
    ensures Cards(o, posts + [d]) == Cards(o, posts) + [CardOf(o, d)]
  {
  }

  /** One more post of the page adds its card to one of the two blocks. */
  lemma CardsSplitStep(o: Oracles, posts: seq<PostData>, i: nat, page: nat)
    requires i < |posts|
    ensures var goes := posts[i].post.isFeatured && page == 1;
      && Cards(o, Featured(posts[..i + 1], page)) == Cards(o, Featured(posts[..i], page)) + (if goes then [CardOf(o, posts[i])] else [])
      && Cards(o, Regular(posts[..i + 1], page)) == Cards(o, Regular(posts[..i], page)) + (if goes then [] else [CardOf(o, posts[i])])
  {
    SplitStep(posts, i, page);
    CardsAppend(o, Featured(posts[..i], page), posts[i]);
    CardsAppend(o, Regular(posts[..i], page), posts[i]);
  }

  /** The step at position k of a run. */
  lemma RunFromAt(plans: seq<Result<Step>>, templates: set<string>, k: nat, done: seq<StepLog>, files: Files)
    requires k < |plans|
    ensures var r := Execute(plans[k], templates, files).0;
      var f := Execute(plans[k], templates, files).1;
      RunFrom(plans, templates, k, done, files) ==
        if r.Err? then (Err(r.error), done, f) else RunFrom(plans, templates, k + 1, done + [r.value], f)
  {
  }

  // ---------------------------------------------------------------- what a run writes

  /** Distinct pages have distinct paths. */
  lemma PageKeyInjective(a: nat, b: nat)
    requires PageKey(a) == PageKey(b)
    ensures a == b
  {
    var sa, sb := NatToString(a), NatToString(b);
    assert |sa| == |sb|;
    assert PageKey(a)[6..6 + |sa|] == sa;
    assert PageKey(b)[6..6 + |sb|] == sb;
    NatToStringInjective(a, b);
  }

  /** Posts with distinct slugs have distinct paths. */
  lemma PostKeyInjective(a: string, b: string)
    requires PostKey(a) == PostKey(b)
    ensures a == b
  {
    assert PostKey(a)[6..6 + |a|] == a;
    assert PostKey(b)[6..6 + |b|] == b;
  }

  /**
   * With a non-zero page size and the index template present, the index
   * step reports max(1, ceil(N/S)) pages and writes page k, holding the
   * posts of that page, to "/page/k/index.html" for every k, and page 1
   * also to "/index.html".
   */
  lemma IndexPagesWritten(c: Content, o: Oracles, templates: set<string>, files: Files)
    requires PerPage(c) != 0 && "public/index" in templates
    ensures var t := TotalPages(|c.published|, PerPage(c));
      var (r, f) := Execute(Plan(c, o, IndexStep), templates, files);
      && r == Ok(Pages(t))
      && "/index.html" in f && f["/index.html"] == Html("public/index", IndexPageOf(c, o, 1))
      && forall k :: 1 <= k <= t ==> PageKey(k) in f && f[PageKey(k)] == Html("public/index", IndexPageOf(c, o, k))
  {
    var t := TotalPages(|c.published|, PerPage(c));
    var ws := IndexPlan(c, o).value.writes;
    forall i | 0 <= i < |ws|
      ensures RenderError(ws[i], templates).None?
      ensures i > 0 ==> ws[i].path == PageKey(i)
    {
      IndexWriteAt(c, o, i);
    }
    ApplyAllRendered(files, ws, templates);
    ExecutePlanned(Plan(c, o, IndexStep), templates, files);
    IndexWriteAt(c, o, 0);
    assert forall j :: 0 < j < |ws| ==> ws[j].path != "/index.html" by {
      forall j | 0 < j < |ws| ensures ws[j].path != "/index.html" {
        assert |PageKey(j)| > |"/index.html"|;
      }
    }
    WrittenLast(files, ws, 0);
    forall k | 1 <= k <= t
      ensures PageKey(k) in Written(files, ws) && Written(files, ws)[PageKey(k)] == Html("public/index", IndexPageOf(c, o, k))
    {
      IndexWriteAt(c, o, k);
      forall j | k < j < |ws| ensures ws[j].path != ws[k].path {
        if ws[j].path == ws[k].path {
          PageKeyInjective(j, k);
        }
      }
      WrittenLast(files, ws, k);
    }
  }

  /**
   * With the post template present, the posts step writes the page of each
   * published post that no later post shares its slug with to
   * "/post/{slug}/index.html".
   */
  lemma PostPagesWritten(c: Content, o: Oracles, templates: set<string>, files: Files, i: nat)
    requires "public/post" in templates && i < |c.published|
    requires forall j :: i < j < |c.published| ==> c.published[j].post.slug != c.published[i].post.slug
    ensures var (r, f) := Execute(Plan(c, o, PostsStep), templates, files);
      var p := c.published[i].post;
      && r == Ok(Count(|c.published|))
      && PostKey(p.slug) in f && f[PostKey(p.slug)] == Html("public/post", PostPageOf(c, o, p, c.published))
  {
    var ws := PostsPlan(c, o).writes;
    ApplyAllRendered(files, ws, templates);
    ExecutePlanned(Plan(c, o, PostsStep), templates, files);
    forall j | i < j < |ws| ensures ws[j].path != ws[i].path {
      if ws[j].path == ws[i].path {
        PostKeyInjective(c.published[j].post.slug, c.published[i].post.slug);
      }
    }
    WrittenLast(files, ws, i);
  }

  /** The four templates a run renders. */
  const Templates: set<string> := {"public/index", "public/post", "public/categories", "public/tags"}

  /** No step's page fails to render when the four templates exist. */
  lemma StepsRender(c: Content, o: Oracles, templates: set<string>, s: StepName)
    requires Templates <= templates && Plan(c, o, s).Ok?
    ensures forall i :: 0 <= i < |Plan(c, o, s).value.writes| ==> RenderError(Plan(c, o, s).value.writes[i], templates).None?
  {
    var ws := Plan(c, o, s).value.writes;
    forall i | 0 <= i < |ws| ensures RenderError(ws[i], templates).None? {
      if s == IndexStep {
        IndexWriteAt(c, o, i);
      }
    }
  }

  /** A step whose pages all render reports its entry. */
  lemma StepSucceeds(c: Content, o: Oracles, templates: set<string>, s: StepName, files: Files)
    requires Templates <= templates && Plan(c, o, s).Ok?
    ensures Execute(Plan(c, o, s), templates, files).0 == Ok(Plan(c, o, s).value.log)
  {
    StepsRender(c, o, templates, s);
    ApplyAllRendered(files, Plan(c, o, s).value.writes, templates);
  }

  /**
   * With a non-zero page size, the four templates present and no broken
   * excerpt, a run succeeds and reports, in order, the number of index pages, of posts, of
   * categories and of tags, and the search index's record count and size.
   */
  lemma RunSucceeds(c: Content, o: Oracles, templates: set<string>, files: Files, now: int)
    requires PerPage(c) != 0 && Templates <= templates && Encodable(o, c.published)
    ensures var rs := SearchRecords(o, c.published);
      Run(Plans(c, o), templates, files, now).0 == Report(
        [Pages(TotalPages(|c.published|, PerPage(c))), Count(|c.published|), Count(|c.categories|),
         Count(|c.tags|), Stats(|rs|, o.jsonLength(rs))],
        true, None, Some(now))
  {
    PlansSucceed(c, o, templates);
    RunAllSucceed(Plans(c, o), templates, files, now);
    PlansLogs(c, o);
  }

  /** With a non-zero page size, the four templates and no broken excerpt, every planned step reports its entry. */
  lemma PlansSucceed(c: Content, o: Oracles, templates: set<string>)
    requires PerPage(c) != 0 && Templates <= templates && Encodable(o, c.published)
    ensures forall j :: 0 <= j < |Plans(c, o)| ==> Plans(c, o)[j].Ok?
    ensures forall j, f :: 0 <= j < |Plans(c, o)| ==> Execute(Plans(c, o)[j], templates, f).0 == Ok(Plans(c, o)[j].value.log)
  {
    PlansOk(c, o);
    var plans := Plans(c, o);
    forall j, f | 0 <= j < |plans|
      ensures Execute(plans[j], templates, f).0 == Ok(plans[j].value.log)
    {
      var s := Steps[j];
      assert plans[j] == Plan(c, o, s);
      StepSucceeds(c, o, templates, s, f);
    }
  }

  /** With a non-zero page size and no broken excerpt every step has a plan. */
  lemma PlansOk(c: Content, o: Oracles)
    requires PerPage(c) != 0 && Encodable(o, c.published)
    ensures forall j :: 0 <= j < |Plans(c, o)| ==> Plans(c, o)[j].Ok?
  {
    var plans := Plans(c, o);
    forall j | 0 <= j < |plans| ensures plans[j].Ok? {
      PlanOk(c, o, Steps[j]);
    }
  }

  /** With a non-zero page size a step's plan is never an error, the search step's provided no excerpt is broken. */
  lemma PlanOk(c: Content, o: Oracles, s: StepName)
    requires PerPage(c) != 0 && (s == SearchStep ==> Encodable(o, c.published))
    ensures Plan(c, o, s).Ok?
  {
    if s == IndexStep {
      assert Plan(c, o, s) == IndexPlan(c, o);
    }
  }

  /** The entries of the five plans, in order. */
  lemma PlansLogs(c: Content, o: Oracles)
    requires PerPage(c) != 0 && Encodable(o, c.published)
    ensures forall j :: 0 <= j < |Plans(c, o)| ==> Plans(c, o)[j].Ok?
    ensures var rs := SearchRecords(o, c.published);
      LogsFrom(Plans(c, o), 0) ==
        [Pages(TotalPages(|c.published|, PerPage(c))), Count(|c.published|), Count(|c.categories|),
         Count(|c.tags|), Stats(|rs|, o.jsonLength(rs))]
  {
    PlansOk(c, o);
    var plans := Plans(c, o);
    assert plans[0] == Plan(c, o, IndexStep);
    assert plans[1] == Plan(c, o, PostsStep);
    assert plans[2] == Plan(c, o, CategoriesStep);
    assert plans[3] == Plan(c, o, TagsStep);
    assert plans[4] == Plan(c, o, SearchStep);
    LogsOfFive(plans);
  }

  /** The entries of five plans that all succeed. */
  lemma LogsOfFive(plans: seq<Result<Step>>)
    requires |plans| == 5 && forall j :: 0 <= j < 5 ==> plans[j].Ok?
    ensures LogsFrom(plans, 0) ==
      [plans[0].value.log, plans[1].value.log, plans[2].value.log, plans[3].value.log, plans[4].value.log]
  {
    assert LogsFrom(plans, 4) == [plans[4].value.log];
    assert LogsFrom(plans, 3) == [plans[3].value.log] + LogsFrom(plans, 4);
    assert LogsFrom(plans, 2) == [plans[2].value.log] + LogsFrom(plans, 3);
  }

  /** The report entries of the plans from position k on. */
  function LogsFrom(plans: seq<Result<Step>>, k: nat): seq<StepLog>
    requires forall j :: k <= j < |plans| ==> plans[j].Ok?
    decreases |plans| - k
  {
    if k >= |plans| then [] else [plans[k].value.log] + LogsFrom(plans, k + 1)
  }

  /** When no step can fail, a run reports every step's entry. */
  lemma {:induction false} RunFromAllSucceed(plans: seq<Result<Step>>, templates: set<string>, k: nat, done: seq<StepLog>, files: Files)
    requires forall j :: k <= j < |plans| ==> plans[j].Ok?
    requires forall j, f :: k <= j < |plans| ==> Execute(plans[j], templates, f).0 == Ok(plans[j].value.log)
    ensures RunFrom(plans, templates, k, done, files).0 == Ok(done + LogsFrom(plans, k))
    decreases |plans| - k
  {
    if k < |plans| {
      var f := Execute(plans[k], templates, files).1;
      RunFromAt(plans, templates, k, done, files);
      RunFromAllSucceed(plans, templates, k + 1, done + [plans[k].value.log], f);
      assert done + [plans[k].value.log] + LogsFrom(plans, k + 1) == done + LogsFrom(plans, k);
    } else {
      assert done + LogsFrom(plans, k) == done;
    }
  }

  /** When no step can fail, the report lists every step's entry and succeeds. */
  lemma RunAllSucceed(plans: seq<Result<Step>>, templates: set<string>, files: Files, now: int)
    requires forall j :: 0 <= j < |plans| ==> plans[j].Ok?
    requires forall j, f :: 0 <= j < |plans| ==> Execute(plans[j], templates, f).0 == Ok(plans[j].value.log)
    ensures Run(plans, templates, files, now).0 == Report(LogsFrom(plans, 0), true, None, Some(now))
  {
    RunFromAllSucceed(plans, templates, 0, [], files);
    RunFromShape(plans, templates, 0, [], files);
  }

  /**
   * The steps from position k on, when those before position n succeed and
   * the plan at n is an exception: the run stops there with the entries of
   * the steps before it.
   */
  lemma {:induction false} RunFromStopsAt(plans: seq<Result<Step>>, templates: set<string>, k: nat, n: nat,
                                          done: seq<StepLog>, files: Files)
    requires k <= n < |plans| && plans[n].Err?
    requires forall j :: k <= j < n ==> plans[j].Ok?
    requires forall j, f :: k <= j < n ==> Execute(plans[j], templates, f).0 == Ok(plans[j].value.log)
    ensures RunFrom(plans, templates, k, done, files).0 == Err(plans[n].error)
    ensures RunFrom(plans, templates, k, done, files).1 == done + LogsFrom(plans[..n], k)
    decreases n - k
  {
    RunFromAt(plans, templates, k, done, files);
    if k < n {
      var f := Execute(plans[k], templates, files).1;
      RunFromStopsAt(plans, templates, k + 1, n, done + [plans[k].value.log], f);
      assert plans[..n][k] == plans[k];
      assert LogsFrom(plans[..n], k) == [plans[k].value.log] + LogsFrom(plans[..n], k + 1);
    } else {
      assert LogsFrom(plans[..n], k) == [];
    }
  }

  /**
   * A post whose generated excerpt cuts a character in two fails the run at
   * the search index: the four page steps report their entries, the report
   * carries the `TypeError` and no generation time.
   */
  lemma RunFailsOnBrokenExcerpt(c: Content, o: Oracles, templates: set<string>, files: Files, now: int, i: nat)
    requires PerPage(c) != 0 && Templates <= templates
    requires i < |c.published| && BrokenExcerpt(o, c.published[i])
    ensures Run(Plans(c, o), templates, files, now).0 == Report(
      [Pages(TotalPages(|c.published|, PerPage(c))), Count(|c.published|), Count(|c.categories|), Count(|c.tags|)],
      false, Some(EncodeError), None)
  {
    PageStepsSucceed(c, o, templates);
    SearchStepFails(c, o, i);
    RunStopsAt(Plans(c, o), templates, files, now, 4);
    PageStepLogs(c, o);
  }

  /** A run whose plans before position n succeed and whose plan at n is an exception reports that exception after their entries. */
  lemma RunStopsAt(plans: seq<Result<Step>>, templates: set<string>, files: Files, now: int, n: nat)
    requires n < |plans| && plans[n].Err?
    requires forall j :: 0 <= j < n ==> plans[j].Ok?
    requires forall j, f :: 0 <= j < n ==> Execute(plans[j], templates, f).0 == Ok(plans[j].value.log)
    ensures Run(plans, templates, files, now).0 == Report(LogsFrom(plans[..n], 0), false, Some(plans[n].error), None)
  {
    RunFromStopsAt(plans, templates, 0, n, [], files);
  }

  /** The search step's plan is the `TypeError` when a published post's generated excerpt cuts a character. */
  lemma SearchStepFails(c: Content, o: Oracles, i: nat)
    requires i < |c.published| && BrokenExcerpt(o, c.published[i])
    ensures |Plans(c, o)| == 5 && Plans(c, o)[4] == Err(EncodeError)
  {
    assert Plans(c, o)[4] == Plan(c, o, SearchStep);
  }

  /** With a non-zero page size and the four templates, the four page steps report their entries. */
  lemma PageStepsSucceed(c: Content, o: Oracles, templates: set<string>)
    requires PerPage(c) != 0 && Templates <= templates
    ensures forall j :: 0 <= j < 4 ==> Plans(c, o)[j].Ok?
    ensures forall j, f :: 0 <= j < 4 ==> Execute(Plans(c, o)[j], templates, f).0 == Ok(Plans(c, o)[j].value.log)
  {
    var plans := Plans(c, o);
    PageStepsPlanned(c, o);
    forall j, f | 0 <= j < 4
      ensures Execute(plans[j], templates, f).0 == Ok(plans[j].value.log)
    {
      StepSucceeds(c, o, templates, Steps[j], f);
    }
  }

  /** The first four plans are the page steps', and with a non-zero page size none of them fails. */
  lemma PageStepsPlanned(c: Content, o: Oracles)
    requires PerPage(c) != 0
    ensures forall j :: 0 <= j < 4 ==> Steps[j] != SearchStep && Plans(c, o)[j] == Plan(c, o, Steps[j]) && Plans(c, o)[j].Ok?
  {
    PlanOk(c, o, IndexStep);
    PlanOk(c, o, PostsStep);
    PlanOk(c, o, CategoriesStep);
    PlanOk(c, o, TagsStep);
  }

  /** The entries of the four page steps, in order. */
  lemma PageStepLogs(c: Content, o: Oracles)
    requires PerPage(c) != 0
    ensures forall j :: 0 <= j < 4 ==> Plans(c, o)[j].Ok?
    ensures LogsFrom(Plans(c, o)[..4], 0) ==
      [Pages(TotalPages(|c.published|, PerPage(c))), Count(|c.published|), Count(|c.categories|), Count(|c.tags|)]
  {
    var plans := Plans(c, o);
    PageStepsPlanned(c, o);
    assert plans[0] == Plan(c, o, IndexStep);
    assert plans[1] == Plan(c, o, PostsStep);
    assert plans[2] == Plan(c, o, CategoriesStep);
    assert plans[3] == Plan(c, o, TagsStep);
    var head := plans[..4];
    assert LogsFrom(head, 3) == [head[3].value.log];
    assert LogsFrom(head, 2) == [head[2].value.log] + LogsFrom(head, 3);
    assert LogsFrom(head, 1) == [head[1].value.log] + LogsFrom(head, 2);
  }

  /** A zero page size stops the run at its first step, before anything is written. */
  lemma RunDividesByZero(c: Content, o: Oracles, templates: set<string>, files: Files, now: int)
    requires PerPage(c) == 0
    ensures Run(Plans(c, o), templates, files, now) == (Report([], false, Some(DivisionByZero), None), files)
  {
    RunFromAt(Plans(c, o), templates, 0, [], files);
  }

  /**
   * Every report is one of two shapes: all five entries, success and a
   * generation time; or the entries of the steps before the exception, its
   * message, failure and no generation time.
   */
  lemma {:induction false} RunFromShape(plans: seq<Result<Step>>, templates: set<string>, k: nat, done: seq<StepLog>, files: Files)
    requires k <= |plans|
    ensures var (r, es, _) := RunFrom(plans, templates, k, done, files);
      && |done| <= |es| && es[..|done|] == done
      && (r.Ok? ==> r.value == es && |es| == |done| + |plans| - k)
      && (r.Err? ==> |es| < |done| + |plans| - k)
    decreases |plans| - k
  {
    if k < |plans| {
      var (r, f) := Execute(plans[k], templates, files);
      if r.Ok? {
        RunFromShape(plans, templates, k + 1, done + [r.value], f);
        var es := RunFrom(plans, templates, k + 1, done + [r.value], f).1;
        assert es[..|done|] == es[..|done| + 1][..|done|];
      }
    }
  }

  lemma ReportShape(plans: seq<Result<Step>>, templates: set<string>, files: Files, now: int)
    ensures var log := Run(plans, templates, files, now).0;
      && log.Report?
      && (log.success <==> log.error.None?)
      && (log.success ==> |log.steps| == |plans| && log.generatedAt == Some(now))
      && (!log.success ==> |log.steps| < |plans| && log.generatedAt.None?)
  {
    RunFromShape(plans, templates, 0, [], files);
    var g := RunFrom(plans, templates, 0, [], files);
    assert g.0.Ok? ==> |g.1| == |plans|;
    assert g.0.Err? ==> |g.1| < |plans|;
  }
}
