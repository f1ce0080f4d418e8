# micro-blog-static, modelled in Dafny

micro-blog-static is a small PHP blog. An admin panel edits posts,
categories, tags, users, media and site options stored in SQLite, and a
generator writes the public site as static HTML pages plus a JSON search
index. Two browser scripts complete it. `admin.js` drives the editor:
theme switch, slug auto-fill, Markdown toolbar, tag picker. `main.js`
drives the public site: instant search and link prefetching.

This project models the rules behind that system and proves them:

- the entities: Post, Category, Tag, User, Media. Their slug normalisers,
  labels, the role/permission tables and the row round trips
  (`fromArray(toArray(e)) == e`);
- the services:
  - category materialised paths, including the recursive propagation of
    paths to descendants;
  - post status and publication date rules, tag association sync and
    delete cascades;
  - unique-slug counters;
  - the option cache and its value codecs;
  - the login rate limiter;
  - authentication guards;
  - media upload validation;
- static generation: pagination, the featured/regular split, prev/next
  navigation, excerpts, reading time, search records and the
  `generateAll` coordinator with its log and lock release;
- the admin middleware, and the controllers' form validators, data
  normalisation and "validate before write" orderings;
- the `.env` parser and `env()` coercion, front-controller path
  resolution, the migration runner's selection order and stop-on-failure
  rule, and the application boot sequence;
- the editor's slug, Markdown insertion and tag-list operations, and the
  public search filter, keyboard selection and prefetch set.

Each source file becomes one module.

- Database tables are maps keyed by id, held as fields of the service
  class that owns them.
- Pure PHP helpers and value classes become functions over datatypes.
- Code that changes state becomes a class whose methods carry `modifies`
  clauses. Their `ensures` state the new state in terms of the old one.
- Behaviour that depends on the outside world is a parameter: the clock,
  password hashing, MIME sniffing, `uniqid`, `date`, file system results
  and SQL success.
- PHP's loose typing is modelled by a `Php.Value` datatype. The shared
  runtime rules (truthiness, `trim`, integer/string conversion) are in
  `php.dfy`.

## Model

| member | source | states |
|---|---|---|
| Slugs.FoldChar | src/Entity/Post.php:110-116 | lower-casing plus the accent table: slug characters are kept, ASCII capitals become small letters |
| Slugs.Fold | src/Entity/Post.php:110-116 | the fold applied character by character, same length |
| Slugs.Dashify | src/Entity/Post.php:117 | every run of characters outside `[a-z0-9]` becomes one dash: the result is over `[a-z0-9-]` with no "--" |
| Slugs.Slugify | src/Entity/Post.php:108-120 | the slug pipeline always returns a well-formed slug: non-empty, `[a-z0-9-]` only, no dash at either end, no "--", never "0" |
| Slugs.SliceStaysInAlphabet | src/Entity/Post.php:118 | trimming dashes off a dash-collapsed string keeps it over `[a-z0-9-]` without "--" |
| Slugs.FoldKeeps | src/Entity/Post.php:110-116 | the fold leaves slug characters unchanged |
| Slugs.DashifyKeeps | src/Entity/Post.php:117 | the dash rule leaves a string over `[a-z0-9-]` without "--" unchanged |
| Slugs.SlugKeeps | src/Entity/Post.php:108-120 | a well-formed slug is its own slug |
| Slugs.SlugifyIdempotent | src/Entity/Post.php:108-120 | generating a slug from a generated slug changes nothing |
| Slugs.AccentsFoldToAEI | src/Entity/Post.php:111-113 | each listed accented a, e, i, in either case, folds to its base letter |
| Slugs.AccentsFoldToOUC | src/Entity/Post.php:114-116 | each listed accented o, u and the cedilla fold to their base letter |
| Slugs.DashifyOnlyDashes | src/Entity/Post.php:117 | a text with no `[a-z0-9]` character becomes dashes only |
| Slugs.NothingKeptFallsBack | src/Entity/Post.php:117-119 | a title in which no character folds to `[a-z0-9]` gets the fallback word |
| Slugs.GeneratedSlugMatchesPattern | src/Controller/AdminPostController.php:321-330 | every generated slug passes the forms' `^[a-z0-9-]+$` check |
| Slugs.Candidate | src/Service/PostService.php:249-261 | candidate 0 is the base, candidate k is the base, a dash and k |
| Slugs.CandidateInjective | src/Service/PostService.php:249-261 | different counters give different candidates |
| Slugs.UniqueSlug | src/Service/PostService.php:249-261 | the counter loop returns an unused candidate, and every earlier candidate was in use |
| PostEntity.FromArray | src/Entity/Post.php:52-74 | a missing id stays unset, a missing status reads as draft, a missing featured flag as false, tag ids are never read |
| PostEntity.ToArray | src/Entity/Post.php:79-103 | the row carries the status label next to the status |
| PostEntity.ToArrayStoresIdentity | src/Entity/Post.php:79-103 | the written row holds the id, slug and title |
| PostEntity.ToArrayStoresContent | src/Entity/Post.php:79-103 | the written row holds the content columns |
| PostEntity.ToArrayStoresPublication | src/Entity/Post.php:79-103 | the written row holds status, dates and author |
| PostEntity.ToArrayStoresExtras | src/Entity/Post.php:79-103 | the written row holds the remaining columns |
| PostEntity.FromArrayOfStored | src/Entity/Post.php:52-74 | any row holding a post's cells reads back as that post, without its tag ids |
| PostEntity.ArrayRoundTrip | src/Entity/Post.php:52-103 | reading back a written row gives the post again, except the tag ids |
| PostEntity.EmptyRowIsBlank | src/Entity/Post.php:24-43 | an empty row gives the constructor's defaults |
| PostEntity.GenerateSlug | src/Entity/Post.php:108-120 | a well-formed slug from the title, "article" as fallback |
| PostEntity.StatusLabel | src/Entity/Post.php:141-144 | the label of a known status, "Inconnu" exactly for unknown statuses |
| PostEntity.StatusClass | src/Entity/Post.php:149-157 | "success" exactly for published posts, "warning" exactly for drafts, "secondary" otherwise |
| CategoryEntity.FromArray | src/Entity/Category.php:32-46 | id and parent are set exactly when the row holds them, a missing depth reads as 0 |
| CategoryEntity.ToArray | src/Entity/Category.php:51-65 | the row has exactly the eight category columns |
| CategoryEntity.ArrayRoundTrip | src/Entity/Category.php:32-65 | reading back a written row gives the category again |
| CategoryEntity.GenerateSlug | src/Entity/Category.php:70-82 | a well-formed slug from the name, "category" as fallback |
| CategoryEntity.Indent | src/Entity/Category.php:97 | `str_repeat('— ', n)`: 2n characters alternating dash and space |
| CategoryEntity.IndentedName | src/Entity/Category.php:95-98 | one "— " per level of depth followed by the name; depth 0 gives the name alone |
| TagEntity.FromArray | src/Entity/Tag.php:28-38 | the id is set exactly when the row holds it, a missing slug reads as "" |
| TagEntity.ToArray | src/Entity/Tag.php:43-53 | the row has exactly the four tag columns |
| TagEntity.ArrayRoundTrip | src/Entity/Tag.php:28-53 | reading back a written row gives the tag again |
| TagEntity.GenerateSlug | src/Entity/Tag.php:58-70 | a well-formed slug from the name, "tag" as fallback |
| UserEntity.FromArray | src/Entity/User.php:89-102 | the id is always set (0 when missing), a missing role is ROLE_USER, a missing active flag is true, `password_hash` wins over `password` |
| UserEntity.ToArray | src/Entity/User.php:107-121 | the row carries the role label next to the role |
| UserEntity.ToArrayStores | src/Entity/User.php:107-121 | the written row holds every user field |
| UserEntity.FromArrayOfStored | src/Entity/User.php:89-102 | a row holding a user's cells reads back as that user, with a null id as 0 and the role upper-cased |
| UserEntity.ArrayRoundTrip | src/Entity/User.php:89-121 | the write-then-read round trip, with a null id as 0 and the role upper-cased |
| UserEntity.KnownRolesAreUpper | src/Entity/User.php:23-27 | the three roles are upper-case already |
| UserEntity.KnownRoleRoundTrip | src/Entity/User.php:89-121 | a user with an id and a known role survives the round trip unchanged |
| UserEntity.PermissionsOf | src/Entity/User.php:161-164 | an unknown role and ROLE_USER have no permissions |
| UserEntity.RoleLabel | src/Entity/User.php:169-172 | the label of a known role, "Inconnu" exactly for unknown roles |
| UserEntity.AdminHasRedactorPermissions | src/Entity/User.php:33-70 | every permission a redactor holds is also an administrator's |
| UserEntity.PermissionSeparation | src/Entity/User.php:33-70 | only administrators hold admin.access, user.delete and generate.run |
| UserEntity.RedactorEntersWithoutAdminAccess | src/Entity/User.php:142-145 | a redactor may enter the back office although it lacks the admin.access permission |
| MediaEntity.MaxSizeValue | src/Entity/Media.php:16 | the upload limit is 10 MiB (10485760 bytes) |
| MediaEntity.ImagesAreAllowed | src/Entity/Media.php:74-77 | every image type is allowed; PDF is the only allowed type that is not an image |
| MediaEntity.Url | src/Entity/Media.php:82-85 | the URL is "/uploads/" followed by the stored path |
| MediaEntity.SafeChars | src/Entity/Media.php:111 | each character outside `[A-Za-z0-9-]` becomes a dash, others are kept |
| MediaEntity.CollapseDashes | src/Entity/Media.php:112 | the result keeps the safe alphabet and has no "--" |
| MediaEntity.SafeStem | src/Entity/Media.php:109-112 | the sanitised stem is lower-case letters, digits and single dashes, with no dash at either end |
| MediaEntity.TrimStaysSafe | src/Entity/Media.php:112 | trimming dashes keeps the safe alphabet without "--" |
| MediaEntity.SliceStaysSafe | src/Entity/Media.php:112 | any piece of a safe string without "--" is one too |
| MediaEntity.LowerKeepsShape | src/Entity/Media.php:115 | lower-casing a trimmed safe string gives the stem shape |
| MediaEntity.GenerateFilename | src/Entity/Media.php:107-116 | the name is the safe stem, a dash, the unique id, a dot and the lower-cased extension |
| MediaEntity.BasenameOfPlainName | src/Entity/Media.php:110 | a name without a slash is its own base name |
| MediaEntity.ExtensionAfterLastDot | src/Entity/Media.php:109 | the extension of `head.ext` is `ext` |
| MediaEntity.ExtensionOfParts | src/Entity/Media.php:115 | a generated name reads back its lower-cased extension |
| MediaEntity.FilenameKeepsExtension | src/Entity/Media.php:107-116 | the generated name keeps the original extension, lower-cased; a name without one ends in "." |
| MediaEntity.Pow1024 | src/Entity/Media.php:96-99 | powers of 1024 are at least 1 |
| MediaEntity.Pow1024Values | src/Entity/Media.php:92 | 1024, 1048576 and 1073741824 are the Ko, Mo and Go factors |
| MediaEntity.ScaleStep | src/Entity/Media.php:97-98 | one division by 1024 with the unit growing 1024 times keeps the size |
| MediaEntity.UnitIndexFor | src/Entity/Media.php:96-99 | the unit is the largest k ≤ 3 with size ≥ 1024^k |
| MediaEntity.FormattedSizeParts | src/Entity/Media.php:90-102 | the loop picks the unit `UnitIndexFor(size)` and the scaled value times that unit's factor is the size |
| StaticPages.TotalPages | src/Service/StaticGenerator.php:78 | at least one page; with a positive page size, exactly enough pages to hold every post and no empty last page; no posts or a negative page size give one page |
| StaticPages.ArraySlice | src/Service/StaticGenerator.php:82 | `array_slice`: past the end it is empty; a non-negative length takes up to that many elements from the offset; a negative length stops that many elements before the end |
| StaticPages.PageHoldsItsOffsets | src/Service/StaticGenerator.php:80-82 | page k holds at most a page size of posts, and its j-th post is the post at offset (k-1)·size+j |
| StaticPages.PagedPrefix | src/Service/StaticGenerator.php:80-82 | the first k pages, put end to end, are the first k·size posts |
| StaticPages.PagesCoverPosts | src/Service/StaticGenerator.php:77-92 | all the pages together are exactly the published posts, in order: nothing is lost or repeated |
| StaticPages.PaginationFor | src/Service/StaticGenerator.php:205-213 | there is a pagination block exactly when there is more than one page |
| StaticPages.PaginationLinks | src/Service/StaticGenerator.php:205-213 | the block names the current page and the total; page 1 has no previous link, the last page no next link; otherwise they point at the neighbouring pages, page 1 being "/" |
| StaticPages.Featured | src/Service/StaticGenerator.php:215-228 | the featured block never holds more posts than the page (its content is stated by SplitBlocks and SplitFeatured) |
| StaticPages.Regular | src/Service/StaticGenerator.php:215-228 | the regular block never holds more posts than the page (its content is stated by SplitBlocks and SplitFeatured) |
| StaticPages.SplitStep | src/Service/StaticGenerator.php:219-228 | one more post goes to the featured block when it is featured and the page is page 1, otherwise to the regular block |
| StaticPages.SplitBlocks | src/Service/StaticGenerator.php:215-228 | the featured block holds only featured posts; on page 1 the regular block holds none; on any other page everything is regular |
| StaticPages.SplitFeatured | src/Service/StaticGenerator.php:215-228 | the two blocks together are a permutation of the page's posts: no post is dropped or duplicated |
| StaticPages.FirstWithId | src/Service/StaticGenerator.php:248-251 | the first position whose post has the given id, or none when no post has it |
| StaticPages.FirstOtherFrom | src/Service/StaticGenerator.php:252-256 | the first position from a start whose post has a different id, or none when all the rest share the id |
| StaticPages.NeighboursInList | src/Service/StaticGenerator.php:243-258 | when ids are distinct, a post's previous link is the post just before it and its next link the post just after it, none at either end |
| StaticPages.ReadingTime | src/Service/StaticGenerator.php:274-275 | at least one minute, and exactly the number of started 200-word blocks |
| StaticPages.Cards | src/Service/StaticGenerator.php:288-291 | the listing formats every post, one card per post, in order |
| StaticPages.CollapseSpace | src/Service/StaticGenerator.php:325 | replacing whitespace runs by one space leaves no two spaces in a row and no whitespace other than spaces |
| StaticPages.CutPoint | src/Service/StaticGenerator.php:332-336 | the cut is at the last space among the characters the first `length` bytes hold whole, or after those characters when there is none |
| StaticPages.Excerpt | src/Service/StaticGenerator.php:322-339 | an excerpt is never more than three characters longer than the cleaned text |
| StaticPages.ExcerptShape | src/Service/StaticGenerator.php:322-339 | a text of at most `length` bytes is its own excerpt; a longer one becomes a prefix of at most `length` bytes, cut before a space or, when the stretch has none, after the last character that fits, followed by "..." |
| StaticPages.SliceSingleSpaced | src/Service/StaticGenerator.php:325 | a piece of a single-spaced text is single-spaced |
| StaticPages.TrimSingleSpaced | src/Service/StaticGenerator.php:326 | trimming a single-spaced text leaves it single-spaced with no space at either end |
| StaticPages.WholeCharacterCut | src/Service/StaticGenerator.php:327-339 | when a long text's byte limit does not split a character, the cut falls before a space or exactly at the byte limit |
| StaticPages.ExcerptTextSpaces | src/Service/StaticGenerator.php:324-326 | the cleaned text an excerpt is taken from is single-spaced and has no space at either end |
| StaticGenerator.RenderError | src/Service/StaticGenerator.php:344-351 | rendering fails exactly when an HTML page names a template that does not exist, with the message "Template not found: " and the template's name |
| StaticGenerator.ApplyAllRendered | src/Service/StaticGenerator.php:367-377 | when every template exists, writing a step's files stores each output at its path, later writes replacing earlier ones |
| StaticGenerator.ApplyStopsAtFirstFailure | src/Service/StaticGenerator.php:344-351 | the first missing template stops the step with its error, after the files before it were written and none after it |
| StaticGenerator.WrittenLast | src/Service/StaticGenerator.php:367-377 | a file not written again later holds the content written to it |
| StaticGenerator.WrittenKeeps | src/Service/StaticGenerator.php:367-377 | a path the step does not write keeps its old content, or stays absent |
| StaticGenerator.ExecutePlanned | src/Service/StaticGenerator.php:72-198 | a step's result is its log when all its files were written, otherwise the rendering error, and the files are whatever was written before it |
| StaticGenerator.IndexPlan | src/Service/StaticGenerator.php:75-78 | the index step fails exactly when the page size is 0, where the page count divides by zero |
| StaticGenerator.IndexWriteAt | src/Service/StaticGenerator.php:80-92 | the index step writes "/index.html" from page 1 first, then "/page/k/index.html" for every page k, one more write than there are pages |
| StaticGenerator.CategoryRows | src/Service/StaticGenerator.php:138-141 | the categories page lists every category as its array form, in order |
| StaticGenerator.TagLinks | src/Service/StaticGenerator.php:167-170 | the tags page lists every tag as its id, name and slug, in order |
| StaticGenerator.RecordOf | src/Service/StaticGenerator.php:183-191 | a search record has the post's title and "/post/slug/" address, its own excerpt or else a 150-byte generated one, its rendered HTML with the tags stripped (empty without HTML) as content, and its tags or none |
| StaticGenerator.SearchRecords | src/Service/StaticGenerator.php:180-192 | one search record per published post, in order |
| StaticGenerator.SearchRecordAt | src/Service/StaticGenerator.php:183-191 | the i-th search record is the record of the i-th published post |
| StaticGenerator.SearchPlan | src/Service/StaticGenerator.php:178-198 | the search step fails with the `writeFile` type error exactly when some published post without its own excerpt gets a generated one that cuts a character in two (`json_encode` then returns false); otherwise it writes only "/search-index.json" and reports as many posts as are published |
| StaticGenerator.CollectRecords | src/Service/StaticGenerator.php:183-192 | the search index loop builds exactly the specified records, one per published post, in order |
| StaticGenerator.Plans | src/Service/StaticGenerator.php:48-52 | the five steps are planned in the order index, posts, categories, tags, search index |
| StaticGenerator.PlansFrom | src/Service/StaticGenerator.php:48-52 | the remaining steps from position k are planned in order |
| StaticGenerator.Plan | src/Service/StaticGenerator.php:72-198 | a step cannot be planned exactly when it is the index step with a page size of 0, failing with a division by zero, or the search step with an excerpt cut inside a character, failing with the `writeFile` type error |
| StaticGenerator.RunFrom | src/Service/StaticGenerator.php:48-52 | the logs already collected are kept as a prefix; on success every remaining step adds one log, and a failure stops before the last step |
| StaticGenerator.Run | src/Service/StaticGenerator.php:44-60 | the report succeeds exactly when it has no error and exactly when it carries the generation time; a success holds one log per step, a failure fewer |
| StaticGenerator.Generator.constructor | src/Service/StaticGenerator.php:21-31 | a generator starts with its content, oracles, templates and files, no lock held and no log saved |
| StaticGenerator.Generator.RenderAndWrite | src/Service/StaticGenerator.php:344-377 | a file is written with its rendered output when its template exists; otherwise nothing changes and the error is returned |
| StaticGenerator.Generator.PrepareIndexData | src/Service/StaticGenerator.php:203-236 | the loop that splits a page into featured and regular cards computes the index page data of the specification |
| StaticGenerator.Generator.FindNeighbours | src/Service/StaticGenerator.php:243-258 | the loop with its early exit finds the specified previous and next posts |
| StaticGenerator.Generator.PreparePostData | src/Service/StaticGenerator.php:241-283 | a post page's data is the post's array form with category, tags, reading time and neighbours |
| StaticGenerator.Generator.GenerateIndex | src/Service/StaticGenerator.php:72-95 | the page loop gives the index step's result and files |
| StaticGenerator.Generator.WriteIndexPages | src/Service/StaticGenerator.php:80-92 | the page loop performs the planned index writes in order, page 1 twice, and stops at the first page that fails to render, exactly as the specified step does |
| StaticGenerator.Generator.WriteAt | src/Service/StaticGenerator.php:86-89 | writing one planned page either ends the step with its rendering error or leaves the rest of the step to run |
| StaticGenerator.Generator.GeneratePosts | src/Service/StaticGenerator.php:100-114 | the post loop gives the posts step's result and files |
| StaticGenerator.Generator.GenerateCategories | src/Service/StaticGenerator.php:119-144 | the category loop and the list page give the categories step's result and files |
| StaticGenerator.Generator.GenerateTags | src/Service/StaticGenerator.php:149-173 | the tag loop and the list page give the tags step's result and files |
| StaticGenerator.Generator.GenerateSearchIndex | src/Service/StaticGenerator.php:178-198 | the search index step's result and files, including the type error that leaves the files untouched when an excerpt cuts a character |
| StaticGenerator.Generator.RunSteps | src/Service/StaticGenerator.php:44-58 | the steps run in order; the first failure stops the run, and the files keep what earlier steps wrote |
| StaticGenerator.Generator.AcquireLock | src/Service/StaticGenerator.php:392-418 | the lock is held exactly when acquiring it succeeded |
| StaticGenerator.Generator.ReleaseLock | src/Service/StaticGenerator.php:423-430 | after release no lock is held |
| StaticGenerator.Generator.SaveLog | src/Service/StaticGenerator.php:435-440 | one log entry with the time is appended |
| StaticGenerator.Generator.GenerateAll | src/Service/StaticGenerator.php:36-67 | with the lock taken by someone else nothing is written or logged and "already running" is returned; otherwise the steps run, the lock is always released and the report is logged |
| StaticGenerator.CardsAppend | src/Service/StaticGenerator.php:288-291 | formatting one more post adds its card at the end |
| StaticGenerator.CardsSplitStep | src/Service/StaticGenerator.php:219-228 | the card of one more post goes to the featured list when it is featured on page 1, otherwise to the regular list |
| StaticGenerator.RunFromAt | src/Service/StaticGenerator.php:44-58 | a failing step ends the run with its error; a succeeding one adds its log and goes on |
| StaticGenerator.PageKeyInjective | src/Service/StaticGenerator.php:89 | different page numbers are written to different files |
| StaticGenerator.PostKeyInjective | src/Service/StaticGenerator.php:109 | different slugs are written to different files |
| StaticGenerator.IndexPagesWritten | src/Service/StaticGenerator.php:72-95 | with the index template present, "/index.html" and every "/page/k/index.html" hold page k's rendering, and the step reports the page count |
| StaticGenerator.PostPagesWritten | src/Service/StaticGenerator.php:100-114 | each published post whose slug is not reused later has its page at "/post/slug/index.html", and the step counts every post |
| StaticGenerator.StepsRender | src/Service/StaticGenerator.php:344-351 | with the four templates present no write of a planned step fails to render |
| StaticGenerator.StepSucceeds | src/Service/StaticGenerator.php:48-52 | with the four templates present a planned step returns its log |
| StaticGenerator.RunSucceeds | src/Service/StaticGenerator.php:36-67 | with a non-zero page size, the four templates present and no generated excerpt cut inside a character, the run succeeds and reports the page count, the post, category and tag counts and the search index size, with the time |
| StaticGenerator.PlansSucceed | src/Service/StaticGenerator.php:48-52 | with a non-zero page size and no generated excerpt cut inside a character every step is planned and, with the four templates present, returns its log |
| StaticGenerator.PlansLogs | src/Service/StaticGenerator.php:48-52 | with a non-zero page size and no generated excerpt cut inside a character, the five step logs are the page count, the post, category and tag counts and the search statistics |
| StaticGenerator.LogsOfFive | src/Service/StaticGenerator.php:48-52 | the logs of five steps are those five logs in order |
| StaticGenerator.RunFromAllSucceed | src/Service/StaticGenerator.php:44-58 | when every remaining step succeeds their logs are all collected |
| StaticGenerator.RunAllSucceed | src/Service/StaticGenerator.php:54-55 | when every step succeeds the report is a success with all logs and the time |
| StaticGenerator.RunFromStopsAt | src/Service/StaticGenerator.php:44-58 | when the steps before an exception succeed, the run stops at it with their logs |
| StaticGenerator.RunStopsAt | src/Service/StaticGenerator.php:44-60 | a run whose steps before an exception succeed reports that exception after their logs, as a failure with no time |
| StaticGenerator.SearchStepFails | src/Service/StaticGenerator.php:188-195 | a published post whose generated excerpt cuts a character makes the search step the type error |
| StaticGenerator.PageStepsPlanned | src/Service/StaticGenerator.php:48-51 | with a non-zero page size the four page steps are planned |
| StaticGenerator.PageStepsSucceed | src/Service/StaticGenerator.php:48-51 | with a non-zero page size and the four templates present the four page steps return their logs |
| StaticGenerator.PageStepLogs | src/Service/StaticGenerator.php:48-51 | the four page step logs are the page count and the post, category and tag counts |
| StaticGenerator.RunFailsOnBrokenExcerpt | src/Service/StaticGenerator.php:44-60 | a published post whose generated excerpt cuts a character fails the run after the four page steps, reporting their logs, the type error and no time |
| StaticGenerator.RunDividesByZero | src/Service/StaticGenerator.php:56-58 | a page size of 0 fails the first step: no file is written and the report is a failure with the division error |
| StaticGenerator.RunFromShape | src/Service/StaticGenerator.php:44-58 | a run keeps the logs already collected; a success has one log per step, a failure fewer |
| StaticGenerator.ReportShape | src/Service/StaticGenerator.php:36-67 | a report succeeds exactly when it has no error; a success has one log per step and the time, a failure fewer logs and no time |
| CategoryService.LinksOf | src/Service/CategoryService.php:251-254 | the parent link of every stored category, for exactly the stored ids |
| CategoryService.BelowRank | src/Service/CategoryService.php:251-270 | in a tree ranked by depth, a descendant ranks strictly below its ancestor |
| CategoryService.BelowParent | src/Service/CategoryService.php:251-270 | a descendant has a parent, which is the ancestor or itself below it |
| CategoryService.BelowChild | src/Service/CategoryService.php:251-270 | a child's descendants, and the child itself, are below the parent |
| CategoryService.BelowTrans | src/Service/CategoryService.php:251-270 | whatever has a descendant of q as parent is a descendant of q |
| CategoryService.BranchIsChild | src/Service/CategoryService.php:257-268 | every descendant of q lies in the subtree of exactly one direct child of q, the one the recursion reaches it through |
| CategoryService.BranchOfChild | src/Service/CategoryService.php:257-268 | a node in a child's subtree is below q and is reached through that child |
| CategoryService.NotBelowItself | src/Service/CategoryService.php:251-270 | in a ranked tree no category is its own ancestor, so the recursion terminates |
| CategoryService.OnlyPathsKeepLinks | src/Service/CategoryService.php:264-267 | rewriting only paths and depths leaves every parent link unchanged |
| CategoryService.Hierarchy | src/Service/CategoryService.php:214-226 | a root gets an empty path and depth 0; a category with a stored parent gets the parent's depth plus one; with a missing parent nothing changes; no other field is touched |
| CategoryService.SlugsOf | src/Service/CategoryService.php:195-209 | the slugs in use, leaving out the excluded id |
| CategoryService.Service.constructor | src/Service/CategoryService.php:17-19 | the service starts over a well-formed table whose ids are below the next id |
| CategoryService.Service.FindById | src/Service/CategoryService.php:60-67 | the row with that id, or none exactly when there is none |
| CategoryService.Service.FindBySlug | src/Service/CategoryService.php:72-79 | a row with that slug exactly when one exists, the one with the smallest id |
| CategoryService.Service.SlugExistsIffUsed | src/Service/CategoryService.php:195-209 | the slug query answers yes exactly when another category holds the slug |
| CategoryService.Service.GenerateUniqueSlug | src/Service/CategoryService.php:178-190 | the counter loop returns an unused slug, the first of base, base-1, base-2, ... that is unused |
| CategoryService.Service.UpdatePath | src/Service/CategoryService.php:231-246 | the path becomes the id for a root or a missing parent, else the parent's path, '/' and the id; only that row's path is stored |
| CategoryService.Service.Create | src/Service/CategoryService.php:84-118 | the new row gets the next id, its own slug or a fresh unique one from its name, its parent's depth plus one and a path ending in its id; no other row changes |
| CategoryService.Service.UpdateChildrenPaths | src/Service/CategoryService.php:251-270 | the recursion gives every descendant of the parent its ancestor's path, '/' and its id, and one more depth per level, and leaves every other row alone |
| CategoryService.Service.Update | src/Service/CategoryService.php:123-151 | the row is stored with its recomputed depth and path; its descendants follow it; every other row keeps its content and every parent link is unchanged |
| CategoryService.Service.Delete | src/Service/CategoryService.php:156-161 | the row is removed and its children become roots, as ON DELETE SET NULL does; nothing else changes |
| CategoryService.DeleteKeepsRanked | src/Service/CategoryService.php:156-161 | deleting a category keeps the tree acyclic |
| CategoryService.ProgressStart | src/Service/CategoryService.php:257 | before the loop no child has been handled |
| CategoryService.ProgressDone | src/Service/CategoryService.php:257-268 | once every child is handled, the whole subtree has been rewritten |
| CategoryService.ChildStep | src/Service/CategoryService.php:258-267 | handling one more child (update, then recurse) extends the rewritten part by that child's subtree and keeps every link |
| CategoryService.InChildSubtree | src/Service/CategoryService.php:262-267 | a node under the child just handled now follows the parent's path and depth |
| CategoryService.OutsideChildSubtree | src/Service/CategoryService.php:258-267 | handling one child leaves the nodes already handled under other children as they were |
| CategoryService.FindAllForSelect | src/Service/CategoryService.php:41-55 | one option per category, in order, with its id, its name indented by depth and its depth |
| PostService.TagIdsOf | src/Service/PostService.php:219-224 | the tag ids linked to the post, exactly those |
| PostService.WithoutPost | src/Service/PostService.php:233-234 | the links of every other post, and only those |
| PostService.LinksFor | src/Service/PostService.php:237-242 | one link from the post to each given tag, in order |
| PostService.TagIdsOfAppend | src/Service/PostService.php:219-224 | the tag query distributes over the insertion order of links |
| PostService.TagIdsOfLinksFor | src/Service/PostService.php:219-242 | the links inserted for a post give back exactly its tag list and nothing for other posts |
| PostService.TagIdsOfWithoutPost | src/Service/PostService.php:219-234 | after the delete a post has no tags and every other post keeps its own |
| PostService.SyncedTagIds | src/Service/PostService.php:231-244 | after a sync the post's tags are exactly the given list, and every other post's tags are unchanged |
| PostService.NextPublishedAt | src/Service/PostService.php:138-142 | the publication date is kept unless the post goes from another status to published, when it becomes now; a date once set stays set |
| PostService.StaysPublishedKeepsDate | src/Service/PostService.php:138-142 | saving a published post again keeps its date |
| PostService.RepublishMovesDate | src/Service/PostService.php:138-142 | unpublishing keeps the old date, and publishing again replaces it with the new time |
| PostService.LastCount | src/Service/PostService.php:207-209 | the count of the last row for a status, or the default when no row has it |
| PostService.LastCountIsLast | src/Service/PostService.php:207-209 | later rows for a status overwrite earlier ones |
| PostService.GroupStatuses | src/Service/PostService.php:207-209 | the statuses that occur in the grouped rows |
| PostService.CountByStatus | src/Service/PostService.php:194-212 | the three known statuses are always present, plus every grouped status, each with its row count or 0 |
| PostService.GroupStep | src/Service/PostService.php:207-209 | one more grouped row adds its status with its count |
| PostService.CountsAreRowCounts | src/Service/PostService.php:196-199 | when the grouped rows come from GROUP BY, each count is the number of posts with that status |
| PostService.SlugsOf | src/Service/PostService.php:266-280 | the slugs in use, leaving out the excluded id |
| PostService.Service.constructor | src/Service/PostService.php:17-19 | the service starts over a well-formed table whose ids are below the next id |
| PostService.Service.TagIds | src/Service/PostService.php:219-224 | the tag ids linked to the post, exactly those |
| PostService.Service.FindById | src/Service/PostService.php:49-63 | the row with that id with its tag ids attached, or none exactly when there is none |
| PostService.Service.FindBySlug | src/Service/PostService.php:68-82 | a row with that slug exactly when one exists, the smallest id, with its tag ids attached |
| PostService.Service.SlugExistsIffUsed | src/Service/PostService.php:266-280 | the slug query answers yes exactly when another post holds the slug |
| PostService.Service.GenerateUniqueSlug | src/Service/PostService.php:249-261 | the counter loop returns an unused slug, the first of base, base-1, base-2, ... that is unused |
| PostService.Service.SyncTags | src/Service/PostService.php:231-244 | the post's old links are deleted and one link per given tag is added, other posts' links untouched |
| PostService.Service.CreationSlug | src/Service/PostService.php:89-91 | an empty slug is replaced by a fresh unique one from the title |
| PostService.Service.Create | src/Service/PostService.php:87-128 | the post gets the next id and a slug; a published post is dated now and a draft has no date; its tags are synced; no other row changes |
| PostService.Service.Update | src/Service/PostService.php:133-173 | the row takes the new fields but keeps its author and view count; its date follows NextPublishedAt; its tags are synced; a missing id changes no row |
| PostService.Service.Delete | src/Service/PostService.php:178-187 | the post and all its tag links are removed; nothing else changes |
| TagService.WithoutTag | src/Service/TagService.php:139-140 | the links of every other tag, and only those |
| TagService.PostCount | src/Service/TagService.php:151-158 | the number of links to the tag, 0 exactly when no post carries it |
| TagService.PostCountWithoutTag | src/Service/TagService.php:137-146 | after a delete no post carries the tag and every other tag keeps its count |
| TagService.NameLeTotal | src/Service/TagService.php:68 | any two names are ordered one way or the other |
| TagService.InsertByName | src/Service/TagService.php:68 | inserting a tag into a name-sorted list keeps it sorted and adds exactly that tag |
| TagService.SortByName | src/Service/TagService.php:68 | ORDER BY name: the result is sorted by name and a permutation of its input |
| TagService.JoinedTags | src/Service/TagService.php:65-69 | the join gives exactly the stored tags linked to the post |
| TagService.Summaries | src/Service/TagService.php:82-86 | one id, name and slug triple per tag, in order |
| TagService.SummariesOfJoin | src/Service/TagService.php:82-86 | the triples of the joined tags are exactly those of the tags linked to the post |
| TagService.SlugsOf | src/Service/TagService.php:180-194 | the slugs in use, leaving out the excluded id |
| TagService.Service.constructor | src/Service/TagService.php:17-19 | the service starts over a well-formed table whose ids are below the next id |
| TagService.Service.FindByPostId | src/Service/TagService.php:63-75 | the tags linked to the post, sorted by name, each exactly once per link |
| TagService.Service.FindByPost | src/Service/TagService.php:82-86 | id, name and slug of every tag of the post, sorted by name, and of no other tag |
| TagService.Service.CountPosts | src/Service/TagService.php:151-158 | 0 exactly when no post carries the tag |
| TagService.Service.FindById | src/Service/TagService.php:37-44 | the row with that id, or none exactly when there is none |
| TagService.Service.FindBySlug | src/Service/TagService.php:49-56 | a row with that slug exactly when one exists, the smallest id |
| TagService.Service.SlugExistsIffUsed | src/Service/TagService.php:180-194 | the slug query answers yes exactly when another tag holds the slug |
| TagService.Service.GenerateUniqueSlug | src/Service/TagService.php:163-175 | the counter loop returns an unused slug, the first of base, base-1, base-2, ... that is unused |
| TagService.Service.Create | src/Service/TagService.php:91-114 | the tag gets the next id and its own slug or a fresh unique one from its name; no other row changes |
| TagService.Service.Update | src/Service/TagService.php:119-132 | the row with the tag's id takes its name and slug; a missing id changes nothing |
| TagService.Service.Delete | src/Service/TagService.php:137-146 | the tag and all its post links are removed; nothing else changes |
| OptionService.DecodeNull | src/Service/OptionService.php:257-259 | a stored null decodes to null whatever the type |
| OptionService.EncodeValue | src/Service/OptionService.php:241-250 | a list is stored as its JSON text, a boolean as "1" or "0", an integer as its decimal text, a string as itself, null as the empty text |
| OptionService.DecodeValue | src/Service/OptionService.php:255-268 | null stays null; "boolean" is true exactly for "1" and "true"; "integer" gives a 64-bit integer; "json" gives the decoded JSON; every other type gives the raw text |
| OptionService.BooleanRoundTrip | src/Service/OptionService.php:241-268 | a boolean is stored as "1" or "0" and reads back as the same boolean |
| OptionService.IntegerRoundTrip | src/Service/OptionService.php:241-268 | a 64-bit integer reads back as the same integer |
| OptionService.TextRoundTrip | src/Service/OptionService.php:241-268 | a string is stored as itself and reads back unchanged for the text types |
| OptionService.UnknownTypeIsText | src/Service/OptionService.php:261-267 | any type other than boolean, integer and json reads back as the raw string |
| OptionService.BooleanText | src/Service/OptionService.php:262 | only "1" and "true" read as true: "yes" and "on" read as false |
| OptionService.EntryOf | src/Service/OptionService.php:191-202 | a loaded entry holds the decoded value, its type (string by default), its group (general by default) and its label (the key by default) |
| OptionService.FromRows | src/Service/OptionService.php:180-206 | one entry per stored row, keyed by the row's key |
| OptionService.Written | src/Service/OptionService.php:74-77 | the entry Set caches holds the new value and no group |
| OptionService.SetMovesToGeneral | src/Service/OptionService.php:74-77 | setting an option of another group makes it count as "general" in the cache until it is reloaded |
| OptionService.SetOn | src/Service/OptionService.php:53-80 | a cached key is updated, an unknown key is inserted, both storing the encoded value; inserting a key the table already has fails on the primary key; other rows are untouched |
| OptionService.Service.constructor | src/Service/OptionService.php:24-27 | a fresh service has an empty, unloaded cache |
| OptionService.Service.LoadFromDatabase | src/Service/OptionService.php:180-206 | the cache is built from the table and written to the file; without a table it is empty and the file stays |
| OptionService.Service.LoadCache | src/Service/OptionService.php:159-175 | after loading, the cache is what the file or the table gives |
| OptionService.Service.Get | src/Service/OptionService.php:36-45 | the cached value of the key, or the default when it is absent |
| OptionService.Service.Has | src/Service/OptionService.php:150-154 | whether the key is cached |
| OptionService.Service.Set | src/Service/OptionService.php:53-80 | on success the table holds the encoded value, the cache the new value and the file the new cache, and Get then returns the value |
| OptionService.Service.GetByGroup | src/Service/OptionService.php:88-100 | the values of exactly the options in the group, "general" for those without one |
| OptionService.Service.All | src/Service/OptionService.php:107-117 | every cached key with its value |
| OptionService.Service.Delete | src/Service/OptionService.php:135-142 | the key leaves the table, the cache and the file; other options are unchanged |
| OptionService.Service.ClearCache | src/Service/OptionService.php:227-236 | cache and file are dropped, so the next read reloads from the table |
| RateLimitService.BlockTimeRemaining | src/Service/RateLimitService.php:116-134 | never negative, and 0 when the key is not blocked |
| RateLimitService.Cleaned | src/Service/RateLimitService.php:195-206 | cleanup deletes exactly the rows whose last attempt is before the window and whose block is absent or over, and keeps the others unchanged |
| RateLimitService.CleanupKeepsBlocks | src/Service/RateLimitService.php:195-206 | cleanup never lifts a block still in force |
| RateLimitService.Recorded | src/Service/RateLimitService.php:63-71 | the upsert stamps the attempt time, counts one attempt for a new key or one more for a known one, keeps its block, and leaves other keys alone |
| RateLimitService.RecordedAttemptCounts | src/Service/RateLimitService.php:63-74 | with a local time ahead of the database clock by less than the window, the attempt just recorded is counted |
| RateLimitService.AheadZoneForgetsAttempts | src/Service/RateLimitService.php:63-74 | with a local time ahead of the database clock by the window or more, the attempt just recorded is not counted, so no number of failures ever blocks |
| RateLimitService.Service.constructor | src/Service/RateLimitService.php:25-30 | the service starts with 5 attempts per 15-minute window and 30-minute blocks |
| RateLimitService.Service.Cleanup | src/Service/RateLimitService.php:195-206 | the table becomes its cleaned form |
| RateLimitService.Service.IsBlocked | src/Service/RateLimitService.php:101-111 | true exactly when the key has a block ending after now |
| RateLimitService.Service.GetAttempts | src/Service/RateLimitService.php:139-152 | the key's attempts when its last attempt is inside the window, else 0 |
| RateLimitService.Service.IsAllowed | src/Service/RateLimitService.php:39-52 | after cleanup, allowed exactly when not blocked and fewer attempts than the maximum were counted; a blocked key is never allowed |
| RateLimitService.Service.Block | src/Service/RateLimitService.php:157-190 | the key's row is blocked until now plus the block duration, and one security log entry records the block |
| RateLimitService.AfterAttempt | src/Service/RateLimitService.php:61-82 | after a failed attempt the key's row counts one more attempt stamped now; when the counted attempts reach the maximum it is blocked until the block period ends, otherwise its block is kept; other keys are unchanged |
| RateLimitService.Service.RecordAttempt | src/Service/RateLimitService.php:61-82 | the table becomes its state after the attempt; the remaining count is the maximum minus the counted attempts, never below 0; reaching the maximum adds one block entry to the security log and nothing else is logged |
| RateLimitService.Service.Reset | src/Service/RateLimitService.php:90-96 | the key's row is deleted, so it is neither blocked nor has attempts |
| RateLimitService.Service.GetBlockTimeRemaining | src/Service/RateLimitService.php:116-134 | the seconds left of the key's block, 0 when there is none |
| RateLimitService.BlockHolds | src/Service/RateLimitService.php:157-168 | a block set now holds, survives cleanup and reports positive time left until it ends |
| AuthService.SignedOut | src/Service/AuthService.php:73-84 | logging out forgets the user id and role and keeps nothing else of the login |
| AuthService.ByEmail | src/Service/AuthService.php:162-169 | a stored user with that email, none exactly when no user has it |
| AuthService.LoginFailure | src/Service/AuthService.php:43-68 | a login succeeds exactly when the email belongs to an active user whose password hash verifies |
| AuthService.LoginFailureOrder | src/Service/AuthService.php:45-58 | an unknown email reports "not found", an inactive account "inactive", and a wrong password only for an active account |
| AuthService.Touched | src/Service/AuthService.php:186-190 | recording the login time keeps the same users |
| AuthService.Resolved | src/Service/AuthService.php:89-109 | without a cached user, the current user comes from the session's id and must be active; no session id means no user |
| AuthService.CreatedUserCanLogIn | src/Service/AuthService.php:217-242 | a user just created with a fresh email can log in with that password |
| AuthService.Service.constructor | src/Service/AuthService.php:20-26 | the service starts over a well-formed user table, with no cached user and no log |
| AuthService.Service.Login | src/Service/AuthService.php:43-68 | a failure changes nothing but logs "login_failed" with its reason; a success sets the session's user and role, records the login time and logs "login_success" |
| AuthService.Service.Logout | src/Service/AuthService.php:73-84 | the session is signed out and, when someone was logged in, a "logout" event is logged |
| AuthService.Service.GetCurrentUser | src/Service/AuthService.php:89-109 | the resolved current user, who is always active |
| AuthService.Service.IsAuthenticated | src/Service/AuthService.php:114-117 | true exactly when a current user resolves |
| AuthService.Service.HasPermission | src/Service/AuthService.php:122-126 | true exactly when a current user resolves and has the permission, and the cache, session and log are what getCurrentUser leaves: the user found is cached, and a session user who is gone or inactive is logged out |
| AuthService.Service.CanAccessAdmin | src/Service/AuthService.php:131-135 | true exactly when a current user resolves and may reach the back office, and the cache, session and log are what getCurrentUser leaves: the user found is cached, and a session user who is gone or inactive is logged out |
| AuthService.Service.IsAdmin | src/Service/AuthService.php:140-144 | true exactly when a current user resolves and is an administrator, and the cache, session and log are what getCurrentUser leaves: the user found is cached, and a session user who is gone or inactive is logged out |
| AuthService.Service.CreateUser | src/Service/AuthService.php:217-242 | the user is stored under the next id, active, with the hashed password and never logged in |
| AuthService.Service.UpdateUser | src/Service/AuthService.php:247-261 | name, email, upper-cased role and active flag are stored; password and the rest are kept; a missing id changes nothing |
| AuthService.Service.ChangePassword | src/Service/AuthService.php:266-272 | only the password hash of that user changes |
| AuthService.Service.DeleteUser | src/Service/AuthService.php:294-303 | deleting the current user is refused; any other id is removed |
| MediaService.UploadErrorMessage | src/Service/MediaService.php:187-199 | each known PHP upload error has its message, any other code the generic one |
| MediaService.ErrorMessagesDistinct | src/Service/MediaService.php:187-199 | different known errors give different messages |
| MediaService.Rejection | src/Service/MediaService.php:82-97 | an upload is accepted exactly when it was uploaded, without PHP error, within 10 MB and of an allowed type; otherwise the first failing check, in that order, gives the error |
| MediaService.NewMedia | src/Service/MediaService.php:100-142 | the stored record keeps the original name, type and size, gets a generated name under the month's directory and the uploader, and no alt text or title |
| MediaService.StoredMediaShape | src/Service/MediaService.php:79-145 | an accepted upload is of an allowed type, within the size limit, served under "/uploads/" and keeps the lower-cased extension of its original name |
| MediaService.UrlUnder | src/Entity/Media.php:82-85 | the public address is "/uploads/" and the stored path |
| MediaService.Images | src/Service/MediaService.php:47-57 | exactly the listed media that are images |
| MediaService.ImagesJoin | src/Service/MediaService.php:47-57 | the image filter keeps the listing order |
| MediaService.Updated | src/Service/MediaService.php:150-161 | only the alt text and title of that media change |
| MediaService.Service.constructor | src/Service/MediaService.php:19-27 | the upload directory is the project's "public/uploads" |
| MediaService.Service.FindById | src/Service/MediaService.php:62-69 | the row with that id, or none exactly when there is none |
| MediaService.Service.Upload | src/Service/MediaService.php:79-145 | a rejected or unmoved upload changes nothing and reports why; an accepted one stores its file and its record under the next id |
| MediaService.Service.Insert | src/Service/MediaService.php:113-144 | the moved file joins the stored files and its record is inserted under the next id, which then advances |
| MediaService.Service.Update | src/Service/MediaService.php:150-161 | the table becomes Updated's |
| MediaService.Service.Delete | src/Service/MediaService.php:166-182 | an unknown id fails and changes nothing; a known one removes its row and its file |
| MediaService.DeleteUndoesUpload | src/Service/MediaService.php:166-182 | deleting a media just stored gives back the table before the upload |
| Http.Redirect | src/Controller/AdminAuthController.php:27 | a redirect is a 302 with an empty body and one `Location` header naming the target |
| Http.RedirectInjective | src/Controller/AdminAuthController.php:53-70 | two redirects are the same response exactly when they go to the same place, so the different login errors stay distinguishable |
| Forms.TextOr | src/Controller/AdminPostController.php:250 | `$_POST[key] ?? default`: the posted text, or the default when the field is absent |
| Forms.Trimmed | src/Controller/AdminPostController.php:246-247 | the posted text trimmed, "" when absent: it neither starts nor ends with whitespace |
| Forms.OptionalId | src/Controller/AdminPostController.php:253 | an absent or falsy field gives no id; otherwise its integer value |
| Forms.IntField | src/Controller/AdminCategoryController.php:84 | `(int) ($_POST[key] ?? default)`: the integer value of the field, or the default |
| Forms.IntList | src/Controller/AdminPostController.php:257 | the integer value of each posted list item, in order; none when the field is absent |
| Forms.NullIfFalsy | src/Controller/AdminPostController.php:101 | `?: null`: no value exactly when the text is falsy, else the text |
| Forms.NullIfZero | src/Controller/AdminPostController.php:103 | `?: null` on an id: no id exactly when it is absent or 0 |
| Forms.LengthError | src/Controller/AdminPostController.php:311-315 | no error exactly when the text is present and at least `min` bytes long; an empty text is "required", a short one "too short" |
| Forms.SlugError | src/Controller/AdminPostController.php:321-330 | an empty slug is fine; otherwise it must match `^[a-z0-9-]+$` and belong to nobody else; a bad format is reported before a taken slug |
| Forms.NameAndSlugErrors | src/Controller/AdminCategoryController.php:273-298 | no error exactly when the name has at least 2 bytes and the slug passes; each error carries its field's message |
| Forms.With | src/Controller/AdminPostController.php:308-336 | adding an error sets that field's message and leaves the others |
| Forms.AccentsCountTwice | src/Controller/AdminPostController.php:313 | the length check counts bytes: two accented letters pass a minimum of three |
| AdminAuthMiddleware.ForbiddenMessageNamesCause | src/Middleware/AdminAuthMiddleware.php:85-87 | the 403 message names the missing permission when there is one, else the user's role |
| AdminAuthMiddleware.Forbidden | src/Middleware/AdminAuthMiddleware.php:57-61 | a refusal is a 403 served as HTML |
| AdminAuthMiddleware.Refusal | src/Middleware/AdminAuthMiddleware.php:56-71 | a role without back-office access is refused with the role message; a missing permission is refused with the permission message |
| AdminAuthMiddleware.GuardByRole | src/Middleware/AdminAuthMiddleware.php:56-71 | a plain user is never let in; an administrator is let in for any of the administrator's permissions |
| AdminAuthMiddleware.Middleware.constructor | src/Middleware/AdminAuthMiddleware.php:34-41 | the guard keeps its auth service, its required permission and its login address |
| AdminAuthMiddleware.Middleware.Process | src/Middleware/AdminAuthMiddleware.php:43-78 | the user cache, the session and the log are what looking up the current user leaves; no user: the requested address is saved as well and the client is sent to the login page; a user who may not enter gets the 403; otherwise the request goes on carrying the user |
| AdminAuthController.MinutesUp | src/Controller/AdminAuthController.php:52 | seconds rounded up to whole minutes |
| AdminAuthController.LoginForm | src/Controller/AdminAuthController.php:21-40 | a logged-in user is sent to "/admin"; anyone else gets the form; the cache, session and log are what getCurrentUser leaves |
| AdminAuthController.Logout | src/Controller/AdminAuthController.php:90-96 | the user is signed out and sent to the login page, and a "logout" event is logged exactly when a user was cached |
| AdminAuthController.Authenticate | src/Controller/AdminAuthController.php:56-86 | a missing field changes nothing and sends back with `error=empty`; a failed login records one more attempt (blocking the client when it reaches the maximum, with its log entry), logs `login_failed` with the reason and leaves the users and session alone; a successful password check stamps the user's last login and logs `login_success`; a role that may not enter is then signed out and logged out (`error=noaccess`); an admin clears the limiter, keeps the session's user and role and goes to the saved address, or "/admin" |
| AdminAuthController.Login | src/Controller/AdminAuthController.php:43-87 | a client over the rate limit is sent back with the minutes left and nothing else changes; otherwise the limiter's table is cleaned and the login proceeds, with every effect Authenticate states |
| AdminPostController.GetPostData | src/Controller/AdminPostController.php:242-259 | each field of the form read as the controller reads it: trimmed texts, a draft status by default, checkboxes by presence, ids as integers |
| AdminPostController.EmptySubmissionIsEmptyPost | src/Controller/AdminPostController.php:264-281 | an empty form reads as the empty post the form starts from |
| Forms.OwnerOf | src/Controller/AdminPostController.php:325-328 | whether the slug lookup found a row, and whose id it carries (the same check sits in AdminCategoryController.php:288-293 and AdminTagController.php:244-247) |
| AdminPostController.ValidatePost | src/Controller/AdminPostController.php:306-337 | no error exactly when the title has 3 bytes or more, there is content, the slug is empty or well-formed and free, and the status is known; each error carries its field's message |
| AdminPostController.AcceptedSlugIsFree | src/Controller/AdminPostController.php:321-330 | a slug the validator accepts is used by no other post |
| AdminPostController.FreshSlugKeepsDistinct | src/Controller/AdminPostController.php:321-330 | storing a post whose slug is free keeps all slugs distinct |
| AdminPostController.Store | src/Controller/AdminPostController.php:72-128 | an invalid form is shown again with its errors and nothing is stored; a valid one creates the post as its author's and redirects with a success message; slugs stay distinct |
| AdminPostController.Insert | src/Controller/AdminPostController.php:94-112 | the accepted post is inserted under the next id with its own slug or a fresh one, and slugs stay distinct |
| AdminPostController.Edit | src/Controller/AdminPostController.php:131-156 | an unknown id redirects with an error; a known one shows its post |
| AdminPostController.Update | src/Controller/AdminPostController.php:159-221 | an unknown id or an invalid form changes nothing; a valid form overwrites the post and redirects with a success message; slugs stay distinct |
| AdminPostController.Overwrite | src/Controller/AdminPostController.php:191-215 | the found post takes the form's fields and is stored, keeping slugs distinct |
| AdminPostController.Delete | src/Controller/AdminPostController.php:224-237 | the post and its tag links are removed and the list is shown with a success message |
| AdminCategoryController.ReadCategory | src/Controller/AdminCategoryController.php:80-84 | the category form read as the controller reads it: trimmed name, slug and description, an optional parent id, a sort order defaulting to 0 |
| AdminCategoryController.SelfParentOnly | src/Controller/AdminCategoryController.php:191-194 | as written, only the category itself is refused as its own parent (the current parent is kept instead); any other choice is taken as is |
| AdminCategoryController.ClimbsTo | src/Controller/AdminCategoryController.php:191-194 | walking up the parent links from a category reaches the target; a walk that starts at the target reaches it, one that starts nowhere does not |
| AdminCategoryController.BelowClimbs | src/Controller/AdminCategoryController.php:191-194 | every descendant of a category climbs up to it within as many steps as there are categories |
| AdminCategoryController.SafeParent | src/Controller/AdminCategoryController.php:191-194 | corrected rule: the chosen parent is taken unless it is the category itself or one of its descendants, when the current parent is kept |
| AdminCategoryController.ReparentKeepsRanked | src/Controller/AdminCategoryController.php:191-194 | giving a category a parent that is neither itself nor below it keeps the tree ranked |
| AdminCategoryController.SafeParentKeepsTree | src/Controller/AdminCategoryController.php:171-250 | with the corrected rule an update can never create a cycle in the category tree |
| AdminCategoryController.LoopHasNoRank | src/Controller/AdminCategoryController.php:191-194 | two categories that are each other's parent form a cycle |
| AdminCategoryController.ChildAsParentMakesLoop | src/Controller/AdminCategoryController.php:191-194 | as written, choosing a category's own child as its parent is accepted and makes a cycle; the corrected rule keeps the old parent |
| AdminCategoryController.StoredLinks | src/Service/CategoryService.php:123-151 | storing a category changes its own parent link and no other |
| AdminCategoryController.ParentOptions | src/Controller/AdminCategoryController.php:152-157 | the parent choices are every category except the one edited; with nothing to drop the list is returned as it is |
| AdminCategoryController.ParentOptionsJoin | src/Controller/AdminCategoryController.php:154-156 | `array_filter` keeps the order: filtering two lists one after the other gives the first list's choices, then the second's |
| AdminCategoryController.OwnParentLoops | src/Controller/AdminCategoryController.php:74-136 | a category that is its own parent is a cycle |
| AdminCategoryController.Insert | src/Controller/AdminCategoryController.php:105-115 | the accepted form becomes a new row under the next id and no other row changes; the row has the form's fields, the posted slug or the first free suffixed slug of the name, the posted parent unchecked, and the path and depth that parent gives; a parent equal to the new id is a cycle |
| AdminCategoryController.Store | src/Controller/AdminCategoryController.php:74-136 | an invalid form is shown again and nothing is stored; a valid one creates the category under the next id with its slug, parent, path and depth as `Insert` states, and redirects with a success message; a posted parent equal to that id makes the category its own parent, a cycle |
| AdminCategoryController.Edit | src/Controller/AdminCategoryController.php:139-168 | an unknown id redirects with an error; a known one shows the form with every other category as a possible parent |
| AdminCategoryController.Rewrite | src/Controller/AdminCategoryController.php:191-222 | the accepted edit stores the row with the parent the corrected rule keeps and its recomputed hierarchy; every row below it takes its parent's path and depth plus one level, every other row keeps its content, and the tree stays acyclic |
| AdminCategoryController.Update | src/Controller/AdminCategoryController.php:171-250 | an unknown id or an invalid form changes nothing; a valid form stores the category as `Rewrite` states (its descendants follow it, every other row is unchanged), and the tree stays acyclic |
| AdminCategoryController.Delete | src/Controller/AdminCategoryController.php:253-266 | the category is removed, its children become roots (parent null) and every other row keeps its content, a tree free of cycles stays so, and a success message is shown |
| AdminTagController.ReadTag | src/Controller/AdminTagController.php:75-77 | the tag form read as the controller reads it: trimmed name, slug and description |
| AdminTagController.AcceptedSlugIsFree | src/Controller/AdminTagController.php:241-250 | a slug the validator accepts is used by no other tag |
| AdminTagController.FreshSlugKeepsDistinct | src/Controller/AdminTagController.php:241-250 | storing a tag whose slug is free keeps all slugs distinct |
| AdminTagController.Store | src/Controller/AdminTagController.php:69-121 | an invalid form is shown again and nothing is stored; a valid one creates the tag under the next id with a free slug and redirects with a success message |
| AdminTagController.Edit | src/Controller/AdminTagController.php:123-146 | an unknown id redirects with an error; a known one shows its tag |
| AdminTagController.Update | src/Controller/AdminTagController.php:148-207 | an unknown id or an invalid form changes nothing; a valid form overwrites the tag; slugs stay distinct |
| AdminTagController.Delete | src/Controller/AdminTagController.php:209-223 | the tag and its post links are removed and a success message is shown |
| AdminUserController.Initial | src/Controller/AdminUserController.php:39 | the upper-cased first character of the name, or nothing for an empty name |
| AdminUserController.RoleClass | src/Controller/AdminUserController.php:40-44 | administrators are shown as "primary", editors as "info", anyone else as "secondary" |
| AdminUserController.Lines | src/Controller/AdminUserController.php:37-47 | one row per listed user, in order, with its initial and role class; every user but the viewer may be deleted |
| AdminUserController.RolesArray | src/Controller/AdminUserController.php:293-300 | one pair per role with its label, each role present |
| AdminUserController.ReadUser | src/Controller/AdminUserController.php:96-100 | the user form read as the controller reads it: trimmed name and email, raw password, the role with its default, the active checkbox by presence |
| AdminUserController.Submitted | src/Controller/AdminUserController.php:196-205 | on one's own account the role stays and the account stays active whatever was posted; on another account the form is read as is |
| AdminUserController.EmailError | src/Controller/AdminUserController.php:318-328 | no error exactly when the email is present, valid and not someone else's; missing before invalid before taken |
| AdminUserController.PasswordError | src/Controller/AdminUserController.php:331-335 | a new user needs a password; any password given needs 8 bytes or more |
| AdminUserController.ValidateUser | src/Controller/AdminUserController.php:307-342 | no error exactly when the name has 3 bytes or more, the email passes, the password passes and the role is known; each error carries its field's message |
| AdminUserController.PasswordRequiredForNewUsersOnly | src/Controller/AdminUserController.php:331-335 | a new user is only accepted with a password of 8 bytes or more, while an edit with an empty password is never refused for it |
| AdminUserController.AcceptedEmailIsFree | src/Controller/AdminUserController.php:318-328 | an email the validator accepts belongs to no other user |
| AdminUserController.Saved | src/Controller/AdminUserController.php:229-239 | the edited user takes the new name, email, upper-cased role and active flag, and a new password hash only when one was typed; no other user changes |
| AdminUserController.SelfEditKeepsAdminAccess | src/Controller/AdminUserController.php:202-205 | an administrator editing their own account stays an active administrator |
| AdminUserController.Insert | src/Controller/AdminUserController.php:118-126 | the new user is created, and set inactive when the box was unticked; emails stay distinct |
| AdminUserController.Overwrite | src/Controller/AdminUserController.php:229-239 | the user table becomes Saved's; emails stay distinct |
| AdminUserController.Index | src/Controller/AdminUserController.php:23-57 | a non-administrator is sent to "/admin" and sees nothing; an administrator gets the list rows |
| AdminUserController.Create | src/Controller/AdminUserController.php:60-84 | a non-administrator is sent to "/admin"; an administrator gets the empty form |
| AdminUserController.StoreValidated | src/Controller/AdminUserController.php:102-145 | an invalid form is shown again and nothing is stored; a valid one creates the user and redirects with a success message |
| AdminUserController.Store | src/Controller/AdminUserController.php:87-146 | only an administrator may create a user, with the form read with the default role "USER" and validated as above |
| AdminUserController.Edit | src/Controller/AdminUserController.php:149-175 | a non-administrator is sent away; an unknown id redirects with an error; a known one shows its user |
| AdminUserController.UpdateFound | src/Controller/AdminUserController.php:207-258 | an invalid form changes nothing; a valid one saves the user and redirects with a success message; emails stay distinct |
| AdminUserController.Update | src/Controller/AdminUserController.php:178-259 | only an administrator may update; an unknown id is reported; otherwise the submitted form (with the own-account rule) is validated and saved |
| AdminUserController.Delete | src/Controller/AdminUserController.php:262-286 | only an administrator may delete; deleting one's own account is refused; any other id is removed |
| AdminOptionsController.AllOptions | src/Controller/AdminOptionsController.php:198-199 | every option of every group, and nothing else |
| AdminOptionsController.KeysOf | src/Controller/AdminOptionsController.php:199 | the keys of the options, in order |
| AdminOptionsController.DefaultOptionsJoined | src/Controller/AdminOptionsController.php:24-123 | the default options are the general, SEO, social and blog groups in that order |
| AdminOptionsController.DefaultKeys | src/Controller/AdminOptionsController.php:24-123 | the seventeen option keys, in declaration order |
| AdminOptionsController.GroupKeys | src/Controller/AdminOptionsController.php:24-123 | the keys of each of the four groups |
| AdminOptionsController.DefaultKeysDistinct | src/Controller/AdminOptionsController.php:24-123 | no key is declared twice, and there are 17 |
| AdminOptionsController.Coerced | src/Controller/AdminOptionsController.php:200-212 | a boolean is true only when "1" was posted; an integer is the posted or default value as an integer; anything else is the posted or default text, trimmed |
| AdminOptionsController.SavedSnoc | src/Controller/AdminOptionsController.php:198-216 | saving one more option is one more set |
| AdminOptionsController.SetStep | src/Service/OptionService.php:53-80 | each set, once the table exists, stores the option's encoded value and leaves the other rows |
| AdminOptionsController.SavedRows | src/Controller/AdminOptionsController.php:198-216 | after the loop every saved option holds its coerced value and every other row is unchanged |
| AdminOptionsController.SaveWritesEveryOption | src/Controller/AdminOptionsController.php:186-223 | saving the page stores every default option's coerced value and touches no other option |
| AdminOptionsController.SavedValueReadsBack | src/Service/OptionService.php:241-268 | a coerced value stored under its declared type reads back unchanged |
| AdminOptionsController.InsertedBooleanReadsAsText | src/Service/OptionService.php:65-71 | a boolean option inserted for the first time has no type, so it reads back as the text "1" or "0" |
| AdminOptionsController.GroupCaption | src/Controller/AdminOptionsController.php:162 | a group's label, or its key when it has none |
| AdminOptionsController.OptionViews | src/Controller/AdminOptionsController.php:149-159 | each option is shown with its key, label, type, stored value or default, and description or "" |
| AdminOptionsController.GroupViews | src/Controller/AdminOptionsController.php:146-164 | one view per group, in order, with its label and its options |
| AdminOptionsController.ListAll | src/Controller/AdminOptionsController.php:146-164 | the views are built from the option values; the table is untouched |
| AdminOptionsController.SetEach | src/Controller/AdminOptionsController.php:199-215 | the inner loop sets each option of a group in turn |
| AdminOptionsController.SavedJoin | src/Controller/AdminOptionsController.php:198-216 | saving one list then another is saving both in order |
| AdminOptionsController.SetAll | src/Controller/AdminOptionsController.php:198-216 | the outer loop sets every option of every group in turn |
| AdminOptionsController.Index | src/Controller/AdminOptionsController.php:133-183 | a non-administrator is sent to "/admin" and nothing is read; an administrator sees every group with its values |
| AdminOptionsController.Save | src/Controller/AdminOptionsController.php:186-223 | a non-administrator is sent away and nothing changes; otherwise every option is saved, the cache is cleared and a success message is shown |
| Config.ParseLine | config/config.php:16-24 | a comment line or a line without '=' sets nothing; otherwise the key is the trimmed text before the first '=' and the value the trimmed rest |
| Config.SplitAtFirstEquals | config/config.php:20-22 | a line "key=value" with no '=' in the key gives back the trimmed key and the trimmed value, even when the value holds '=' |
| Config.FirstIndexOfAfter | config/config.php:21 | the first '=' of "key=value" is right after a key without '=' |
| Config.Apply | config/config.php:20-23 | a setting line stores its value under its key; every other key is unchanged |
| Config.Loaded | config/config.php:15-25 | applying the lines in order never loses a key, and every key added was set by one of the lines |
| Config.LastLineWins | config/config.php:16-25 | when a key is set several times, the last line that sets it wins |
| Config.UnsetKeyKept | config/config.php:16-25 | a key no line sets keeps its earlier value, or stays absent |
| Config.CommentSetsNothing | config/config.php:17-19 | a line starting with '#' after trimming sets no key |
| Config.Raw | config/config.php:33 | a key the loaded file set gives its value, or the default when that value is falsy ("" or "0"), without consulting the process environment; an unloaded key gives the process environment's value, or the default when it is missing or falsy |
| Config.ExponentAt | config/config.php:38 | the first 'e' or 'E' of the text, or none |
| Config.Coerce | config/config.php:35-40 | "true", "false" and "null" become those values; a numeric text becomes a float when it has a '.', and otherwise the integer `(int)` reads from it (so "1e3" becomes 1000); an integer default fails the strict-typed `str_contains`; anything else is returned as is |
| Php.StrToInt | config/config.php:38 | `(int)` of a text is always a 64-bit integer, and 0 when the text has no numeric prefix |
| Php.StrToIntFinite | config/config.php:38 | the numeric prefix of the text, when finite as a double, is truncated toward zero and saturated at the 64-bit bounds |
| Php.ScientificReadsScaled | config/config.php:38 | digits, "e" and digits with no decimal point read as the first number times ten to the second while that fits in 64 bits |
| Php.StrToIntRoundTrip | src/Service/OptionService.php:249-263 | `(int)` reads back every 64-bit integer from its decimal text |
| Config.Env | config/config.php:31-41 | with no truthy loaded or process value the coerced default is returned |
| Config.NumericChars | config/config.php:38 | a numeric text holds only digits, signs, '.', 'e', 'E' and surrounding whitespace |
| Config.MantissaChars | config/config.php:38 | a mantissa holds only digits and '.' |
| Config.NotNumeric | config/config.php:38 | a text with any other character is not numeric |
| Config.WordsAreCaseSensitive | config/config.php:35-37 | "True", "FALSE", "Null" and the like stay text |
| Config.ConfiguredPath | config/config.php:64-66 | a text setting gives the project root, '/', and the setting without its leading dots and slashes; any other setting gives no path |
| Config.PathStaysUnderRoot | config/config.php:64-66 | a configured path always starts with the root and '/', and never continues with '.' or '/' there, so "../" cannot climb out of the root |
| Config.AbsoluteSameAsRelative | config/config.php:79 | an absolute setting "/x" gives the same path as "x" |
| Config.Environment.constructor | config/config.php:31-33 | the environment starts from the loaded variables and the process environment |
| Config.Environment.Load | config/config.php:12-26 | without a .env file nothing changes; with one, its lines are applied in order to both the loaded variables and the process environment |
| Config.Environment.Read | config/config.php:31-41 | `env`: the coerced value of the key, the loaded value taking precedence |
| Config.LoadedLineReads | config/config.php:12-41 | after loading, reading a key gives the coerced value of the last line that set it, or the coerced default when that value is falsy |
| FrontController.PathOf | public/index.php:10 | the path is the request target up to its first '?' or '#' |
| FrontController.StaticFile | public/index.php:28-38 | a directory is looked up as its `index.html`; a name without an extension gets ".html"; any other name is looked up as it is |
| FrontController.HtmlHasExtension | public/index.php:36-37 | once ".html" is added the name has an extension |
| FrontController.IndexHasExtension | public/index.php:32 | a directory's `index.html` has an extension, so no second ".html" is added |
| FrontController.Route | public/index.php:9-75 | a path under "/admin" goes to the back office with the first six characters of the target cut off ("/" when nothing is left); "/assets/" is left to the server; a generated file is served; "/" without one shows the install page; anything else is a 404 |
| FrontController.ExtensionOf | public/index.php:36 | the extension of "head.ext" is "ext" |
| FrontController.LookupHasExtension | public/index.php:31-38 | whatever the path, the file looked up has an extension |
| Migrate.ReadFlags | bin/migrate.php:48-51 | each option is on exactly when one of its spellings is among the arguments |
| Migrate.BelowTotal | bin/migrate.php:121 | any two file names are ordered one way or the other |
| Migrate.BelowTransitive | bin/migrate.php:121 | the name order is transitive |
| Migrate.Insert | bin/migrate.php:138 | inserting a name into a sorted list keeps it sorted and adds exactly that name |
| Migrate.InsertFirst | bin/migrate.php:138 | a name below the head of a sorted list can go in front |
| Migrate.InsertAfter | bin/migrate.php:138 | a name above the head goes into the tail and the list stays sorted |
| Migrate.Sort | bin/migrate.php:137-138 | `sort($files)`: the result is sorted and a permutation of the files found |
| Migrate.Pending | bin/migrate.php:141-146 | the names still to run are never more than the files found (what they are is stated by PendingNames, PendingPrefix and PendingSnoc) |
| Migrate.Succeeded | bin/migrate.php:150-164 | the number of migrations run before the first failure: all before it succeeded and the next one, if any, failed |
| Migrate.StatusLines | bin/migrate.php:123-130 | one line per file, in order, with its name and whether it was already run |
| Migrate.Database.constructor | bin/migrate.php:108-115 | the database starts with its existence flag and the names it has recorded |
| Migrate.Database.RunMigrations | bin/migrate.php:137-165 | the pending migrations run in order until the first failure; each success is recorded; the failure, if any, names the migration that failed |
| Migrate.PendingSnoc | bin/migrate.php:141-146 | one more file adds its name to the pending list unless it was already run |
| Migrate.PendingNames | bin/migrate.php:141-146 | a pending name was never run, and every file not yet run is pending |
| Migrate.AllRecorded | bin/migrate.php:144-146 | when every file was run nothing is pending |
| Migrate.RerunFindsNothing | bin/migrate.php:141-171 | running the command again after a full success finds no migration to run |
| Migrate.PendingPrefix | bin/migrate.php:141-146 | pending names keep the sorted order of the files |
| Migrate.PendingGrows | bin/migrate.php:141-146 | the pending names of the first files are a prefix of all pending names |
| Migrate.SucceededAll | bin/migrate.php:150-159 | when every migration succeeds they are all counted |
| Migrate.SucceededAt | bin/migrate.php:160-164 | the count stops at the first failure |
| Migrate.RunSeeds | bin/migrate.php:174-195 | every seed runs, in order, and reports its own result: a failing seed does not stop the others |
| Migrate.Run | bin/migrate.php:47-198 | help changes nothing; `--fresh` starts from an empty database; `--status` lists the sorted migrations; otherwise the pending migrations run until the first failure, which is reported with the count so far; seeds run only with `--seed` and after a full success |
| AdminScript.NextTheme | public/assets/js/admin.js:26-27 | the next theme is light exactly when the current one is dark, and dark otherwise (including when no theme is set) |
| AdminScript.ThemeTogglesBack | public/assets/js/admin.js:24-34 | toggling a dark or light theme twice gives it back |
| AdminScript.ThemeSwitch.constructor | public/assets/js/admin.js:24-34 | the switch starts from the page's theme attribute and the stored preference |
| AdminScript.ThemeSwitch.Toggle | public/assets/js/admin.js:24-34 | a click sets the page theme to the next theme and stores that same value |
| AdminScript.Clean | public/assets/js/admin.js:273-276 | after accent folding and filtering, only slug characters and white space remain and nothing is added |
| AdminScript.GenerateSlug | public/assets/js/admin.js:271-280 | the editor's slug holds only lower-case letters, digits and dashes, with no two dashes in a row |
| AdminScript.CleanKeeps | public/assets/js/admin.js:273-276 | text already made of slug characters passes the filter unchanged |
| AdminScript.GenerateSlugKeeps | public/assets/js/admin.js:271-280 | a slug-alphabet text without double dashes is its own editor slug |
| AdminScript.GenerateSlugIdempotent | public/assets/js/admin.js:271-280 | generating the editor slug twice gives the same result as once |
| AdminScript.EditorSlugMayStartWithDash | public/assets/js/admin.js:271-280 | the editor keeps a leading dash (title "-a" gives "-a") where the server-side slugifier does not, so the two disagree |
| AdminScript.SlugField.constructor | public/assets/js/admin.js:250-259 | a slug field that already holds a value counts as edited by hand |
| AdminScript.SlugField.OnSlugInput | public/assets/js/admin.js:261-263 | typing in an editable slug field marks it as edited by hand and keeps the typed value |
| AdminScript.SlugField.OnTitleInput | public/assets/js/admin.js:265-268 | a title change rewrites the slug from the title only while the field is editable and untouched by hand; otherwise the slug stays |
| AdminScript.ButtonPrefixesNonEmpty | public/assets/js/admin.js:325-336 | every toolbar button that prefixes a line has a non-empty prefix |
| AdminScript.SearchBack | public/assets/js/admin.js:369 | the backward search returns the last occurrence at or before the position, or -1 when there is none |
| AdminScript.LastIndexFrom | public/assets/js/admin.js:369 | lastIndexOf clamps a negative start to 0 and returns the last occurrence at or before it, or -1 |
| AdminScript.LineStart | public/assets/js/admin.js:369 | the computed line start lies within the text |
| AdminScript.ApplyMarkdown | public/assets/js/admin.js:355-380 | wrapping grows the text by both markers and puts the cursor after the selection; prefixing grows it by the prefix and moves the cursor past it |
| AdminScript.WrapSurroundsSelection | public/assets/js/admin.js:364-366 | the selection ends up between the opening and closing markers, and removing the markers gives the original text back |
| AdminScript.PrefixAtLineHead | public/assets/js/admin.js:367-371 | the prefix is inserted at a line head with no line break between it and the cursor, and removing it gives the original text back |
| AdminScript.PrefixKeepsCursor | public/assets/js/admin.js:369-371 | unless the cursor sits at 0 before a leading line break, the text after the new cursor is the text that followed the old one |
| AdminScript.PrefixSkipsLeadingBreak | public/assets/js/admin.js:369-371 | for the text "\n" with the cursor at 0, the heading prefix lands after the line break and the cursor ends inside it |
| AdminScript.FixedLineStart | public/assets/js/admin.js:369 | the corrected line start lies within the text |
| AdminScript.ApplyPrefixFixed | public/assets/js/admin.js:367-371 | the corrected prefix action grows the text by the prefix and moves the cursor past it |
| AdminScript.FixedPrefixKeepsCursor | public/assets/js/admin.js:367-371 | with the corrected line start, the prefix goes at the head of the cursor's line and the text after the cursor is always preserved |
| AdminScript.Without | public/assets/js/admin.js:427 | removing a tag drops every copy of it and keeps every other tag |
| AdminScript.WithoutSplits | public/assets/js/admin.js:427 | removing a tag from a concatenation removes it from each part |
| AdminScript.WithoutAbsent | public/assets/js/admin.js:427 | removing a tag that is not selected changes nothing |
| AdminScript.AddThenRemove | public/assets/js/admin.js:419-430 | adding a new tag and then removing it gives the previous selection back |
| AdminScript.TagSelect.constructor | public/assets/js/admin.js:396-402 | the selection starts from the hidden field's list (empty when there is no field) and the field mirrors it |
| AdminScript.TagSelect.UpdateHiddenInput | public/assets/js/admin.js:446-450 | the hidden field, when present, is rewritten to the current selection |
| AdminScript.TagSelect.AddTag | public/assets/js/admin.js:419-424 | a non-empty tag not yet selected is appended; an empty or duplicate one is ignored; a selection without repeats keeps none |
| AdminScript.TagSelect.RemoveTag | public/assets/js/admin.js:426-430 | the selection loses every copy of the tag and the hidden field still mirrors it |
| AdminScript.TagSelect.OnEnter | public/assets/js/admin.js:411-417 | Enter adds the trimmed input as a tag under the same rules as AddTag |
| SiteScript.Filter | public/assets/js/main.js:97-99 | a record is kept exactly when the lower-cased query occurs in the lower-cased title, a space and the content, joined; no more records than the index holds |
| SiteScript.FilterSplits | public/assets/js/main.js:97-99 | filtering a concatenation filters each part in order |
| SiteScript.Search | public/assets/js/main.js:97-100 | the results are the first matching posts in index order, at most the display limit, and all of them when fewer match |
| SiteScript.EarlyMatchShown | public/assets/js/main.js:97-100 | a matching post preceded by fewer matches than the limit is shown |
| SiteScript.SearchBox.constructor | public/assets/js/main.js:48 | the box starts with no index, no results, hidden results and no highlighted item |
| SiteScript.SearchBox.PerformSearch | public/assets/js/main.js:79-103 | a short query hides the results; otherwise the index is loaded once and the shown results are the search over it; a failed load changes nothing |
| SiteScript.SearchBox.OnInput | public/assets/js/main.js:198-200 | typing resets the highlighted item |
| SiteScript.SearchBox.OnKey | public/assets/js/main.js:165-184 | arrows move the highlight within the list, Enter opens the highlighted result, Escape hides the results and clears the highlight, with no effect when there are no results |
| SiteScript.Prefetcher.constructor | public/assets/js/main.js:127 | nothing is prefetched at the start |
| SiteScript.Prefetcher.Prefetch | public/assets/js/main.js:129-137 | each address gets one prefetch hint, the first time it is asked for |
| SiteScript.Prefetcher.OnLinkEvent | public/assets/js/main.js:139-151 | only same-origin links that are not downloads are prefetched |
| BlogApp.Url | src/Service/BlogApp.php:116-119 | the url macro joins the site address without trailing slashes and the path without leading slashes through exactly one slash |
| BlogApp.UrlOfEmpty | src/Service/BlogApp.php:116-119 | the url of the empty path is the site address followed by one slash |
| BlogApp.LTrimSlashes | src/Service/BlogApp.php:118 | leading slashes are all stripped whatever their number |
| BlogApp.RTrimSlashes | src/Service/BlogApp.php:117 | trailing slashes are all stripped whatever their number |
| BlogApp.LeadingSlashesIgnored | src/Service/BlogApp.php:116-119 | extra leading slashes on the path do not change the url |
| BlogApp.TrailingSlashesIgnored | src/Service/BlogApp.php:116-119 | extra trailing slashes on the site address do not change the url |
| BlogApp.Asset | src/Service/BlogApp.php:122-124 | an asset address is "/assets/" followed by the path without its leading slashes |
| BlogApp.AssetIsUrl | src/Service/BlogApp.php:116-124 | the asset macro is the url macro over the base "/assets" |
| BlogApp.App.constructor | src/Service/BlogApp.php:25-30 | a new application has registered nothing |
| BlogApp.App.RegisterServices | src/Service/BlogApp.php:46-83 | the database, the option service and the template engine are registered, in that order |
| BlogApp.App.RegisterMiddlewares | src/Service/BlogApp.php:88-100 | the middleware stack is registered with security headers, session and CSRF, in that order |
| BlogApp.App.ConfigureTemplateEngine | src/Service/BlogApp.php:105-125 | the option, url and asset macros are registered |
| BlogApp.App.ConfigureRouter | src/Service/BlogApp.php:130-141 | the router is registered, and the admin controllers are scanned when their directory exists |
| BlogApp.App.Boot | src/Service/BlogApp.php:35-41 | booting registers the services, the middleware stack, the macros and the router, in that order |

## Left out

- Rendering: HTML templates, the template engine, the router internals and the DI container are not part of this model. The container appears only as the ordered log of what the application registers.
- SQL, PDO and SQLite are not modelled; tables are maps. Statements whose success the code does not check always succeed. Where the code branches on success (migrations, seeds), success is an input.
- Strings are sequences of characters. PHP's byte-oriented `strlen`/`substr` and JavaScript's UTF-16 lengths are modelled only where they change a result: `Php.ByteLength` counts UTF-8 bytes for the length checks of the forms and for the excerpt limit, and `Php.BytePrefix` counts the characters a byte limit keeps whole. A byte cut inside a character is modelled only as the fact that it happens (`StaticPages.CutsCharacter`), not as the invalid bytes it leaves.
- StaticPages.Excerpt: when the first `length` bytes hold no space and end inside a multi-byte character, `substr` keeps that character's leading bytes (invalid UTF-8) before the "..."; the model stops before the character, so its excerpt is shorter by those bytes. With a space in the stretch, or a cut on a character boundary, the two agree. In an HTML card the invalid bytes are not modelled. In the search index such an excerpt makes `json_encode` fail, and that failure is modelled: `StaticGenerator.SearchPlan` and `StaticGenerator.RunFailsOnBrokenExcerpt`.
- StaticGenerator.SearchPlan: the type error's message ends in PHP with ", called in <file> on line 195", which names the install path; the model's `EncodeError` stops before that suffix.
- Lower-casing and accent folding cover ASCII plus the accented letters the slug tables list. Unicode normalisation (`normalize('NFD')`) is approximated by that table.
- `strip_tags`, `str_word_count`, `json_encode`, `password_hash`/`password_verify`, `filter_var` e-mail checks, `mime_content_type`, `is_uploaded_file`, `move_uploaded_file`, `uniqid` and `date` are oracle parameters.
- Exceptions thrown by PDO or the file system, and the `try`/`catch` paths that only turn them into flash messages, are not modelled.
- A field posted as an array instead of a string, and PHP warnings and notices (for example `PostService.update` on a missing id reading properties of null), are not modelled.
- Floating point: a setting `env()` turns into a float is kept as its text. `ceil` and divisions are written as integer formulas for the non-negative operands the code uses.
- Php.StrToInt: PHP reads a numeral with a '.' or an exponent, or one too long for 64 bits, as a double and then truncates it; the model truncates the exact value. The two differ only where rounding to a double changes the integer part (above 2^53, or a fraction a hair below a whole number). Infinity giving 0 and saturation at the 64-bit bounds are modelled. Hexadecimal, octal and binary prefixes are not numerals for `(int)` and read as 0 in both.
- Directory creation (`mkdir`) and file permissions are not modelled.
- The `created_at` and `updated_at` columns of posts, categories, tags, media and users are not carried. The services fill them from PHP's clock (`date('Y-m-d H:i:s')`), so their values come from outside the model. The users' `last_login_at` and the options' `updated_at` are carried, as the integer `now` parameter.
- Listing order of `SELECT ... ORDER BY` queries and of `scandir`/`glob` results is an input.
- The install and 404 pages' HTML, and the content of the forbidden page, are not modelled; only the message choice is.
- The delete branches that the controllers make unreachable (deleting a missing row after the existence check) are not modelled separately.
- `listUsers` order is the table's listing order, given as an input.
- AdminUserController.Initial: the model takes the first character of the user name, where the source takes its first byte, so a name starting with a multi-byte letter differs.
- OptionService: a failing statement, which throws in the source, is the result `false` with the state left as the model states it.
- `parse_url` in the front controller is modelled as the part of the request URI before the first `?` or `#`.
- Config: `putenv` with an empty key (a `ValueError` in PHP) is not modelled. The `.env` file's content is an input. `ConfiguredPath` is stated for string settings only.
- StaticGenerator: `findPublished`, `findByCategory` and `findByTag`, which the generator calls (src/Service/StaticGenerator.php:76, 103, 125, 155 and 180), are not defined by src/Service/PostService.php and are not part of this model. Their results are inputs: `published`, `postsOfCategory` and `postsOfTag` of `StaticGenerator.Content`.
- StaticGenerator: the lock's `flock` and timeout are the single input `acquired`, which also stands for an `fopen` failure. Writing files does not model the directory creation of `writeFile`.
- Migrate:
  - SQL execution and seed success are the inputs `sqlOk` and `seedOk`; the partial effects of a failing script on the database are not modelled.
  - The effects of seeds on the database are not modelled.
  - Console output text is not modelled.
  - File names are compared by character code, as `sort` on ASCII paths does.
  - The exit on a PDO connection failure is not modelled, and neither is `mkdir`.
- BlogApp:
  - the container's factories are lazy in the source. The model registers services in the order `set` is called and builds the middleware stack at once.
  - The `option` macro delegates to `OptionService.Get` and is not restated.
- admin.js:
  - the DOM, Chart.js, image preview, the stub `fetchSuggestions`, debounce timers, modals and flash messages are not modelled.
  - `JSON.parse`/`JSON.stringify` of the hidden tag field are abstracted: the field holds the tag list itself.
  - A toolbar action with an empty prefix (JavaScript would insert "undefined") is not modelled; no button has one.
  - `ApplyMarkdown` takes the browser's guarantee that the selection start is not after its end as a precondition.
- main.js:
  - lower-casing is ASCII only, and lengths are counted in characters, not UTF-16 units.
  - A failed fetch of the search index is an absent value.
  - The debounce is left to the order in which the caller delivers events.
  - The mobile navigation, search toggle and view transitions only change the DOM and are not modelled.
  - Pressing Enter with a highlight beyond a shorter result list is the outcome `Missing`; in the browser it throws.
- Migrate.Pending: its ensures only bounds the length. What the selection means is stated by the lemmas beside it (`PendingNames` and the order lemmas).
- StaticPages.Featured: its ensures only bounds the length. The split is stated by `SplitBlocks`/`SplitFeatured`.
- StaticPages.Regular: its ensures only bounds the length. The split is stated by `SplitBlocks`/`SplitFeatured`.
- AdminScript.LineStart: its ensures only bounds the result. Its meaning is stated by `PrefixAtLineHead`.
- AdminScript.FixedLineStart: its ensures only bounds the result. Its meaning is stated by `FixedPrefixKeepsCursor`.
- AdminCategoryController.Update: the model stores the parent the corrected rule `SafeParent` keeps, not the one the source keeps (`SelfParentOnly`). As written, choosing a descendant as the parent is accepted, and `updateChildrenPaths` then recurses without end (see Findings); that run is not modelled.
- AdminCategoryController.Update: requires the category table to be free of cycles before the edit, so that the path rewrite ends. The source does not guarantee this: `store` accepts a parent id equal to the id the new row receives (see `Store`).
- CategoryService.Service.UpdateChildrenPaths: requires a ranking of the parent links of the whole table, so that the recursion provably ends. The source's recursion ends whenever the rows below the edited category form no loop, even when a loop sits elsewhere in the table; such a table is outside the model.
- CategoryService.Service.Update: requires the same whole-table ranking, taken after the row is written, for the same reason; an update in a table with a loop away from the edited category is not modelled.
- AdminCategoryController.ClimbsTo: the walk up the parent links is bounded by a step count (fuel). `SafeParent` passes the number of categories, which is enough in an acyclic table; a longer walk counts as reaching the category, so the current parent is kept.
- MediaEntity.FormattedSizeParts: returns the exact scaled value and the unit; the rounding to two decimals by `round($size, 2)` and PHP's float-to-string conversion (which drops trailing zeros, so 1536 bytes print as "1.5 Ko") are floating-point formatting and are not modelled.

## Findings

| source | as written | input that shows it | evidently intended | confidence | as-written member | corrected member |
|---|---|---|---|---|---|---|
| src/Service/RateLimitService.php:63-74 | attempts are stamped with SQLite's `datetime("now")`, which is UTC, but counted from a window start computed in PHP's local time zone | zone at least 15 minutes ahead of UTC (Europe/Paris is one or two hours ahead), any failed login: the stored attempt is before the window start and never counts, so the client is never blocked | stamps and window start in the same zone, so each recorded attempt counts within its window | not executed | RateLimitService.AheadZoneForgetsAttempts | RateLimitService.RecordedAttemptCounts |
| src/Controller/AdminCategoryController.php:191-194 | only choosing the category itself as parent is refused | category 1 is the parent of category 2; editing 1 with parent 2 makes 1 and 2 each other's parent | no category may be moved under itself or any of its descendants | not executed | AdminCategoryController.ChildAsParentMakesLoop | AdminCategoryController.SafeParentKeepsTree |
| public/assets/js/admin.js:369-371 | the line start is `lastIndexOf('\n', start - 1) + 1`; with the cursor at 0 the search start -1 is clamped to 0 | text "\n", cursor 0, heading button "## ": the prefix goes after the line break and the cursor lands inside it | the prefix goes at the head of the cursor's line and the cursor stays after the text it preceded | not executed | AdminScript.PrefixSkipsLeadingBreak | AdminScript.FixedPrefixKeepsCursor |
