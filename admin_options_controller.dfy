/**
 * The back office's site options page, open to administrators only: the
 * options it knows with their groups, types and defaults, the page that
 * lists their current values, and the form that saves them all.
 */
module AdminOptionsController {
  import opened Php
  import opened Forms
  import opened UserEntity
  import AuthService
  import OptionService

  const AdminUrl := "/admin"
  const OptionsUrl := "/admin/options"

  /** An option the page knows: its key, label, type, default value and help text. */
  datatype OptionMeta = OptionMeta(key: string, caption: string, kind: string, default: Value, description: Option<string>)

  /** A group of options, in page order. */
  datatype OptionGroup = OptionGroup(key: string, options: seq<OptionMeta>)

  const GeneralOptions: seq<OptionMeta> := [
    OptionMeta("site_title", "Titre du site", "string", VStr("Mon Blog"), None),
    OptionMeta("site_description", "Description du site", "text", VStr(""), Some("Description courte pour le SEO")),
    OptionMeta("site_url", "URL du site", "string", VStr("http://localhost"), None),
    OptionMeta("site_logo", "Logo du site", "image", VStr(""), None),
    OptionMeta("site_favicon", "Favicon", "image", VStr(""), None)]

  const SeoOptions: seq<OptionMeta> := [
    OptionMeta("meta_keywords", "Mots-clés par défaut", "string", VStr(""), Some("Séparés par des virgules")),
    OptionMeta("og_default_image", "Image Open Graph par défaut", "image", VStr(""), Some("Image utilisée pour le partage social")),
    OptionMeta("google_analytics", "ID Google Analytics", "string", VStr(""), Some("Ex: G-XXXXXXXXXX"))]

  const SocialOptions: seq<OptionMeta> := [
    OptionMeta("twitter_url", "URL Twitter/X", "string", VStr(""), None),
    OptionMeta("facebook_url", "URL Facebook", "string", VStr(""), None),
    OptionMeta("linkedin_url", "URL LinkedIn", "string", VStr(""), None),
    OptionMeta("github_url", "URL GitHub", "string", VStr(""), None)]

  const BlogOptions: seq<OptionMeta> := [
    OptionMeta("posts_per_page", "Articles par page", "integer", VInt(10), None),
    OptionMeta("excerpt_length", "Longueur des extraits", "integer", VInt(200), Some("Nombre de caractères")),
    OptionMeta("show_author", "Afficher l'auteur", "boolean", VBool(true), None),
    OptionMeta("show_date", "Afficher la date", "boolean", VBool(true), None),
    OptionMeta("enable_comments", "Activer les commentaires", "boolean", VBool(false), None)]

  /** `DEFAULT_OPTIONS`: the groups in page order. */
  const DefaultOptions: seq<OptionGroup> := [
    OptionGroup("general", GeneralOptions), OptionGroup("seo", SeoOptions),
    OptionGroup("social", SocialOptions), OptionGroup("blog", BlogOptions)]

  /** `GROUP_LABELS`. */
  const GroupLabels: map<string, string> :=
    map["general" := "Général", "seo" := "SEO", "social" := "Réseaux sociaux", "blog" := "Blog"]

  /** Every option of `groups`, group after group. */
  function AllOptions(groups: seq<OptionGroup>): (all: seq<OptionMeta>)
    ensures forall g, m :: g in groups && m in g.options ==> m in all
    ensures forall m :: m in all ==> exists g :: g in groups && m in g.options
  {
    if groups == [] then [] else AllOptions(groups[..|groups| - 1]) + groups[|groups| - 1].options
  }

  /** The keys of `options`, in order. */
  function KeysOf(options: seq<OptionMeta>): (keys: seq<string>)
    ensures |keys| == |options|
    ensures forall i :: 0 <= i < |options| ==> keys[i] == options[i].key
  {
    seq(|options|, i requires 0 <= i < |options| => options[i].key)
  }

  /** No key is listed twice. */
  predicate Distinct(keys: seq<string>)
  {
    forall i, j :: 0 <= i < j < |keys| ==> keys[i] != keys[j]
  }

  /** The options of the page, group after group. */
  lemma DefaultOptionsJoined()
    ensures AllOptions(DefaultOptions) == GeneralOptions + SeoOptions + SocialOptions + BlogOptions
  {
    var g := DefaultOptions;
    assert g[..1][..0] == [];
    assert AllOptions(g[..1]) == GeneralOptions;
    assert g[..2][..1] == g[..1];
    assert AllOptions(g[..2]) == GeneralOptions + SeoOptions;
    assert g[..3][..2] == g[..2];
    assert AllOptions(g[..3]) == GeneralOptions + SeoOptions + SocialOptions;
    assert g[..4][..3] == g[..3];
    assert g[..4] == g;
  }

  /** The keys of the page's options, in page order. */
  lemma DefaultKeys()
    ensures KeysOf(AllOptions(DefaultOptions)) ==
      ["site_title", "site_description", "site_url", "site_logo", "site_favicon",
       "meta_keywords", "og_default_image", "google_analytics",
       "twitter_url", "facebook_url", "linkedin_url", "github_url",
       "posts_per_page", "excerpt_length", "show_author", "show_date", "enable_comments"]
  {
    DefaultOptionsJoined();
    var all := GeneralOptions + SeoOptions + SocialOptions + BlogOptions;
    assert KeysOf(all) == KeysOf(GeneralOptions) + KeysOf(SeoOptions) + KeysOf(SocialOptions) + KeysOf(BlogOptions);
    GroupKeys();
  }

  /** The keys of each group, in order. */
  lemma GroupKeys()
    ensures KeysOf(GeneralOptions) == ["site_title", "site_description", "site_url", "site_logo", "site_favicon"]
    ensures KeysOf(SeoOptions) == ["meta_keywords", "og_default_image", "google_analytics"]
    ensures KeysOf(SocialOptions) == ["twitter_url", "facebook_url", "linkedin_url", "github_url"]
    ensures KeysOf(BlogOptions) == ["posts_per_page", "excerpt_length", "show_author", "show_date", "enable_comments"]
  {
  }

  /** The page knows each option once: no key is listed twice across the groups. */
  lemma DefaultKeysDistinct()
    ensures Distinct(KeysOf(AllOptions(DefaultOptions)))
    ensures |AllOptions(DefaultOptions)| == 17
  {
    DefaultKeys();
  }

  /**
   * The value `save` stores for an option: a boolean is true exactly when
   * the posted text is "1"; an integer is the integer cast of the posted
   * value, or of the default when nothing is posted; any other type is the
   * trimmed text of the posted value or of the default (a posted list
   * being the text "Array").
   */
  function Coerced(form: Form, meta: OptionMeta): (v: Value)
    ensures meta.kind == "boolean" ==> v == VBool(meta.key in form && form[meta.key] == Text("1"))
    ensures meta.kind == "integer" ==> v.VInt?
    ensures meta.kind == "integer" && meta.key !in form ==> v == VInt(ToInt(meta.default))
    ensures meta.kind == "integer" && meta.key in form && form[meta.key].Text? ==> v == VInt(StrToInt(form[meta.key].s))
    ensures meta.kind != "boolean" && meta.kind != "integer" ==>
      && v.VStr?
      && (meta.key !in form ==> v.s == Trim(ToStr(meta.default), TrimSpace))
      && (meta.key in form && form[meta.key].Text? ==> v.s == Trim(form[meta.key].s, TrimSpace))
  {
    match meta.kind
    case "boolean" => VBool(meta.key in form && form[meta.key] == Text("1"))
    case "integer" => VInt(IntField(form, meta.key, ToInt(meta.default)))
    case _ =>
      var text := if meta.key !in form then ToStr(meta.default)
                  else match form[meta.key]
                    case Text(s) => s
                    case List(_) => "Array";
      VStr(Trim(text, TrimSpace))
  }

  /** The table and the options seen, as `OptionService.SetOn` relates them. */
  type Options = (Option<map<string, OptionService.OptionRow>>, map<string, OptionService.Entry>)

  /** The table and the options seen after `set` of each of `options`, in order. */
  function Saved(json: OptionService.Json, start: Options, form: Form, options: seq<OptionMeta>, now: int): (r: Options)
  {
    if options == [] then start
    else
      var before := Saved(json, start, form, options[..|options| - 1], now);
      var meta := options[|options| - 1];
      OptionService.SetOn(json, before.0, before.1, meta.key, Coerced(form, meta), now)
  }

  /** Saving one more option is one more `set`. */
  lemma SavedSnoc(json: OptionService.Json, start: Options, form: Form, options: seq<OptionMeta>, meta: OptionMeta, now: int)
    ensures var before := Saved(json, start, form, options, now);
      Saved(json, start, form, options + [meta], now) == OptionService.SetOn(json, before.0, before.1, meta.key, Coerced(form, meta), now)
  {
    assert (options + [meta])[..|options|] == options;
  }

  /** The table has a row for exactly the keys seen. */
  predicate InStep(o: Options)
  {
    o.0.Some? && o.1.Keys == o.0.value.Keys
  }

  /** One `set` on a table in step with the options seen keeps them in step and writes its row. */
  lemma SetStep(json: OptionService.Json, o: Options, key: string, value: Value, now: int)
    requires InStep(o)
    ensures var r := OptionService.SetOn(json, o.0, o.1, key, value, now);
      && InStep(r)
      && key in r.0.value && r.0.value[key].value == Some(OptionService.EncodeValue(json, value))
      && forall k :: k != key ==> (k in r.0.value <==> k in o.0.value) && (k in o.0.value ==> r.0.value[k] == o.0.value[k])
  {
    var r := OptionService.SetOn(json, o.0, o.1, key, value, now);
    assert r.0.value.Keys == o.0.value.Keys + {key};
  }

  /**
   * When the table exists and has a row for exactly the options seen, each
   * option saved has a row holding the encoding of its coerced value, and
   * the rows of other keys are untouched.
   */
  lemma {:induction false} SavedRows(json: OptionService.Json, start: Options, form: Form, options: seq<OptionMeta>, now: int)
    requires InStep(start) && Distinct(KeysOf(options))
    ensures var r := Saved(json, start, form, options, now);
      && InStep(r)
      && (forall m :: m in options ==>
            m.key in r.0.value && r.0.value[m.key].value == Some(OptionService.EncodeValue(json, Coerced(form, m))))
      && (forall k :: k !in KeysOf(options) ==>
            (k in r.0.value <==> k in start.0.value) && (k in start.0.value ==> r.0.value[k] == start.0.value[k]))
  {
    if options != [] {
      var init := options[..|options| - 1];
      var meta := options[|options| - 1];
      assert options == init + [meta];
      SavedRows(json, start, form, init, now);
      SetStep(json, Saved(json, start, form, init, now), meta.key, Coerced(form, meta), now);
      assert KeysOf(options) == KeysOf(init) + [meta.key];
    }
  }

  /** Every option `save` knows gets a row with the encoding of its coerced value; other rows are kept. */
  lemma SaveWritesEveryOption(json: OptionService.Json, start: Options, form: Form, now: int)
    requires InStep(start)
    ensures var r := Saved(json, start, form, AllOptions(DefaultOptions), now);
      && InStep(r)
      && (forall g, m :: g in DefaultOptions && m in g.options ==>
            m.key in r.0.value && r.0.value[m.key].value == Some(OptionService.EncodeValue(json, Coerced(form, m))))
      && (forall k :: k !in KeysOf(AllOptions(DefaultOptions)) ==>
            (k in r.0.value <==> k in start.0.value) && (k in start.0.value ==> r.0.value[k] == start.0.value[k]))
  {
    DefaultKeysDistinct();
    SavedRows(json, start, form, AllOptions(DefaultOptions), now);
  }

  /**
   * A saved option whose row already has its own type reads back, after the
   * cache is cleared, as the value `save` coerced.
   */
  lemma SavedValueReadsBack(json: OptionService.Json, form: Form, meta: OptionMeta, row: OptionService.OptionRow)
    requires meta.kind in {"boolean", "integer", "string", "text", "image"}
    requires row.valueType == Some(meta.kind)
    requires meta.kind == "integer" ==> IsInt64(ToInt(meta.default))
    requires row.value == Some(OptionService.EncodeValue(json, Coerced(form, meta)))
    ensures OptionService.EntryOf(json, meta.key, row).value == Coerced(form, meta)
  {
    var v := Coerced(form, meta);
    if meta.kind == "boolean" {
      OptionService.BooleanRoundTrip(json, v.b);
    } else if meta.kind == "integer" {
      OptionService.IntegerRoundTrip(json, v.i);
    } else {
      OptionService.TextRoundTrip(json, v.s, meta.kind);
    }
  }

  /**
   * A boolean option `save` inserts (its row did not exist) gets no type,
   * so it reads back as the text "1" or "0" rather than as a boolean.
   */
  lemma InsertedBooleanReadsAsText(json: OptionService.Json, form: Form, meta: OptionMeta, row: OptionService.OptionRow)
    requires meta.kind == "boolean" && row.valueType.None?
    requires row.value == Some(OptionService.EncodeValue(json, Coerced(form, meta)))
    ensures OptionService.EntryOf(json, meta.key, row).value == VStr(if Coerced(form, meta).b then "1" else "0")
  {
    OptionService.BooleanRoundTrip(json, Coerced(form, meta).b);
  }

  /** An option as the page lists it. */
  datatype OptionView = OptionView(key: string, caption: string, kind: string, value: Value, description: string)

  /** A group as the page lists it. */
  datatype GroupView = GroupView(key: string, caption: string, options: seq<OptionView>)

  /** The label of a group: its entry in `GROUP_LABELS`, the key itself otherwise. */
  function GroupCaption(key: string): (caption: string)
    ensures key in GroupLabels ==> caption == GroupLabels[key]
    ensures key !in GroupLabels ==> caption == key
  {
    if key in GroupLabels then GroupLabels[key] else key
  }

  /** The listed options: each with its current value, its default when it has none. */
  function OptionViews(view: map<string, OptionService.Entry>, options: seq<OptionMeta>): (r: seq<OptionView>)
    ensures |r| == |options|
    ensures forall i :: 0 <= i < |options| ==>
      && r[i].key == options[i].key && r[i].caption == options[i].caption && r[i].kind == options[i].kind
      && r[i].value == OptionService.Lookup(view, options[i].key, options[i].default)
      && r[i].description == options[i].description.GetOr("")
  {
    if options == [] then []
    else
      var m := options[|options| - 1];
      OptionViews(view, options[..|options| - 1])
        + [OptionView(m.key, m.caption, m.kind, OptionService.Lookup(view, m.key, m.default), m.description.GetOr(""))]
  }

  /** The page's groups, in order. */
  function GroupViews(view: map<string, OptionService.Entry>, groups: seq<OptionGroup>): (r: seq<GroupView>)
    ensures |r| == |groups|
    ensures forall i :: 0 <= i < |groups| ==>
      r[i] == GroupView(groups[i].key, GroupCaption(groups[i].key), OptionViews(view, groups[i].options))
  {
    if groups == [] then []
    else
      var g := groups[|groups| - 1];
      GroupViews(view, groups[..|groups| - 1]) + [GroupView(g.key, GroupCaption(g.key), OptionViews(view, g.options))]
  }

  /** The user an action acts for may edit the options. */
  predicate AdminUser(me: Option<User>)
  {
    me.Some? && IsAdmin(me.value)
  }

  /** The loops of `index`: `get` of every option of `groups`, with its default. */
  method ListAll(options: OptionService.Service, groups: seq<OptionGroup>) returns (views: seq<GroupView>)
    requires options.Valid()
    modifies options`cache, options`loaded, options`file
    ensures options.Valid() && options.db == old(options.db)
    ensures views == GroupViews(old(options.View()), groups)
    ensures AllOptions(groups) == [] ==>
      options.cache == old(options.cache) && options.loaded == old(options.loaded) && options.file == old(options.file)
    ensures AllOptions(groups) != [] ==> options.Reloaded()
  {
    ghost var view := options.View();
    ghost var file := if !options.loaded && options.file.None? && options.db.Some? then Some(view) else options.file;
    ghost var read := false;
    views := [];
    for i := 0 to |groups|
      invariant options.Valid() && options.db == old(options.db) && options.View() == view
      invariant read ==> options.loaded && options.cache == view && options.file == file
      invariant !read ==> options.cache == old(options.cache) && options.loaded == old(options.loaded) && options.file == old(options.file)
      invariant read <==> AllOptions(groups[..i]) != []
      invariant views == GroupViews(view, groups[..i])
    {
      var group := groups[i];
      var listed: seq<OptionView> := [];
      for j := 0 to |group.options|
        invariant options.Valid() && options.db == old(options.db) && options.View() == view
        invariant read ==> options.loaded && options.cache == view && options.file == file
        invariant !read ==> options.cache == old(options.cache) && options.loaded == old(options.loaded) && options.file == old(options.file)
        invariant read <==> AllOptions(groups[..i]) + group.options[..j] != []
        invariant listed == OptionViews(view, group.options[..j])
      {
        var meta := group.options[j];
        var value := options.Get(meta.key, meta.default);
        read := true;
        listed := listed + [OptionView(meta.key, meta.caption, meta.kind, value, meta.description.GetOr(""))];
        assert group.options[..j + 1][..j] == group.options[..j];
      }
      assert group.options[..|group.options|] == group.options;
      views := views + [GroupView(group.key, GroupCaption(group.key), listed)];
      assert groups[..i + 1][..i] == groups[..i];
    }
    assert groups[..|groups|] == groups;
  }

  /** The inner loop of `save`: `set` of each of `metas`, in order, to its coerced value. */
  method SetEach(options: OptionService.Service, metas: seq<OptionMeta>, form: Form, now: int)
    requires options.Valid()
    modifies options`cache, options`loaded, options`file, options`db
    ensures options.Valid()
    ensures (options.db, options.View()) == Saved(options.json, (old(options.db), old(options.View())), form, metas, now)
  {
    ghost var start: Options := (options.db, options.View());
    for j := 0 to |metas|
      invariant options.Valid()
      invariant (options.db, options.View()) == Saved(options.json, start, form, metas[..j], now)
    {
      var _ := options.Set(metas[j].key, Coerced(form, metas[j]), now);
      assert metas[..j + 1] == metas[..j] + [metas[j]];
      SavedSnoc(options.json, start, form, metas[..j], metas[j], now);
    }
    assert metas[..|metas|] == metas;
  }

  /** Saving `a` then `b` is saving `a + b`. */
  lemma {:induction false} SavedJoin(json: OptionService.Json, start: Options, form: Form, a: seq<OptionMeta>, b: seq<OptionMeta>, now: int)
    ensures Saved(json, Saved(json, start, form, a, now), form, b, now) == Saved(json, start, form, a + b, now)
  {
    if b == [] {
      assert a + b == a;
    } else {
      var init := b[..|b| - 1];
      var meta := b[|b| - 1];
      SavedJoin(json, start, form, a, init, now);
      assert b == init + [meta];
      assert a + b == (a + init) + [meta];
      SavedSnoc(json, start, form, a + init, meta, now);
    }
  }

  /** The loops of `save`: `set` of every option of `groups`, group after group, to its coerced value. */
  method SetAll(options: OptionService.Service, groups: seq<OptionGroup>, form: Form, now: int)
    requires options.Valid()
    modifies options`cache, options`loaded, options`file, options`db
    ensures options.Valid()
    ensures (options.db, options.View()) == Saved(options.json, (old(options.db), old(options.View())), form, AllOptions(groups), now)
  {
    ghost var start: Options := (options.db, options.View());
    for i := 0 to |groups|
      invariant options.Valid()
      invariant (options.db, options.View()) == Saved(options.json, start, form, AllOptions(groups[..i]), now)
    {
      SetEach(options, groups[i].options, form, now);
      SavedJoin(options.json, start, form, AllOptions(groups[..i]), groups[i].options, now);
      assert groups[..i + 1][..i] == groups[..i];
    }
    assert groups[..|groups|] == groups;
  }

  /**
   * `index`: refused to a non-administrator, who reads no option; an
   * administrator gets every group with its label and every option with
   * its current value, the options being read as `get` reads them.
   */
  method Index(auth: AuthService.Service, options: OptionService.Service) returns (outcome: Outcome, groups: seq<GroupView>)
    requires auth.Valid() && options.Valid()
    modifies auth`current, auth`session, auth`logs, options`cache, options`loaded, options`file
    ensures auth.Valid() && options.Valid()
    ensures var me := AuthService.Resolved(old(auth.current), old(auth.session), old(auth.users));
      && AuthService.SessionResolved(old(auth.current), old(auth.session), old(auth.users), old(auth.logs), me,
                                      auth.current, auth.session, auth.logs)
      && (!AdminUser(me) ==>
            && outcome == Redirected(AdminUrl, None) && groups == []
            && options.cache == old(options.cache) && options.loaded == old(options.loaded) && options.file == old(options.file))
      && (AdminUser(me) ==>
            && outcome == FormShown(map[]) && groups == GroupViews(old(options.View()), DefaultOptions)
            && options.Reloaded())
  {
    var me := auth.GetCurrentUser();
    if !AdminUser(me) {
      return Redirected(AdminUrl, None), [];
    }
    DefaultKeysDistinct();
    groups := ListAll(options, DefaultOptions);
    outcome := FormShown(map[]);
  }

  /**
   * `save`: refused to a non-administrator, and no option is read or
   * written; otherwise every option is set, group after group, to its
   * coerced value, then the cache is cleared.
   */
  method Save(auth: AuthService.Service, options: OptionService.Service, form: Form, now: int) returns (outcome: Outcome)
    requires auth.Valid() && options.Valid()
    modifies auth`current, auth`session, auth`logs, options`cache, options`loaded, options`file, options`db
    ensures auth.Valid() && options.Valid()
    ensures var me := AuthService.Resolved(old(auth.current), old(auth.session), old(auth.users));
      && AuthService.SessionResolved(old(auth.current), old(auth.session), old(auth.users), old(auth.logs), me,
                                      auth.current, auth.session, auth.logs)
      && (!AdminUser(me) ==>
            && outcome == Redirected(AdminUrl, None)
            && options.db == old(options.db) && options.cache == old(options.cache)
            && options.loaded == old(options.loaded) && options.file == old(options.file))
      && (AdminUser(me) ==>
            && outcome == Redirected(OptionsUrl, Some(Success("Options enregistrées avec succès.")))
            && options.db == Saved(options.json, (old(options.db), old(options.View())), form, AllOptions(DefaultOptions), now).0
            && !options.loaded && options.cache == map[] && options.file.None?)
  {
    var me := auth.GetCurrentUser();
    if !AdminUser(me) {
      return Redirected(AdminUrl, None);
    }
    SetAll(options, DefaultOptions, form, now);
    options.ClearCache();
    outcome := Redirected(OptionsUrl, Some(Success("Options enregistrées avec succès.")));
  }
}
