/**
 * The back office's browser script: the theme switch, the slug typed for the
 * user while they type a title, the Markdown toolbar's text edits and the
 * tag picker that keeps a hidden form field in step with its list.
 */
module AdminScript {
  import opened Php
  import opened Slugs

  /** What `\s` matches in a JavaScript regular expression and `trim()` removes. */
  const JsSpace: set<char> := {
    ' ', '\t', '\n', '\U{0B}', '\U{0C}', '\r', '\U{A0}', '\U{1680}',
    '\U{2000}', '\U{2001}', '\U{2002}', '\U{2003}', '\U{2004}', '\U{2005}',
    '\U{2006}', '\U{2007}', '\U{2008}', '\U{2009}', '\U{200A}',
    '\U{2028}', '\U{2029}', '\U{202F}', '\U{205F}', '\U{3000}', '\U{FEFF}'}

  // ---------------------------------------------------------------- theme

  /** The theme a click switches to: "light" from "dark", "dark" from anything else. */
  function NextTheme(current: Option<string>): (next: string)
    ensures next == "light" <==> current == Some("dark")
    ensures next == "dark" <==> current != Some("dark")
  {
    if current == Some("dark") then "light" else "dark"
  }

  /** From either theme, two clicks come back to it. */
  lemma ThemeTogglesBack(theme: string)
    requires theme == "dark" || theme == "light"
    ensures NextTheme(Some(NextTheme(Some(theme)))) == theme
  {
    assert "light" != "dark";
  }

  /** The page's theme attribute and the theme kept in local storage. */
  class ThemeSwitch {
    var theme: Option<string>
    var stored: Option<string>

    constructor(theme0: Option<string>, stored0: Option<string>)
      ensures theme == theme0 && stored == stored0
    {
      theme := theme0;
      stored := stored0;
    }

    /** A click: the attribute and the stored theme both take the next theme. */
    method Toggle()
      modifies this
      ensures theme == Some(NextTheme(old(theme))) && stored == theme
    {
      var next := NextTheme(theme);
      theme := Some(next);
      stored := Some(next);
    }
  }

  // ---------------------------------------------------------------- slugs

  /**
   * Lower-casing, canonical decomposition and the removal of combining marks,
   * then the removal of everything outside `[a-z0-9\s-]`. Decomposing an
   * accented letter of the accent table and dropping its mark leaves its base
   * letter, which is what `FoldChar` gives; a lone combining mark is outside
   * the kept class and goes in the same step.
   */
  function Clean(s: string): (r: string)
    ensures |r| <= |s|
    ensures forall i :: 0 <= i < |r| ==> InSlugAlphabet(r[i]) || r[i] in JsSpace
    decreases |s|
  {
    if s == [] then []
    else
      var c := FoldChar(s[0]);
      (if InSlugAlphabet(c) || c in JsSpace then [c] else []) + Clean(s[1..])
  }

  /**
   * `generateSlug` of the editor: clean, trim the white space, then every run
   * of white space and dashes becomes one dash (`\s+` to "-", then `-+` to
   * "-"), which is the dash rule of the server-side slugs applied to what is
   * left.
   */
  function GenerateSlug(text: string): (slug: string)
    ensures AllInSlugAlphabet(slug) && NoDoubleDash(slug)
  {
    Dashify(Trim(Clean(text), JsSpace), false)
  }

  /** Characters of a slug are kept by the cleaning step. */
  lemma {:induction false} CleanKeeps(s: string)
    requires AllInSlugAlphabet(s)
    ensures Clean(s) == s
    decreases |s|
  {
    if s != [] {
      assert InSlugAlphabet(s[0]);
      CleanKeeps(s[1..]);
      assert s == [s[0]] + s[1..];
    }
  }

  /** A string over `[a-z0-9-]` without "--" is its own slug, dashes at its ends included. */
  lemma GenerateSlugKeeps(s: string)
    requires AllInSlugAlphabet(s) && NoDoubleDash(s)
    ensures GenerateSlug(s) == s
  {
    CleanKeeps(s);
    if |s| > 0 {
      assert InSlugAlphabet(s[0]) && InSlugAlphabet(s[|s| - 1]);
    }
    TrimKeeps(s, JsSpace);
    DashifyKeeps(s, false);
  }

  /** Generating a slug from a generated slug changes nothing. */
  lemma GenerateSlugIdempotent(text: string)
    ensures GenerateSlug(GenerateSlug(text)) == GenerateSlug(text)
  {
    GenerateSlugKeeps(GenerateSlug(text));
  }

  /**
   * Unlike the server's slug, the editor's may start with a dash: "-a" stays
   * "-a" here, while the server never returns it.
   */
  lemma EditorSlugMayStartWithDash(fallback: string)
    requires WellFormedSlug(fallback)
    ensures GenerateSlug("-a") == "-a"
    ensures Slugify("-a", fallback) != "-a"
  {
    GenerateSlugKeeps("-a");
  }

  /** The slug field of a form: its text and whether the user has taken it over. */
  class SlugField {
    /** Both fields exist and the slug is neither read-only nor disabled. */
    const active: bool
    var slug: string
    var userModified: bool

    /** A slug that starts non-empty counts as the user's. */
    constructor(active0: bool, initial: string)
      ensures active == active0 && slug == initial && userModified == (initial != "")
    {
      active := active0;
      slug := initial;
      userModified := initial != "";
    }

    /** The user types in the slug field: from then on the title no longer drives it. */
    method OnSlugInput(value: string)
      modifies this
      ensures slug == value && userModified == (old(userModified) || active)
    {
      slug := value;
      if active {
        userModified := true;
      }
    }

    /** The user types in the title: the slug follows until the user has taken it over. */
    method OnTitleInput(title: string)
      modifies this
      ensures userModified == old(userModified)
      ensures active && !userModified ==> slug == GenerateSlug(title)
      ensures !active || userModified ==> slug == old(slug)
    {
      if active && !userModified {
        slug := GenerateSlug(title);
      }
    }
  }

  // ---------------------------------------------------------------- Markdown toolbar

  /** What a toolbar button does: put text around the selection, or at the head of its line. */
  datatype Action = Wrap(before: string, after: string) | Prefix(prefix: string)

  datatype Button = Button(name: string, action: Action)

  const Buttons: seq<Button> := [
    Button("bold", Wrap("**", "**")),
    Button("italic", Wrap("*", "*")),
    Button("heading", Prefix("## ")),
    Button("link", Wrap("[", "](url)")),
    Button("image", Wrap("![alt](", ")")),
    Button("list", Prefix("- ")),
    Button("ordered-list", Prefix("1. ")),
    Button("code", Wrap("`", "`")),
    Button("codeblock", Wrap("```\n", "\n```")),
    Button("quote", Prefix("> "))]

  /** Every prefix button has a non-empty prefix, so the prefix branch is the one taken. */
  lemma ButtonPrefixesNonEmpty()
    ensures forall b :: b in Buttons && b.action.Prefix? ==> b.action.prefix != ""
  {
  }

  /** The last index at or below `i` holding `c`, or -1. */
  function SearchBack(text: string, c: char, i: int): (k: int)
    requires -1 <= i < |text|
    ensures -1 <= k <= i && (k >= 0 ==> text[k] == c)
    ensures forall j :: k < j <= i && 0 <= j ==> text[j] != c
    decreases i + 1
  {
    if i < 0 then -1 else if text[i] == c then i else SearchBack(text, c, i - 1)
  }

  /**
   * `text.lastIndexOf(c, from)`: a negative `from` counts as 0 and one past
   * the end as the last index, so index 0 is still looked at when `from` is -1.
   */
  function LastIndexFrom(text: string, c: char, from: int): (k: int)
    ensures -1 <= k < |text| && (k >= 0 ==> text[k] == c && k <= (if from < 0 then 0 else from))
    ensures forall j :: k < j < |text| && j <= from ==> text[j] != c
  {
    var i := if |text| == 0 then -1 else if from < 0 then 0 else if from >= |text| then |text| - 1 else from;
    SearchBack(text, c, i)
  }

  /** Where the prefix goes: just after the last line break before the cursor. */
  function LineStart(text: string, start: int): (ls: nat)
    ensures ls <= |text|
  {
    LastIndexFrom(text, '\n', start - 1) + 1
  }

  /** The new text of the editor and where its cursor goes. */
  datatype Edit = Edit(text: string, cursor: int)

  /**
   * `applyMarkdown`: a wrap puts its two pieces around the selection and the
   * cursor just before the closing piece; a prefix goes at the head of the
   * cursor's line and the cursor moves by its length.
   */
  function ApplyMarkdown(text: string, start: nat, end: nat, action: Action): (e: Edit)
    requires start <= end <= |text|
    ensures action.Wrap? ==> |e.text| == |text| + |action.before| + |action.after|
    ensures action.Wrap? ==> e.cursor == start + |action.before| + (end - start)
    ensures action.Prefix? ==> |e.text| == |text| + |action.prefix| && e.cursor == start + |action.prefix|
  {
    match action
    case Wrap(before, after) =>
      Edit(text[..start] + before + text[start..end] + after + text[end..], start + |before| + (end - start))
    case Prefix(prefix) =>
      var ls := LineStart(text, start);
      Edit(text[..ls] + prefix + text[ls..], start + |prefix|)
  }

  /** A wrap leaves the selection between its two pieces with the cursor at its end, and removing them gives the old text back. */
  lemma WrapSurroundsSelection(text: string, start: nat, end: nat, before: string, after: string)
    requires start <= end <= |text|
    ensures var e := ApplyMarkdown(text, start, end, Wrap(before, after));
      var open := start + |before|;
      && e.text[start..open] == before
      && e.text[open..e.cursor] == text[start..end]
      && e.text[e.cursor..e.cursor + |after|] == after
      && e.text[..start] + e.text[open..e.cursor] + e.text[e.cursor + |after|..] == text
  {
    var e := ApplyMarkdown(text, start, end, Wrap(before, after));
    var open := start + |before|;
    var t := text[..start] + before + text[start..end] + after + text[end..];
    assert e.text == t;
    assert t[..start] == text[..start];
    assert t[start..open] == before;
    assert t[open..e.cursor] == text[start..end];
    assert t[e.cursor..e.cursor + |after|] == after;
    assert t[e.cursor + |after|..] == text[end..];
    assert text[..start] + text[start..end] + text[end..] == text;
  }

  /**
   * A prefix lands at the head of a line: at the start of the text or just
   * after a line break, with no line break between it and the cursor, and
   * removing it gives the old text back.
   */
  lemma PrefixAtLineHead(text: string, start: nat, end: nat, prefix: string)
    requires start <= end <= |text|
    ensures var ls := LineStart(text, start);
      var e := ApplyMarkdown(text, start, end, Prefix(prefix));
      && (ls == 0 || text[ls - 1] == '\n')
      && (forall j :: ls <= j < start ==> text[j] != '\n')
      && e.text[ls..ls + |prefix|] == prefix
      && e.text[..ls] + e.text[ls + |prefix|..] == text
  {
    var ls := LineStart(text, start);
    var t := text[..ls] + prefix + text[ls..];
    assert t[..ls] == text[..ls] && t[ls..ls + |prefix|] == prefix && t[ls + |prefix|..] == text[ls..];
    assert text[..ls] + text[ls..] == text;
  }

  /**
   * The cursor stays before the same text when the prefix goes in before it:
   * whenever the cursor is not at 0 in front of a leading line break.
   */
  lemma PrefixKeepsCursor(text: string, start: nat, end: nat, prefix: string)
    requires start <= end <= |text|
    requires start > 0 || |text| == 0 || text[0] != '\n'
    ensures LineStart(text, start) <= start
    ensures var e := ApplyMarkdown(text, start, end, Prefix(prefix));
      e.text[e.cursor..] == text[start..]
  {
    var ls := LineStart(text, start);
    var t := text[..ls] + prefix + text[ls..];
    assert t[ls + |prefix|..] == text[ls..];
    assert t[start + |prefix|..] == t[ls + |prefix|..][start - ls..];
  }

  /**
   * With the cursor at 0 in front of a leading line break, the prefix goes
   * after that break, on the second line, and the cursor ends inside the
   * prefix: "\n" with "## " gives "\n## " with the cursor before the last space.
   */
  lemma PrefixSkipsLeadingBreak()
    ensures LineStart("\n", 0) == 1
    ensures ApplyMarkdown("\n", 0, 0, Prefix("## ")) == Edit("\n## ", 3)
    ensures "\n## "[3..] != "\n"[0..]
  {
    assert SearchBack("\n", '\n', 0) == 0;
  }

  /** The head of the cursor's line with a cursor at 0 taken as the start of the text. */
  function FixedLineStart(text: string, start: int): (ls: nat)
    ensures ls <= |text|
  {
    if start <= 0 then 0 else LineStart(text, start)
  }

  /** The prefix edit with the line head taken from `FixedLineStart`. */
  function ApplyPrefixFixed(text: string, start: nat, prefix: string): (e: Edit)
    requires start <= |text|
    ensures |e.text| == |text| + |prefix| && e.cursor == start + |prefix|
  {
    var ls := FixedLineStart(text, start);
    Edit(text[..ls] + prefix + text[ls..], start + |prefix|)
  }

  /**
   * The corrected prefix edit always lands at the head of the cursor's line,
   * removing it gives the old text back, and the cursor stays before the
   * same text.
   */
  lemma FixedPrefixKeepsCursor(text: string, start: nat, prefix: string)
    requires start <= |text|
    ensures var ls := FixedLineStart(text, start);
      var e := ApplyPrefixFixed(text, start, prefix);
      && ls <= start
      && (ls == 0 || text[ls - 1] == '\n')
      && (forall j :: ls <= j < start ==> text[j] != '\n')
      && e.text[..ls] + e.text[ls + |prefix|..] == text
      && e.text[e.cursor..] == text[start..]
  {
    FixedLineHead(text, start);
    InsertBefore(text, FixedLineStart(text, start), start, prefix);
  }

  /** The corrected line start is at or before the cursor, at the head of its line. */
  lemma FixedLineHead(text: string, start: nat)
    requires start <= |text|
    ensures var ls := FixedLineStart(text, start);
      && ls <= start
      && (ls == 0 || text[ls - 1] == '\n')
      && (forall j :: ls <= j < start ==> text[j] != '\n')
  {
  }

  /** Text inserted at `ls` can be taken out again and leaves what follows a later position in place. */
  lemma InsertBefore(text: string, ls: nat, start: nat, prefix: string)
    requires ls <= start <= |text|
    ensures var t := text[..ls] + prefix + text[ls..];
      && t[..ls] + t[ls + |prefix|..] == text
      && t[start + |prefix|..] == text[start..]
  {
    var t := text[..ls] + prefix + text[ls..];
    assert t[..ls] == text[..ls] && t[ls + |prefix|..] == text[ls..];
    assert text[..ls] + text[ls..] == text;
    assert t[start + |prefix|..] == t[ls + |prefix|..][start - ls..];
  }

  // ---------------------------------------------------------------- tag picker

  /** `tags.filter(t => t !== tag)`. */
  function Without(tags: seq<string>, tag: string): (r: seq<string>)
    ensures |r| <= |tags| && tag !in r
    ensures forall t :: t != tag ==> (t in r <==> t in tags)
  {
    if tags == [] then []
    else Without(tags[..|tags| - 1], tag) + (if tags[|tags| - 1] == tag then [] else [tags[|tags| - 1]])
  }

  /** Removing a tag keeps the others in their order: it distributes over concatenation. */
  lemma {:induction false} WithoutSplits(a: seq<string>, b: seq<string>, tag: string)
    ensures Without(a + b, tag) == Without(a, tag) + Without(b, tag)
    decreases |b|
  {
    if b != [] {
      var last := b[|b| - 1];
      assert (a + b)[..|a + b| - 1] == a + b[..|b| - 1];
      WithoutSplits(a, b[..|b| - 1], tag);
    } else {
      assert a + b == a;
    }
  }

  /** Removing a tag that is not there changes nothing. */
  lemma {:induction false} WithoutAbsent(tags: seq<string>, tag: string)
    requires tag !in tags
    ensures Without(tags, tag) == tags
  {
    if tags != [] {
      assert tags[..|tags| - 1] + [tags[|tags| - 1]] == tags;
      WithoutAbsent(tags[..|tags| - 1], tag);
    }
  }

  /** Adding a new tag and removing it again gives the list back. */
  lemma AddThenRemove(tags: seq<string>, tag: string)
    requires tag !in tags
    ensures Without(tags + [tag], tag) == tags
  {
    WithoutSplits(tags, [tag], tag);
    WithoutAbsent(tags, tag);
    assert Without([tag], tag) == [];
  }

  predicate NoRepeats(tags: seq<string>)
  {
    forall i, j :: 0 <= i < j < |tags| ==> tags[i] != tags[j]
  }

  /** The tag picker: the chosen tags and the hidden field's list, if the field exists. */
  class TagSelect {
    var selectedTags: seq<string>
    var hidden: Option<seq<string>>

    /** The hidden field, where there is one, holds the chosen tags. */
    predicate Mirrors()
      reads this
    {
      hidden.Some? ==> hidden.value == selectedTags
    }

    /** The picker starts from the tags the hidden field holds, if any. */
    constructor(field: Option<seq<string>>)
      ensures hidden == field && Mirrors()
      ensures selectedTags == if field.Some? then field.value else []
    {
      hidden := field;
      selectedTags := if field.Some? then field.value else [];
    }

    /** Rewrites the hidden field, where there is one, from the chosen tags. */
    method UpdateHiddenInput()
      modifies this`hidden
      ensures hidden == if old(hidden).Some? then Some(selectedTags) else None
      ensures Mirrors()
    {
      if hidden.Some? {
        hidden := Some(selectedTags);
      }
    }

    /** An empty or already chosen tag is ignored; any other goes at the end. */
    method AddTag(tag: string)
      requires Mirrors()
      modifies this
      ensures Mirrors() && hidden.Some? == old(hidden).Some?
      ensures tag == "" || tag in old(selectedTags) ==> selectedTags == old(selectedTags)
      ensures tag != "" && tag !in old(selectedTags) ==> selectedTags == old(selectedTags) + [tag]
      ensures NoRepeats(old(selectedTags)) ==> NoRepeats(selectedTags)
    {
      if tag == "" || tag in selectedTags {
        return;
      }
      selectedTags := selectedTags + [tag];
      UpdateHiddenInput();
    }

    /** Every copy of the tag goes; the others keep their order. */
    method RemoveTag(tag: string)
      requires Mirrors()
      modifies this
      ensures Mirrors() && hidden.Some? == old(hidden).Some?
      ensures selectedTags == Without(old(selectedTags), tag)
    {
      selectedTags := Without(selectedTags, tag);
      UpdateHiddenInput();
    }

    /** Enter in the tag field adds its trimmed text. */
    method OnEnter(input: string)
      requires Mirrors()
      modifies this
      ensures Mirrors()
      ensures var tag := Trim(input, JsSpace);
        && (tag == "" || tag in old(selectedTags) ==> selectedTags == old(selectedTags))
        && (tag != "" && tag !in old(selectedTags) ==> selectedTags == old(selectedTags) + [tag])
    {
      AddTag(Trim(input, JsSpace));
    }
  }
}
