/**
 * What the admin controllers share: the posted form (`$_POST`), the flash
 * message they leave in the session, what an action answers, and the name
 * and slug rules of their validators.
 */
module Forms {
  import opened Php
  import Slugs

  /** A posted field: a text value, or the list posted under `name[]`. */
  datatype Field = Text(s: string) | List(items: seq<string>)

  /** `$_POST`. */
  type Form = map<string, Field>

  /** A validator's answer: the message for each field in error. */
  type Errors = map<string, string>

  /** `$_SESSION['flash_success']` or `$_SESSION['flash_error']`. */
  datatype Flash = Success(message: string) | Failure(message: string)

  /**
   * What an admin action answers: a redirect, with the flash message it
   * leaves, or the form shown again with its errors (the page's markup is
   * not modelled).
   */
  datatype Outcome = Redirected(location: string, flash: Option<Flash>) | FormShown(errors: Errors)

  /** What `findBySlug` returned for a slug: nothing, or a row carrying that id. */
  datatype SlugOwner = Unowned | OwnedBy(id: Option<int>)

  /** What `findBySlug` returned, as the validator compares it: `idOf` reads a row's id. */
  function OwnerOf<T>(found: Option<T>, idOf: T -> Option<int>): (o: SlugOwner)
    ensures o.Unowned? <==> found.None?
    ensures o.OwnedBy? ==> o.id == idOf(found.value)
  {
    if found.Some? then OwnedBy(idOf(found.value)) else Unowned
  }

  const SlugFormat := "Le slug ne peut contenir que des lettres minuscules, chiffres et tirets."
  const SlugTaken := "Ce slug est déjà utilisé."

  /** `$_POST[$key] ?? $default` for a text field; a list is read as absent. */
  function TextOr(form: Form, key: string, default: string): (s: string)
    ensures key !in form ==> s == default
    ensures key in form && form[key].Text? ==> s == form[key].s
  {
    if key in form && form[key].Text? then form[key].s else default
  }

  /** `trim($_POST[$key] ?? '')`. */
  function Trimmed(form: Form, key: string): (s: string)
    ensures key !in form ==> s == ""
    ensures |s| > 0 ==> s[0] !in TrimSpace && s[|s| - 1] !in TrimSpace
  {
    Trim(TextOr(form, key, ""), TrimSpace)
  }

  /**
   * `!empty($_POST[$key]) ? (int) $_POST[$key] : null`: a non-empty list
   * is not empty and casts to 1.
   */
  function OptionalId(form: Form, key: string): (r: Option<int>)
    ensures key !in form ==> r.None?
    ensures key in form && form[key].Text? ==>
      r == if IsFalsy(form[key].s) then None else Some(StrToInt(form[key].s))
  {
    if key !in form then None
    else match form[key]
      case Text(s) => if IsFalsy(s) then None else Some(StrToInt(s))
      case List(items) => if items == [] then None else Some(1)
  }

  /** `(int) ($_POST[$key] ?? $default)`: a list casts to 1 unless it is empty. */
  function IntField(form: Form, key: string, default: int): (n: int)
    ensures key !in form ==> n == default
    ensures key in form && form[key].Text? ==> n == StrToInt(form[key].s)
  {
    if key !in form then default
    else match form[key]
      case Text(s) => StrToInt(s)
      case List(items) => if items == [] then 0 else 1
  }

  /** `isset($_POST[$key]) ? array_map('intval', (array) $_POST[$key]) : []`. */
  function IntList(form: Form, key: string): (ids: seq<int>)
    ensures key !in form ==> ids == []
    ensures key in form && form[key].List? ==>
      |ids| == |form[key].items| && forall i :: 0 <= i < |ids| ==> ids[i] == StrToInt(form[key].items[i])
  {
    if key !in form then []
    else match form[key]
      case Text(s) => [StrToInt(s)]
      case List(items) => seq(|items|, i requires 0 <= i < |items| => StrToInt(items[i]))
  }

  /** `$s ?: null`. */
  function NullIfFalsy(s: string): (r: Option<string>)
    ensures r.None? <==> IsFalsy(s)
    ensures r.Some? ==> r.value == s
  {
    if IsFalsy(s) then None else Some(s)
  }

  /** `$id ?: null` for an integer or null: 0 is falsy too. */
  function NullIfZero(id: Option<int>): (r: Option<int>)
    ensures r.None? <==> id.None? || id == Some(0)
    ensures r.Some? ==> r == id
  {
    if id == Some(0) then None else id
  }

  /**
   * The rule every validator applies to a name or title: required, then at
   * least `min` bytes (`strlen` counts the bytes of the UTF-8 encoding, not
   * the characters).
   */
  function LengthError(s: string, min: nat, required: string, tooShort: string): (e: Option<string>)
    ensures e.None? <==> !IsFalsy(s) && ByteLength(s) >= min
    ensures IsFalsy(s) ==> e == Some(required)
    ensures !IsFalsy(s) && ByteLength(s) < min ==> e == Some(tooShort)
  {
    if IsFalsy(s) then Some(required)
    else if ByteLength(s) < min then Some(tooShort)
    else None
  }

  /**
   * The slug rule: an empty slug is accepted (the service generates one);
   * otherwise it must match `^[a-z0-9-]+$` and `findBySlug` must find no
   * row, or the row being edited (`selfId`).
   */
  function SlugError(slug: string, owner: SlugOwner, selfId: Option<int>): (e: Option<string>)
    ensures e.None? <==> IsFalsy(slug) || (Slugs.MatchesSlugPattern(slug) && (owner.Unowned? || owner.id == selfId))
    ensures e == Some(SlugFormat) <==> !IsFalsy(slug) && !Slugs.MatchesSlugPattern(slug)
    ensures e.Some? ==> e.value in {SlugFormat, SlugTaken}
  {
    if IsFalsy(slug) then None
    else if !Slugs.MatchesSlugPattern(slug) then Some(SlugFormat)
    else if owner.OwnedBy? && owner.id != selfId then Some(SlugTaken)
    else None
  }

  const NameRequired := "Le nom est requis."
  const NameTooShort := "Le nom doit faire au moins 2 caractères."

  /**
   * `validateCategory` and `validateTag`, which apply the same rules: the
   * name is required and at least 2 bytes, and a given slug must have the
   * slug format and belong to no other row than `selfId`.
   */
  function NameAndSlugErrors(name: string, slug: string, owner: SlugOwner, selfId: Option<int>): (errors: Errors)
    ensures errors.Keys <= {"name", "slug"}
    ensures errors == map[] <==>
      && !IsFalsy(name) && ByteLength(name) >= 2
      && (IsFalsy(slug) || (Slugs.MatchesSlugPattern(slug) && (owner.Unowned? || owner.id == selfId)))
    ensures "name" in errors ==> errors["name"] == (if IsFalsy(name) then NameRequired else NameTooShort)
    ensures "slug" in errors ==> SlugError(slug, owner, selfId) == Some(errors["slug"])
  {
    With(With(map[], "name", LengthError(name, 2, NameRequired, NameTooShort)), "slug", SlugError(slug, owner, selfId))
  }

  /** `$errors[$key] = $message` when there is a message. */
  function With(errors: Errors, key: string, e: Option<string>): (r: Errors)
    ensures key in r <==> key in errors || e.Some?
    ensures e.Some? ==> r[key] == e.value
    ensures forall k :: k != key ==> (k in r <==> k in errors) && (k in errors ==> r[k] == errors[k])
  {
    if e.Some? then errors[key := e.value] else errors
  }

  /**
   * Names are measured in bytes: a name of two accented letters passes a
   * minimum of three, although the messages speak of characters.
   */
  lemma AccentsCountTwice()
    ensures LengthError("éé", 3, "required", "short").None?
    ensures |"éé"| == 2
  {
    assert ByteLength("éé") == 4 by {
      assert "éé"[1..] == "é";
      assert "é"[1..] == "";
    }
  }
}
