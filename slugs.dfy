/**
 * Server-side slugs: the `generateSlug` pipeline shared by Post, Category and
 * Tag (they differ only in the fallback word), the `^[a-z0-9-]+$` format the
 * admin forms check, and the `-1`, `-2`, ... counter loop the services use to
 * make a slug unique.
 */
module Slugs {
  import opened Php

  /** `[a-z0-9]`: the characters a slug keeps. */
  predicate IsSlugChar(c: char) { IsLower(c) || IsDigit(c) }

  /** `[a-z0-9-]`: the characters a slug is made of. */
  predicate InSlugAlphabet(c: char) { IsSlugChar(c) || c == '-' }

  predicate AllInSlugAlphabet(s: string)
  {
    forall i :: 0 <= i < |s| ==> InSlugAlphabet(s[i])
  }

  predicate NoDoubleDash(s: string)
  {
    forall i :: 0 <= i < |s| - 1 ==> !(s[i] == '-' && s[i + 1] == '-')
  }

  /** What `generateSlug` can return: non-empty, `[a-z0-9-]` only, no dash at
      either end, no two dashes in a row, and never the falsy "0". */
  predicate WellFormedSlug(s: string)
  {
    |s| > 0 && AllInSlugAlphabet(s) && s[0] != '-' && s[|s| - 1] != '-'
    && NoDoubleDash(s) && s != "0"
  }

  /**
   * `mb_strtolower` followed by the accent table: the listed accented vowels
   * (àáâãäå, èéêë, ìíîï, òóôõö, ùúûü, each a run of code points) and the
   * cedilla, in either case, become their ASCII base letter, ASCII capitals
   * become small letters, every other character is kept.
   */
  function FoldChar(c: char): (r: char)
    ensures InSlugAlphabet(c) ==> r == c
    ensures IsUpper(c) ==> r == ToLower(c)
  {
    if 'à' <= c <= 'å' || 'À' <= c <= 'Å' then 'a'
    else if 'è' <= c <= 'ë' || 'È' <= c <= 'Ë' then 'e'
    else if 'ì' <= c <= 'ï' || 'Ì' <= c <= 'Ï' then 'i'
    else if 'ò' <= c <= 'ö' || 'Ò' <= c <= 'Ö' then 'o'
    else if 'ù' <= c <= 'ü' || 'Ù' <= c <= 'Ü' then 'u'
    else if c == 'ç' || c == 'Ç' then 'c'
    else ToLower(c)
  }

  function Fold(s: string): (r: string)
    ensures |r| == |s| && forall i :: 0 <= i < |s| ==> r[i] == FoldChar(s[i])
  {
    seq(|s|, i requires 0 <= i < |s| => FoldChar(s[i]))
  }

  /**
   * `preg_replace('/[^a-z0-9]+/', '-', $s)`: every maximal run of characters
   * outside `[a-z0-9]` becomes one dash. `inRun` says the previous character
   * already belonged to a replaced run.
   */
  function Dashify(s: string, inRun: bool): (r: string)
    ensures AllInSlugAlphabet(r) && NoDoubleDash(r)
    ensures inRun && |r| > 0 ==> r[0] != '-'
    decreases |s|
  {
    if s == [] then []
    else if IsSlugChar(s[0]) then [s[0]] + Dashify(s[1..], false)
    else if inRun then Dashify(s[1..], true)
    else "-" + Dashify(s[1..], true)
  }

  /**
   * The slug pipeline of Post, Category and Tag: fold, replace runs, trim
   * dashes, and fall back to `fallback` when the result is falsy ("" or "0").
   */
  function Slugify(text: string, fallback: string): (slug: string)
    requires WellFormedSlug(fallback)
    ensures WellFormedSlug(slug)
  {
    var d := Dashify(Fold(text), false);
    var t := Trim(d, {'-'});
    var a := |d| - |LTrim(d, {'-'})|;
    SliceStaysInAlphabet(d, a, a + |t|);
    if IsFalsy(t) then fallback else t
  }

  /** A piece of a string over `[a-z0-9-]` without "--" is again one. */
  lemma SliceStaysInAlphabet(d: string, a: nat, b: nat)
    requires a <= b <= |d| && AllInSlugAlphabet(d) && NoDoubleDash(d)
    ensures AllInSlugAlphabet(d[a..b]) && NoDoubleDash(d[a..b])
  {
    var t := d[a..b];
    forall i | 0 <= i < |t| ensures InSlugAlphabet(t[i]) {
      assert t[i] == d[a + i];
    }
    forall i | 0 <= i < |t| - 1 ensures !(t[i] == '-' && t[i + 1] == '-') {
      assert t[i] == d[a + i] && t[i + 1] == d[a + i + 1];
    }
  }

  lemma FoldKeeps(s: string)
    requires AllInSlugAlphabet(s)
    ensures Fold(s) == s
  {
  }

  lemma {:induction false} DashifyKeeps(s: string, inRun: bool)
    requires AllInSlugAlphabet(s) && NoDoubleDash(s)
    requires inRun && |s| > 0 ==> s[0] != '-'
    ensures Dashify(s, inRun) == s
    decreases |s|
  {
    if s != [] {
      DashifyKeeps(s[1..], !IsSlugChar(s[0]));
    }
  }

  /** A well-formed slug goes through the pipeline unchanged. */
  lemma SlugKeeps(s: string, fallback: string)
    requires WellFormedSlug(fallback) && WellFormedSlug(s)
    ensures Slugify(s, fallback) == s
  {
    FoldKeeps(s);
    DashifyKeeps(s, false);
    TrimKeeps(s, {'-'});
  }

  /** A slug is its own slug: generating a slug from a slug changes nothing. */
  lemma SlugifyIdempotent(text: string, fallback: string)
    requires WellFormedSlug(fallback)
    ensures Slugify(Slugify(text, fallback), fallback) == Slugify(text, fallback)
  {
    SlugKeeps(Slugify(text, fallback), fallback);
  }

  /** The listed accented a, e and i fold to their base letter, in either case. */
  lemma AccentsFoldToAEI()
    ensures forall c :: c in "àáâãäåÀÁÂÃÄÅ" ==> FoldChar(c) == 'a'
    ensures forall c :: c in "èéêëÈÉÊË" ==> FoldChar(c) == 'e'
    ensures forall c :: c in "ìíîïÌÍÎÏ" ==> FoldChar(c) == 'i'
  {
  }

  /** The listed accented o and u and the cedilla fold to their base letter, in either case. */
  lemma AccentsFoldToOUC()
    ensures forall c :: c in "òóôõöÒÓÔÕÖ" ==> FoldChar(c) == 'o'
    ensures forall c :: c in "ùúûüÙÚÛÜ" ==> FoldChar(c) == 'u'
    ensures FoldChar('ç') == 'c' && FoldChar('Ç') == 'c'
  {
  }

  /** With no character of `s` kept by the rule, only dashes come out. */
  lemma {:induction false} DashifyOnlyDashes(s: string, inRun: bool)
    requires forall i :: 0 <= i < |s| ==> !IsSlugChar(s[i])
    ensures forall i :: 0 <= i < |Dashify(s, inRun)| ==> Dashify(s, inRun)[i] == '-'
    decreases |s|
  {
    if s != [] {
      DashifyOnlyDashes(s[1..], true);
    }
  }

  /**
   * A text in which nothing folds to `[a-z0-9]` (only punctuation, spaces,
   * dashes or characters outside the accent table) gets the fallback word.
   */
  lemma NothingKeptFallsBack(text: string, fallback: string)
    requires WellFormedSlug(fallback)
    requires forall i :: 0 <= i < |text| ==> !IsSlugChar(FoldChar(text[i]))
    ensures Slugify(text, fallback) == fallback
  {
    var d := Dashify(Fold(text), false);
    DashifyOnlyDashes(Fold(text), false);
  }

  /**
   * `preg_match('/^[a-z0-9-]+$/', $s)`: without the D modifier `$` also
   * matches just before a final newline, so one trailing "\n" is accepted.
   */
  predicate MatchesSlugPattern(s: string)
  {
    var core := if |s| > 0 && s[|s| - 1] == '\n' then s[..|s| - 1] else s;
    |core| > 0 && AllInSlugAlphabet(core)
  }

  /** Every generated slug passes the admin forms' format check. */
  lemma GeneratedSlugMatchesPattern(text: string, fallback: string)
    requires WellFormedSlug(fallback)
    ensures MatchesSlugPattern(Slugify(text, fallback))
  {
    var s := Slugify(text, fallback);
    assert s[|s| - 1] != '\n';
  }

  /** The slug tried after `k` collisions: the base itself, then `base-1`, `base-2`, ... */
  function Candidate(base: string, k: nat): (s: string)
    ensures k == 0 ==> s == base
    ensures k > 0 ==> base + "-" <= s && |s| > |base| + 1
  {
    if k == 0 then base else base + "-" + NatToString(k)
  }

  /** Different counters give different candidates. */
  lemma CandidateInjective(base: string, j: nat, k: nat)
    requires Candidate(base, j) == Candidate(base, k)
    ensures j == k
  {
    if j > 0 && k > 0 {
      var n := |base| + 1;
      assert NatToString(j) == Candidate(base, j)[n..];
      assert NatToString(k) == Candidate(base, k)[n..];
      NatToStringInjective(j, k);
    }
  }

  ghost function Tried(base: string, k: nat): set<string>
  {
    set j | 0 <= j < k :: Candidate(base, j)
  }

  /**
   * `generateUniqueSlug`: the first of `base`, `base-1`, `base-2`, ... that
   * `slugExists` rejects, with the table's slugs given as `used`.
   */
  method UniqueSlug(base: string, used: set<string>) returns (slug: string)
    ensures slug !in used
    ensures exists k: nat :: slug == Candidate(base, k)
                           && forall j :: 0 <= j < k ==> Candidate(base, j) in used
  {
    slug := base;
    var counter: nat := 1;
    while slug in used
      invariant slug == Candidate(base, counter - 1)
      invariant forall j :: 0 <= j < counter - 1 ==> Candidate(base, j) in used
      invariant Tried(base, counter - 1) <= used
      decreases used - Tried(base, counter - 1)
    {
      assert Candidate(base, counter - 1) !in Tried(base, counter - 1) by {
        forall j | 0 <= j < counter - 1 ensures Candidate(base, j) != Candidate(base, counter - 1) {
          if Candidate(base, j) == Candidate(base, counter - 1) {
            CandidateInjective(base, j, counter - 1);
          }
        }
      }
      assert Tried(base, counter) == Tried(base, counter - 1) + {Candidate(base, counter - 1)};
      slug := base + "-" + NatToString(counter);
      counter := counter + 1;
    }
  }
}
