/**
 * The Media entity: the accepted MIME types and size limit, the public URL,
 * the generated storage file name and the unit picked for a displayed size.
 */
module MediaEntity {
  import opened Php

  const AllowedImages: seq<string> := ["image/jpeg", "image/png", "image/gif", "image/webp", "image/svg+xml"]
  const AllowedDocuments: seq<string> := ["application/pdf"]

  /** `MAX_SIZE`: ten mebibytes. */
  const MaxSize: int := 10 * 1024 * 1024

  lemma MaxSizeValue()
    ensures MaxSize == 10485760
  {
  }

  datatype Media = Media(
    id: Option<int>,
    filename: string,
    originalName: string,
    mimeType: string,
    size: int,
    path: string,
    altText: Option<string>,
    title: Option<string>,
    uploadedBy: Option<int>)

  /** `isImage`: the MIME type is one of the image types. */
  predicate IsImage(m: Media)
  {
    m.mimeType in AllowedImages
  }

  /** `isAllowedMimeType`: an image type or a document type. */
  predicate IsAllowedMimeType(mime: string)
  {
    mime in AllowedImages + AllowedDocuments
  }

  /** Every image is of an allowed type; PDF is the one allowed type that is not an image. */
  lemma ImagesAreAllowed(m: Media)
    ensures IsImage(m) ==> IsAllowedMimeType(m.mimeType)
    ensures IsAllowedMimeType(m.mimeType) && !IsImage(m) ==> m.mimeType == "application/pdf"
  {
  }

  /** `getUrl`: the path under `/uploads/`. */
  function Url(m: Media): (url: string)
    ensures "/uploads/" <= url && url[|"/uploads/"|..] == m.path
  {
    "/uploads/" + m.path
  }

  /** `preg_replace('/[^a-z0-9-]/i', '-', ...)`: each character outside `[A-Za-z0-9-]` becomes a dash. */
  function SafeChars(s: string): (r: string)
    ensures |r| == |s|
    ensures forall i :: 0 <= i < |s| ==> r[i] == (if IsLower(s[i]) || IsUpper(s[i]) || IsDigit(s[i]) then s[i] else '-')
  {
    seq(|s|, i requires 0 <= i < |s| =>
      if IsLower(s[i]) || IsUpper(s[i]) || IsDigit(s[i]) then s[i] else '-')
  }

  predicate SafeChar(c: char) { IsLower(c) || IsUpper(c) || IsDigit(c) || c == '-' }

  /** `preg_replace('/-+/', '-', ...)`: each run of dashes becomes one dash. */
  function CollapseDashes(s: string, afterDash: bool): (r: string)
    requires forall i :: 0 <= i < |s| ==> SafeChar(s[i])
    ensures forall i :: 0 <= i < |r| ==> SafeChar(r[i])
    ensures forall i :: 0 <= i < |r| - 1 ==> !(r[i] == '-' && r[i + 1] == '-')
    ensures afterDash && |r| > 0 ==> r[0] != '-'
    decreases |s|
  {
    if s == [] then []
    else if s[0] != '-' then [s[0]] + CollapseDashes(s[1..], false)
    else if afterDash then CollapseDashes(s[1..], true)
    else "-" + CollapseDashes(s[1..], true)
  }

  /** Lower-case letters, digits and single dashes, with no dash at either end. */
  predicate StemShape(s: string)
  {
    && (forall i :: 0 <= i < |s| ==> IsLower(s[i]) || IsDigit(s[i]) || s[i] == '-')
    && (|s| > 0 ==> s[0] != '-' && s[|s| - 1] != '-')
    && (forall i :: 0 <= i < |s| - 1 ==> !(s[i] == '-' && s[i + 1] == '-'))
  }

  /** The sanitised, lower-cased stem of the uploaded name. */
  function SafeStem(originalName: string): (stem: string)
    ensures StemShape(stem)
  {
    var c := CollapseDashes(SafeChars(FileStem(originalName)), false);
    TrimStaysSafe(c);
    LowerKeepsShape(Trim(c, {'-'}));
    LowerString(Trim(c, {'-'}))
  }

  /** Trimming the dashes off safe characters without "--" leaves safe characters without "--". */
  lemma TrimStaysSafe(c: string)
    requires forall i :: 0 <= i < |c| ==> SafeChar(c[i])
    requires forall i :: 0 <= i < |c| - 1 ==> !(c[i] == '-' && c[i + 1] == '-')
    ensures var t := Trim(c, {'-'});
      && (forall i :: 0 <= i < |t| ==> SafeChar(t[i]))
      && (forall i :: 0 <= i < |t| - 1 ==> !(t[i] == '-' && t[i + 1] == '-'))
  {
    var t := Trim(c, {'-'});
    var a := |c| - |LTrim(c, {'-'})|;
    SliceStaysSafe(c, a, a + |t|);
  }

  /** A piece of a string of safe characters without "--" is again one. */
  lemma SliceStaysSafe(c: string, a: nat, b: nat)
    requires a <= b <= |c|
    requires forall i :: 0 <= i < |c| ==> SafeChar(c[i])
    requires forall i :: 0 <= i < |c| - 1 ==> !(c[i] == '-' && c[i + 1] == '-')
    ensures forall i :: 0 <= i < b - a ==> SafeChar(c[a..b][i])
    ensures forall i :: 0 <= i < b - a - 1 ==> !(c[a..b][i] == '-' && c[a..b][i + 1] == '-')
  {
    var t := c[a..b];
    forall i | 0 <= i < |t| ensures SafeChar(t[i]) {
      assert t[i] == c[a + i];
    }
    forall i | 0 <= i < |t| - 1 ensures !(t[i] == '-' && t[i + 1] == '-') {
      assert t[i] == c[a + i] && t[i + 1] == c[a + i + 1];
    }
  }

  /** Lower-casing safe characters keeps dashes where they are and leaves only small letters. */
  lemma LowerKeepsShape(t: string)
    requires forall i :: 0 <= i < |t| ==> SafeChar(t[i])
    requires |t| > 0 ==> t[0] != '-' && t[|t| - 1] != '-'
    requires forall i :: 0 <= i < |t| - 1 ==> !(t[i] == '-' && t[i + 1] == '-')
    ensures StemShape(LowerString(t))
  {
    var r := LowerString(t);
    forall i | 0 <= i < |t| ensures (r[i] == '-') == (t[i] == '-') && (IsLower(r[i]) || IsDigit(r[i]) || r[i] == '-') {
      assert r[i] == ToLower(t[i]);
    }
  }

  /**
   * `generateFilename`: the safe stem, a dash, the unique id (the last six
   * characters of `uniqid()`, given here) and the lower-cased extension.
   */
  function GenerateFilename(originalName: string, uniqueId: string): (name: string)
    ensures name == SafeStem(originalName) + "-" + uniqueId + "." + LowerString(Extension(originalName))
  {
    SafeStem(originalName) + "-" + uniqueId + "." + LowerString(Extension(originalName))
  }

  /** A name without any slash is its own basename. */
  lemma BasenameOfPlainName(name: string)
    requires forall i :: 0 <= i < |name| ==> name[i] != '/'
    ensures Basename(name) == name
  {
    assert RTrim(name, {'/'}) == name;
  }

  /** The extension of `head.ext` is `ext` when `ext` has no dot and neither part a slash. */
  lemma ExtensionAfterLastDot(head: string, ext: string)
    requires forall i :: 0 <= i < |head| ==> head[i] != '/'
    requires forall i :: 0 <= i < |ext| ==> ext[i] != '.' && ext[i] != '/'
    ensures Extension(head + ['.'] + ext) == ext
  {
    var name := head + ['.'] + ext;
    forall i | 0 <= i < |name| ensures name[i] != '/' {
      if i < |head| {
        assert name[i] == head[i];
      } else if i > |head| {
        assert name[i] == ext[i - |head| - 1];
      }
    }
    BasenameOfPlainName(name);
    LastIndexOfSplit(head, '.', ext);
  }

  /** `stem-id.ext` with a lower-cased extension reads back that extension. */
  lemma ExtensionOfParts(stem: string, uniqueId: string, e: string)
    requires StemShape(stem)
    requires forall i :: 0 <= i < |uniqueId| ==> uniqueId[i] != '.' && uniqueId[i] != '/'
    requires forall i :: 0 <= i < |e| ==> e[i] != '.' && e[i] != '/'
    ensures Extension(stem + "-" + uniqueId + "." + LowerString(e)) == LowerString(e)
  {
    var ext := LowerString(e);
    var head := stem + "-" + uniqueId;
    forall i | 0 <= i < |head| ensures head[i] != '/' {
      if i < |stem| {
        assert head[i] == stem[i];
      } else if i > |stem| {
        assert head[i] == uniqueId[i - |stem| - 1];
      }
    }
    forall i | 0 <= i < |ext| ensures ext[i] != '.' && ext[i] != '/' {
      assert ext[i] == ToLower(e[i]);
    }
    ExtensionAfterLastDot(head, ext);
    assert stem + "-" + uniqueId + "." + ext == head + ['.'] + ext;
  }

  /** The generated name keeps the original extension, lower-cased; a name without one ends in ".". */
  lemma FilenameKeepsExtension(originalName: string, uniqueId: string)
    requires forall i :: 0 <= i < |uniqueId| ==> uniqueId[i] != '.' && uniqueId[i] != '/'
    ensures Extension(GenerateFilename(originalName, uniqueId)) == LowerString(Extension(originalName))
    ensures Extension(originalName) == "" ==> GenerateFilename(originalName, uniqueId)[|GenerateFilename(originalName, uniqueId)| - 1] == '.'
  {
    ExtensionOfParts(SafeStem(originalName), uniqueId, Extension(originalName));
  }

  const Units: seq<string> := ["o", "Ko", "Mo", "Go"]

  function Pow1024(k: nat): (p: nat)
    ensures p >= 1
  {
    if k == 0 then 1 else 1024 * Pow1024(k - 1)
  }

  lemma Pow1024Values()
    ensures Pow1024(1) == 1024 && Pow1024(2) == 1048576 && Pow1024(3) == 1073741824
  {
  }

  /** One step of the loop: dividing by 1024 while the unit grows 1024 times keeps the product. */
  lemma ScaleStep(s: real, p: real)
    requires p >= 1.0
    ensures (s / 1024.0) * (1024.0 * p) == s * p
    ensures s >= 1024.0 ==> s * p >= 1024.0 * p
  {
  }

  /** The unit index for a size: the largest k ≤ 3 with size ≥ 1024^k. */
  function UnitIndexFor(size: int): (k: nat)
    ensures k <= 3
    ensures k > 0 ==> size >= Pow1024(k)
    ensures k < 3 ==> size < Pow1024(k + 1)
  {
    if size >= Pow1024(3) then 3
    else if size >= Pow1024(2) then 2
    else if size >= Pow1024(1) then 1
    else 0
  }

  /**
   * The loop of `getFormattedSize`: divide by 1024 while the value is at
   * least 1024 and a larger unit exists. Returns the scaled value and the
   * unit; the final rounding to two decimals is not modelled.
   */
  method FormattedSizeParts(size: int) returns (scaled: real, unit: string)
    ensures unit == Units[UnitIndexFor(size)]
    ensures scaled * (Pow1024(UnitIndexFor(size)) as real) == size as real
  {
    var s: real := size as real;
    var unitIndex: nat := 0;
    while s >= 1024.0 && unitIndex < |Units| - 1
      invariant unitIndex <= 3
      invariant s * (Pow1024(unitIndex) as real) == size as real
      invariant unitIndex > 0 ==> size >= Pow1024(unitIndex)
      decreases 3 - unitIndex
    {
      ScaleStep(s, Pow1024(unitIndex) as real);
      s := s / 1024.0;
      unitIndex := unitIndex + 1;
    }
    Pow1024Values();
    scaled, unit := s, Units[unitIndex];
  }
}
