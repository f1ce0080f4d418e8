/**
 * The media library: the checks an upload must pass before anything is
 * stored, where the file and its row go, the metadata update, the deletion
 * of a file with its row, and the listing of images.
 */
module MediaService {
  import opened Php
  import opened MediaEntity

  /** The `$_FILES` entry of an upload (`tmp_name` may be missing). */
  datatype UploadedFile = UploadedFile(tmpName: Option<string>, error: int, size: int, name: string)

  /** What `upload` ends with: the stored media, or the message of the exception it throws. */
  datatype Uploaded = Stored(media: Media) | Rejected(message: string)

  /** PHP's `UPLOAD_ERR_*` codes. */
  const UploadOk := 0
  const IniSize := 1
  const FormSize := 2
  const Partial := 3
  const NoFile := 4
  const NoTmpDir := 6
  const CantWrite := 7
  const ExtensionStop := 8

  const InvalidFile := "Fichier invalide."
  const TooLarge := "Le fichier est trop volumineux (max 10 Mo)."
  const TypeRefused := "Type de fichier non autorisé."
  const MoveFailed := "Erreur lors du déplacement du fichier."
  const UnknownError := "Erreur inconnue lors de l'upload."

  /** The upload error codes that have a message of their own. */
  const KnownErrors: set<int> := {IniSize, FormSize, Partial, NoFile, NoTmpDir, CantWrite, ExtensionStop}

  /** `getUploadErrorMessage`: a message per known code, the generic one for any other code. */
  function UploadErrorMessage(code: int): (message: string)
    ensures message == UnknownError <==> code !in KnownErrors
  {
    match code
    case 1 => "Le fichier dépasse la limite du serveur."
    case 2 => "Le fichier dépasse la limite du formulaire."
    case 3 => "Le fichier n'a été que partiellement uploadé."
    case 4 => "Aucun fichier n'a été uploadé."
    case 6 => "Dossier temporaire manquant."
    case 7 => "Échec de l'écriture du fichier."
    case 8 => "Upload bloqué par une extension."
    case _ => UnknownError
  }

  /** Two known codes never share a message, so the message tells the code. */
  lemma ErrorMessagesDistinct(a: int, b: int)
    requires a in KnownErrors && b in KnownErrors && a != b
    ensures UploadErrorMessage(a) != UploadErrorMessage(b)
  {
    MessageLengths();
    assert |UploadErrorMessage(a)| != |UploadErrorMessage(b)|;
  }

  /** The lengths of the known messages, all different. */
  lemma MessageLengths()
    ensures |UploadErrorMessage(IniSize)| == 40 && |UploadErrorMessage(FormSize)| == 43
    ensures |UploadErrorMessage(Partial)| == 45 && |UploadErrorMessage(NoFile)| == 30
    ensures |UploadErrorMessage(NoTmpDir)| == 28 && |UploadErrorMessage(CantWrite)| == 31
    ensures |UploadErrorMessage(ExtensionStop)| == 32
  {
  }

  /**
   * The checks of `upload`, in order: a temporary file that exists and was
   * uploaded (`isUploaded` is `is_uploaded_file`), no upload error, a size
   * of at most `MAX_SIZE`, and an allowed MIME type (`mime` is what
   * `mime_content_type` reports). The first that fails gives the message.
   */
  function Rejection(file: UploadedFile, isUploaded: bool, mime: string): (e: Option<string>)
    ensures e.None? <==> file.tmpName.Some? && isUploaded && file.error == UploadOk && file.size <= MaxSize && IsAllowedMimeType(mime)
    ensures file.tmpName.None? || !isUploaded ==> e == Some(InvalidFile)
    ensures file.tmpName.Some? && isUploaded && file.error != UploadOk ==> e == Some(UploadErrorMessage(file.error))
    ensures file.tmpName.Some? && isUploaded && file.error == UploadOk && file.size > MaxSize ==> e == Some(TooLarge)
    ensures file.tmpName.Some? && isUploaded && file.error == UploadOk && file.size <= MaxSize && !IsAllowedMimeType(mime) ==>
      e == Some(TypeRefused)
  {
    if file.tmpName.None? || !isUploaded then Some(InvalidFile)
    else if file.error != UploadOk then Some(UploadErrorMessage(file.error))
    else if file.size > MaxSize then Some(TooLarge)
    else if !IsAllowedMimeType(mime) then Some(TypeRefused)
    else None
  }

  /**
   * The row `upload` inserts: the generated file name, stored under the
   * month's directory (`subDir`, what `date('Y/m')` gives), with the
   * original name, the MIME type, the size and the uploader.
   */
  function NewMedia(file: UploadedFile, mime: string, uniqueId: string, subDir: string, userId: Option<int>, id: int): (m: Media)
    ensures m.id == Some(id) && m.originalName == file.name && m.mimeType == mime && m.size == file.size
    ensures m.filename == GenerateFilename(file.name, uniqueId) && m.path == subDir + "/" + m.filename
    ensures m.altText.None? && m.title.None? && m.uploadedBy == userId
  {
    var filename := GenerateFilename(file.name, uniqueId);
    Media(Some(id), filename, file.name, mime, file.size, subDir + "/" + filename, None, None, userId)
  }

  /**
   * A media that passed the checks has an allowed type and a size within the
   * limit, is served from `/uploads/` under its month's directory, and its
   * stored name keeps the original extension, lower-cased.
   */
  lemma StoredMediaShape(file: UploadedFile, isUploaded: bool, mime: string, uniqueId: string, subDir: string, userId: Option<int>, id: int)
    requires Rejection(file, isUploaded, mime).None?
    requires forall i :: 0 <= i < |uniqueId| ==> uniqueId[i] != '.' && uniqueId[i] != '/'
    ensures var m := NewMedia(file, mime, uniqueId, subDir, userId, id);
      && IsAllowedMimeType(m.mimeType) && m.size <= MaxSize
      && Url(m) == "/uploads/" + subDir + "/" + m.filename
      && Extension(m.filename) == LowerString(Extension(file.name))
  {
    var m := NewMedia(file, mime, uniqueId, subDir, userId, id);
    FilenameKeepsExtension(file.name, uniqueId);
    UrlUnder(m, subDir, m.filename);
  }

  /** A media stored as `dir/name` is served as `/uploads/dir/name`. */
  lemma UrlUnder(m: Media, dir: string, name: string)
    requires m.path == dir + "/" + name
    ensures Url(m) == "/uploads/" + dir + "/" + name
  {
  }

  /** `findImages`: the media of `listed` (the table in listing order) whose type is an image type, in that order. */
  function Images(listed: seq<Media>): (r: seq<Media>)
    ensures |r| <= |listed|
    ensures forall m :: m in r <==> m in listed && IsImage(m)
  {
    if listed == [] then []
    else Images(listed[..|listed| - 1]) + (if IsImage(listed[|listed| - 1]) then [listed[|listed| - 1]] else [])
  }

  /** Listing two parts one after the other lists their images one after the other. */
  lemma {:induction false} ImagesJoin(a: seq<Media>, b: seq<Media>)
    ensures Images(a + b) == Images(a) + Images(b)
  {
    if b == [] {
      assert a + b == a;
    } else {
      var init, last, ab := b[..|b| - 1], b[|b| - 1], a + b;
      assert ab[..|ab| - 1] == a + init && ab[|ab| - 1] == last;
      ImagesJoin(a, init);
      var tail := if IsImage(last) then [last] else [];
      calc {
        Images(ab);
        Images(a + init) + tail;
        (Images(a) + Images(init)) + tail;
        Images(a) + (Images(init) + tail);
        Images(a) + Images(b);
      }
    }
  }

  /** The table after `update`: the row with the media's id, if any, gets its alternative text and title. */
  function Updated(rows: map<int, Media>, media: Media): (r: map<int, Media>)
    ensures r.Keys == rows.Keys
    ensures forall id :: id in rows ==>
      r[id].(altText := rows[id].altText, title := rows[id].title) == rows[id]
    ensures media.id.Some? && media.id.value in rows ==>
      r[media.id.value].altText == media.altText && r[media.id.value].title == media.title
    ensures forall id :: id in rows && Some(id) != media.id ==> r[id] == rows[id]
  {
    if media.id.Some? && media.id.value in rows then
      var id := media.id.value;
      rows[id := rows[id].(altText := media.altText, title := media.title)]
    else rows
  }

  class Service {
    /** `$uploadDir`. */
    const uploadDir: string
    /** The `media` table. */
    var rows: map<int, Media>
    /** The id the next insertion receives. */
    var nextId: int
    /** The files under the upload directory, by full path. */
    var files: set<string>

    /** Every row is stored under its own id, below the counter. */
    ghost predicate Valid()
      reads this`rows, this`nextId
    {
      && nextId >= 1
      && forall id :: id in rows ==> rows[id].id == Some(id) && 1 <= id < nextId
    }

    /** The uploads live in `public/uploads` under the project root. */
    constructor(projectRoot: string, t: map<int, Media>, next: int, stored: set<string>)
      requires next >= 1 && forall id :: id in t ==> t[id].id == Some(id) && 1 <= id < next
      ensures uploadDir == projectRoot + "/public/uploads"
      ensures rows == t && nextId == next && files == stored && Valid()
    {
      uploadDir := projectRoot + "/public/uploads";
      rows := t;
      nextId := next;
      files := stored;
    }

    /** `findById`. */
    function FindById(id: int): (r: Option<Media>)
      requires Valid()
      reads this`rows, this`nextId
      ensures r.Some? <==> id in rows
      ensures r.Some? ==> r.value == rows[id] && r.value.id == Some(id)
    {
      if id in rows then Some(rows[id]) else None
    }

    /**
     * `upload`: when a check fails, or the file cannot be moved (`moved` is
     * what `move_uploaded_file` answers), nothing is stored and the message
     * is the exception's; otherwise the file is stored under
     * `uploadDir/subDir/` and its row inserted under the next id.
     */
    method Upload(file: UploadedFile, isUploaded: bool, mime: string, uniqueId: string, subDir: string, moved: bool, userId: Option<int>)
      returns (r: Uploaded)
      requires Valid()
      modifies this`rows, this`nextId, this`files
      ensures Valid()
      ensures r.Rejected? <==> Rejection(file, isUploaded, mime).Some? || !moved
      ensures Rejection(file, isUploaded, mime).Some? ==> r == Rejected(Rejection(file, isUploaded, mime).value)
      ensures Rejection(file, isUploaded, mime).None? && !moved ==> r == Rejected(MoveFailed)
      ensures r.Rejected? ==> rows == old(rows) && nextId == old(nextId) && files == old(files)
      ensures r.Stored? ==>
        && r.media == NewMedia(file, mime, uniqueId, subDir, userId, old(nextId))
        && old(nextId) !in old(rows)
        && rows == old(rows)[old(nextId) := r.media] && nextId == old(nextId) + 1
        && files == old(files) + {uploadDir + "/" + r.media.path}
    {
      var e := Rejection(file, isUploaded, mime);
      if e.Some? {
        return Rejected(e.value);
      }
      var filename := GenerateFilename(file.name, uniqueId);
      var path := subDir + "/" + filename;
      if !moved {
        return Rejected(MoveFailed);
      }
      var media := Insert(Media(None, filename, file.name, mime, file.size, path, None, None, userId));
      r := Stored(media);
    }

    /** The writes of a successful `upload`: the file goes in place and its row is inserted under the next id. */
    method Insert(m: Media) returns (media: Media)
      requires Valid()
      modifies this`rows, this`nextId, this`files
      ensures Valid()
      ensures media == m.(id := Some(old(nextId)))
      ensures old(nextId) !in old(rows) && rows == old(rows)[old(nextId) := media] && nextId == old(nextId) + 1
      ensures files == old(files) + {uploadDir + "/" + m.path}
    {
      files := files + {uploadDir + "/" + m.path};
      media := m.(id := Some(nextId));
      rows := rows[nextId := media];
      nextId := nextId + 1;
    }

    /** `update`: only the alternative text and the title of the media's row change; the statement succeeds. */
    method Update(media: Media) returns (ok: bool)
      requires Valid()
      modifies this`rows
      ensures Valid() && ok
      ensures rows == Updated(old(rows), media)
    {
      rows := Updated(rows, media);
      ok := true;
    }

    /**
     * `delete`: an unknown id answers false and removes nothing; otherwise
     * the file and the row go.
     */
    method Delete(id: int) returns (ok: bool)
      requires Valid()
      modifies this`rows, this`files
      ensures Valid()
      ensures ok <==> id in old(rows)
      ensures !ok ==> rows == old(rows) && files == old(files)
      ensures ok ==> rows == old(rows) - {id} && files == old(files) - {uploadDir + "/" + old(rows)[id].path}
    {
      var media := FindById(id);
      if media.None? {
        return false;
      }
      files := files - {uploadDir + "/" + media.value.path};
      rows := rows - {id};
      ok := true;
    }
  }

  /** Deleting what an upload stored gives back the table it started from. */
  lemma DeleteUndoesUpload(rows: map<int, Media>, id: int, media: Media)
    requires id !in rows
    ensures rows[id := media] - {id} == rows
  {
    assert (rows[id := media] - {id}).Keys == rows.Keys;
  }
}
