/**
 * The upload widget (components/ui/file-upload.tsx): the storage path an
 * upload is written to, the `isImage` test that decides whether an attached
 * URL is shown as a picture, and the order of the widget's effects when a
 * file is uploaded or an attachment removed.
 *
 * The random token (`Math.random().toString(36).substring(2)`) is a
 * parameter; the fetch of the bytes, and then the reader and the storage
 * upload in the reader's completion callback, are summarised by their outcomes.
 */
module FileUpload {
  import opened Wrappers
  import opened Text

  // ------------------------------------------------------------ file names

  /** `name.split(".").pop()`: the text after the last `.`, or the whole name when it has none. */
  function Extension(name: string): (ext: string)
    ensures |ext| <= |name| && name[|name| - |ext|..] == ext
    ensures '.' !in ext
    ensures '.' !in name ==> ext == name
    ensures '.' in name ==> |ext| < |name| && name[|name| - |ext| - 1] == '.'
  {
    LastPieceIsSuffix(name, ".");
    CharOccurs(name, '.');
    CharOccurs(LastPiece(name, "."), '.');
    LastPiece(name, ".")
  }

  /** The stored file name: the token, a `.`, and the extension of the picked file's name. */
  function FileName(token: string, name: string): (r: string)
    ensures |r| > |token| && r[..|token|] == token && r[|token|] == '.'
    ensures var ext := r[|token| + 1..];
            '.' !in ext && |ext| <= |name| && name[|name| - |ext|..] == ext
  {
    assert (token + "." + Extension(name))[|token| + 1..] == Extension(name);
    token + "." + Extension(name)
  }

  /** An optional id that a JavaScript `if (id)` accepts: present and not the empty string. */
  predicate Present(id: Option<string>)
  {
    id.Some? && id.value != ""
  }

  /** The segments of the storage path: the folder, the owner, the vehicle and record when given, the file. */
  function PathSegments(userId: string, vehicleId: Option<string>, maintenanceId: Option<string>, fileName: string)
    : (segments: seq<string>)
    ensures |segments| == 3 + (if Present(vehicleId) then 1 else 0) + (if Present(maintenanceId) then 1 else 0)
    ensures segments[0] == "maintenance" && segments[1] == userId
    ensures Present(vehicleId) ==> segments[2] == vehicleId.value
    ensures Present(maintenanceId) ==> segments[|segments| - 2] == maintenanceId.value
    ensures segments[|segments| - 1] == fileName
  {
    ["maintenance", userId]
      + (if Present(vehicleId) then [vehicleId.value] else [])
      + (if Present(maintenanceId) then [maintenanceId.value] else [])
      + [fileName]
  }

  /** The path an upload is stored under: its segments joined by `/`. */
  function FilePath(userId: string, vehicleId: Option<string>, maintenanceId: Option<string>, token: string, name: string)
    : string
  {
    Join(PathSegments(userId, vehicleId, maintenanceId, FileName(token, name)), "/")
  }

  /** The path building of `uploadFile`, appending one segment at a time. */
  method BuildFilePath(userId: string, vehicleId: Option<string>, maintenanceId: Option<string>, token: string, name: string)
    returns (filePath: string)
    ensures filePath == FilePath(userId, vehicleId, maintenanceId, token, name)
  {
    var fileExt := Extension(name);
    var fileName := token + "." + fileExt;
    filePath := "maintenance/" + userId;
    ghost var segments := ["maintenance", userId];
    assert filePath == Join(segments, "/");
    if Present(vehicleId) {
      JoinAppend(segments, vehicleId.value, "/");
      filePath := filePath + "/" + vehicleId.value;
      segments := segments + [vehicleId.value];
    }
    if Present(maintenanceId) {
      JoinAppend(segments, maintenanceId.value, "/");
      filePath := filePath + "/" + maintenanceId.value;
      segments := segments + [maintenanceId.value];
    }
    JoinAppend(segments, fileName, "/");
    filePath := filePath + "/" + fileName;
    segments := segments + [fileName];
    assert segments == PathSegments(userId, vehicleId, maintenanceId, fileName);
  }

  /** Every path starts with `maintenance/`, the owner's id and a `/`. */
  lemma FilePathStartsWithOwner(userId: string, vehicleId: Option<string>, maintenanceId: Option<string>, token: string, name: string)
    ensures var path := FilePath(userId, vehicleId, maintenanceId, token, name);
            var head := "maintenance/" + userId + "/";
            |head| < |path| && path[..|head|] == head
  {
    var segments := PathSegments(userId, vehicleId, maintenanceId, FileName(token, name));
    assert |segments| >= 3 && segments[0] == "maintenance" && segments[1] == userId;
    assert segments[1..][1..] == segments[2..];
    var rest := Join(segments[2..], "/");
    assert Join(segments[1..], "/") == userId + "/" + rest;
    var path := Join(segments, "/");
    assert path == "maintenance" + "/" + (userId + "/" + rest);
    assert path == ("maintenance/" + userId + "/") + rest;
  }

  /** Every path ends with a `/` and the stored file name: the token, `.`, the extension. */
  lemma FilePathEndsWithFileName(userId: string, vehicleId: Option<string>, maintenanceId: Option<string>, token: string, name: string)
    ensures var path := FilePath(userId, vehicleId, maintenanceId, token, name);
            var tail := "/" + token + "." + Extension(name);
            |tail| < |path| && path[|path| - |tail|..] == tail
  {
    JoinEndsWithFile(PathSegments(userId, vehicleId, maintenanceId, FileName(token, name)), token, Extension(name));
  }

  /** A `/`-join of at least two segments, the first non-empty, ends with `/` and its last segment. */
  lemma JoinEndsWithFile(segments: seq<string>, token: string, ext: string)
    requires |segments| >= 2 && segments[0] != "" && segments[|segments| - 1] == token + "." + ext
    ensures var path := Join(segments, "/");
            var tail := "/" + token + "." + ext;
            |tail| < |path| && path[|path| - |tail|..] == tail
  {
    var init := segments[..|segments| - 1];
    assert segments == init + [segments[|segments| - 1]];
    JoinAppend(init, token + "." + ext, "/");
    assert Join(init, "/") != "" by {
      if |init| > 1 { assert Join(init, "/")[..|init[0]|] == init[0]; }
    }
    EndsWithFile(Join(init, "/"), token, ext);
  }

  /** Index arithmetic: `a + "/" + (token + "." + ext)` ends with `/`, the token, `.` and `ext`. */
  lemma EndsWithFile(a: string, token: string, ext: string)
    requires a != ""
    ensures var path := a + "/" + (token + "." + ext);
            var tail := "/" + token + "." + ext;
            |tail| < |path| && path[|path| - |tail|..] == tail
  {
  }

  /**
   * When no id, token or file name contains `/`, the path splits back into its
   * segments: owner, then the vehicle exactly when one is given, then the record
   * exactly when one is given, then the stored file name.
   */
  lemma FilePathSegments(userId: string, vehicleId: Option<string>, maintenanceId: Option<string>, token: string, name: string)
    requires '/' !in userId && '/' !in token && '/' !in Extension(name)
    requires vehicleId.Some? ==> '/' !in vehicleId.value
    requires maintenanceId.Some? ==> '/' !in maintenanceId.value
    ensures Split(FilePath(userId, vehicleId, maintenanceId, token, name), "/")
            == PathSegments(userId, vehicleId, maintenanceId, FileName(token, name))
  {
    var fileName := FileName(token, name);
    assert '/' !in fileName;
    SegmentsFreeOfSlash(userId, vehicleId, maintenanceId, fileName);
    SplitOfJoin(PathSegments(userId, vehicleId, maintenanceId, fileName), "/");
  }

  lemma SegmentsFreeOfSlash(userId: string, vehicleId: Option<string>, maintenanceId: Option<string>, fileName: string)
    requires '/' !in userId && '/' !in fileName
    requires vehicleId.Some? ==> '/' !in vehicleId.value
    requires maintenanceId.Some? ==> '/' !in maintenanceId.value
    ensures var segments := PathSegments(userId, vehicleId, maintenanceId, fileName);
            forall k :: 0 <= k < |segments| ==> !Occurs(segments[k], "/")
  {
    var segments := PathSegments(userId, vehicleId, maintenanceId, fileName);
    forall k | 0 <= k < |segments|
      ensures !Occurs(segments[k], "/")
    {
      assert '/' !in segments[k];
      CharOccurs(segments[k], '/');
    }
  }

  // ------------------------------------------------------------- isImage

  /** The alternatives of the `isImage` pattern `\.(jpg|jpeg|png|gif|heic|webp)$`. */
  const ImageExtensions: seq<string> := ["jpg", "jpeg", "png", "gif", "heic", "webp"]

  /**
   * An input character matches a lower-case pattern character under the `i`
   * flag without the `u` flag: the character itself or, for a letter `a`-`z`,
   * its ASCII upper-case form (no non-ASCII character folds onto these letters).
   */
  predicate FoldsTo(c: char, l: char)
  {
    c == l || ('a' <= l <= 'z' && c as int == l as int - 32)
  }

  predicate MatchesFolded(s: string, pattern: string)
  {
    |s| == |pattern| && forall k :: 0 <= k < |s| ==> FoldsTo(s[k], pattern[k])
  }

  /** The pattern matches at index `i`: a `.` there and one alternative up to the end of the text. */
  predicate MatchAt(url: string, i: int)
  {
    0 <= i < |url| && url[i] == '.' && exists e | e in ImageExtensions :: MatchesFolded(url[i + 1..], e)
  }

  /** The regular-expression search of `url.match(...)`: the first index where the pattern matches. */
  function Search(url: string, from: nat): (r: Option<nat>)
    decreases |url| - from
  {
    if from >= |url| then None
    else if MatchAt(url, from) then Some(from)
    else Search(url, from + 1)
  }

  /** `isImage(url)`: the match is not null. */
  predicate IsImage(url: string)
  {
    Search(url, 0).Some?
  }

  /** The search from `from` succeeds exactly when the pattern matches at some index from there on. */
  lemma {:induction false} SearchFinds(url: string, from: nat)
    ensures Search(url, from).Some? <==> exists i :: from <= i < |url| && MatchAt(url, i)
    decreases |url| - from
  {
    if from < |url| && !MatchAt(url, from) {
      SearchFinds(url, from + 1);
      if exists i :: from <= i < |url| && MatchAt(url, i) {
        var i :| from <= i < |url| && MatchAt(url, i);
        assert i != from;
      }
    }
  }

  /**
   * `isImage(url)` holds exactly when the URL ends with a `.` and one of the
   * image extensions, in any mix of ASCII upper and lower case.
   */
  lemma IsImageSuffix(url: string)
    ensures IsImage(url) <==>
              exists e :: e in ImageExtensions && |e| < |url| && url[|url| - |e| - 1] == '.'
                          && MatchesFolded(url[|url| - |e|..], e)
  {
    SearchFinds(url, 0);
    if IsImage(url) {
      var i :| 0 <= i < |url| && MatchAt(url, i);
      var e :| e in ImageExtensions && MatchesFolded(url[i + 1..], e);
      assert i == |url| - |e| - 1;
    }
    if exists e :: e in ImageExtensions && |e| < |url| && url[|url| - |e| - 1] == '.'
                   && MatchesFolded(url[|url| - |e|..], e) {
      var e :| e in ImageExtensions && |e| < |url| && url[|url| - |e| - 1] == '.'
               && MatchesFolded(url[|url| - |e|..], e);
      assert MatchAt(url, |url| - |e| - 1);
    }
  }

  /** Upper-case extensions count: a name ending in `.JPG` is shown as an image. */
  lemma UpperCaseExtensionIsImage(stem: string)
    ensures IsImage(stem + ".JPG")
  {
    var url := stem + ".JPG";
    var t := url[|url| - 3..];
    assert t == "JPG";
    assert MatchesFolded(t, "jpg") by {
      assert FoldsTo(t[0], 'j') && FoldsTo(t[1], 'p') && FoldsTo(t[2], 'g');
    }
    assert url[|url| - 4] == '.';
    assert "jpg" in ImageExtensions;
    IsImageSuffix(url);
  }

  // ------------------------------------------------------------- effects

  /** What the widget does outside itself, in the order it does it. */
  datatype Effect =
    | StorageUpload(path: string, contentType: string)   // upload to the `maintenance` bucket, upsert
    | UploadComplete(url: string, path: string)          // `onUploadComplete(publicUrl, filePath)`
    | UploadError(message: string)                       // `onUploadError(...)`
    | Remove(url: string)                                // `onRemove(url)`
    | RemoveFromDb(url: string)                          // `onRemoveFromDb(url)`

  /**
   * How the file's bytes were fetched (`fetch(file.uri)` then `blob()`): this
   * happens inside the `try` of `uploadFile`.
   */
  datatype FetchOutcome = FetchFailed | Fetched

  /**
   * How the reader's completion callback went: the reader failed (its result is
   * `null`, so splitting it throws before anything is uploaded; a result with no
   * comma ends the same way, as `decode(undefined)` throws), the storage
   * service rejected the upload, or it stored the object and reports its public URL.
   */
  datatype LoadOutcome = ReaderFailed | UploadRejected | Uploaded(publicUrl: string)

  /** What the completion callback closes over: the path built for this upload and its content type. */
  datatype PendingUpload = PendingUpload(path: string, mimeType: string)

  const UploadFailedMessage: string := "Kunne ikke laste opp filen"

  /** One mounted upload widget: its properties and its `isUploading` state. */
  class FileUploader {
    const userId: string
    const vehicleId: Option<string>
    const maintenanceId: Option<string>
    /** Whether the parent supplied `onRemoveFromDb`. */
    const hasRemoveFromDb: bool
    var isUploading: bool
    var effects: seq<Effect>

    constructor (userId: string, vehicleId: Option<string>, maintenanceId: Option<string>, hasRemoveFromDb: bool)
      ensures this.userId == userId && this.vehicleId == vehicleId && this.maintenanceId == maintenanceId
      ensures this.hasRemoveFromDb == hasRemoveFromDb
      ensures !isUploading && effects == []
    {
      this.userId := userId;
      this.vehicleId := vehicleId;
      this.maintenanceId := maintenanceId;
      this.hasRemoveFromDb := hasRemoveFromDb;
      isUploading := false;
      effects := [];
    }

    /**
     * `uploadFile`: mark the widget busy, build the path, fetch the bytes and
     * start the file reader. A failed fetch is caught: the error is reported
     * and the widget is no longer busy. Otherwise `uploadFile` returns as soon
     * as the reader has started, leaving the rest to its completion callback
     * (OnLoadEnd), which closes over the path.
     */
    method UploadFile(name: string, mimeType: string, token: string, fetch: FetchOutcome)
      returns (pending: Option<PendingUpload>)
      modifies this`isUploading, this`effects
      ensures var path := FilePath(userId, vehicleId, maintenanceId, token, name);
              match fetch
              case FetchFailed =>
                pending.None? && effects == old(effects) + [UploadError(UploadFailedMessage)] && !isUploading
              case Fetched =>
                pending == Some(PendingUpload(path, mimeType)) && effects == old(effects) && isUploading
    {
      isUploading := true;
      var filePath := BuildFilePath(userId, vehicleId, maintenanceId, token, name);
      if fetch.FetchFailed? {
        effects := effects + [UploadError(UploadFailedMessage)];
        isUploading := false;
        return None;
      }
      pending := Some(PendingUpload(filePath, mimeType));
    }

    /**
     * `reader.onloadend` of one upload. It runs outside the `try` of
     * `uploadFile`, so a failure here is reported to nobody and leaves the
     * widget busy. A stored upload hands the public URL and the very path that
     * was uploaded to `onUploadComplete` and clears the busy flag, whether or
     * not other uploads are still in flight.
     */
    method OnLoadEnd(upload: PendingUpload, load: LoadOutcome)
      modifies this`isUploading, this`effects
      ensures match load
              case ReaderFailed =>
                effects == old(effects) && isUploading == old(isUploading)
              case UploadRejected =>
                effects == old(effects) + [StorageUpload(upload.path, upload.mimeType)] && isUploading == old(isUploading)
              case Uploaded(url) =>
                effects == old(effects) + [StorageUpload(upload.path, upload.mimeType), UploadComplete(url, upload.path)]
                && !isUploading
    {
      if load.ReaderFailed? {
        // `reader.result.split(",")` throws on `null`, `decode(undefined)` on a comma-less result
        return;
      }
      effects := effects + [StorageUpload(upload.path, upload.mimeType)];
      if load.UploadRejected? {
        // the upload error is thrown inside the callback
        return;
      }
      effects := effects + [UploadComplete(load.publicUrl, upload.path)];
      isUploading := false;
    }

    /** `handleRemove`: `onRemove(url)` first, then `onRemoveFromDb(url)` when the parent supplied it. */
    method HandleRemove(url: string)
      modifies this`effects
      ensures effects == old(effects) + [Remove(url)] + (if hasRemoveFromDb then [RemoveFromDb(url)] else [])
    {
      effects := effects + [Remove(url)];
      if hasRemoveFromDb {
        effects := effects + [RemoveFromDb(url)];
      }
    }
  }
}
