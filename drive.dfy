/** The Google Drive side of the serverless handler (`api/process.js`):
    the find-or-create of the upload folder, the upload with its public
    share, and the URLs built from the new file's id. Google's answers are
    the fields of a DriveApi value. */
module Drive {
  import opened Wrappers
  import opened Text
  import opened Media
  import opened Runtime

  /** What `files.create` answers about an uploaded file. */
  datatype DriveFile = DriveFile(id: string, webViewLink: Option<string>)

  /** Google's answers: the folder ids a search finds, the id of a new
      folder, the new file for (name, MIME type, parent folder), and whether
      the public share was granted; Failure carries the thrown message. */
  datatype DriveApi = DriveApi(
    listFolders: string -> Result<seq<string>, string>,
    createFolder: string -> Result<string, string>,
    createFile: (string, string, string) -> Result<DriveFile, string>,
    share: string -> Outcome<string>)

  const FolderName := "WordPress Thumbnails"
  const FolderMimeType := "application/vnd.google-apps.folder"
  const FolderErrorPrefix := "Failed to get/create folder: "
  const UploadErrorPrefix := "Failed to upload to Google Drive: "

  /** The Drive search expression for a folder of that name not in the bin. */
  function FolderQuery(name: string): string
  {
    "name='" + name + "' and mimeType='" + FolderMimeType + "' and trashed=false"
  }

  /** `getOrCreateFolder`: the first folder found is reused; one is created
      only when the search finds none; every failure is wrapped. */
  function FindOrCreateFolder(api: DriveApi, name: string): (r: (Result<string, string>, seq<Step>))
    ensures |r.1| >= 1 && r.1[0] == ListFolders(FolderQuery(name))
    ensures r.0.Failure? ==> StartsWith(r.0.error, FolderErrorPrefix)
    ensures CreateFolder(name) in r.1 <==>
      api.listFolders(FolderQuery(name)).Success? && api.listFolders(FolderQuery(name)).value == []
    ensures api.listFolders(FolderQuery(name)).Success? && api.listFolders(FolderQuery(name)).value != [] ==>
      r == (Success(api.listFolders(FolderQuery(name)).value[0]), [ListFolders(FolderQuery(name))])
    ensures api.listFolders(FolderQuery(name)).Failure? ==>
      r.0 == Failure(FolderErrorPrefix + api.listFolders(FolderQuery(name)).error)
    ensures api.listFolders(FolderQuery(name)).Success? && api.listFolders(FolderQuery(name)).value == [] ==>
      && r.1 == [ListFolders(FolderQuery(name)), CreateFolder(name)]
      && (r.0.Success? <==> api.createFolder(name).Success?)
      && (r.0.Success? ==> r.0.value == api.createFolder(name).value)
      && (r.0.Failure? ==> r.0.error == FolderErrorPrefix + api.createFolder(name).error)
  {
    var query := FolderQuery(name);
    match api.listFolders(query)
    case Failure(m) => (Failure(FolderErrorPrefix + m), [ListFolders(query)])
    case Success(ids) =>
      if |ids| > 0 then (Success(ids[0]), [ListFolders(query)])
      else
        var steps := [ListFolders(query), CreateFolder(name)];
        match api.createFolder(name)
        case Failure(m) => (Failure(FolderErrorPrefix + m), steps)
        case Success(id) => (Success(id), steps)
  }

  // ---------------------------------------------------------------------
  // The URL formats built from a file id.

  const DirectUrlPrefix := "https://lh3.googleusercontent.com/d/"
  const DownloadUrlPrefix := "https://drive.google.com/uc?id="
  const ThumbnailUrlPrefix := "https://drive.google.com/thumbnail?id="
  const ThumbnailUrlSuffix := "&sz=w1000"

  /** The text of `url` after `prefix` and before `suffix`, when it has both. */
  function Between(url: string, prefix: string, suffix: string): Option<string>
  {
    if |prefix| + |suffix| <= |url| && url[..|prefix|] == prefix && url[|url| - |suffix|..] == suffix
    then Some(url[|prefix|..|url| - |suffix|])
    else None
  }

  /** The `lh3.googleusercontent.com` form; it gives back its file id. */
  function DirectImageUrl(fileId: string): (u: string)
    ensures Between(u, DirectUrlPrefix, "") == Some(fileId)
  {
    var u := DirectUrlPrefix + fileId;
    assert u[..|DirectUrlPrefix|] == DirectUrlPrefix && u[|u|..] == "";
    assert u[|DirectUrlPrefix|..|u|] == fileId;
    u
  }

  /** The `uc?id=` download form; it gives back its file id. */
  function DownloadUrl(fileId: string): (u: string)
    ensures Between(u, DownloadUrlPrefix, "") == Some(fileId)
  {
    var u := DownloadUrlPrefix + fileId;
    assert u[..|DownloadUrlPrefix|] == DownloadUrlPrefix && u[|u|..] == "";
    assert u[|DownloadUrlPrefix|..|u|] == fileId;
    u
  }

  /** The 1000-pixel thumbnail form; it gives back its file id. */
  function ThumbnailUrl(fileId: string): (u: string)
    ensures Between(u, ThumbnailUrlPrefix, ThumbnailUrlSuffix) == Some(fileId)
  {
    var u := ThumbnailUrlPrefix + fileId + ThumbnailUrlSuffix;
    assert u[..|ThumbnailUrlPrefix|] == ThumbnailUrlPrefix;
    assert u[|u| - |ThumbnailUrlSuffix|..] == ThumbnailUrlSuffix;
    assert u[|ThumbnailUrlPrefix|..|u| - |ThumbnailUrlSuffix|] == fileId;
    u
  }

  /** So distinct files never share an image URL. */
  lemma UrlsInjective(a: string, b: string)
    requires DirectImageUrl(a) == DirectImageUrl(b) || DownloadUrl(a) == DownloadUrl(b)
          || ThumbnailUrl(a) == ThumbnailUrl(b)
    ensures a == b
  {
  }

  /** What `uploadImageToDrive` returns. */
  datatype DriveResult = DriveResult(
    fileId: string, filename: string, directImageUrl: string,
    alternativeUrls: AlternativeUrls, webViewLink: Option<string>)

  /** The result built from an uploaded file: every URL names that file. */
  function ShapeResult(file: DriveFile, filename: string): (d: DriveResult)
    ensures d.fileId == file.id && d.filename == filename && d.webViewLink == file.webViewLink
    ensures Between(d.directImageUrl, DirectUrlPrefix, "") == Some(d.fileId)
    ensures Between(d.alternativeUrls.driveDownload, DownloadUrlPrefix, "") == Some(d.fileId)
    ensures Between(d.alternativeUrls.driveThumbnail, ThumbnailUrlPrefix, ThumbnailUrlSuffix) == Some(d.fileId)
  {
    DriveResult(file.id, filename, DirectImageUrl(file.id),
                AlternativeUrls(DownloadUrl(file.id), ThumbnailUrl(file.id)), file.webViewLink)
  }

  /** `uploadImageToDrive` of `api/process.js` with `Date.now()` as `now`:
      find the folder, create the file in it, share it with anyone. Every
      failure is wrapped; a success named the file `push-image-<now>.<ext>`
      after the sniffed type, placed it in the folder found or created, and
      shared it before answering. */
  function UploadToDrive(api: DriveApi, image: seq<byte>, now: nat): (r: (Result<DriveResult, string>, seq<Step>))
    ensures |r.1| >= 1 && r.1[0] == ListFolders(FolderQuery(FolderName))
    ensures r.0.Failure? ==> StartsWith(r.0.error, UploadErrorPrefix)
    ensures FindOrCreateFolder(api, FolderName).0.Failure? ==>
      r == (Failure(UploadErrorPrefix + FindOrCreateFolder(api, FolderName).0.error), FindOrCreateFolder(api, FolderName).1)
    ensures r.0.Success? ==>
      var mimeType := DetectImageMimeType(image);
      var folder := FindOrCreateFolder(api, FolderName);
      && r.0.value.filename == DriveFilename(now, GetFileExtension(mimeType))
      && folder.0.Success?
      && r.1 == folder.1 + [CreateFile(r.0.value.filename, mimeType, folder.0.value),
                            ShareWithAnyone(r.0.value.fileId)]
      && r.0.value.directImageUrl == DirectImageUrl(r.0.value.fileId)
      && r.0.value.alternativeUrls == AlternativeUrls(DownloadUrl(r.0.value.fileId), ThumbnailUrl(r.0.value.fileId))
    ensures
      var mimeType := DetectImageMimeType(image);
      var filename := DriveFilename(now, GetFileExtension(mimeType));
      var folder := FindOrCreateFolder(api, FolderName).0;
      var file := if folder.Success? then api.createFile(filename, mimeType, folder.value) else Failure("");
      && (r.0.Success? <==> folder.Success? && file.Success? && api.share(file.value.id).Pass?)
      && (r.0.Success? ==> r.0.value == ShapeResult(file.value, filename))
      && (folder.Success? && file.Failure? ==> r.0 == Failure(UploadErrorPrefix + file.error))
      && (folder.Success? && file.Success? && api.share(file.value.id).Fail? ==>
            r.0 == Failure(UploadErrorPrefix + api.share(file.value.id).error))
  {
    var mimeType := DetectImageMimeType(image);
    var filename := DriveFilename(now, GetFileExtension(mimeType));
    var (folder, found) := FindOrCreateFolder(api, FolderName);
    match folder
    case Failure(m) => (Failure(UploadErrorPrefix + m), found)
    case Success(folderId) =>
      var created := found + [CreateFile(filename, mimeType, folderId)];
      match api.createFile(filename, mimeType, folderId)
      case Failure(m) => (Failure(UploadErrorPrefix + m), created)
      case Success(file) =>
        var shared := created + [ShareWithAnyone(file.id)];
        match api.share(file.id)
        case Fail(m) => (Failure(UploadErrorPrefix + m), shared)
        case Pass => (Success(ShapeResult(file, filename)), shared)
  }
}
