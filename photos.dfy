/**
 * The `photos` table and storage bucket, shared by the food review page and the
 * photo gallery: the search filter both pages apply to the fetched rows, the
 * public URL both build for an uploaded object, and the upload handler both run
 * (with their own folder and success text).
 */
module PhotoStore {
  import opened Wrappers
  import opened Text
  import Seqs

  /** A row of the `photos` table. */
  datatype Photo = Photo(id: int, name: string, url: string, createdAt: int)

  /** The listed photos: those whose lower-cased name contains the lower-cased search query. */
  function FilteredPhotos(photos: seq<Photo>, query: string): (r: seq<Photo>)
    ensures forall p :: p in r <==> p in photos && NameMatches(p.name, query)
    ensures |r| <= |photos|
  {
    Seqs.Filter(photos, (p: Photo) => NameMatches(p.name, query))
  }

  /** The listed photos keep the order of the fetched rows. */
  lemma FilteredPhotosInOrder(photos: seq<Photo>, query: string)
    ensures Seqs.IsSubsequence(FilteredPhotos(photos, query), photos)
  {
    Seqs.FilterIsSubsequence(photos, (p: Photo) => NameMatches(p.name, query));
  }

  /** With an empty search box every photo is listed. */
  lemma EmptyQueryKeepsAllPhotos(photos: seq<Photo>)
    ensures FilteredPhotos(photos, "") == photos
  {
    forall p | p in photos ensures NameMatches(p.name, "") {
      EmptyQueryMatches(p.name);
    }
    Seqs.FilterKeepsAll(photos, (p: Photo) => NameMatches(p.name, ""));
  }

  /** Queries that differ only in ASCII case list the same photos. */
  lemma FilteredPhotosIgnoreQueryCase(photos: seq<Photo>, q1: string, q2: string)
    requires Lower(q1) == Lower(q2)
    ensures FilteredPhotos(photos, q1) == FilteredPhotos(photos, q2)
  {
    Seqs.FilterCongruent(photos, (p: Photo) => NameMatches(p.name, q1), (p: Photo) => NameMatches(p.name, q2));
  }

  /** The storage service's path for public objects. */
  const PublicObjectPath: string := "/storage/v1/object/public/"

  /** The public URL of an object: the base URL, the public object path, the folder, a slash and
      the object's path. */
  function PublicUrl(base: string, folder: string, path: string): (r: string)
    ensures |r| == |base| + |PublicObjectPath| + |folder| + 1 + |path|
    ensures r[..|base|] == base && r[|r| - |path|..] == path
    ensures r[|base|..|base| + |PublicObjectPath|] == PublicObjectPath
  {
    var r := base + PublicObjectPath + folder + "/" + path;
    assert r == base + (PublicObjectPath + folder + "/" + path);
    assert r == (base + PublicObjectPath + folder + "/") + path;
    r
  }

  /** The inverse of `PublicUrl`: the object path of a public URL under `base` and `folder`. */
  function PathOf(url: string, base: string, folder: string): Option<string> {
    var prefix := base + PublicObjectPath + folder + "/";
    if |prefix| <= |url| && url[..|prefix|] == prefix then Some(url[|prefix|..]) else None
  }

  /** The stored URL gives back the path the storage service returned. */
  lemma PublicUrlRoundTrip(base: string, folder: string, path: string)
    ensures PathOf(PublicUrl(base, folder, path), base, folder) == Some(path)
  {
    var prefix := base + PublicObjectPath + folder + "/";
    assert PublicUrl(base, folder, path) == prefix + path;
  }

  /** Different returned paths are stored as different URLs. */
  lemma PublicUrlInjective(base: string, folder: string, p1: string, p2: string)
    requires PublicUrl(base, folder, p1) == PublicUrl(base, folder, p2)
    ensures p1 == p2
  {
    PublicUrlRoundTrip(base, folder, p1);
    PublicUrlRoundTrip(base, folder, p2);
  }

  /** The file picked in the form. */
  datatype File = File(fileName: string)

  /** The storage service's answer to an upload: the stored object's path, or an error. */
  datatype StorageReply = Stored(path: string) | StorageError

  /** The row inserted into `photos`. */
  datatype NewPhoto = NewPhoto(name: string, url: string)

  /** The text written into the success or the error message element. */
  datatype Notice = Success(text: string) | Failure(text: string)

  /** What an accepted upload did: the bucket and object path it uploaded to, the row it tried to
      insert (none when the storage upload failed), the message shown, and whether the list is re-fetched. */
  datatype Upload = Upload(bucket: string, objectPath: string, row: Option<NewPhoto>, notice: Notice, refetch: bool)

  /** Where a page uploads (`uploadFolder/<file name>` in bucket `photos`), the folder its URL names,
      and its success message. */
  datatype UploadConfig = UploadConfig(uploadFolder: string, urlFolder: string, successText: string)

  /** The storage bucket both pages upload to. */
  const Bucket: string := "photos"

  const UploadErrorText: string := "Error: Error uploading file"
  const InsertErrorText: string := "Error: Error saving to the database"

  /** `uploadPhoto`: rejected (nothing sent) without a file or a name; otherwise the file is uploaded,
      and when that succeeds a row with the name and the public URL of the returned path is inserted. */
  function UploadPhoto(cfg: UploadConfig, base: string, file: Option<File>, name: string,
                       reply: StorageReply, insertOk: bool): (r: Option<Upload>)
    ensures r.None? <==> file.None? || name == ""
    ensures r.Some? ==> r.value.bucket == Bucket && r.value.objectPath == cfg.uploadFolder + "/" + file.value.fileName
    ensures r.Some? ==> (r.value.row.Some? <==> reply.Stored?)
    ensures r.Some? && r.value.row.Some? ==>
      r.value.row.value.name == name && PathOf(r.value.row.value.url, base, cfg.urlFolder) == Some(reply.path)
    ensures r.Some? ==> (r.value.refetch <==> reply.Stored? && insertOk)
    ensures r.Some? ==> (r.value.notice.Success? <==> r.value.refetch)
  {
    if file.None? || name == "" then None
    else
      var objectPath := cfg.uploadFolder + "/" + file.value.fileName;
      match reply
      case StorageError => Some(Upload(Bucket, objectPath, None, Failure(UploadErrorText), false))
      case Stored(path) =>
        PublicUrlRoundTrip(base, cfg.urlFolder, path);
        var row := NewPhoto(name, PublicUrl(base, cfg.urlFolder, path));
        if insertOk then Some(Upload(Bucket, objectPath, Some(row), Success(cfg.successText), true))
        else Some(Upload(Bucket, objectPath, Some(row), Failure(InsertErrorText), false))
  }
}
