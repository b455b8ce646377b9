/**
 * The photo gallery page: the shared `photos` table and bucket, uploaded under
 * `photos/`, listed through the same search filter as the food page, and
 * deleted one photo at a time.
 */
module Gallery {
  import opened Wrappers
  import opened PhotoStore

  /** The gallery uploads to `photos/<file name>` and names `photos` in the URL. */
  const GalleryUpload: UploadConfig := UploadConfig("photos", "photos", "Photo uploaded successfully!")

  /** The URL the gallery stores: the base URL, the public object path, `photos/`, the returned path;
      without a file or a name nothing is uploaded or stored. */
  lemma GalleryUploadStoresPhotosUrl(base: string, file: Option<File>, name: string, reply: StorageReply, insertOk: bool)
    ensures var r := UploadPhoto(GalleryUpload, base, file, name, reply, insertOk);
      && (file.None? || name == "" ==> r.None?)
      && (file.Some? && name != "" ==>
            && r.Some? && r.value.objectPath == "photos/" + file.value.fileName
            && (reply.Stored? ==> r.value.row == Some(NewPhoto(name, base + "/storage/v1/object/public/photos/" + reply.path)))
            && (reply.StorageError? ==> r.value.row == None && r.value.notice == Failure("Error: Error uploading file")))
  {
    if reply.Stored? {
      assert PublicUrl(base, "photos", reply.path) == base + "/storage/v1/object/public/photos/" + reply.path;
    }
  }

  /** What `deletePhoto` did: the id whose row it asked to delete, and whether it re-fetches the list. */
  datatype Deletion = Deletion(request: Option<int>, refetch: bool)

  /** `deletePhoto`: nothing is sent unless the user confirms; the list is re-fetched only when the
      delete reports no error. */
  function DeletePhoto(id: int, confirmed: bool, deleteOk: bool): (r: Deletion)
    ensures r.request.Some? <==> confirmed
    ensures r.request.Some? ==> r.request.value == id
    ensures r.refetch <==> confirmed && deleteOk
  {
    if confirmed then Deletion(Some(id), deleteOk) else Deletion(None, false)
  }

  /** The gallery's list state. */
  class PhotoGallery {
    var photos: seq<Photo>
    var searchQuery: string

    constructor ()
      ensures photos == [] && searchQuery == ""
    {
      photos, searchQuery := [], "";
    }

    method HandleSearchChange(query: string)
      modifies this`searchQuery
      ensures searchQuery == query
    {
      searchQuery := query;
    }

    /** `fetchPhotos` completing: the rows received replace the list, which is kept on error. */
    method FetchPhotosDone(fetched: Option<seq<Photo>>)
      modifies this`photos
      ensures photos == if fetched.Some? then fetched.value else old(photos)
    {
      if fetched.Some? {
        photos := fetched.value;
      }
    }
  }
}
