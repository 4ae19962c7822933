/**
 * The upload page: a thumbnail picked under a size ceiling, then a course
 * record created in the store, always awaiting moderation.
 */
module Upload {
  import opened Wrappers
  import opened Auth
  import opened Store
  import opened Courses

  /** The ceiling on a thumbnail: `700 * 1024` bytes, inclusive. */
  const MaxThumbnailBytes: nat := 700 * 1024

  const TooLargeError := "Ukuran file terlalu besar. Maksimal 700KB."
  const IncompleteError := "Harap lengkapi semua field dan pastikan Anda login."
  const UploadFailedError := "Gagal mengunggah. Coba lagi."

  /** A picked file: the page looks only at its size; its bytes reach the store through `encode`. */
  datatype File = File(name: string, bytes: seq<bv8>)
  {
    /** `File.size`: the length of the file in bytes. */
    function size(): nat
    {
      |bytes|
    }
  }

  /** How a submission ended: refused before any write, written under the store's id, or failed. */
  datatype SubmitOutcome = Incomplete | Uploaded(id: string) | Failed

  /** `file && file.size > 700 * 1024`: only a present file strictly above the ceiling is refused. */
  function TooLarge(file: Option<File>): (r: bool)
    ensures file.None? ==> !r
    ensures file.Some? && file.value.size() <= 716800 ==> !r
    ensures file.Some? && file.value.size() >= 716801 ==> r
  {
    file.Some? && file.value.size() > MaxThumbnailBytes
  }

  /** The record a submission writes: the form's fields, the encoded thumbnail, the creator, and the pending status. */
  function NewCourse(title: string, description: string, thumbnailBase64: string, user: User): (c: Course)
    ensures IsPending(c)
    ensures c.creatorId == user.uid && c.creatorName == user.displayName
    ensures c.thumbnailBase64 == thumbnailBase64
    ensures c.title == title && c.description == description
  {
    Course(title, description, thumbnailBase64, user.uid, user.displayName, Pending)
  }

  class UploadPage {
    var title: string
    var description: string
    var thumbnail: Option<File>
    var isUploading: bool
    var error: string

    constructor ()
      ensures title == "" && description == "" && thumbnail == None && !isUploading && error == ""
    {
      title, description, thumbnail, isUploading, error := "", "", None, false, "";
    }

    /** `disabled={isUploading || !thumbnail}`, negated. */
    function SubmitEnabled(): (r: bool)
      reads this
      ensures r ==> thumbnail.Some?
      ensures isUploading ==> !r
      ensures !isUploading && thumbnail.Some? ==> r
    {
      !isUploading && thumbnail.Some?
    }

    /** The title input's change handler. */
    method EditTitle(value: string)
      modifies this
      ensures title == value
      ensures description == old(description) && thumbnail == old(thumbnail) && isUploading == old(isUploading) && error == old(error)
    {
      title := value;
    }

    /** The description textarea's change handler. */
    method EditDescription(value: string)
      modifies this
      ensures description == value
      ensures title == old(title) && thumbnail == old(thumbnail) && isUploading == old(isUploading) && error == old(error)
    {
      description := value;
    }

    /**
     * The file input's change handler: a file over the ceiling is refused,
     * with an error and no thumbnail; anything else (a file up to and
     * including the ceiling, or no file) clears the error and becomes the
     * thumbnail.
     */
    method HandleFileChange(file: Option<File>)
      modifies this
      ensures TooLarge(file) ==> error == TooLargeError && thumbnail == None && !SubmitEnabled()
      ensures !TooLarge(file) ==> error == "" && thumbnail == file
      ensures !TooLarge(file) ==> (SubmitEnabled() <==> file.Some? && !isUploading)
      ensures title == old(title) && description == old(description) && isUploading == old(isUploading)
    {
      if TooLarge(file) {
        error := TooLargeError;
        thumbnail := None;
        return;
      }
      error := "";
      thumbnail := file;
    }

    /**
     * The submit handler. Without a user or a thumbnail it sets an error and
     * writes nothing. Otherwise the thumbnail is encoded and one course is
     * added, always pending; a failed encoding or a rejected write sets the
     * generic error. Either way the upload flag ends cleared.
     */
    method HandleSubmit(user: Option<User>, encode: File -> Option<string>, store: Collection<Course>, newId: string, fault: bool)
      returns (outcome: SubmitOutcome)
      requires newId !in store.docs
      modifies this, store
      ensures outcome ==
        if user.None? || old(thumbnail).None? then Incomplete
        else if encode(old(thumbnail).value).None? || fault then Failed
        else Uploaded(newId)
      ensures outcome.Incomplete? ==> error == IncompleteError && isUploading == old(isUploading) && store.docs == old(store.docs)
      ensures !outcome.Incomplete? ==> !isUploading && SubmitEnabled()
      ensures outcome.Failed? ==> error == UploadFailedError && store.docs == old(store.docs)
      ensures outcome.Uploaded? ==> error == ""
      ensures outcome.Uploaded? ==>
        store.docs == old(store.docs)[newId := NewCourse(title, description, encode(old(thumbnail).value).value, user.value)]
      ensures title == old(title) && description == old(description) && thumbnail == old(thumbnail)
    {
      if user.None? || thumbnail.None? {
        error := IncompleteError;
        return Incomplete;
      }
      isUploading := true;
      error := "";
      var encoded := encode(thumbnail.value);
      if encoded.None? {
        error := UploadFailedError;
        isUploading := false;
        return Failed;
      }
      var ok := store.Add(newId, NewCourse(title, description, encoded.value, user.value), fault);
      if !ok {
        error := UploadFailedError;
        isUploading := false;
        return Failed;
      }
      isUploading := false;
      return Uploaded(newId);
    }
  }
}
