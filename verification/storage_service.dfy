/**
 * Upload storage: an uploaded file is kept under a fresh random name that
 * keeps the original extension, and is served from /uploads/.
 */
module Storage {
  import opened Wrappers
  import opened JavaText
  import opened SeqUtil

  /** A multipart upload: the client's file name (may be null) and the file's contents, read as text. */
  datatype UploadedFile = UploadedFile(originalFilename: Option<string>, content: string)

  predicate IsEmpty(file: UploadedFile) {
    |file.content| == 0
  }

  /** Why store refused a file; each stands for the RuntimeException of that name. */
  datatype StorageError =
    | EmptyFile     // "Cannot store an empty file."
    | StoreFailed   // "Failed to store file.": the copy raised an IOException

  /** The message of the RuntimeException. */
  function ErrorMessage(e: StorageError): string {
    match e
    case EmptyFile => "Cannot store an empty file."
    case StoreFailed => "Failed to store file."
  }

  const UploadsPath: string := "/uploads/"

  /**
   * The extension kept from the original name: from its last '.' to the
   * end, or "" when the name is null or has no '.'.
   */
  function Extension(name: Option<string>): (ext: string)
    ensures ext == "" <==> name.None? || '.' !in name.value
    ensures ext != "" ==> ext[0] == '.' && '.' !in ext[1..]
    ensures name.Some? ==> |ext| <= |name.value| && ext == name.value[|name.value| - |ext|..]
  {
    if name.Some? && '.' in name.value then
      var dot := LastIndexOf(name.value, '.').value;
      assert name.value[dot..][1..] == name.value[dot + 1..];
      name.value[dot..]
    else ""
  }

  /** The name a file is stored under: the random UUID text, then the extension. */
  function StoredName(uuid: string, originalFilename: Option<string>): (name: string)
    ensures '.' !in uuid ==> Extension(Some(name)) == Extension(originalFilename)
  {
    var name := uuid + Extension(originalFilename);
    assert '.' !in uuid ==> Extension(Some(name)) == Extension(originalFilename) by {
      if '.' !in uuid {
        ExtensionOfSuffix(uuid, Extension(originalFilename));
      }
    }
    name
  }

  /** A name made of a dot-free prefix and an extension has that extension. */
  lemma ExtensionOfSuffix(prefix: string, ext: string)
    requires '.' !in prefix
    requires ext == "" || (ext[0] == '.' && '.' !in ext[1..])
    ensures Extension(Some(prefix + ext)) == ext
  {
    var name := prefix + ext;
    if ext != "" {
      assert name[|prefix|] == '.';
      assert forall k :: 0 <= k < |prefix| ==> name[k] == prefix[k];
      assert forall k :: |prefix| < k < |name| ==> name[k] == ext[1..][k - |prefix| - 1];
      assert name[|prefix|..] == ext;
    } else {
      assert name == prefix;
    }
  }

  /**
   * A UUID text holds no '.', so the stored name has the original extension
   * again, and so has the URL: the extension survives the renaming.
   */
  lemma StoredNameKeepsExtension(uuid: string, originalFilename: Option<string>)
    requires '.' !in uuid
    ensures Extension(Some(StoredName(uuid, originalFilename))) == Extension(originalFilename)
    ensures Extension(Some(UploadsPath + StoredName(uuid, originalFilename))) == Extension(originalFilename)
  {
    var ext := Extension(originalFilename);
    var prefix := UploadsPath + uuid;
    assert '.' !in prefix by {
      assert '.' !in UploadsPath;
      NoneInAppend(UploadsPath, uuid, '.');
    }
    AppendAssoc(UploadsPath, uuid, ext);
    ExtensionOfSuffix(prefix, ext);
  }

  /** A character in neither part is not in their concatenation. */
  lemma NoneInAppend(a: string, b: string, c: char)
    requires c !in a && c !in b
    ensures c !in a + b
  {
    assert forall k :: 0 <= k < |a + b| ==> (a + b)[k] == if k < |a| then a[k] else b[k - |a|];
  }

  /** The uploads directory: stored name to contents. */
  class StorageService {
    var files: map<string, string>

    constructor ()
      ensures files == map[]
    {
      files := map[];
    }

    /**
     * store(file) with uuid the random UUID's text and copySucceeds whether
     * the copy into the directory completes: an empty file and a failed copy
     * are refused, and only a completed copy writes (replacing any file of
     * that name) and returns the URL of the stored name.
     */
    method Store(file: UploadedFile, uuid: string, copySucceeds: bool) returns (r: Result<string, StorageError>)
      modifies this
      ensures IsEmpty(file) ==> r == Failure(EmptyFile)
      ensures !IsEmpty(file) && !copySucceeds ==> r == Failure(StoreFailed)
      ensures r.Failure? ==> files == old(files)
      ensures r.Success? ==>
                && r.value == UploadsPath + StoredName(uuid, file.originalFilename)
                && files == old(files)[StoredName(uuid, file.originalFilename) := file.content]
      ensures r.Success? <==> !IsEmpty(file) && copySucceeds
    {
      if IsEmpty(file) {
        return Failure(EmptyFile);
      }
      var fileExtension := "";
      if file.originalFilename.Some? && '.' in file.originalFilename.value {
        fileExtension := file.originalFilename.value[LastIndexOf(file.originalFilename.value, '.').value..];
      }
      var newFileName := uuid + fileExtension;
      if !copySucceeds {
        return Failure(StoreFailed);
      }
      files := files[newFileName := file.content];
      return Success(UploadsPath + newFileName);
    }
  }
}
