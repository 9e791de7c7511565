/** The admin `ProductsController`: the image-upload rule shared by `Create`
    and `Edit`, and the not-found branch of `Delete`. File writes, the
    repository and the unit of work are outside the model; whether they
    complete is an input. */
module AdminProducts {
  import opened Wrappers
  import opened Text
  import opened Guids

  /** The posted `IFormFile`: its declared content type, its length in
      bytes and the client's file name. */
  datatype UploadedFile = UploadedFile(contentType: string, length: int, fileName: string)

  /** Why a form is shown again. */
  datatype FormError = InvalidForm | TypeNotAllowed | FileTooLarge | SaveFailed

  /** What `Create` and `Edit` (POST) render: the form again with an error,
      or a redirect to the list after the product was saved with `imageUrl`. */
  datatype FormOutcome = ShowForm(error: FormError) | RedirectToIndex(imageUrl: Option<string>)

  /** The outcome of the upload rule. */
  datatype UploadCheck = NoUpload | WrongType | TooLarge | Accepted(url: string)

  const AllowedTypes: seq<string> := ["image/jpeg", "image/jpg", "image/png", "image/gif", "image/webp"]
  const MaxImageBytes: int := 5 * 1024 * 1024
  const ImageFolderUrl: string := "/images/products/"

  /** `Path.GetExtension` with '/' as the directory separator: scanning
      `path[..i]` from its end, the text from the last '.' on, unless a
      separator comes first or the dot is the path's last character. */
  function ExtensionFrom(path: string, i: nat): (e: string)
    requires i <= |path|
    requires forall k :: i <= k < |path| ==> path[k] != '.' && path[k] != '/'
    ensures e == [] || (2 <= |e| <= |path| && e[0] == '.' && e == path[|path| - |e|..])
    ensures forall k :: 1 <= k < |e| ==> e[k] != '.' && e[k] != '/'
    ensures e == [] && (i == |path| ==> path == [] || path[|path| - 1] != '.') ==>
      forall k :: 0 <= k < i && path[k] == '.' ==> exists j :: k < j < i && path[j] == '/'
    decreases i
  {
    if i == 0 then []
    else if path[i - 1] == '.' then (if i == |path| then [] else path[i - 1..])
    else if path[i - 1] == '/' then []
    else ExtensionFrom(path, i - 1)
  }

  /** The extension of a file name, including its dot, or "" when it has none. */
  function Extension(fileName: string): (e: string)
    ensures e == [] || (2 <= |e| <= |fileName| && e[0] == '.' && e == fileName[|fileName| - |e|..])
    ensures forall k :: 1 <= k < |e| ==> e[k] != '.' && e[k] != '/'
    ensures e == [] && (fileName == [] || fileName[|fileName| - 1] != '.') ==>
      forall k :: 0 <= k < |fileName| && fileName[k] == '.' ==>
        exists j :: k < j < |fileName| && fileName[j] == '/'
  {
    ExtensionFrom(fileName, |fileName|)
  }

  /** A name without a dot has no extension. */
  lemma NoExtensionExample()
    ensures Extension("img") == ""
  {
    var p := "img";
    assert p[2] == 'g' && p[1] == 'm' && p[0] == 'i';
    assert ExtensionFrom(p, 3) == ExtensionFrom(p, 2) == ExtensionFrom(p, 1) == ExtensionFrom(p, 0);
  }

  /** The extension keeps its dot. */
  lemma ExtensionExample()
    ensures Extension("photo.jpg") == ".jpg"
  {
    var p := "photo.jpg";
    assert ExtensionFrom(p, 6) == ".jpg" by {
      assert p[5] == '.' && p[5..] == ".jpg";
    }
    assert ExtensionFrom(p, 9) == ExtensionFrom(p, 6) by {
      assert p[8] == 'g' && p[7] == 'p' && p[6] == 'j';
    }
  }

  /** The URL an accepted upload is served from: the folder, the new GUID in
      its "D" form, and the original extension. */
  function ImageUrl(name: Guid, fileName: string): (url: string)
    ensures |url| == |ImageFolderUrl| + 36 + |Extension(fileName)|
    ensures url[..|ImageFolderUrl|] == ImageFolderUrl
    ensures url[|ImageFolderUrl|..|ImageFolderUrl| + 36] == FormatGuid(name)
    ensures url[|ImageFolderUrl| + 36..] == Extension(fileName)
  {
    ImageFolderUrl + FormatGuid(name) + Extension(fileName)
  }

  /** Distinct GUIDs give distinct URLs, so an upload never overwrites an
      earlier one. */
  lemma ImageUrlsAreUnique(a: Guid, b: Guid, fileA: string, fileB: string)
    requires a != b
    ensures ImageUrl(a, fileA) != ImageUrl(b, fileB)
  {
    if ImageUrl(a, fileA) == ImageUrl(b, fileB) {
      assert FormatGuid(a) == FormatGuid(b);
      ParseFormatRoundTrip(a);
      ParseFormatRoundTrip(b);
    }
  }

  /** The upload rule of `Create` and `Edit`: only a present, non-empty file
      is considered; its content type must be one of the allowed image types,
      checked first, and its length at most 5 MB. */
  function CheckUpload(file: Option<UploadedFile>, name: Guid): (r: UploadCheck)
    ensures r == NoUpload <==> file.None? || file.value.length <= 0
    ensures r == WrongType <==> file.Some? && file.value.length > 0 && file.value.contentType !in AllowedTypes
    ensures r == TooLarge <==>
      file.Some? && file.value.contentType in AllowedTypes && file.value.length > MaxImageBytes
    ensures r.Accepted? <==>
      file.Some? && file.value.contentType in AllowedTypes && 0 < file.value.length <= MaxImageBytes
    ensures r.Accepted? ==> r.url == ImageUrl(name, file.value.fileName)
  {
    if file.None? || file.value.length <= 0 then NoUpload
    else if file.value.contentType !in AllowedTypes then WrongType
    else if file.value.length > MaxImageBytes then TooLarge
    else Accepted(ImageUrl(name, file.value.fileName))
  }

  /** The size limit is inclusive. */
  lemma UploadSizeBoundary(name: Guid)
    ensures CheckUpload(Some(UploadedFile("image/png", 5242880, "a.png")), name).Accepted?
    ensures CheckUpload(Some(UploadedFile("image/png", 5242881, "a.png")), name) == TooLarge
    ensures CheckUpload(Some(UploadedFile("image/png", 0, "a.png")), name) == NoUpload
  {
    assert "image/png" == AllowedTypes[2];
  }

  /** The type check comes first, and compares the content type exactly. */
  lemma UploadTypeFirst(name: Guid)
    ensures CheckUpload(Some(UploadedFile("image/bmp", 5242881, "a.bmp")), name) == WrongType
    ensures CheckUpload(Some(UploadedFile("IMAGE/PNG", 10, "a.png")), name) == WrongType
  {
    assert "image/bmp"[6] == 'b';
    assert forall t :: t in AllowedTypes ==> t[6] != 'b' && t[0] == 'i';
  }

  /** The image URL a product is saved with: an upload error aborts, no
      upload keeps `current`, an accepted upload replaces it. */
  function ChosenImage(check: UploadCheck, current: Option<string>): (r: Result<Option<string>, FormError>)
    ensures check == WrongType <==> r == Err(TypeNotAllowed)
    ensures check == TooLarge <==> r == Err(FileTooLarge)
    ensures check == NoUpload ==> r == Ok(current)
    ensures check.Accepted? ==> r == Ok(Some(check.url))
  {
    match check
    case NoUpload => Ok(current)
    case WrongType => Err(TypeNotAllowed)
    case TooLarge => Err(FileTooLarge)
    case Accepted(url) => Ok(Some(url))
  }

  /** `Create` (POST): an invalid form is shown again; then the upload rule;
      a product without an upload has no image. `saved` says whether the
      file write and the save completed without an exception. */
  function Create(formValid: bool, file: Option<UploadedFile>, name: Guid, saved: bool): (r: FormOutcome)
    ensures !formValid ==> r == ShowForm(InvalidForm)
    ensures formValid && CheckUpload(file, name) == WrongType ==> r == ShowForm(TypeNotAllowed)
    ensures formValid && CheckUpload(file, name) == TooLarge ==> r == ShowForm(FileTooLarge)
    ensures r.RedirectToIndex? <==> formValid && saved && (CheckUpload(file, name).NoUpload? || CheckUpload(file, name).Accepted?)
    ensures r.RedirectToIndex? && CheckUpload(file, name) == NoUpload ==> r.imageUrl == None
    ensures r.RedirectToIndex? && CheckUpload(file, name).Accepted? ==> r.imageUrl == Some(CheckUpload(file, name).url)
  {
    if !formValid then ShowForm(InvalidForm)
    else match ChosenImage(CheckUpload(file, name), None)
      case Err(e) => ShowForm(e)
      case Ok(url) => if saved then RedirectToIndex(url) else ShowForm(SaveFailed)
  }

  /** `Edit` (POST): as `Create`, but without an upload the product keeps
      `existingImageUrl`; an empty one means no image. */
  function Edit(formValid: bool, file: Option<UploadedFile>, existingImageUrl: Option<string>, name: Guid, saved: bool): (r: FormOutcome)
    ensures !formValid ==> r == ShowForm(InvalidForm)
    ensures r.RedirectToIndex? <==> formValid && saved && (CheckUpload(file, name).NoUpload? || CheckUpload(file, name).Accepted?)
    ensures r.RedirectToIndex? && CheckUpload(file, name) == NoUpload ==>
      r.imageUrl == if IsNullOrEmpty(existingImageUrl) then None else existingImageUrl
  {
    if !formValid then ShowForm(InvalidForm)
    else match ChosenImage(CheckUpload(file, name), existingImageUrl)
      case Err(e) => ShowForm(e)
      case Ok(url) =>
        if !saved then ShowForm(SaveFailed)
        else RedirectToIndex(if IsNullOrEmpty(url) then None else url)
  }

  /** `Edit` applies the same allow-list and size limit as `Create`: they
      reject the same files with the same error and store the same URL for
      an accepted upload. */
  lemma EditMatchesCreate(formValid: bool, file: Option<UploadedFile>, existingImageUrl: Option<string>, name: Guid, saved: bool)
    requires CheckUpload(file, name) != NoUpload
    ensures Edit(formValid, file, existingImageUrl, name, saved) == Create(formValid, file, name, saved)
  {
    var check := CheckUpload(file, name);
    if check.Accepted? {
      assert !IsNullOrEmpty(Some(check.url)) by {
        assert |check.url| >= 36;
      }
    }
  }

  /** A stored product, as far as `Delete` looks at it. */
  datatype StoredProduct = StoredProduct(name: string, imageUrl: Option<string>)


  /** What `Delete` renders: NotFound, or the product list with a message
      that the named product was removed or that removing it failed. */
  datatype DeleteOutcome = DeleteNotFound | Deleted(name: string) | DeleteFailed

  /** `Delete`: a missing id is NotFound and nothing is removed; otherwise the
      product is removed unless the removal throws, and the list is shown
      either way. The new catalogue is returned beside the outcome. */
  function Delete(catalog: map<Guid, StoredProduct>, id: Guid, removeThrew: bool): (r: (DeleteOutcome, map<Guid, StoredProduct>))
    ensures r.0 == DeleteNotFound <==> id !in catalog
    ensures r.0 == DeleteFailed <==> id in catalog && removeThrew
    ensures r.0.Deleted? ==> id in catalog && r.0.name == catalog[id].name
    ensures r.0.Deleted? ==> r.1 == catalog - {id}
    ensures !r.0.Deleted? ==> r.1 == catalog
  {
    if id !in catalog then (DeleteNotFound, catalog)
    else if removeThrew then (DeleteFailed, catalog)
    else (Deleted(catalog[id].name), catalog - {id})
  }

  /** Deleting removes at most the requested entry and changes no other one. */
  lemma DeleteTouchesOnlyId(catalog: map<Guid, StoredProduct>, id: Guid, removeThrew: bool)
    ensures var after := Delete(catalog, id, removeThrew).1;
      && (id !in after <==> id !in catalog || !removeThrew)
      && forall k :: k in catalog && k != id ==> k in after && after[k] == catalog[k]
  {
  }
}
