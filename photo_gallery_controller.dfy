/** PhotoGalleryController: keeps the gallery configuration and the photos built
    so far, and runs the upload pipeline when `photosUploaded` is broadcast. The
    two `window.addEventListener` callbacks of its constructor are the methods
    OnPhotosUploaded and OnEditingModalClosed; subscription itself is modelled by
    the orchestrator, which holds every controller it has constructed. */
module GalleryController {
  import opened JsValues
  import opened GallerySpec
  import opened Services

  class PhotoGalleryController {
    const assistant: PhotoAssistantService
    const upload: UploadService
    var photoGalleryElement: ElementArg
    var uploadedPhotosData: seq<PhotoRecord>
    var photoUrl: string
    var photoName: string
    var photos: seq<Photo>
    var columns: JsValue

    /** Both services report to the same trace. */
    ghost predicate Valid() {
      assistant.trace == upload.trace
    }

    /** The trace of the calls this controller's services receive. */
    function Trace(): CallTrace {
      assistant.trace
    }

    /** The controller's fields as a value. */
    function State(): GalleryState
      reads this
    {
      GalleryState(columns, photoGalleryElement, uploadedPhotosData, photoUrl, photoName, photos)
    }

    constructor (assistant: PhotoAssistantService, upload: UploadService)
      requires assistant.trace == upload.trace
      ensures Valid()
      ensures this.assistant == assistant && this.upload == upload
      ensures State() == InitialState()
    {
      this.assistant := assistant;
      this.upload := upload;
      photoGalleryElement := Nullish;
      uploadedPhotosData := [];
      photoUrl := "";
      photoName := "";
      photos := [];
      columns := Undefined;
    }

    /** Stores the configuration, or throws and leaves it as it was. */
    method SetupPhotoGallery(columns: JsValue, photoGalleryElement: ElementArg) returns (r: Completion)
      modifies this
      ensures Setup(old(State()), columns, photoGalleryElement).Value? ==>
        r == Normal && State() == Setup(old(State()), columns, photoGalleryElement).value
      ensures Setup(old(State()), columns, photoGalleryElement).Thrown? ==>
        r == Throw(Error(SetupErrorMessage)) && State() == old(State())
    {
      if !IsHTMLElement(photoGalleryElement) || !ElementTruthy(photoGalleryElement)
         || columns == Null || !TypeofNumber(columns)
      {
        return Throw(Error(SetupErrorMessage));
      }
      this.photoGalleryElement := photoGalleryElement;
      this.columns := columns;
      r := Normal;
    }

    /** Starts an upload; no field of the controller changes. */
    method UploadPhotos()
      requires Valid()
      modifies Trace()
      ensures Trace().calls == old(Trace().calls) + [Call.UploadPhoto]
    {
      upload.UploadPhoto();
    }

    /** `#fetchPhotoData`: a throw from the service is logged and swallowed. */
    method FetchPhotoData(answer: Result<seq<PhotoRecord>>)
      requires Valid()
      modifies this, Trace()
      ensures State() == old(State()).(uploadedPhotosData := FetchedData(old(uploadedPhotosData), answer))
      ensures Trace().calls == old(Trace().calls) + [Call.GetUploadedPhotosData]
    {
      var r := upload.GetUploadedPhotosData(answer);
      if r.Value? {
        uploadedPhotosData := r.value;
      }
    }

    /** `#createPhotoFromData`: builds one photo per stored record and pushes it. */
    method CreatePhotoFromData(make: PhotoFactory)
      modifies this
      ensures State() == AfterCreate(old(State()), make)
    {
      if |uploadedPhotosData| > 0 {
        var records := uploadedPhotosData;
        var i := 0;
        while i < |records|
          invariant 0 <= i <= |records|
          invariant State() == old(State()).(photoUrl := photoUrl, photoName := photoName, photos := photos)
          invariant photos == old(photos) + BuildPhotos(records[..i], make)
          invariant i > 0 ==> photoUrl == records[i - 1].photoUrl && photoName == records[i - 1].photoName
        {
          photoUrl := records[i].photoUrl;
          photoName := records[i].photoName;
          var photo := make(photoUrl, photoName);
          photos := photos + [photo];
          BuildPhotosStep(records, make, i);
          i := i + 1;
        }
        assert records[..i] == records;
      }
    }

    /** `#addPhotosToGallery`: registers every photo built so far, with its `alt`. */
    method AddPhotosToGallery()
      requires Valid()
      modifies Trace()
      ensures Trace().calls == old(Trace().calls) + Registrations(photos)
    {
      var i := 0;
      while i < |photos|
        invariant 0 <= i <= |photos|
        invariant Trace().calls == old(Trace().calls) + Registrations(photos[..i])
      {
        var photo := photos[i];
        var photoDescription := photo.alt;
        assistant.AddPhotoToGallery(photo, photoDescription);
        assert photos[..i + 1][..i] == photos[..i];
        i := i + 1;
      }
      assert photos[..i] == photos;
    }

    /** `#sortPhotosAlphabetically` */
    method SortPhotosAlphabetically()
      modifies Trace()
      ensures Trace().calls == old(Trace().calls) + [Call.SortPhotosAlphabetically]
    {
      assistant.SortPhotosAlphabetically();
    }

    /** `#displayConstructedGallery`: always the stored columns and element. */
    method DisplayConstructedGallery()
      modifies Trace()
      ensures Trace().calls == old(Trace().calls) + [Call.DisplayGallery(columns, photoGalleryElement)]
    {
      assistant.DisplayGallery(columns, photoGalleryElement);
    }

    /** The `photosUploaded` listener: fetch, build, register, sort, display. */
    method OnPhotosUploaded(answer: Result<seq<PhotoRecord>>, make: PhotoFactory)
      requires Valid()
      modifies this, Trace()
      ensures State() == AfterPhotosUploaded(old(State()), answer, make)
      ensures Trace().calls == old(Trace().calls) + PhotosUploadedCalls(old(State()), answer, make)
    {
      FetchPhotoData(answer);
      CreatePhotoFromData(make);
      AddPhotosToGallery();
      SortPhotosAlphabetically();
      DisplayConstructedGallery();
    }

    /** The `editingModalClosed` listener: sort, display; no field changes. */
    method OnEditingModalClosed()
      modifies Trace()
      ensures Trace().calls == old(Trace().calls) + EditingModalClosedCalls(State())
    {
      SortPhotosAlphabetically();
      DisplayConstructedGallery();
    }
  }
}
