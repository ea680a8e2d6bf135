/** The state of one photo gallery controller and the collaborator calls its two
    broadcast handlers make, as values. The class in GalleryController is proved
    to follow these functions; the lemmas here say what they promise. */
module GallerySpec {
  import opened JsValues

  /** One entry of the upload service's photo data: `{ photoUrl, photoName }`. */
  datatype PhotoRecord = PhotoRecord(photoUrl: string, photoName: string)

  /** The image element a PhotoModel builds: an opaque element identity and its
      `alt` text, which the gallery passes on as the photo's description. */
  datatype Photo = Photo(image: nat, alt: string)

  /** `new PhotoModel(url, name).getConstructedImageElement()`; PhotoModel is not
      shown, so it is a parameter of the build stage. */
  type PhotoFactory = (string, string) -> Photo

  /** A call received by the shared upload or assistant service. */
  datatype Call =
    | UploadPhoto
    | GetUploadedPhotosData
    | AddPhotoToGallery(photo: Photo, description: string)
    | SortPhotosAlphabetically
    | DisplayGallery(columns: JsValue, element: ElementArg)

  /** The private fields of a PhotoGalleryController (the service references are
      fixed at construction and kept apart). */
  datatype GalleryState = GalleryState(
    columns: JsValue,
    element: ElementArg,
    uploadedPhotosData: seq<PhotoRecord>,
    photoUrl: string,
    photoName: string,
    photos: seq<Photo>)

  /** Field initialisers: `#uploadedPhotosData = []`, `#photoUrl = ''`,
      `#photoName = ''`, `#photos = []`; `#columns` and `#photoGalleryElement`
      start undefined. */
  function InitialState(): GalleryState {
    GalleryState(Undefined, Nullish, [], "", "", [])
  }

  const SetupErrorMessage := "Valid column value and photo gallery element are required"

  /** The negation of setupPhotoGallery's throwing guard. */
  predicate SetupAccepts(columns: JsValue, element: ElementArg) {
    !(!IsHTMLElement(element) || !ElementTruthy(element) || columns == Null || !TypeofNumber(columns))
  }

  /** setupPhotoGallery, as a function of the state: the new configuration on
      success, the untouched state and the Error on a throw. */
  function Setup(s: GalleryState, columns: JsValue, element: ElementArg): (r: Result<GalleryState>)
    ensures r.Value? <==> TypeofNumber(columns) && IsHTMLElement(element)
    ensures r.Thrown? ==> r.error == Error(SetupErrorMessage)
    ensures r.Value? ==> r.value.columns == columns && r.value.element == element
    ensures r.Value? ==> r.value.(columns := s.columns, element := s.element) == s
  {
    if SetupAccepts(columns, element) then Value(s.(element := element, columns := columns))
    else Thrown(Error(SetupErrorMessage))
  }

  /** The guard lets through every number, including 0, NaN, the infinities and
      negative or fractional values, and rejects everything else. */
  lemma SetupAcceptsAnyNumber(element: ElementArg, x: real, negative: bool, truthy: bool)
    requires IsHTMLElement(element)
    ensures SetupAccepts(Finite(x), element)
    ensures SetupAccepts(NaN, element) && SetupAccepts(Infinity(negative), element)
    ensures !SetupAccepts(Null, element) && !SetupAccepts(Undefined, element)
    ensures !SetupAccepts(NonNumber(truthy), element)
  {
  }

  // ---------------------------------------------------------------- pipeline stages

  /** Stage 1: the data after `#fetchPhotoData`; a throw leaves the previous value. */
  function FetchedData(previous: seq<PhotoRecord>, answer: Result<seq<PhotoRecord>>): seq<PhotoRecord> {
    if answer.Value? then answer.value else previous
  }

  /** The photos built from `records`, in record order. */
  function BuildPhotos(records: seq<PhotoRecord>, make: PhotoFactory): seq<Photo> {
    if records == [] then []
    else
      var last := records[|records| - 1];
      BuildPhotos(records[..|records| - 1], make) + [make(last.photoUrl, last.photoName)]
  }

  lemma {:induction false} BuildPhotosPointwise(records: seq<PhotoRecord>, make: PhotoFactory)
    ensures |BuildPhotos(records, make)| == |records|
    ensures forall i :: 0 <= i < |records| ==>
      BuildPhotos(records, make)[i] == make(records[i].photoUrl, records[i].photoName)
  {
    if records != [] {
      BuildPhotosPointwise(records[..|records| - 1], make);
    }
  }

  lemma BuildPhotosStep(records: seq<PhotoRecord>, make: PhotoFactory, i: nat)
    requires i < |records|
    ensures BuildPhotos(records[..i + 1], make)
      == BuildPhotos(records[..i], make) + [make(records[i].photoUrl, records[i].photoName)]
  {
    assert records[..i + 1][..i] == records[..i];
  }

  /** Stage 2, `#createPhotoFromData`: one photo per stored record is appended,
      and `#photoUrl`/`#photoName` keep those of the last record. */
  function AfterCreate(s: GalleryState, make: PhotoFactory): GalleryState {
    var data := s.uploadedPhotosData;
    if |data| > 0 then
      s.(photoUrl := data[|data| - 1].photoUrl,
         photoName := data[|data| - 1].photoName,
         photos := s.photos + BuildPhotos(data, make))
    else s
  }

  /** The registrations `#addPhotosToGallery` makes, one per photo, in order. */
  function Registrations(photos: seq<Photo>): seq<Call> {
    if photos == [] then []
    else
      var last := photos[|photos| - 1];
      Registrations(photos[..|photos| - 1]) + [AddPhotoToGallery(last, last.alt)]
  }

  lemma {:induction false} RegistrationsPointwise(photos: seq<Photo>)
    ensures |Registrations(photos)| == |photos|
    ensures forall i :: 0 <= i < |photos| ==>
      Registrations(photos)[i] == AddPhotoToGallery(photos[i], photos[i].alt)
  {
    if photos != [] {
      RegistrationsPointwise(photos[..|photos| - 1]);
    }
  }

  /** The state after the `photosUploaded` handler. */
  function AfterPhotosUploaded(s: GalleryState, answer: Result<seq<PhotoRecord>>, make: PhotoFactory): GalleryState {
    AfterCreate(s.(uploadedPhotosData := FetchedData(s.uploadedPhotosData, answer)), make)
  }

  /** The calls the `photosUploaded` handler makes: fetch, register, sort, display. */
  function PhotosUploadedCalls(s: GalleryState, answer: Result<seq<PhotoRecord>>, make: PhotoFactory): seq<Call> {
    [GetUploadedPhotosData]
      + Registrations(AfterPhotosUploaded(s, answer, make).photos)
      + [SortPhotosAlphabetically, DisplayGallery(s.columns, s.element)]
  }

  /** The calls the `editingModalClosed` handler makes: sort, display. */
  function EditingModalClosedCalls(s: GalleryState): seq<Call> {
    [SortPhotosAlphabetically, DisplayGallery(s.columns, s.element)]
  }

  // ---------------------------------------------------------------- one cycle

  /** A `photosUploaded` cycle calls exactly: one fetch, one registration per
      accumulated photo in `#photos` order with its own `alt` as description,
      one sort, and one display with the stored columns and element. */
  lemma PhotosUploadedCallOrder(s: GalleryState, answer: Result<seq<PhotoRecord>>, make: PhotoFactory)
    ensures var calls, t := PhotosUploadedCalls(s, answer, make), AfterPhotosUploaded(s, answer, make);
      && |calls| == |t.photos| + 3
      && calls[0] == GetUploadedPhotosData
      && (forall i :: 0 <= i < |t.photos| ==> calls[i + 1] == AddPhotoToGallery(t.photos[i], t.photos[i].alt))
      && calls[|calls| - 2] == SortPhotosAlphabetically
      && calls[|calls| - 1] == DisplayGallery(t.columns, t.element)
  {
    RegistrationsPointwise(AfterPhotosUploaded(s, answer, make).photos);
  }

  /** A fetch that throws leaves `#uploadedPhotosData` as it was (initially
      empty) and the old records are built again; a fetch that returns replaces
      it. The rest of the pipeline runs in both cases (PhotosUploadedCallOrder). */
  lemma FetchFailureReusesData(s: GalleryState, answer: Result<seq<PhotoRecord>>, make: PhotoFactory)
    ensures var t := AfterPhotosUploaded(s, answer, make);
      && (answer.Thrown? ==> t.uploadedPhotosData == s.uploadedPhotosData)
      && (answer.Value? ==> t.uploadedPhotosData == answer.value)
      && (answer.Thrown? ==> |t.photos| == |s.photos| + |s.uploadedPhotosData|)
  {
    BuildPhotosPointwise(s.uploadedPhotosData, make);
  }

  /** `#photos` only grows: the old photos stay in place and one new photo per
      stored record follows them, in record order. */
  lemma PhotosOnlyGrow(s: GalleryState, answer: Result<seq<PhotoRecord>>, make: PhotoFactory)
    ensures var t := AfterPhotosUploaded(s, answer, make);
      && |t.photos| == |s.photos| + |t.uploadedPhotosData|
      && t.photos[..|s.photos|] == s.photos
      && (forall i :: 0 <= i < |t.uploadedPhotosData| ==>
            t.photos[|s.photos| + i] == make(t.uploadedPhotosData[i].photoUrl, t.uploadedPhotosData[i].photoName))
  {
    var t := AfterPhotosUploaded(s, answer, make);
    BuildPhotosPointwise(t.uploadedPhotosData, make);
  }

  /** After a cycle, `#photoUrl`/`#photoName` are those of the last record when
      there is one and unchanged otherwise; the configuration is never touched. */
  lemma LastRecordFields(s: GalleryState, answer: Result<seq<PhotoRecord>>, make: PhotoFactory)
    ensures var t := AfterPhotosUploaded(s, answer, make); var d := t.uploadedPhotosData;
      && (|d| > 0 ==> t.photoUrl == d[|d| - 1].photoUrl && t.photoName == d[|d| - 1].photoName)
      && (|d| == 0 ==> t.photoUrl == s.photoUrl && t.photoName == s.photoName && t.photos == s.photos)
      && t.columns == s.columns && t.element == s.element
  {
  }

  /** An `editingModalClosed` cycle sorts and then displays, and never fetches
      or registers. */
  lemma EditingModalClosedOnlySortsAndDisplays(s: GalleryState)
    ensures var calls := EditingModalClosedCalls(s);
      && |calls| == 2 && calls[0].SortPhotosAlphabetically? && calls[1].DisplayGallery?
      && calls[1] == DisplayGallery(s.columns, s.element)
      && forall c :: c in calls ==> !c.GetUploadedPhotosData? && !c.AddPhotoToGallery?
  {
  }

  // ---------------------------------------------------------------- many cycles

  /** The state after one `photosUploaded` cycle per fetch answer, in order. */
  function AfterCycles(s: GalleryState, answers: seq<Result<seq<PhotoRecord>>>, make: PhotoFactory): GalleryState {
    if answers == [] then s
    else AfterPhotosUploaded(AfterCycles(s, answers[..|answers| - 1], make), answers[|answers| - 1], make)
  }

  /** Across any number of cycles the photos of an earlier point are a prefix of
      those of a later point. */
  lemma {:induction false} CyclesOnlyGrowPhotos(s: GalleryState, answers: seq<Result<seq<PhotoRecord>>>, make: PhotoFactory, k: nat)
    requires k <= |answers|
    ensures var before, after := AfterCycles(s, answers[..k], make), AfterCycles(s, answers, make);
      |before.photos| <= |after.photos| && after.photos[..|before.photos|] == before.photos
  {
    if k < |answers| {
      var init := answers[..|answers| - 1];
      assert init[..k] == answers[..k];
      CyclesOnlyGrowPhotos(s, init, make, k);
      PhotosOnlyGrow(AfterCycles(s, init, make), answers[|answers| - 1], make);
    } else {
      assert answers[..k] == answers;
    }
  }

  /** A photo that is in the state at some point stays there. */
  lemma PhotoPersists(s: GalleryState, answers: seq<Result<seq<PhotoRecord>>>, make: PhotoFactory, k: nat, p: Photo)
    requires k <= |answers|
    requires p in AfterCycles(s, answers[..k], make).photos
    ensures p in AfterCycles(s, answers, make).photos
  {
    CyclesOnlyGrowPhotos(s, answers, make, k);
    var before := AfterCycles(s, answers[..k], make).photos;
    var i :| 0 <= i < |before| && before[i] == p;
    assert AfterCycles(s, answers, make).photos[i] == p;
  }

  /** Every photo held after a cycle is registered by that cycle. */
  lemma HeldPhotoRegistered(t: GalleryState, answer: Result<seq<PhotoRecord>>, make: PhotoFactory, p: Photo)
    requires p in AfterPhotosUploaded(t, answer, make).photos
    ensures AddPhotoToGallery(p, p.alt) in PhotosUploadedCalls(t, answer, make)
  {
    var photos := AfterPhotosUploaded(t, answer, make).photos;
    var i :| 0 <= i < |photos| && photos[i] == p;
    PhotosUploadedCallOrder(t, answer, make);
    assert PhotosUploadedCalls(t, answer, make)[i + 1] == AddPhotoToGallery(p, p.alt);
  }

  /** A photo built by cycle k is registered again in every later cycle j. */
  lemma PhotoReRegisteredInLaterCycles(s: GalleryState, answers: seq<Result<seq<PhotoRecord>>>, make: PhotoFactory,
                                       k: nat, j: nat, p: Photo)
    requires k <= j < |answers|
    requires p in AfterCycles(s, answers[..k], make).photos
    ensures AddPhotoToGallery(p, p.alt) in PhotosUploadedCalls(AfterCycles(s, answers[..j], make), answers[j], make)
  {
    var prefix := answers[..j + 1];
    assert prefix[..k] == answers[..k];
    assert prefix[..j] == answers[..j];
    PhotoPersists(s, prefix, make, k, p);
    HeldPhotoRegistered(AfterCycles(s, answers[..j], make), answers[j], make, p);
  }

  /** The same by position: the photo at index i of `#photos` after cycle k is
      the registration at position i + 1 (right after the fetch) of every later
      cycle j, so it is that photo, not merely an equal one, that is registered. */
  lemma PhotoReRegisteredAtIndex(s: GalleryState, answers: seq<Result<seq<PhotoRecord>>>, make: PhotoFactory,
                                 k: nat, j: nat, i: nat)
    requires k <= j < |answers|
    requires i < |AfterCycles(s, answers[..k], make).photos|
    ensures var p := AfterCycles(s, answers[..k], make).photos[i];
      var calls := PhotosUploadedCalls(AfterCycles(s, answers[..j], make), answers[j], make);
      i + 1 < |calls| && calls[i + 1] == AddPhotoToGallery(p, p.alt)
  {
    var prefix := answers[..j + 1];
    var t := AfterCycles(s, answers[..j], make);
    assert prefix[..k] == answers[..k];
    assert prefix[..|prefix| - 1] == answers[..j];
    assert AfterCycles(s, prefix, make) == AfterPhotosUploaded(t, answers[j], make);
    CyclesOnlyGrowPhotos(s, prefix, make, k);
    PhotosUploadedCallOrder(t, answers[j], make);
  }
}
