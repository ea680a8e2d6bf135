# Photo gallery controllers, modelled in Dafny

This project models the controller layer of a browser photo gallery. The
**PhotoGalleryController** keeps a gallery configuration (a column count and a
container element) and the photos built so far. When the `photosUploaded`
broadcast arrives, it runs a fixed pipeline: fetch the uploaded photo data, build
one photo per record, register every photo held with the assistant service, sort,
display. When `editingModalClosed` arrives, it only sorts and displays. The
**ControllerOrchestrator** is the composition root. It creates the upload service,
the photo assistant service and the (empty) photo editor controller once. It
validates the gallery parameters, and on each successful `constructPhotoGallery`
it replaces the gallery controller with a new one bound to the same services. It
forwards `uploadPhotos` and `editPhoto`. Replaced controllers never remove their
window listeners, so every controller ever constructed keeps answering both
broadcasts, in construction order.

Files and modules:

- `js_values.dfy` (`JsValues`): the JavaScript values the guards look at. Columns
  are `Finite(real) | Infinity | NaN | Null | Undefined | NonNumber(truthy)`. The
  element is `Nullish | Object(id, isHTMLElement)`. Also thrown errors and the two
  ways a call can end.
- `gallery_spec.dfy` (`GallerySpec`): one controller's state as a value, each
  pipeline stage as a function, the service calls each broadcast handler makes,
  and the lemmas about them, over one cycle and over any number of cycles.
- `services.dfy` (`Services`): stand-ins for the upload and assistant services.
  Each records the calls it receives in one `CallTrace` shared by both, so the
  order of calls across the two services can be checked. These classes model no
  source lines.
- `photo_gallery_controller.dfy` (`GalleryController`): the controller class. Its
  private fields are class fields, its private methods are methods, and the two
  listener callbacks are `OnPhotosUploaded` and `OnEditingModalClosed`. Every
  method is proved to follow the functions of `GallerySpec`.
- `controller_orchestrator.dfy` (`Orchestration`): the orchestrator class, the
  empty editor controller, broadcast dispatch over every constructed controller,
  and the lemmas about a broadcast.

The external inputs are parameters. `getUploadedPhotosData()` either returns an
answer or throws, and that outcome is the `answer` argument. The PhotoModel
constructor together with `getConstructedImageElement()` is the `make` argument.
The HTMLElement test is a flag on the element value.

The services and the editor are `const` fields of the orchestrator. No call can
therefore change them; Dafny's type system enforces that.

Four facts about the code that a reader might not expect:

- `setupPhotoGallery` accepts any number, including 0, NaN, negative numbers and
  fractions. `constructPhotoGallery` rejects only 0 and NaN among numbers, and it
  accepts negative numbers, fractions and the infinities. Positivity is never
  checked.
- With no gallery constructed, `uploadPhotos` reads a property of undefined. It
  ends in a `TypeError`, not a dedicated "not configured" error.
- PhotoEditorController has no `addPhotoToBeFiltered`, so `editPhoto` always ends
  in a `TypeError` and changes nothing.
- `#photos` is never cleared, so every cycle registers all photos built so far.

## Model

| member | source | states |
|---|---|---|
| GallerySpec.Setup | src/controller/PhotoGalleryController.js:48-55 | setup succeeds exactly when columns has `typeof` number and the element is an HTMLElement; on success only columns and element change and take the given values; otherwise the state is kept and the Error with the source's message is thrown |
| GallerySpec.SetupAcceptsAnyNumber | src/controller/PhotoGalleryController.js:49 | the setup guard accepts 0, NaN, the infinities and every finite number, negative and fractional included, and rejects null, undefined and non-numbers |
| GallerySpec.BuildPhotosPointwise | src/controller/PhotoGalleryController.js:75-83 | building yields exactly one photo per record, the i-th made from the i-th record's url and name |
| GallerySpec.RegistrationsPointwise | src/controller/PhotoGalleryController.js:87-93 | registration makes exactly one call per photo, in `#photos` order, each with that photo's own `alt` as description |
| GallerySpec.PhotosUploadedCallOrder | src/controller/PhotoGalleryController.js:29-35 | a `photosUploaded` cycle calls exactly: one fetch, one registration per accumulated photo in order, one sort, then one display with the stored columns and element |
| GallerySpec.FetchFailureReusesData | src/controller/PhotoGalleryController.js:65-71 | a throwing fetch keeps the previous `#uploadedPhotosData`, and those stale records are built again; a returning fetch replaces the data with its answer |
| GallerySpec.PhotosOnlyGrow | src/controller/PhotoGalleryController.js:73-85 | after a cycle, the old photos are an unchanged prefix; exactly one new photo per stored record follows, in record order |
| GallerySpec.LastRecordFields | src/controller/PhotoGalleryController.js:74-78 | after a cycle, `#photoUrl`/`#photoName` are those of the last record; with no data they and `#photos` are unchanged; the configuration is never changed |
| GallerySpec.EditingModalClosedOnlySortsAndDisplays | src/controller/PhotoGalleryController.js:37-40 | an `editingModalClosed` cycle calls sort then display with the stored configuration, and never fetches or registers |
| GallerySpec.CyclesOnlyGrowPhotos | src/controller/PhotoGalleryController.js:82 | over any sequence of cycles, the photos held at an earlier point are a prefix of those held at a later point |
| GallerySpec.HeldPhotoRegistered | src/controller/PhotoGalleryController.js:87-93 | every photo held after a cycle is registered by that cycle with its own `alt` |
| GallerySpec.PhotoReRegisteredInLaterCycles | src/controller/PhotoGalleryController.js:29-35 | a photo built by cycle k is registered again in every later cycle j |
| GallerySpec.PhotoReRegisteredAtIndex | src/controller/PhotoGalleryController.js:87-93 | the photo at position i of `#photos` after cycle k is the registration at position i + 1, right after the fetch, of every later cycle j |
| GalleryController.PhotoGalleryController.constructor | src/controller/PhotoGalleryController.js:11-27 | a new controller holds the given services and the initial field values (empty data and photos, empty url and name, undefined columns and element) |
| GalleryController.PhotoGalleryController.SetupPhotoGallery | src/controller/PhotoGalleryController.js:48-55 | the new state is what `Setup` gives on success; on a throw the state is unchanged and the Error is returned |
| GalleryController.PhotoGalleryController.UploadPhotos | src/controller/PhotoGalleryController.js:57-63 | exactly one `uploadPhoto` call is made and no controller field changes |
| GalleryController.PhotoGalleryController.FetchPhotoData | src/controller/PhotoGalleryController.js:65-71 | one fetch call is made; the data becomes the answer, or stays as it was when the fetch throws; nothing else changes |
| GalleryController.PhotoGalleryController.CreatePhotoFromData | src/controller/PhotoGalleryController.js:73-85 | the loop appends one built photo per record to `#photos` and leaves the last record's url and name in the fields, as `AfterCreate` specifies |
| GalleryController.PhotoGalleryController.AddPhotosToGallery | src/controller/PhotoGalleryController.js:87-93 | the loop issues exactly the registrations of all held photos, in order |
| GalleryController.PhotoGalleryController.SortPhotosAlphabetically | src/controller/PhotoGalleryController.js:99-101 | exactly one sort call is made |
| GalleryController.PhotoGalleryController.DisplayConstructedGallery | src/controller/PhotoGalleryController.js:95-97 | exactly one display call is made, with the currently stored columns and element |
| GalleryController.PhotoGalleryController.OnPhotosUploaded | src/controller/PhotoGalleryController.js:29-35 | the listener brings the state to `AfterPhotosUploaded` and appends exactly `PhotosUploadedCalls` to the trace |
| GalleryController.PhotoGalleryController.OnEditingModalClosed | src/controller/PhotoGalleryController.js:37-40 | the listener appends exactly sort then display and changes no controller field |
| Orchestration.ConstructAcceptsImpliesSetupAccepts | src/controller/ControllerOrchestrator.js:34-40 | whatever the orchestrator's guard accepts, the controller's setup guard accepts too, so the inner setup cannot throw |
| Orchestration.ConstructAcceptsNonZeroNumbers | src/controller/ControllerOrchestrator.js:35-37 | the orchestrator accepts a finite number exactly when it is non-zero, accepts the infinities, and rejects NaN, null, undefined and non-numbers; 0 and NaN pass the controller's guard but not this one |
| Orchestration.OnePipeline | src/controller/PhotoGalleryController.js:29-35 | one `photosUploaded` pipeline fetches exactly once and displays exactly once, with that controller's configuration |
| Orchestration.OneSortAndDisplay | src/controller/PhotoGalleryController.js:37-40 | one `editingModalClosed` cycle fetches nothing and displays exactly once, with that controller's configuration |
| Orchestration.BroadcastRunsOnePipelinePerController | src/controller/ControllerOrchestrator.js:39 | a `photosUploaded` broadcast to n subscribed controllers fetches n times, and displays once per controller in subscription order, with each controller's configuration |
| Orchestration.BroadcastEditingModalClosedDisplaysEach | src/controller/PhotoGalleryController.js:37-40 | an `editingModalClosed` broadcast fetches nothing, and displays once per subscribed controller in subscription order |
| Orchestration.ControllerOrchestrator.constructor | src/controller/ControllerOrchestrator.js:19-32 | the assistant service, the upload service and the editor controller are created once each and are fresh and distinct; there is no gallery controller yet |
| Orchestration.ControllerOrchestrator.ConstructPhotoGallery | src/controller/ControllerOrchestrator.js:34-41 | succeeds exactly when the guard accepts; on a throw the controller and the subscriber list are kept; on success a fresh controller bound to the same services replaces the old one, joins the subscribers, and is configured with the given columns and element |
| Orchestration.ControllerOrchestrator.UploadPhotos | src/controller/ControllerOrchestrator.js:43-45 | with no controller it ends in a TypeError and calls nothing; otherwise exactly one `uploadPhoto` call is made |
| Orchestration.ControllerOrchestrator.EditPhoto | src/controller/ControllerOrchestrator.js:47-49 | always ends in the TypeError of calling the editor's missing `addPhotoToBeFiltered` |
| Orchestration.ControllerOrchestrator.NotifyPhotosUploaded | src/controller/PhotoGalleryController.js:29-35 | the i-th subscriber runs its pipeline; no other subscriber changes |
| Orchestration.ControllerOrchestrator.DispatchPhotosUploaded | src/controller/PhotoGalleryController.js:29-35 | every subscribed controller, old and new, ends in its `AfterPhotosUploaded` state; the trace grows by the pipelines of all subscribers in construction order |
| Orchestration.ControllerOrchestrator.DispatchEditingModalClosed | src/controller/PhotoGalleryController.js:37-40 | the trace grows by one sort and one display per subscribed controller in construction order; no controller changes |
| Orchestration.ReplacedControllerStillResponds | src/controller/ControllerOrchestrator.js:34-41 | after constructions with 3, 0 (rejected) and -2.5 columns, a `photosUploaded` broadcast fetches twice and displays for the replaced controller first, then for the current one |

## Left out

- PhotoEditorView (markup, styles, shadow DOM, modal toggling, scrolling, `alert`, form reset, and its `isNaN(Number(...))` filter check) is user interface. Its `addFilter`/`applyFilter` calls target orchestrator methods that do not exist. It is not part of this model.
- PhotoModel, UploadService and PhotoAssistantService are not part of this model. Their internals (image element construction, uploading, sorting, rendering) are opaque: every call they receive is only recorded, and their answers are parameters.
- Photos are built by a function of url and name, so any two builds of the same (url, name) give equal values, in one cycle or in different cycles (a stale record rebuilt after a failed fetch gives a photo equal to the earlier one). The real code creates a distinct element each time. So GallerySpec.HeldPhotoRegistered and GallerySpec.PhotoReRegisteredInLaterCycles may be met by an equal twin; GallerySpec.PhotoReRegisteredAtIndex states the position instead. The model never assumes that `alt` equals the name. A built photo is a value that never changes after it is built. In the source, `#addPhotosToGallery` reads `photo.alt` again on every cycle from a live element that it shares with the assistant service. In the model, "registered with its own `alt`" means the `alt` the photo had when it was built; a change to the element made by a collaborator is not modelled.
- GallerySpec.PhotosUploadedCallOrder: `new PhotoModel(...)`, `getConstructedImageElement()`, `addPhotoToGallery`, `sortPhotosAlphabetically`, `displayGallery` and `uploadPhoto` are taken never to throw; only `getUploadedPhotosData()` may throw. A throw from any of the others would end the listener part-way (earlier photos already pushed, `#photoUrl`/`#photoName` already overwritten, the later calls not made); that partial run is not modelled, and "ends with sort then display" holds only under this assumption.
- The array `getUploadedPhotosData()` returns is held by reference in `#uploadedPhotosData`; the model holds it as a value that the service does not share, so a service that later changes that array (and with it the stale data a failed fetch reuses) is not modelled.
- Orchestration.ControllerOrchestrator.DispatchPhotosUploaded: every subscriber's fetch gets the same answer from the shared upload service within one broadcast; a service whose answer changes between listeners is not modelled.
- `window.addEventListener`/`dispatchEvent` are modelled by the orchestrator's list of every controller it constructed and its two Dispatch methods. A controller constructed outside an orchestrator is not subscribed in the model. Listeners of two orchestrators sharing one window are not interleaved. A broadcast fired while a pipeline is running (re-entrant dispatch) is not modelled.
- Orchestration.ControllerOrchestrator.UploadPhotos and Orchestration.ControllerOrchestrator.EditPhoto: the language fixes only the kind of error, a `TypeError`. The message strings `TypeErrorNoController` and `TypeErrorNoAddPhoto` are one engine's wording, in the second case shortened. Other engines word them differently, and the exact message text is not modelled.
- `console.error` logging of a failed fetch is left out; only the swallowing of the error is modelled.
- The `instanceof HTMLElement` test is the element's `isHTMLElement` flag; the prototype chain is not modelled.
- Numbers are reals plus NaN and the infinities. -0 is the same as 0: both are falsy, so no guard tells them apart. Rounding is not modelled; no arithmetic is done on columns.
- `getUploadedPhotosData()` is taken to return an array of records. A non-array return value (where `.length` or `forEach` would behave differently) is not modelled.
