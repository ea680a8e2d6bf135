/** ControllerOrchestrator: the composition root. It creates the two services and
    the editor controller once, validates the gallery parameters, replaces the
    gallery controller on every successful `constructPhotoGallery`, and forwards
    `uploadPhotos` and `editPhoto`. A replaced gallery controller never removes
    its window listeners, so every controller ever constructed still reacts to
    the two broadcasts; `controllers` lists them in construction order, which is
    the order in which the window invokes their listeners (the DOM Standard's
    "inner invoke" step of event dispatch runs listeners in registration order). */
module Orchestration {
  import opened JsValues
  import opened GallerySpec
  import opened Services
  import opened GalleryController

  /** PhotoEditorController: the class declares only an empty constructor. */
  class PhotoEditorController {
    constructor ()
    {
    }
  }

  /** The negation of constructPhotoGallery's throwing guard. */
  predicate ConstructAccepts(columns: JsValue, element: ElementArg) {
    !(!TypeofNumber(columns) || !Truthy(columns) || !IsHTMLElement(element))
  }

  /** The orchestrator's guard is stricter than the controller's: whatever it
      accepts, setupPhotoGallery accepts too, so the inner setup never throws. */
  lemma ConstructAcceptsImpliesSetupAccepts(columns: JsValue, element: ElementArg)
    requires ConstructAccepts(columns, element)
    ensures SetupAccepts(columns, element)
  {
  }

  /** Numbers other than 0 and NaN are accepted, negative and fractional ones
      included; 0 and NaN are what the controller would accept but the
      orchestrator refuses. */
  lemma ConstructAcceptsNonZeroNumbers(element: ElementArg, x: real, negative: bool, truthy: bool)
    requires IsHTMLElement(element)
    ensures ConstructAccepts(Finite(x), element) <==> x != 0.0
    ensures ConstructAccepts(Infinity(negative), element)
    ensures !ConstructAccepts(NaN, element) && SetupAccepts(NaN, element)
    ensures !ConstructAccepts(Finite(0.0), element) && SetupAccepts(Finite(0.0), element)
    ensures !ConstructAccepts(Null, element) && !ConstructAccepts(Undefined, element)
    ensures !ConstructAccepts(NonNumber(truthy), element)
  {
  }

  /** A controller straight after `new` and a successful setup. */
  function ConfiguredState(columns: JsValue, element: ElementArg): GalleryState {
    InitialState().(columns := columns, element := element)
  }

  // ---------------------------------------------------------------- broadcasts

  /** The states of the given controllers, in order. */
  function StatesOf(cs: seq<PhotoGalleryController>): (r: seq<GalleryState>)
    reads cs
    ensures |r| == |cs|
    ensures forall i :: 0 <= i < |cs| ==> r[i] == cs[i].State()
  {
    if cs == [] then [] else StatesOf(cs[..|cs| - 1]) + [cs[|cs| - 1].State()]
  }

  /** The calls a `photosUploaded` broadcast makes: one whole pipeline per
      subscribed controller, one after the other. */
  function BroadcastPhotosUploadedCalls(states: seq<GalleryState>, answer: Result<seq<PhotoRecord>>, make: PhotoFactory): seq<Call> {
    if states == [] then []
    else BroadcastPhotosUploadedCalls(states[..|states| - 1], answer, make)
         + PhotosUploadedCalls(states[|states| - 1], answer, make)
  }

  /** The calls an `editingModalClosed` broadcast makes. */
  function BroadcastEditingModalClosedCalls(states: seq<GalleryState>): seq<Call> {
    if states == [] then []
    else BroadcastEditingModalClosedCalls(states[..|states| - 1]) + EditingModalClosedCalls(states[|states| - 1])
  }

  /** The number of fetches among `calls`. */
  function FetchCount(calls: seq<Call>): nat {
    if calls == [] then 0
    else FetchCount(calls[..|calls| - 1]) + (if calls[|calls| - 1].GetUploadedPhotosData? then 1 else 0)
  }

  /** The display calls among `calls`, in order. */
  function Displays(calls: seq<Call>): seq<Call> {
    if calls == [] then []
    else Displays(calls[..|calls| - 1]) + (if calls[|calls| - 1].DisplayGallery? then [calls[|calls| - 1]] else [])
  }

  /** The display call each controller with these states makes. */
  function DisplaysOf(states: seq<GalleryState>): seq<Call> {
    seq(|states|, i requires 0 <= i < |states| => DisplayGallery(states[i].columns, states[i].element))
  }

  lemma {:induction false} FetchCountAppend(a: seq<Call>, b: seq<Call>)
    ensures FetchCount(a + b) == FetchCount(a) + FetchCount(b)
  {
    if b != [] {
      assert (a + b)[..|a + b| - 1] == a + b[..|b| - 1];
      FetchCountAppend(a, b[..|b| - 1]);
    } else {
      assert a + b == a;
    }
  }

  lemma {:induction false} DisplaysAppend(a: seq<Call>, b: seq<Call>)
    ensures Displays(a + b) == Displays(a) + Displays(b)
  {
    if b != [] {
      assert (a + b)[..|a + b| - 1] == a + b[..|b| - 1];
      DisplaysAppend(a, b[..|b| - 1]);
    } else {
      assert a + b == a;
    }
  }

  /** Registrations neither fetch nor display. */
  lemma {:induction false} RegistrationsAreQuiet(photos: seq<Photo>)
    ensures FetchCount(Registrations(photos)) == 0 && Displays(Registrations(photos)) == []
  {
    if photos != [] {
      var last := photos[|photos| - 1];
      RegistrationsAreQuiet(photos[..|photos| - 1]);
      FetchCountAppend(Registrations(photos[..|photos| - 1]), [AddPhotoToGallery(last, last.alt)]);
      DisplaysAppend(Registrations(photos[..|photos| - 1]), [AddPhotoToGallery(last, last.alt)]);
      assert [AddPhotoToGallery(last, last.alt)][..0] == [];
    }
  }

  /** One pipeline fetches once and displays once, with the controller's own
      configuration. */
  lemma OnePipeline(s: GalleryState, answer: Result<seq<PhotoRecord>>, make: PhotoFactory)
    ensures FetchCount(PhotosUploadedCalls(s, answer, make)) == 1
    ensures Displays(PhotosUploadedCalls(s, answer, make)) == [DisplayGallery(s.columns, s.element)]
  {
    var regs := Registrations(AfterPhotosUploaded(s, answer, make).photos);
    var tail: seq<Call> := [SortPhotosAlphabetically, DisplayGallery(s.columns, s.element)];
    RegistrationsAreQuiet(AfterPhotosUploaded(s, answer, make).photos);
    FetchCountAppend([GetUploadedPhotosData], regs);
    FetchCountAppend([GetUploadedPhotosData] + regs, tail);
    DisplaysAppend([GetUploadedPhotosData], regs);
    DisplaysAppend([GetUploadedPhotosData] + regs, tail);
    assert [GetUploadedPhotosData][..0] == [];
    assert tail[..1] == [SortPhotosAlphabetically] && tail[..1][..0] == [];
  }

  /** An `editingModalClosed` cycle fetches nothing and displays once, with the
      controller's own configuration. */
  lemma OneSortAndDisplay(s: GalleryState)
    ensures FetchCount(EditingModalClosedCalls(s)) == 0
    ensures Displays(EditingModalClosedCalls(s)) == [DisplayGallery(s.columns, s.element)]
  {
    var calls, first := EditingModalClosedCalls(s), [SortPhotosAlphabetically];
    assert calls[..1] == first && first[..0] == [];
    assert FetchCount(first) == 0 && Displays(first) == [];
  }

  /** A `photosUploaded` broadcast runs one pipeline per subscribed controller,
      in subscription order: as many fetches as controllers, and the displays
      in controller order, each with that controller's configuration. */
  lemma {:induction false} BroadcastRunsOnePipelinePerController(states: seq<GalleryState>, answer: Result<seq<PhotoRecord>>, make: PhotoFactory)
    ensures FetchCount(BroadcastPhotosUploadedCalls(states, answer, make)) == |states|
    ensures Displays(BroadcastPhotosUploadedCalls(states, answer, make)) == DisplaysOf(states)
  {
    if states != [] {
      var init, last := states[..|states| - 1], states[|states| - 1];
      var b, p := BroadcastPhotosUploadedCalls(init, answer, make), PhotosUploadedCalls(last, answer, make);
      assert BroadcastPhotosUploadedCalls(states, answer, make) == b + p;
      BroadcastRunsOnePipelinePerController(init, answer, make);
      OnePipeline(last, answer, make);
      FetchCountAppend(b, p);
      DisplaysAppend(b, p);
      DisplaysOfLast(states);
    }
  }

  lemma DisplaysOfLast(states: seq<GalleryState>)
    requires states != []
    ensures var last := states[|states| - 1];
      DisplaysOf(states) == DisplaysOf(states[..|states| - 1]) + [DisplayGallery(last.columns, last.element)]
  {
  }

  /** An `editingModalClosed` broadcast fetches nothing and displays once per
      subscribed controller, in subscription order. */
  lemma {:induction false} BroadcastEditingModalClosedDisplaysEach(states: seq<GalleryState>)
    ensures FetchCount(BroadcastEditingModalClosedCalls(states)) == 0
    ensures Displays(BroadcastEditingModalClosedCalls(states)) == DisplaysOf(states)
  {
    if states != [] {
      var init, last := states[..|states| - 1], states[|states| - 1];
      BroadcastEditingModalClosedDisplaysEach(init);
      FetchCountAppend(BroadcastEditingModalClosedCalls(init), EditingModalClosedCalls(last));
      DisplaysAppend(BroadcastEditingModalClosedCalls(init), EditingModalClosedCalls(last));
      OneSortAndDisplay(last);
      DisplaysOfLast(states);
    }
  }

  lemma AppendAssociative(a: seq<Call>, b: seq<Call>, c: seq<Call>)
    ensures (a + b) + c == a + (b + c)
  {
  }

  lemma BroadcastPhotosUploadedStep(states: seq<GalleryState>, answer: Result<seq<PhotoRecord>>, make: PhotoFactory, i: nat)
    requires i < |states|
    ensures BroadcastPhotosUploadedCalls(states[..i + 1], answer, make)
      == BroadcastPhotosUploadedCalls(states[..i], answer, make) + PhotosUploadedCalls(states[i], answer, make)
  {
    assert states[..i + 1][..i] == states[..i];
  }

  lemma BroadcastEditingModalClosedStep(states: seq<GalleryState>, i: nat)
    requires i < |states|
    ensures BroadcastEditingModalClosedCalls(states[..i + 1])
      == BroadcastEditingModalClosedCalls(states[..i]) + EditingModalClosedCalls(states[i])
  {
    assert states[..i + 1][..i] == states[..i];
  }

  // ---------------------------------------------------------------- the class

  const TypeErrorNoController := "Cannot read properties of undefined (reading 'uploadPhotos')"
  const TypeErrorNoAddPhoto := "addPhotoToBeFiltered is not a function"

  class ControllerOrchestrator {
    /** The trace both services report to; it observes the collaborators. */
    const trace: CallTrace
    const assistant: PhotoAssistantService
    const upload: UploadService
    const editor: PhotoEditorController
    /** `#photoGalleryControllerInstance`; null while it is still undefined. */
    var galleryController: PhotoGalleryController?
    /** Every gallery controller constructed so far, oldest first; all of them
        are still subscribed to the window's broadcasts. */
    var controllers: seq<PhotoGalleryController>

    ghost predicate Valid()
      reads this
    {
      && assistant.trace == trace && upload.trace == trace
      && (galleryController == null <==> controllers == [])
      && (controllers != [] ==> galleryController == controllers[|controllers| - 1])
      && (forall i, j :: 0 <= i < j < |controllers| ==> controllers[i] != controllers[j])
      && (forall i :: 0 <= i < |controllers| ==>
            controllers[i].assistant == assistant && controllers[i].upload == upload)
    }

    /** The "if not already set" guards always create, since the fields start
        unset: one assistant, one upload service and one editor controller. */
    constructor ()
      ensures Valid()
      ensures fresh(trace) && fresh(assistant) && fresh(upload) && fresh(editor)
      ensures trace.calls == []
      ensures galleryController == null && controllers == []
    {
      var t := new CallTrace();
      trace := t;
      assistant := new PhotoAssistantService(t);
      upload := new UploadService(t);
      editor := new PhotoEditorController();
      galleryController := null;
      controllers := [];
    }

    /** Validates, then replaces the gallery controller with a new one bound to
        the same services and configured with the same arguments. */
    method ConstructPhotoGallery(columns: JsValue, photoGalleryElement: ElementArg) returns (r: Completion)
      requires Valid()
      modifies this
      ensures Valid()
      ensures r.Normal? <==> ConstructAccepts(columns, photoGalleryElement)
      ensures r.Throw? ==>
        r.error == Error(SetupErrorMessage) && galleryController == old(galleryController) && controllers == old(controllers)
      ensures r.Normal? ==>
        && galleryController != null && fresh(galleryController)
        && controllers == old(controllers) + [galleryController]
        && galleryController.assistant == assistant && galleryController.upload == upload
        && galleryController.State() == ConfiguredState(columns, photoGalleryElement)
      ensures trace.calls == old(trace.calls)
    {
      if !TypeofNumber(columns) || !Truthy(columns) || !IsHTMLElement(photoGalleryElement) {
        return Throw(Error(SetupErrorMessage));
      }
      var controller := new PhotoGalleryController(assistant, upload);
      galleryController := controller;
      controllers := controllers + [controller];
      ConstructAcceptsImpliesSetupAccepts(columns, photoGalleryElement);
      r := controller.SetupPhotoGallery(columns, photoGalleryElement);
    }

    /** Forwards to the current gallery controller; with none constructed, the
        property access on undefined throws a TypeError. */
    method UploadPhotos() returns (r: Completion)
      requires Valid()
      modifies trace
      ensures r.Throw? <==> galleryController == null
      ensures r.Throw? ==> r.error == TypeError(TypeErrorNoController) && trace.calls == old(trace.calls)
      ensures r.Normal? ==> trace.calls == old(trace.calls) + [Call.UploadPhoto]
    {
      if galleryController == null {
        return Throw(TypeError(TypeErrorNoController));
      }
      galleryController.UploadPhotos();
      r := Normal;
    }

    /** The editor controller has no `addPhotoToBeFiltered`, so the call throws
        and nothing changes. */
    method EditPhoto(photo: Photo) returns (r: Completion)
      ensures r == Throw(TypeError(TypeErrorNoAddPhoto))
    {
      r := Throw(TypeError(TypeErrorNoAddPhoto));
    }

    /** Runs the `photosUploaded` listener of the i-th subscribed controller. */
    method NotifyPhotosUploaded(i: nat, answer: Result<seq<PhotoRecord>>, make: PhotoFactory)
      requires Valid() && i < |controllers|
      modifies trace, controllers[i]
      ensures controllers[i].State() == AfterPhotosUploaded(old(controllers[i].State()), answer, make)
      ensures forall j :: 0 <= j < |controllers| && j != i ==> controllers[j].State() == old(controllers[j].State())
      ensures trace.calls == old(trace.calls) + PhotosUploadedCalls(old(controllers[i].State()), answer, make)
    {
      var c := controllers[i];
      assert c.Valid() && c.Trace() == trace;
      c.OnPhotosUploaded(answer, make);
    }

    /** One step of DispatchPhotosUploaded: the first i subscribers have run
        their pipelines on the states `before`, and now subscriber i runs its own. */
    method DispatchPhotosUploadedStep(ghost t0: seq<Call>, ghost before: seq<GalleryState>, i: nat,
                                      answer: Result<seq<PhotoRecord>>, make: PhotoFactory)
      requires Valid() && i < |controllers| == |before|
      requires forall j :: 0 <= j < |controllers| ==>
        controllers[j].State() == if j < i then AfterPhotosUploaded(before[j], answer, make) else before[j]
      requires trace.calls == t0 + BroadcastPhotosUploadedCalls(before[..i], answer, make)
      modifies trace, controllers[i]
      ensures forall j :: 0 <= j < |controllers| ==>
        controllers[j].State() == if j < i + 1 then AfterPhotosUploaded(before[j], answer, make) else before[j]
      ensures trace.calls == t0 + BroadcastPhotosUploadedCalls(before[..i + 1], answer, make)
    {
      ghost var done := BroadcastPhotosUploadedCalls(before[..i], answer, make);
      NotifyPhotosUploaded(i, answer, make);
      AppendAssociative(t0, done, PhotosUploadedCalls(before[i], answer, make));
      BroadcastPhotosUploadedStep(before, answer, make, i);
    }

    /** `window.dispatchEvent(new CustomEvent('photosUploaded'))`: every
        subscribed controller runs its pipeline, oldest first; each fetch gets
        `answer` from the shared upload service. */
    method DispatchPhotosUploaded(answer: Result<seq<PhotoRecord>>, make: PhotoFactory)
      requires Valid()
      modifies trace, controllers
      ensures Valid()
      ensures forall j :: 0 <= j < |controllers| ==>
        controllers[j].State() == AfterPhotosUploaded(old(controllers[j].State()), answer, make)
      ensures trace.calls == old(trace.calls) + BroadcastPhotosUploadedCalls(old(StatesOf(controllers)), answer, make)
    {
      ghost var before := StatesOf(controllers);
      var i := 0;
      while i < |controllers|
        invariant 0 <= i <= |controllers|
        invariant forall j :: 0 <= j < |controllers| ==>
          controllers[j].State() == if j < i then AfterPhotosUploaded(before[j], answer, make) else before[j]
        invariant trace.calls == old(trace.calls) + BroadcastPhotosUploadedCalls(before[..i], answer, make)
      {
        DispatchPhotosUploadedStep(old(trace.calls), before, i, answer, make);
        i := i + 1;
      }
      assert before[..i] == before;
    }

    /** One step of DispatchEditingModalClosed: the first i subscribers have
        sorted and displayed, and now subscriber i does. */
    method DispatchEditingModalClosedStep(ghost t0: seq<Call>, ghost states: seq<GalleryState>, i: nat)
      requires Valid() && i < |controllers| && i < |states| && states[i] == controllers[i].State()
      requires trace.calls == t0 + BroadcastEditingModalClosedCalls(states[..i])
      modifies trace
      ensures trace.calls == t0 + BroadcastEditingModalClosedCalls(states[..i + 1])
    {
      ghost var done := BroadcastEditingModalClosedCalls(states[..i]);
      var c := controllers[i];
      assert c.Trace() == trace;
      c.OnEditingModalClosed();
      AppendAssociative(t0, done, EditingModalClosedCalls(states[i]));
      BroadcastEditingModalClosedStep(states, i);
    }

    /** `window.dispatchEvent(new CustomEvent('editingModalClosed'))`: every
        subscribed controller sorts and displays, oldest first; none changes. */
    method DispatchEditingModalClosed()
      requires Valid()
      modifies trace
      ensures forall j :: 0 <= j < |controllers| ==> controllers[j].State() == old(controllers[j].State())
      ensures trace.calls == old(trace.calls) + BroadcastEditingModalClosedCalls(old(StatesOf(controllers)))
    {
      ghost var states := StatesOf(controllers);
      var i := 0;
      while i < |controllers|
        invariant 0 <= i <= |controllers|
        invariant trace.calls == old(trace.calls) + BroadcastEditingModalClosedCalls(states[..i])
      {
        DispatchEditingModalClosedStep(old(trace.calls), states, i);
        i := i + 1;
      }
      assert states[..i] == states;
    }
  }

  /** Constructions with 3, 0 (rejected) and -2.5 columns leave two
      subscribed controllers, the replaced one first, and no call made. */
  method ConstructTwice(first: ElementArg, second: ElementArg) returns (o: ControllerOrchestrator)
    requires IsHTMLElement(first) && IsHTMLElement(second)
    ensures fresh(o) && fresh(o.trace) && o.Valid() && o.trace.calls == []
    ensures forall i :: 0 <= i < |o.controllers| ==> fresh(o.controllers[i])
    ensures StatesOf(o.controllers) == [ConfiguredState(Finite(3.0), first), ConfiguredState(Finite(-2.5), second)]
  {
    ConstructAcceptsNonZeroNumbers(first, 3.0, false, false);
    ConstructAcceptsNonZeroNumbers(second, -2.5, false, false);
    o := new ControllerOrchestrator();
    var r1 := o.ConstructPhotoGallery(Finite(3.0), first);
    var c1 := o.galleryController;
    var r2 := o.ConstructPhotoGallery(Finite(0.0), second);
    var r3 := o.ConstructPhotoGallery(Finite(-2.5), second);
    var c2 := o.galleryController;
    assert r2.Throw? && o.controllers == [c1, c2];
  }

  /** A replaced gallery controller still answers `photosUploaded`: after two
      successful constructions (a rejected one with 0 columns in between), a
      broadcast runs two pipelines, the old controller's first. */
  method ReplacedControllerStillResponds(first: ElementArg, second: ElementArg,
                                         answer: Result<seq<PhotoRecord>>, make: PhotoFactory)
      returns (calls: seq<Call>)
    requires IsHTMLElement(first) && IsHTMLElement(second)
    ensures FetchCount(calls) == 2
    ensures Displays(calls) == [DisplayGallery(Finite(3.0), first), DisplayGallery(Finite(-2.5), second)]
  {
    var orchestrator := ConstructTwice(first, second);
    ghost var states := StatesOf(orchestrator.controllers);
    orchestrator.DispatchPhotosUploaded(answer, make);
    calls := orchestrator.trace.calls;
    ghost var expected := BroadcastPhotosUploadedCalls(states, answer, make);
    assert calls == [] + expected == expected;
    BroadcastRunsOnePipelinePerController(states, answer, make);
    assert DisplaysOf(states) == [DisplayGallery(Finite(3.0), first), DisplayGallery(Finite(-2.5), second)];
  }
}
