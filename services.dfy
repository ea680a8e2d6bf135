/** The collaborators the controllers depend on, whose internals are not part of
    this model. Each call they receive is appended to one CallTrace that both
    services share, so the order of calls across the two services is visible. */
module Services {
  import opened JsValues
  import opened GallerySpec

  /** The calls received so far by the services that hold this trace. */
  class CallTrace {
    var calls: seq<Call>

    constructor ()
      ensures calls == []
    {
      calls := [];
    }

    method Record(c: Call)
      modifies this
      ensures calls == old(calls) + [c]
    {
      calls := calls + [c];
    }
  }

  /** UploadService: starts an upload and hands out the uploaded photo data. */
  class UploadService {
    const trace: CallTrace

    constructor (trace: CallTrace)
      ensures this.trace == trace
    {
      this.trace := trace;
    }

    /** `uploadPhoto()`: completion is signalled later by a `photosUploaded` broadcast. */
    method UploadPhoto()
      modifies trace
      ensures trace.calls == old(trace.calls) + [Call.UploadPhoto]
    {
      trace.Record(Call.UploadPhoto);
    }

    /** `getUploadedPhotosData()`: what it returns or throws is outside the model,
        so it is given as `answer`. */
    method GetUploadedPhotosData(answer: Result<seq<PhotoRecord>>) returns (r: Result<seq<PhotoRecord>>)
      modifies trace
      ensures r == answer
      ensures trace.calls == old(trace.calls) + [Call.GetUploadedPhotosData]
    {
      trace.Record(Call.GetUploadedPhotosData);
      r := answer;
    }
  }

  /** PhotoAssistantService: owns gallery membership, sorting and rendering. */
  class PhotoAssistantService {
    const trace: CallTrace

    constructor (trace: CallTrace)
      ensures this.trace == trace
    {
      this.trace := trace;
    }

    method AddPhotoToGallery(photo: Photo, description: string)
      modifies trace
      ensures trace.calls == old(trace.calls) + [Call.AddPhotoToGallery(photo, description)]
    {
      trace.Record(Call.AddPhotoToGallery(photo, description));
    }

    method SortPhotosAlphabetically()
      modifies trace
      ensures trace.calls == old(trace.calls) + [Call.SortPhotosAlphabetically]
    {
      trace.Record(Call.SortPhotosAlphabetically);
    }

    method DisplayGallery(columns: JsValue, element: ElementArg)
      modifies trace
      ensures trace.calls == old(trace.calls) + [Call.DisplayGallery(columns, element)]
    {
      trace.Record(Call.DisplayGallery(columns, element));
    }
  }
}
