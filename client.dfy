/** The workflow of the browser client (public/app.js): the module-level
    variables `currentFile`, `lastDetections` and `showBoxes`, the parts of
    the page they drive, and the event handlers that update them. Events
    are handled one at a time; the network reply of a prediction is an
    input of the handler that runs when it arrives. */
module Client {
  import opened Text
  import opened Detections
  import Presenter
  import Overlay

  /** A file picked in the file input (or taken with the camera). */
  datatype File = File(name: string, mimeType: string)

  /** The object `res.json()` produced, or `{}` when the body was not JSON.
      `detections` is None when that field is absent or not an array. */
  datatype ReplyBody = ReplyBody(detections: Option<seq<Detection>>, numDetections: Option<int>, detail: Option<string>)

  /** How a prediction request ended: fetch rejected without a response
      (carrying the error's text), or an HTTP response. */
  datatype Reply =
    | NoResponse(error: string)
    | Response(ok: bool, status: int, body: ReplyBody)

  /** The status line, without its fixed wording. */
  datatype Status = Ready | Preparing | Predicting | Succeeded(found: nat) | Failed(message: string)

  /** The file input's gate: `type.startsWith("image/")`. */
  predicate IsImageFile(f: File) {
    StartsWith(f.mimeType, "image/")
  }

  /** `Array.isArray(data.detections) ? data.detections : []`. */
  function ReceivedDetections(b: ReplyBody): (dets: seq<Detection>)
    ensures b.detections.Some? ==> dets == b.detections.value
    ensures b.detections.None? ==> dets == []
  {
    b.detections.GetOr([])
  }

  /** The count shown: `num_detections ?? detections.length`. */
  function CountText(b: ReplyBody): (s: string)
    ensures b.numDetections.Some? ==> ParseInt(s) == Some(b.numDetections.value)
    ensures b.numDetections.None? ==> ParseInt(s) == Some(|ReceivedDetections(b)|)
  {
    var n := b.numDetections.GetOr(|ReceivedDetections(b)|);
    IntRoundTrip(n);
    IntToDecimal(n)
  }

  /** The error of a non-ok response: `detail` when truthy, else "HTTP <status>". */
  function FailureMessage(status: int, b: ReplyBody): (msg: string)
    ensures b.detail.Some? && b.detail.value != "" ==> msg == b.detail.value
    ensures !(b.detail.Some? && b.detail.value != "") ==>
              StartsWith(msg, "HTTP ") && ParseInt(msg[5..]) == Some(status)
  {
    if b.detail.Some? && b.detail.value != "" then b.detail.value
    else
      IntRoundTrip(status);
      var msg := "HTTP " + IntToDecimal(status);
      assert msg[5..] == IntToDecimal(status);
      msg
  }

  /** The text a failed prediction reports. */
  function FailureText(reply: Reply): string
    requires !(reply.Response? && reply.ok)
  {
    match reply
    case NoResponse(e) => e
    case Response(_, status, body) => FailureMessage(status, body)
  }

  /** A fresh page before any image: the HTML canvas default size, an
      empty result list and a hidden summary. */
  const InitialCanvas := Overlay.Canvas(300, 150, [])

  class App {
    var currentFile: Option<File>
    var lastDetections: seq<Detection>
    var showBoxes: bool
    var image: Overlay.ImageView
    var canvas: Overlay.Canvas
    var detCount: string
    var results: Presenter.ResultsView
    var summary: Presenter.SummaryView
    var status: Status

    /** The result list and the summary always show `lastDetections`: every
        handler that writes one of the three writes all of them together. */
    predicate Valid()
      reads this
    {
      results == Presenter.Results(lastDetections) && summary == Presenter.Summary(lastDetections)
    }

    constructor ()
      ensures Valid()
      ensures currentFile == None && lastDetections == [] && showBoxes
      ensures image == Overlay.ImageView(0, 0, 0.0, 0.0) && canvas == InitialCanvas
      ensures detCount == "-" && results == Presenter.EmptyMarker && summary == Presenter.Hidden
      ensures status == Ready
    {
      currentFile := None;
      lastDetections := [];
      showBoxes := true;
      image := Overlay.ImageView(0, 0, 0.0, 0.0);
      canvas := InitialCanvas;
      detCount := "-";
      results := Presenter.EmptyMarker;
      summary := Presenter.Hidden;
      status := Ready;
    }

    /** clearCanvas */
    method ClearCanvas()
      modifies this`canvas
      ensures canvas == Overlay.Cleared
    {
      canvas := Overlay.Cleared;
    }

    /** drawBoxes, reading `showBoxes` and the preview image. */
    method DrawBoxes(dets: seq<Detection>)
      modifies this`canvas
      ensures canvas == Overlay.Render(showBoxes, dets, image)
    {
      canvas := Overlay.DrawBoxes(showBoxes, dets, image);
    }

    /** resetResultsUI */
    method ResetResultsUI()
      modifies this`detCount, this`results, this`summary
      ensures detCount == "-" && results == Presenter.EmptyMarker && summary == Presenter.Hidden
    {
      detCount := "-";
      results := Presenter.EmptyMarker;
      summary := Presenter.Hidden;
    }

    /** setPreviewFile, up to handing the image to the browser to load. */
    method SetPreviewFile(f: File)
      modifies this`currentFile, this`lastDetections, this`detCount, this`results, this`summary
      ensures currentFile == Some(f) && lastDetections == []
      ensures detCount == "-" && results == Presenter.EmptyMarker && summary == Presenter.Hidden
    {
      currentFile := Some(f);
      lastDetections := [];
      ResetResultsUI();
    }

    /** The file input's `change` handler. Without a file, or with one whose
        type is not an image type, nothing changes. The overlay is left as
        it was: boxes of an earlier image stay until the next reply, a
        press of the show/hide button, or a window resize. */
    method FileChanged(f: Option<File>)
      requires Valid()
      ensures Valid()
      modifies this
      ensures f.None? || !IsImageFile(f.value) ==> unchanged(this)
      ensures f.Some? && IsImageFile(f.value) ==>
                && currentFile == f && lastDetections == []
                && detCount == "-" && results == Presenter.EmptyMarker && summary == Presenter.Hidden
                && status == Preparing
                && showBoxes == old(showBoxes) && image == old(image) && canvas == old(canvas)
    {
      if f.None? {
        return;
      }
      if !IsImageFile(f.value) {
        return;
      }
      status := Preparing;
      SetPreviewFile(f.value);
    }

    /** The preview's `onload`: the image now has its sizes, and doPredict
        starts; it sends a request only when a file is selected. */
    method ImageLoaded(naturalWidth: nat, naturalHeight: nat, clientWidth: real, clientHeight: real)
      returns (requested: bool)
      requires Valid()
      ensures Valid()
      modifies this`image, this`status
      ensures image == Overlay.ImageView(naturalWidth, naturalHeight, clientWidth, clientHeight)
      ensures requested <==> currentFile.Some?
      ensures status == if requested then Predicting else old(status)
    {
      image := Overlay.ImageView(naturalWidth, naturalHeight, clientWidth, clientHeight);
      if currentFile.None? {
        return false;
      }
      status := Predicting;
      requested := true;
    }

    /** The rest of doPredict, once fetch and the JSON parse have settled.
        There is no check that the reply belongs to the current file. */
    method Settle(reply: Reply)
      requires Valid()
      ensures Valid()
      modifies this`lastDetections, this`detCount, this`results, this`summary, this`canvas, this`status
      ensures reply.Response? && reply.ok ==>
                var dets := ReceivedDetections(reply.body);
                && lastDetections == dets
                && detCount == CountText(reply.body)
                && results == Presenter.Results(dets)
                && summary == Presenter.Summary(dets)
                && canvas == Overlay.Render(showBoxes, dets, image)
                && status == Succeeded(|dets|)
      ensures !(reply.Response? && reply.ok) ==>
                && lastDetections == old(lastDetections)
                && detCount == old(detCount) && results == old(results) && summary == old(summary)
                && canvas == Overlay.Cleared
                && status == Failed(FailureText(reply))
    {
      if !(reply.Response? && reply.ok) {
        status := Failed(FailureText(reply));
        ClearCanvas();
        return;
      }
      var dets := ReceivedDetections(reply.body);
      lastDetections := dets;
      detCount := CountText(reply.body);
      results := Presenter.RenderResults(dets);
      summary := Presenter.UpdateSummary(dets);
      DrawBoxes(dets);
      status := Succeeded(|dets|);
    }

    /** The show/hide button: flips `showBoxes`, then redraws from
        `lastDetections` or clears. */
    method ToggleBoxes()
      requires Valid()
      ensures Valid()
      modifies this`showBoxes, this`canvas
      ensures showBoxes == !old(showBoxes)
      ensures showBoxes ==> canvas == Overlay.Render(true, lastDetections, image)
      ensures !showBoxes ==> canvas == Overlay.Cleared
    {
      showBoxes := !showBoxes;
      if showBoxes {
        DrawBoxes(lastDetections);
      } else {
        ClearCanvas();
      }
    }

    /** The window's `resize`: the image has a new laid-out size, and the
        overlay is redrawn from `lastDetections`. */
    method Resize(clientWidth: real, clientHeight: real)
      requires Valid()
      ensures Valid()
      modifies this`image, this`canvas
      ensures image == old(image).(clientWidth := clientWidth, clientHeight := clientHeight)
      ensures canvas == Overlay.Render(showBoxes, lastDetections, image)
    {
      image := image.(clientWidth := clientWidth, clientHeight := clientHeight);
      DrawBoxes(lastDetections);
    }
  }

  /** Hiding the boxes and showing them again draws exactly what the
      successful reply drew. */
  method ToggleOffOnRedraws(f: File, naturalWidth: nat, naturalHeight: nat,
                            clientWidth: real, clientHeight: real, body: ReplyBody)
    returns (drawn: Overlay.Canvas, hidden: Overlay.Canvas, redrawn: Overlay.Canvas)
    requires IsImageFile(f)
    ensures drawn == redrawn
    ensures hidden == Overlay.Cleared
    ensures drawn == Overlay.Render(true, ReceivedDetections(body),
                                    Overlay.ImageView(naturalWidth, naturalHeight, clientWidth, clientHeight))
  {
    var app := new App();
    app.FileChanged(Some(f));
    var requested := app.ImageLoaded(naturalWidth, naturalHeight, clientWidth, clientHeight);
    app.Settle(Response(true, 200, body));
    drawn := app.canvas;
    app.ToggleBoxes();
    hidden := app.canvas;
    app.ToggleBoxes();
    redrawn := app.canvas;
  }

  /** The count shown is `num_detections` even when the list it came with
      has a different length; the rows follow the list. */
  method CountMayDifferFromRows(f: File, n: int, dets: seq<Detection>)
    returns (count: string, rows: nat)
    requires IsImageFile(f)
    ensures ParseInt(count) == Some(n)
    ensures rows == |dets|
  {
    var app := new App();
    app.FileChanged(Some(f));
    var requested := app.ImageLoaded(640, 480, 320.0, 240.0);
    app.Settle(Response(true, 200, ReplyBody(Some(dets), Some(n), None)));
    count := app.detCount;
    Presenter.ResultsInOrder(dets);
    rows := if app.results.Rows? then |app.results.rows| else 0;
  }

  /** A reply to an earlier selection that arrives after a newer image was
      selected is still applied: the page then lists the earlier image's
      detections while the newer file is the current one. */
  method LateReplyOverwritesNewerSelection(first: File, second: File, staleDets: seq<Detection>)
    returns (current: Option<File>, listed: seq<Detection>)
    requires IsImageFile(first) && IsImageFile(second)
    ensures current == Some(second)
    ensures listed == staleDets
  {
    var app := new App();
    app.FileChanged(Some(first));
    var requested := app.ImageLoaded(640, 480, 320.0, 240.0);
    app.FileChanged(Some(second));
    requested := app.ImageLoaded(800, 600, 400.0, 300.0);
    app.Settle(Response(true, 200, ReplyBody(Some(staleDets), None, None)));
    current := app.currentFile;
    listed := app.lastDetections;
  }

  /** Selecting a new image empties `lastDetections` but does not clear the
      overlay: the boxes of the previous image stay drawn until the next
      reply, a press of the show/hide button, or a window resize (each of
      which redraws from the now empty `lastDetections` or clears). */
  method SelectionKeepsOldBoxes(first: File, second: File, dets: seq<Detection>)
    returns (kept: nat, boxesOnCanvas: nat)
    requires IsImageFile(first) && IsImageFile(second) && |dets| > 0
    ensures kept == 0
    ensures boxesOnCanvas == |dets|
  {
    var app := new App();
    app.FileChanged(Some(first));
    var requested := app.ImageLoaded(640, 480, 320.0, 240.0);
    app.Settle(Response(true, 200, ReplyBody(Some(dets), None, None)));
    app.FileChanged(Some(second));
    kept := |app.lastDetections|;
    boxesOnCanvas := |app.canvas.shapes|;
  }

  /** An error reply with a detail reports that detail and clears the
      overlay; one without reports the HTTP status. */
  method ErrorReplyReported(f: File, status: int, detail: Option<string>)
    returns (message: string, overlay: Overlay.Canvas)
    requires IsImageFile(f)
    ensures detail.Some? && detail.value != "" ==> message == detail.value
    ensures !(detail.Some? && detail.value != "") ==> StartsWith(message, "HTTP ") && ParseInt(message[5..]) == Some(status)
    ensures overlay == Overlay.Cleared
  {
    var app := new App();
    app.FileChanged(Some(f));
    var requested := app.ImageLoaded(640, 480, 320.0, 240.0);
    app.Settle(Response(false, status, ReplyBody(None, None, detail)));
    message := app.status.message;
    overlay := app.canvas;
  }
}
