/** The JSON contract between backend/main.py and public/app.js: what the
    client reads out of the server's replies. */
module Protocol {
  import opened Text
  import opened Detections
  import Server
  import Client
  import Presenter

  function ToDetection(r: Server.Record): Detection {
    Detection(r.classId, Some(r.className), Some(r.confidence), r.bbox)
  }

  /** The body of a 200 reply, as the client parses it. */
  function SuccessBody(p: Server.Prediction): Client.ReplyBody {
    Client.ReplyBody(Some(seq(|p.detections|, i requires 0 <= i < |p.detections| => ToDetection(p.detections[i]))),
                     Some(p.numDetections), None)
  }

  /** The body of an HTTPException reply: `{"detail": ...}`. */
  function ErrorBody(e: Server.HttpError): Client.ReplyBody {
    Client.ReplyBody(None, None, Some(e.detail))
  }

  /** The reply the client receives for a route result. */
  function ReplyOf(r: Server.Result<Server.Prediction, Server.HttpError>): Client.Reply {
    match r
    case Ok(p) => Client.Response(true, 200, SuccessBody(p))
    case Err(e) => Client.Response(false, e.status, ErrorBody(e))
  }

  /** For a reply of this server the shown count is the number of rows. */
  lemma ServedCountMatchesRows(p: Server.Prediction)
    requires p.numDetections == |p.detections|
    ensures var b := SuccessBody(p);
            && |Client.ReceivedDetections(b)| == |p.detections|
            && ParseInt(Client.CountText(b)) == Some(|Client.ReceivedDetections(b)|)
  {
  }

  /** The server's two rejections reach the status line word for word. */
  lemma RejectionsReachStatus()
    ensures Client.FailureMessage(400, ErrorBody(Server.NotAnImage)) == "Please upload an image"
    ensures Client.FailureMessage(400, ErrorBody(Server.InvalidImage)) == "Invalid image file"
  {
  }

  /** From upload to page: a file the browser accepts whose bytes decode is
      listed and counted consistently, one row per record the server built;
      an upload the decoder refuses ends in "Invalid image file". */
  method UploadToPage(f: Client.File, data: seq<Server.byte>,
                      decode: seq<Server.byte> -> Option<Server.Image>,
                      detect: Server.Image -> Server.Inference)
    returns (count: string, rows: nat, records: nat, status: Client.Status)
    requires Client.IsImageFile(f)
    ensures decode(data).Some? ==> ParseInt(count) == Some(rows) && rows == records
    ensures decode(data).None? ==> status == Client.Failed("Invalid image file")
  {
    var app := new Client.App();
    app.FileChanged(Some(f));
    var requested := app.ImageLoaded(640, 480, 320.0, 240.0);
    var bodyRead, result := Server.Predict(Server.Upload(Some(f.mimeType), data), decode, detect);
    app.Settle(ReplyOf(result));
    records := if result.Ok? then |result.value.detections| else 0;
    count := app.detCount;
    if result.Ok? {
      Presenter.ResultsInOrder(Client.ReceivedDetections(SuccessBody(result.value)));
    }
    rows := if app.results.Rows? then |app.results.rows| else 0;
    status := app.status;
  }
}
