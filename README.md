# Body-fluid cell detection web app: client workflow and server response shaping

This project models the two ends of the single `POST /predict` call of a
small web application that detects cells in a photo with a YOLO model.

* The browser client (`public/app.js`) lets the user pick or take a photo.
  It shows the photo, sends it to the server, then lists the detections,
  shows a summary of the most confident one, and draws the boxes on a
  canvas over the photo.
* The server (`backend/main.py`) picks its model file and its static
  directory at start-up. Its `predict` route gates the upload on its
  content type, decodes the image, runs the detector, and zips the
  detector's output into a list of detection records.

Modules:

| file | module | what it holds |
|---|---|---|
| text.dfy | `Text` | `Option`; decimal integers as `String(i)` / `str(i)` print them, and their parser; `startsWith`; `split` at a character |
| fixed.dfy | `Fixed` | `toFixed(1)` over exact reals and its parser |
| detections.dfy | `Detections` | the detection record as the client reads it |
| presenter.dfy | `Presenter` | `confToPct`, `formatBBox`, `renderResults`, `updateSummary` |
| overlay.dfy | `Overlay` | `clearCanvas`, `fitCanvasToImage`, `drawBoxes` geometry |
| client.dfy | `Client` | the class `App`: the module-level variables `currentFile`, `lastDetections` and `showBoxes`, the page parts they drive, and the event handlers; methods that run event sequences on a fresh `App` |
| server.dfy | `Server` | `str.strip`, the `next(...)` candidate choice, `MODEL_PATH`, `PUBLIC_DIR`, the start-up checks, `_read_image`, the zip loop, `predict` |
| protocol.dfy | `Protocol` | the server's replies as the client reads them |

Shape of the model:

* The client's mutable state is a class. Each event handler is a method
  whose `ensures` gives the whole new state. Every handler keeps the
  invariant `App.Valid()`: the result list and the summary show exactly
  `lastDetections`.
* The server's pure choices are functions.
* The two `forEach` loops of the client are methods with loops, proved
  against specification functions. So is the `for` loop of `predict`.
* The network reply, the image sizes the browser reports, the file
  system, the image decoder and the detector are all parameters.

Behaviour of the code worth knowing:

* There is no check that a reply belongs to the current file. A reply
  to an earlier selection that arrives after a newer selection is still
  applied (`Client.LateReplyOverwritesNewerSelection`).
* Selecting a new image empties `lastDetections` and the result list,
  but it does not clear the overlay. The previous image's boxes stay
  drawn until the next reply, a press of the show/hide button, or a
  window resize (`Client.SelectionKeepsOldBoxes`).
* The object URL made for each selection is never revoked.
* A non-image file is ignored without any message.
* The count shown is `num_detections`, and the rows follow the list, so
  the two can differ. The summary total is always the list length.

## Model

| member | source | states |
|---|---|---|
| Text.DecimalRoundTrip | public/app.js:298 | reading back the digits an integer prints as gives the integer |
| Text.IntToDecimal | backend/main.py:129 | the canonical text of `str(k)` / `String(n)`: a leading '-' exactly for negatives, then digits with no leading zero |
| Text.IntRoundTrip | backend/main.py:129 | `str(k)` / `String(n)` of any integer, sign included, reads back as that integer |
| Fixed.RoundTenths | public/app.js:88 | the integer n printed for a magnitude x is the nearest to 10x, the larger on a tie: 10x - 1/2 < n <= 10x + 1/2 |
| Fixed.SignedTenths | public/app.js:88 | the printed tenths t are an integer within 1/2 of 10x, and a tie goes to the larger magnitude: up for x >= 0, down for x < 0; non-negative for non-negative x |
| Fixed.Fixed1RoundTrip | public/app.js:88 | what `toFixed(1)` prints denotes exactly the signed rounded tenths of its input |
| Presenter.ConfToPct | public/app.js:87-89 | the text ends in '%'; before it stands the confidence times 100 rounded to tenths; an absent confidence gives "NaN%" |
| Presenter.BBoxRoundTrip | public/app.js:91-94 | the formatted box reads back as the four coordinates rounded to tenths, in the order x1, y1, x2, y2 |
| Presenter.ConfToPctExample | public/app.js:87-89 | 0.8734 prints as "87.3%" |
| Presenter.FormatBBoxExample | public/app.js:91-94 | (10, 20.25, 100.999, 50) prints as "[10.0, 20.3, 101.0, 50.0]" |
| Presenter.RenderResults | public/app.js:96-137 | the loop leaves exactly `Results(dets)`: the empty marker for no detections, else one row per detection |
| Presenter.ResultsInOrder | public/app.js:99-136 | the result list is the empty marker exactly when there are no detections; otherwise row k is numbered k + 1 and shows detection k's name (or "undefined"), percentage, class id and box |
| Presenter.FirstMax | public/app.js:246-247 | reference definition of the top detection: its key `confidence ?? 0` is maximal and every earlier key is smaller |
| Presenter.FirstMaxUnique | public/app.js:247 | at most one index is first among the maximal keys, so the stable sort's first element is determined |
| Presenter.TopDetection | public/app.js:246-247 | the scan returns the index that a stable descending sort puts first: maximal key, and every earlier key smaller |
| Presenter.UpdateSummary | public/app.js:240-254 | hidden exactly for no detections; otherwise the top detection's name (or "unknown"), its percentage of `confidence ?? 0`, and the list length as total |
| Overlay.CanvasSide | public/app.js:80-85 | the canvas side is at least 1, and is the whole part of the displayed size when that is at least 1 |
| Overlay.MapBox | public/app.js:176-181 | the rectangle's corners are the box's corners scaled by (sx, sy) |
| Overlay.UnmapMapBox | public/app.js:176-181 | dividing by a non-zero scale recovers the box from its rectangle |
| Overlay.LabelY | public/app.js:189-194 | the chip top is never negative; it is 20 above the box, or 0 when that would be above the canvas |
| Overlay.DrawBoxes | public/app.js:154-205 | the drawing loop leaves exactly `Render(show, dets, img)`, which depends on its inputs only |
| Overlay.RenderClearsIff | public/app.js:154-162 | the canvas ends up 1x1 and blank exactly when boxes are hidden, the list is empty, or a natural side is 0 |
| Overlay.RenderShape | public/app.js:164-194 | when drawn: canvas of the displayed size, one shape per detection in order, corners scaled by canvas size over natural size, chip not above the canvas |
| Overlay.BoxInsideImageStaysOnCanvas | public/app.js:167-181 | a box inside the natural image is drawn inside the canvas |
| Overlay.HalfScaleExample | public/app.js:167-181 | natural 400x300 shown at 200x150 draws the box (100, 100, 200, 200) at (50, 50) with size 50x50 |
| Client.ReceivedDetections | public/app.js:295 | the stored detections are `data.detections` when it is an array, else empty |
| Client.CountText | public/app.js:298 | the shown count reads back as `num_detections` when present, else as the list length |
| Client.FailureMessage | public/app.js:290-293 | the error text is `detail` when it is a non-empty string, else "HTTP " followed by the status code |
| Client.App.constructor | public/app.js:43-45 | no file, no detections, boxes shown, empty result list, hidden summary; `Valid()` holds |
| Client.App.ClearCanvas | public/app.js:73-78 | the canvas becomes 1x1 and blank |
| Client.App.DrawBoxes | public/app.js:154-205 | the canvas becomes `Render(showBoxes, dets, image)` |
| Client.App.ResetResultsUI | public/app.js:233-238 | count "-", the empty marker alone, summary hidden; nothing else changes |
| Client.App.SetPreviewFile | public/app.js:256-260 | the file becomes current, the detections are emptied and the result view is reset; nothing else changes |
| Client.App.FileChanged | public/app.js:324-332 | no file or a type not starting with "image/" changes nothing; an image file is selected as above, before any prediction, and the overlay, sizes and toggle are kept; keeps `Valid()` |
| Client.App.ImageLoaded | public/app.js:262-277 | the image sizes are recorded; a request is issued exactly when a file is current; keeps `Valid()` |
| Client.App.Settle | public/app.js:287-313 | ok reply: detections, count, rows, summary and overlay as computed from the body; otherwise only the status carries the failure text and the canvas is cleared; keeps `Valid()` |
| Client.App.ToggleBoxes | public/app.js:334-343 | `showBoxes` flips; shown means redrawn from `lastDetections`, hidden means cleared; keeps `Valid()` |
| Client.App.Resize | public/app.js:345 | the displayed size is updated and the overlay redrawn from `lastDetections`; keeps `Valid()` |
| Client.ToggleOffOnRedraws | public/app.js:334-345 | after a successful reply, hiding clears the canvas and showing again draws exactly what was drawn |
| Client.CountMayDifferFromRows | public/app.js:295-300 | the shown count reads back as `num_detections` while the rows number the list's length |
| Client.LateReplyOverwritesNewerSelection | public/app.js:296-302 | a reply to an earlier file, arriving after a newer selection, becomes the listed detections |
| Client.SelectionKeepsOldBoxes | public/app.js:256-274 | after a new selection the detections are empty while all previous boxes are still drawn |
| Client.ErrorReplyReported | public/app.js:290-310 | a non-ok reply reports its non-empty detail, or "HTTP " and the status, and clears the canvas |
| Server.Strip | backend/main.py:47 | the result is empty exactly when the text is all white space, and otherwise starts and ends with a non-space |
| Server.StripPadded | backend/main.py:47 | stripping removes exactly the white space around a trimmed text |
| Server.FirstMatch | backend/main.py:36 | the index of the first candidate passing the test: it passes, and none before it does |
| Server.FirstOrDefault | backend/main.py:52 | the first candidate that passes when one does, else candidate 0 |
| Server.ModelPath | backend/main.py:47-52 | a non-empty stripped `MODEL_PATH` is used as is when absolute and under BASE_DIR otherwise; else the first existing default candidate, else candidate 0 |
| Server.PublicDir | backend/main.py:32-36 | the first candidate that exists and is a directory, else candidate 0 |
| Server.Startup | backend/main.py:56-75 | start-up succeeds exactly when the chosen model file and the chosen public directory exist, and then carries exactly those two paths; the model is checked first, and each failure names the path that is missing (the public-directory check itself is at backend/main.py:152-160) |
| Server.ReadImage | backend/main.py:83-88 | bytes the decoder refuses give 400 "Invalid image file"; others give the decoded image |
| Server.TruncateToInt | backend/main.py:127 | `int(k)` truncates toward zero |
| Server.ClassName | backend/main.py:127-131 | the dict's name for the class when it has one; else text that reads back as the class id |
| Server.Min3 | backend/main.py:126 | the length of a three-way zip: the smallest of the three lengths |
| Server.BuildDetections | backend/main.py:117-138 | no boxes gives no records; else one record per zipped triple, in order, as many as the shortest list |
| Server.Predict | backend/main.py:106-146 | a missing or non-image content type gives 400 "Please upload an image" without reading the body; undecodable bytes give 400 "Invalid image file"; otherwise `num_detections` equals the length of `detections`, which are the zipped records |
| Protocol.ServedCountMatchesRows | backend/main.py:140-145 | for this server's replies the count the client shows equals the number of detections it lists |
| Protocol.RejectionsReachStatus | backend/main.py:107-108 | the server's two rejection texts reach the client's status line unchanged |
| Protocol.UploadToPage | backend/main.py:106-146 | an accepted image file that decodes is counted and listed consistently, one row per server record; one that does not decode ends in "Invalid image file" |

## Left out

- Styling and DOM cosmetics are not modelled: `setBadge`, `showLoading`, `setApiPillOnline`, button labels and the Thai wording of the status line. The status line is modelled by its kind and its variable part only.
- The health poll `pingAPI` and the server's `health` route are not modelled. They are a status ping with no effect on the workflow.
- The `fetch`, `FormData` and `res.json()` transport is not modelled. A reply is an input value that is either a rejected fetch with its error text, or an HTTP response with its status and parsed body. A body that is not JSON is the empty object.
- Canvas drawing primitives are not modelled: `roundRect`, fonts, shadows, and the chip width from `measureText`. They depend on the browser's font metrics. A drawn shape records its rectangle, the chip's position and the chip text.
- The API base URL chosen by host name is not modelled. It is environment configuration.
- Object URL creation and lifetime are not modelled. This is browser resource handling.
- Overlapping predictions are not interleaved. Events are sequential method calls, and a reply is handled when it arrives.
- Fixed.ToFixed1: works on exact reals, not IEEE doubles. It does not model the exponent form `toFixed` uses from 1e21 upward, or NaN and infinities. An absent confidence is the one NaN case modelled.
- Client.App.ImageLoaded: the browser reports the natural and displayed sizes as inputs. Selecting a file keeps the previous sizes until the new image loads.
- Client.App.constructor: `index.html` is not part of this model. The page starts with the HTML default 300x150 blank canvas and the reset result view.
- Detection elements with a missing or malformed `bbox_xyxy` are not modelled. In the code these throw inside the success path.
- Non-string `detail` values and non-integer `num_detections` values are not modelled.
- YOLO inference, `cv2.imdecode`, numpy conversions, FastAPI routing, CORS, the static mount and the uvicorn entry point are not modelled. These are foreign libraries and server plumbing. The decoder and the detector are function parameters. The decoder is taken to be total. `cv2.imdecode` raises on an empty buffer, which the server turns into a 500 rather than 400 "Invalid image file"; that case is outside `Server.ReadImage` and `Server.Predict`. `len(r0.boxes)` is the number of corner rows.
- Server.Predict: the reply's `model` and `model_path` fields are not modelled.
- Server.ModelPath: paths are text joined with '/'. `IsAbsolute` is the POSIX rule, a leading '/'. A Windows drive path such as `C:\path\to\best.pt`, which pathlib on Windows treats as absolute, is joined under BASE_DIR here. `Path.resolve()` and pathlib normalisation need the file system and are not modelled. BASE_DIR and ROOT_DIR are parameters.
- Server.IsSpace: covers the white space `str.isspace()` accepts below U+0100 and no other characters.
- Server.Startup: the `RuntimeError` message text is not modelled. Only which check failed is kept.
