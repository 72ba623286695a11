/** The inference server (backend/main.py): where the model and the static
    files are looked for at start-up, and the `predict` route's upload gate,
    image decoding rule and detection-list builder. The file system, the
    image decoder and the detector are inputs. */
module Server {
  import opened Text
  import opened Detections

  datatype Result<+T, +E> = Ok(value: T) | Err(error: E)

  /** A path as text; `/` joins, a leading '/' makes it absolute. */
  type Path = string

  function Join(dir: Path, name: string): Path {
    dir + "/" + name
  }

  predicate IsAbsolute(p: Path) {
    |p| > 0 && p[0] == '/'
  }

  // ---------------------------------------------------------------------
  // str.strip()

  /** The characters str.isspace() accepts below U+0100. */
  predicate IsSpace(c: char) {
    var n := c as int;
    n == 32 || 9 <= n <= 13 || 28 <= n <= 31 || n == 0x85 || n == 0xA0
  }

  function TrimLeft(s: string): (r: string)
    ensures |r| <= |s| && r == s[|s| - |r|..]
    ensures forall i :: 0 <= i < |s| - |r| ==> IsSpace(s[i])
    ensures |r| > 0 ==> !IsSpace(r[0])
    decreases |s|
  {
    if |s| > 0 && IsSpace(s[0]) then TrimLeft(s[1..]) else s
  }

  function TrimRight(s: string): (r: string)
    ensures |r| <= |s| && r == s[..|r|]
    ensures forall i :: |r| <= i < |s| ==> IsSpace(s[i])
    ensures |r| > 0 ==> !IsSpace(r[|r| - 1])
    decreases |s|
  {
    if |s| > 0 && IsSpace(s[|s| - 1]) then TrimRight(s[..|s| - 1]) else s
  }

  /** str.strip(): the text without surrounding white space. */
  function Strip(s: string): (r: string)
    ensures r == "" <==> forall i :: 0 <= i < |s| ==> IsSpace(s[i])
    ensures |r| > 0 ==> !IsSpace(r[0]) && !IsSpace(r[|r| - 1])
  {
    TrimBothEnds(s);
    TrimRight(TrimLeft(s))
  }

  lemma TrimBothEnds(s: string)
    ensures var r := TrimRight(TrimLeft(s));
            && (r == "" <==> forall i :: 0 <= i < |s| ==> IsSpace(s[i]))
            && (|r| > 0 ==> !IsSpace(r[0]))
  {
    var left := TrimLeft(s);
    var r := TrimRight(left);
    if r == "" {
      assert |left| == 0;
    } else {
      assert r[0] == left[0];
      assert s[|s| - |left|] == left[0];
    }
  }

  predicate AllSpace(s: string) {
    forall i :: 0 <= i < |s| ==> IsSpace(s[i])
  }

  predicate Trimmed(s: string) {
    |s| == 0 || (!IsSpace(s[0]) && !IsSpace(s[|s| - 1]))
  }

  lemma {:induction false} TrimLeftPadded(pad: string, t: string)
    requires AllSpace(pad) && (|t| == 0 || !IsSpace(t[0]))
    ensures TrimLeft(pad + t) == t
    decreases |pad|
  {
    if |pad| > 0 {
      assert (pad + t)[1..] == pad[1..] + t;
      TrimLeftPadded(pad[1..], t);
    } else {
      assert pad + t == t;
    }
  }

  lemma {:induction false} TrimRightPadded(t: string, pad: string)
    requires AllSpace(pad) && (|t| == 0 || !IsSpace(t[|t| - 1]))
    ensures TrimRight(t + pad) == t
    decreases |pad|
  {
    if |pad| > 0 {
      assert (t + pad)[..|t + pad| - 1] == t + pad[..|pad| - 1];
      TrimRightPadded(t, pad[..|pad| - 1]);
    } else {
      assert t + pad == t;
    }
  }

  /** Strip removes exactly the white space around a trimmed text. */
  lemma StripPadded(before: string, t: string, after: string)
    requires AllSpace(before) && AllSpace(after) && Trimmed(t)
    ensures Strip(before + t + after) == t
  {
    assert before + t + after == before + (t + after);
    if |t| > 0 {
      assert (t + after)[0] == t[0];
    } else {
      assert t + after == after;
      assert AllSpace(before + after);
      assert Strip(before + t + after) == "";
      return;
    }
    TrimLeftPadded(before, t + after);
    TrimRightPadded(t, after);
  }

  // ---------------------------------------------------------------------
  // next(p for p in candidates if ok(p)), default)

  /** The index of the first candidate that passes `ok`, or |cands|. */
  function FirstMatch(cands: seq<Path>, ok: Path -> bool): (i: nat)
    ensures i <= |cands|
    ensures i < |cands| ==> ok(cands[i])
    ensures forall j :: 0 <= j < i ==> !ok(cands[j])
    decreases |cands|
  {
    if |cands| == 0 then 0
    else if ok(cands[0]) then 0
    else 1 + FirstMatch(cands[1..], ok)
  }

  /** `next((p for p in cands if ok(p)), cands[0])`. */
  function FirstOrDefault(cands: seq<Path>, ok: Path -> bool): (p: Path)
    requires |cands| > 0
    ensures p in cands
    ensures (exists j :: 0 <= j < |cands| && ok(cands[j])) ==> ok(p)
    ensures (forall j :: 0 <= j < |cands| ==> !ok(cands[j])) ==> p == cands[0]
    ensures ok(cands[0]) ==> p == cands[0]
    ensures FirstMatch(cands, ok) < |cands| ==> p == cands[FirstMatch(cands, ok)]
  {
    var i := FirstMatch(cands, ok);
    if i < |cands| then cands[i] else cands[0]
  }

  function DefaultModelCandidates(baseDir: Path, rootDir: Path): seq<Path> {
    [Join(Join(baseDir, "models"), "best.pt"), Join(Join(rootDir, "models"), "best.pt")]
  }

  function PublicDirCandidates(baseDir: Path, rootDir: Path): seq<Path> {
    [Join(rootDir, "public"), Join(baseDir, "public")]
  }

  /** MODEL_PATH: the stripped environment value when it is not empty (as
      is when absolute, under BASE_DIR otherwise); else the first default
      candidate that exists, else the first default candidate. */
  function ModelPath(env: string, baseDir: Path, rootDir: Path, pathExists: Path -> bool): (p: Path)
    ensures Strip(env) != "" && IsAbsolute(Strip(env)) ==> p == Strip(env)
    ensures Strip(env) != "" && !IsAbsolute(Strip(env)) ==> p == Join(baseDir, Strip(env))
    ensures Strip(env) == "" ==>
              var cands := DefaultModelCandidates(baseDir, rootDir);
              && p in cands
              && (pathExists(cands[0]) ==> p == cands[0])
              && (!pathExists(cands[0]) && pathExists(cands[1]) ==> p == cands[1])
              && (!pathExists(cands[0]) && !pathExists(cands[1]) ==> p == cands[0])
  {
    var e := Strip(env);
    if e != "" then
      if IsAbsolute(e) then e else Join(baseDir, e)
    else
      var cands := DefaultModelCandidates(baseDir, rootDir);
      assert FirstMatch(cands, pathExists) <= 2;
      FirstOrDefault(cands, pathExists)
  }

  /** PUBLIC_DIR: the first candidate that exists and is a directory, else
      the first candidate. */
  function PublicDir(baseDir: Path, rootDir: Path, pathExists: Path -> bool, isDir: Path -> bool): (p: Path)
    ensures var cands := PublicDirCandidates(baseDir, rootDir);
            && p in cands
            && (pathExists(cands[0]) && isDir(cands[0]) ==> p == cands[0])
            && (!(pathExists(cands[0]) && isDir(cands[0])) && pathExists(cands[1]) && isDir(cands[1]) ==> p == cands[1])
            && (!(pathExists(cands[0]) && isDir(cands[0])) && !(pathExists(cands[1]) && isDir(cands[1])) ==> p == cands[0])
  {
    var cands := PublicDirCandidates(baseDir, rootDir);
    assert FirstMatch(cands, q => pathExists(q) && isDir(q)) <= 2;
    FirstOrDefault(cands, q => pathExists(q) && isDir(q))
  }

  datatype Config = Config(modelPath: Path, publicDir: Path)
  datatype StartupError = ModelNotFound(modelPath: Path) | PublicDirNotFound(publicDir: Path)

  /** Module start-up: stop when the chosen model file is missing, then
      when the chosen public directory is missing. */
  function Startup(env: string, baseDir: Path, rootDir: Path, pathExists: Path -> bool, isDir: Path -> bool)
    : (r: Result<Config, StartupError>)
    ensures r.Ok? ==> pathExists(r.value.modelPath) && pathExists(r.value.publicDir)
    ensures r.Ok? <==> pathExists(ModelPath(env, baseDir, rootDir, pathExists)) &&
                       pathExists(PublicDir(baseDir, rootDir, pathExists, isDir))
    ensures r.Err? && r.error.PublicDirNotFound? ==> pathExists(ModelPath(env, baseDir, rootDir, pathExists))
    ensures r.Ok? ==> r.value == Config(ModelPath(env, baseDir, rootDir, pathExists),
                                        PublicDir(baseDir, rootDir, pathExists, isDir))
    ensures r.Err? && r.error.ModelNotFound? ==>
              r.error.modelPath == ModelPath(env, baseDir, rootDir, pathExists)
    ensures r.Err? && r.error.PublicDirNotFound? ==>
              r.error.publicDir == PublicDir(baseDir, rootDir, pathExists, isDir)
    ensures !pathExists(ModelPath(env, baseDir, rootDir, pathExists)) ==> r.Err? && r.error.ModelNotFound?
  {
    var model := ModelPath(env, baseDir, rootDir, pathExists);
    if !pathExists(model) then Err(ModelNotFound(model))
    else
      var public := PublicDir(baseDir, rootDir, pathExists, isDir);
      if !pathExists(public) then Err(PublicDirNotFound(public))
      else Ok(Config(model, public))
  }

  // ---------------------------------------------------------------------
  // The predict route

  newtype byte = x: int | 0 <= x < 256

  /** The uploaded form field: its declared content type and its bytes. */
  datatype Upload = Upload(contentType: Option<string>, data: seq<byte>)

  /** An HTTPException: status code and detail text. */
  datatype HttpError = HttpError(status: int, detail: string)

  /** A decoded image: its height, width and channel count. */
  datatype Image = Image(height: nat, width: nat, channels: nat)

  /** The detector's boxes: corners, confidences and class numbers. */
  datatype Boxes = Boxes(xyxy: seq<Box>, conf: seq<real>, cls: seq<real>)

  /** The detector's class names: a dict, or something else. */
  datatype Names = NameDict(names: map<int, string>) | NotADict

  /** The first result of running the detector on an image. */
  datatype Inference = Inference(boxes: Option<Boxes>, names: Names)

  /** One element of the `detections` list the route returns. */
  datatype Record = Record(classId: int, className: string, confidence: real, bbox: Box)

  /** The route's JSON body (without the model name and path). */
  datatype Prediction = Prediction(imageShape: Image, numDetections: nat, detections: seq<Record>)

  const NotAnImage := HttpError(400, "Please upload an image")
  const InvalidImage := HttpError(400, "Invalid image file")

  /** The upload gate: a content type that is present and starts with "image/". */
  predicate IsImageType(contentType: Option<string>) {
    contentType.Some? && StartsWith(contentType.value, "image/")
  }

  /** _read_image: the decoder's image, or 400 "Invalid image file". */
  function ReadImage(data: seq<byte>, decode: seq<byte> -> Option<Image>): (r: Result<Image, HttpError>)
    ensures decode(data).Some? ==> r == Ok(decode(data).value)
    ensures decode(data).None? ==> r == Err(InvalidImage)
  {
    match decode(data)
    case Some(img) => Ok(img)
    case None => Err(InvalidImage)
  }

  /** Python's int() on a float: truncation toward zero. */
  function TruncateToInt(k: real): (i: int)
    ensures k >= 0.0 ==> i as real <= k < i as real + 1.0
    ensures k < 0.0 ==> i as real - 1.0 < k <= i as real
  {
    if k >= 0.0 then k.Floor else -((-k).Floor)
  }

  /** `names.get(k, str(k))` for a dict, `str(k)` otherwise. */
  function ClassName(names: Names, classId: int): (name: string)
    ensures names.NameDict? && classId in names.names ==> name == names.names[classId]
    ensures !(names.NameDict? && classId in names.names) ==> ParseInt(name) == Some(classId)
  {
    IntRoundTrip(classId);
    match names
    case NameDict(m) => if classId in m then m[classId] else IntToDecimal(classId)
    case NotADict => IntToDecimal(classId)
  }

  function RecordOf(box: Box, conf: real, cls: real, names: Names): Record {
    var k := TruncateToInt(cls);
    Record(k, ClassName(names, k), conf, box)
  }

  function Min3(a: nat, b: nat, c: nat): (m: nat)
    ensures m <= a && m <= b && m <= c
    ensures m == a || m == b || m == c
  {
    if a <= b && a <= c then a else if b <= c then b else c
  }

  predicate HasBoxes(inf: Inference) {
    inf.boxes.Some? && |inf.boxes.value.xyxy| > 0
  }

  /** `detections` is the zip of corners, confidences and classes: one
      record per triple, in order, as many as the shortest list; none when
      there are no boxes. */
  predicate ZippedFrom(dets: seq<Record>, inf: Inference) {
    if !HasBoxes(inf) then dets == []
    else
      var b := inf.boxes.value;
      && |dets| == Min3(|b.xyxy|, |b.conf|, |b.cls|)
      && forall i :: 0 <= i < |dets| ==> dets[i] == RecordOf(b.xyxy[i], b.conf[i], b.cls[i], inf.names)
  }

  /** The `for ... in zip(xyxy, conf, cls)` loop of predict. */
  method BuildDetections(inf: Inference) returns (dets: seq<Record>)
    ensures ZippedFrom(dets, inf)
  {
    dets := [];
    if inf.boxes.Some? && |inf.boxes.value.xyxy| > 0 {
      var b := inf.boxes.value;
      var n := Min3(|b.xyxy|, |b.conf|, |b.cls|);
      for i := 0 to n
        invariant |dets| == i
        invariant forall j :: 0 <= j < i ==> dets[j] == RecordOf(b.xyxy[j], b.conf[j], b.cls[j], inf.names)
      {
        dets := dets + [RecordOf(b.xyxy[i], b.conf[i], b.cls[i], inf.names)];
      }
    }
  }

  /** The predict route. The content type is checked before the body is
      read; `bodyRead` reports whether it was. */
  method Predict(upload: Upload, decode: seq<byte> -> Option<Image>, detect: Image -> Inference)
    returns (bodyRead: bool, r: Result<Prediction, HttpError>)
    ensures bodyRead <==> IsImageType(upload.contentType)
    ensures !IsImageType(upload.contentType) ==> r == Err(NotAnImage)
    ensures IsImageType(upload.contentType) && decode(upload.data).None? ==> r == Err(InvalidImage)
    ensures IsImageType(upload.contentType) && decode(upload.data).Some? ==>
              var img := decode(upload.data).value;
              && r.Ok?
              && r.value.imageShape == img
              && r.value.numDetections == |r.value.detections|
              && ZippedFrom(r.value.detections, detect(img))
  {
    if !IsImageType(upload.contentType) {
      return false, Err(NotAnImage);
    }
    bodyRead := true;
    var read := ReadImage(upload.data, decode);
    if read.Err? {
      return bodyRead, Err(read.error);
    }
    var img := read.value;
    var dets := BuildDetections(detect(img));
    r := Ok(Prediction(img, |dets|, dets));
  }
}
