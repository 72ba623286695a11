/** The detection record that travels from the inference server to the
    browser client, as the client reads it out of the `detections` array. */
module Detections {
  import opened Text

  /** bbox_xyxy: two opposite corners in pixels of the original image. */
  datatype Box = Box(x1: real, y1: real, x2: real, y2: real)

  /** One element of `detections`. `class_name` and `confidence` may be
      absent from the JSON, which the client handles with `??` or prints. */
  datatype Detection = Detection(
    classId: int,
    className: Option<string>,
    confidence: Option<real>,
    bbox: Box)

  /** A template literal `${d.class_name}` prints an absent name as "undefined". */
  function NameText(name: Option<string>): string {
    name.GetOr("undefined")
  }
}
