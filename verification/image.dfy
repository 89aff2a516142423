/**
 * Image metadata shared by the renderers: the pixel-format enumeration and the
 * image-info record of image.h.
 */
module Image {

  /** The pixel layouts a media buffer can report. Only `Nv12` can be drawn on. */
  datatype PixelFormat =
    | PixNone
    | Yuv420P
    | Nv12
    | Nv21
    | Yuv422P
    | Nv16
    | Nv61
    | Yvyu422
    | Uyvy422
    | Rgb565
    | Bgr565
    | Rgb888
    | Bgr888
    | Argb8888
    | Abgr8888

  /** Valid pixel size plus the stride-aligned buffer size. */
  datatype ImageInfo = ImageInfo(
    pixFmt: PixelFormat,
    width: nat,
    height: nat,
    virWidth: nat,
    virHeight: nat)
}
