/** The error type of a video source's `video_list` (youngoor/src/error.rs). */
module Errors {

  /** `NetworkError` wraps an I/O error, kept here only as its description. */
  datatype VideoSourceError = NetworkError(cause: string) | NeedLogin
}
