/** The record shapes of app/models.py. */
module Models {
  import opened Wrappers

  newtype byte = x: int | 0 <= x < 256

  /**
   * One piece of a downloaded video. `data` is the transport encoding of `raw`;
   * `sizeBytes` stands for the rounded megabyte figure `size_mb` as an exact byte count.
   */
  datatype VideoChunk = VideoChunk(
    index: int,
    data: string,
    sizeBytes: nat,
    format: string,
    raw: seq<byte>)

  /** What a successful POST /download answers; `totalSizeBytes` stands for `total_size_mb`. */
  datatype DownloadResponse = DownloadResponse(
    title: string,
    source: string,
    totalSizeBytes: nat,
    chunks: seq<VideoChunk>,
    durationSeconds: Option<real>,
    thumbnailUrl: Option<string>)

  /** The JSON body of every error answer. */
  datatype ErrorResponse = ErrorResponse(error: string, detail: Option<string>)
}
