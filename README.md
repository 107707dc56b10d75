# Video downloader API — a Dafny model of its own logic

The service takes a video URL on an authenticated `POST /download`. It has an external
extraction tool fetch and transcode the video. It then cuts the bytes into chunks of at most
`max_file_size_mb` MiB and returns them base64-encoded with the video's metadata. Three pieces
of that logic are original to the repository, and this project models them and proves their
properties:

- **The chunk splitter** (`VideoDownloader._split_video`). `Splitting.Split` is a reference
  definition of the chunks. `Downloader.VideoDownloader.SplitVideo` keeps the source's two
  branches and its `for` loop, and is proved to produce exactly `Split`. The lemmas prove:
  - the chunk count, one when the buffer fits, else `ceil(S/M)`, and that it is the least
    count that fits;
  - every chunk has at most `M` bytes;
  - every chunk but the last has exactly `ceil(S/n)` bytes, and the last has between 1 and
    that many;
  - the indices are `1..n` and the format is always `"mp4"`;
  - the chunks' bytes, concatenated in order, are the buffer again, and so are the decoded
    payloads whenever the decoder inverts the encoder.
- **The download orchestration** (`VideoDownloader.download_video`).
  `Downloader.VideoDownloader.BuildOptions` builds the tool's option record step by step, as
  the source mutates its two dictionaries. `Downloader.ConfiguredFor` states what the options
  must be: proxy, proof-of-origin token, cookie file and player clients. A cookie path that is
  a directory is deleted first (`Downloader.Healed`). `Downloader.VideoDownloader.DownloadVideo`
  runs the tool on those options. It re-raises the tool's failure, or raises
  "Failed to download video" when no output file was left. Otherwise it fills in the metadata,
  with "Unknown" for a missing title or extractor, and splits the file.
- **Authentication and error shaping** (app/main.py), as pure functions. The key check is
  401, then 403, then accept. Any download failure becomes 400 with
  "Failed to download video: " and the message. Error bodies are `{"error": detail, "detail": null}`.
  Unexpected errors become 500.

External effects come in as parameters:
- the extraction tool is a function from URL and options to an outcome;
- base64 is a function `encode` from bytes to text;
- the cookie path on disk is a three-valued state, `Absent`, `CookieFile` or `CookieDirectory`;
- the temporary directory is its path string.

Every chunk carries its raw bytes next to its encoded payload, so the round trip can be stated.

Two behaviours of the code that a reader might not expect:
- Chunk sizes are not balanced to within one byte. Ten bytes under a limit of three give
  3, 3, 3 and 1 (`Splitting.UnbalancedLastChunk`).
- A failed download answers 400 with the message in the body's `error` field, and `detail`
  is null. The message is not in `detail` (`Api.PostDownload`).

## Model

| member | source | states |
|---|---|---|
| `ChunkMath.CeilDiv` | app/downloader.py:146-147 | the result is the least q with a <= q*b, i.e. ceil(a/b) |
| `ChunkMath.SplitGeometry` | app/downloader.py:135-152 | the chunk count is the least count whose chunks of at most M bytes hold the buffer; the chunk size is at most M; n chunks of c bytes cover the buffer; the last chunk of a non-empty buffer starts inside it |
| `ChunkMath.ChunkBounds` | app/downloader.py:149-152 | chunk k starts inside the buffer; every chunk but the last ends a full chunk size later, still inside; the last ends at or past the end |
| `Wrappers.Option.GetOr` | app/downloader.py:109-113 | a present value is returned, and the default when the key is missing, as `info.get(key, default)` does |
| `ChunkMath.NumChunks` | app/downloader.py:135-146 | the chunk count is at least one: one when the buffer fits, else ceil(S/M) |
| `Splitting.Slice` | app/downloader.py:152 | in-range Python slicing is the sub-sequence, and an empty range gives the empty sequence |
| `Splitting.SliceClamped` | app/downloader.py:152 | both ends are clamped to the length: an end past the length stops there, and a start past it gives the empty sequence |
| `Splitting.SplitFits` | app/downloader.py:135-143 | a buffer of at most M bytes, including the empty one, becomes exactly one chunk: index 1, the whole buffer, format "mp4" |
| `Splitting.SplitCount` | app/downloader.py:135-147 | 1 chunk when S <= M, else ceil(S/M) chunks, and that count is minimal: (n-1)*M < S <= n*M |
| `Splitting.SplitSizes` | app/downloader.py:146-152 | every chunk has at most M bytes; none is empty for a non-empty buffer; when split, all but the last have exactly ceil(S/n) bytes and the last has 1..ceil(S/n) |
| `Splitting.ChunkLength` | app/downloader.py:149-152 | chunk k of a non-empty buffer holds between 1 and c bytes, and exactly c unless it is the last |
| `Splitting.SplitLabels` | app/downloader.py:154-161 | chunk k has index k+1, format "mp4", its byte count, and the encoding of its own bytes as payload |
| `Splitting.ChunkSpan` | app/downloader.py:149-152 | chunk j holds bytes [min(j*c, S), min((j+1)*c, S)), a well-formed range |
| `Splitting.SplitSlices` | app/downloader.py:149-152 | every chunk j holds exactly bytes [min(j*c, S), min((j+1)*c, S)) of the buffer |
| `Splitting.ReassembleConsecutive` | app/downloader.py:149-152 | consecutive slices starting at offset 0, concatenated in order, are the buffer up to the end of the last slice |
| `Splitting.SplitIsConsecutive` | app/downloader.py:149-152 | the chunks are consecutive slices at offsets min(k*c, S), and the last ends exactly at the end of the buffer |
| `Splitting.SplitReassembles` | app/downloader.py:133-164 | concatenating the chunks' bytes in list order gives back the buffer exactly |
| `Splitting.DecodeAllIsReassemble` | app/downloader.py:154 | when decode inverts encode, decoding every payload gives each chunk's bytes back |
| `Splitting.SplitDecodes` | app/downloader.py:137-154 | decoding all payloads and concatenating them in index order reproduces the buffer |
| `Splitting.UnbalancedLastChunk` | app/downloader.py:146-152 | 10 bytes under a limit of 3 give chunks of 3, 3, 3 and 1 bytes: sizes may differ by more than one |
| `Splitting.ThirtyMillionBytes` | app/downloader.py:146-152 | 30,000,000 bytes under the default 25 MiB limit give two chunks of 15,000,000 bytes |
| `Downloader.Healed` | app/downloader.py:73-79 | after the self-healing step the cookie path is never a directory, and a cookie file is present exactly when it was before |
| `Downloader.ConfiguredForIsDeterministic` | app/downloader.py:34-87 | the options are determined by the settings, the cookie state and the directory |
| `Downloader.VideoDownloader.constructor` | app/downloader.py:17-18 | the byte limit is max_file_size_mb * 1024 * 1024 and positive |
| `Downloader.VideoDownloader.BuildOptions` | app/downloader.py:34-87 | a directory at the cookie path is removed; the fixed entries are set; proxy is present iff proxy_url is set, and then equals it; po_token is present iff configured, and is ["web+" + token]; with a cookie file, cookiefile is "cookies.txt" and player_client is ["web"], else there is no cookiefile and player_client is ["web","android"]; player_skip is always ["webpage","configs","js"] |
| `Downloader.VideoDownloader.SplitVideo` | app/downloader.py:122-164 | the loop produces exactly the reference split, and the chunks concatenate back to the buffer |
| `Downloader.VideoDownloader.DownloadVideo` | app/downloader.py:20-120 | the tool runs on options that satisfy the configuration rules; its exception is re-raised with its message; a missing output file raises "Failed to download video"; otherwise title and source default to "Unknown", duration and thumbnail are passed through, the total is the file's byte count, and the chunks are the split of the file and reassemble to it |
| `Api.VerifyApiKey` | app/main.py:30-42 | missing key iff 401 "Missing API Key. Please provide X-API-Key header."; present but different key iff 403 "Invalid API Key", so 403 needs a key; accepted iff the key equals the configured one, and then it is handed back unchanged |
| `Api.DownloadOrRaise` | app/main.py:95-105 | a download result passes through unchanged; any exception becomes 400 whose detail is "Failed to download video: " followed by the exception's message, which can be read back from it |
| `Api.HttpExceptionHandler` | app/main.py:109-115 | same status code; the exception's detail is the body's "error"; the body's "detail" is null |
| `Api.GeneralExceptionHandler` | app/main.py:118-127 | status 500, "error" is "Internal server error", "detail" is the exception's text |
| `Api.PostDownload` | app/main.py:78-115 | no key gives 401, a wrong key 403, an authenticated failure 400 with the message in "error" and null "detail", and an authenticated success the download itself; no other error status |
| `Api.RefusedRequestIgnoresDownload` | app/main.py:78-81 | a request that fails authentication gets the same error answer whatever the download would have produced |
| `Api.NoOutputFileAnswer` | app/main.py:101-105 | when the tool leaves no file, the authenticated client gets 400 with "Failed to download video: Failed to download video" |

## Left out

- The extraction call, the transcoding and the tool's output file: the tool is a function
  parameter that returns an outcome. Its output is the bytes of the first `video.*` file, or
  none. The glob is not modelled, and neither is `read_bytes`.
- The temporary directory's creation and guaranteed removal: not modelled. Its path is a
  string parameter.
- `shutil.rmtree` and `Path.exists` on "cookies.txt": the filesystem is reduced to a
  three-valued cookie state, and the deletion to the state it leaves behind.
- Base64: `encode` is a parameter with no properties of its own. The decoding round trip is
  proved for any `decode` that inverts it.
- `size_mb` and `total_size_mb`: these are floating-point megabytes rounded to two places. The
  model keeps exact byte counts instead (`sizeBytes`, `totalSizeBytes`).
- `math.ceil` of a float quotient: modelled as exact integer ceiling division. The two agree
  for buffers below 2^52 bytes.
- A non-positive `max_file_size_mb`: the constructor requires it to be positive, as the
  settings intend. With 0, a non-empty buffer divides by zero; the empty buffer still gives
  one empty chunk. A negative limit divides by zero for buffers shorter than its magnitude,
  and yields no chunks otherwise.
- `info.get(key, default)` on a key that is present with the value None: the model treats it
  as absent. The source would then return None for the title and fail validation later.
- The way the `X-API-Key` header becomes an optional string is framework behaviour and is not
  modelled. An empty header value is one example.
- Pydantic validation of `DownloadRequest.url` and of `DownloadResponse(**result)`: not
  modelled. This is framework code.
- The debug prints, the app and CORS set-up, `async` and dependency injection: not modelled.
- `GET /` and `GET /health`: these return constant dictionaries, and are not modelled.
- Loading settings from environment variables (app/config.py): not modelled. The settings are
  one value, with the defaults in `Config.Defaults`.
