/**
 * app/downloader.py: the class that configures the extraction tool, turns its output into
 * a response, and splits the video into chunks. The tool, the temporary directory, the
 * cookie file on disk and base64 are outside this model and come in as parameters.
 */
module Downloader {
  import opened Wrappers
  import opened Config
  import opened Models
  import opened ChunkMath
  import opened Splitting

  const MiB := 1024 * 1024

  /** What is found at the path "cookies.txt" in the working directory. */
  datatype CookieState = Absent | CookieFile | CookieDirectory

  datatype Postprocessor = Postprocessor(key: string, preferedformat: string)

  /** The options handed to the extractor for YouTube. */
  datatype YoutubeArgs = YoutubeArgs(
    playerClient: seq<string>,
    playerSkip: seq<string>,
    poToken: Option<seq<string>>)

  /** The option dictionary handed to the extraction tool; absent keys are None. */
  datatype YdlOptions = YdlOptions(
    format: string,
    outtmpl: string,
    quiet: bool,
    noWarnings: bool,
    extractFlat: bool,
    noCheckCertificate: bool,
    postprocessors: seq<Postprocessor>,
    postprocessorArgs: seq<string>,
    proxy: Option<string>,
    cookiefile: Option<string>,
    extractorArgs: map<string, YoutubeArgs>)

  /** The fields of the tool's info dictionary that the response uses; a missing key is None. */
  datatype ExtractionInfo = ExtractionInfo(
    title: Option<string>,
    extractor: Option<string>,
    duration: Option<real>,
    thumbnail: Option<string>)

  /**
   * One run of the extraction tool: it raises with a message, or it finishes with its info
   * dictionary and the bytes of the "video.*" file it left in the temporary directory, if any.
   */
  datatype ToolOutcome = Raised(message: string) | Finished(info: ExtractionInfo, videoFile: Option<seq<byte>>)

  /** Python truthiness of an optional string: neither None nor empty. */
  predicate IsSet(s: Option<string>)
  {
    s.Some? && s.value != ""
  }

  const CookiesPath := "cookies.txt"
  const NoOutputMessage := "Failed to download video"
  const FfmpegArgs := ["-c:v", "libx264", "-crf", "28", "-preset", "fast", "-c:a", "aac", "-b:a", "64k"]

  /** The file state once a cookie path that is a directory has been removed. */
  function Healed(cookies: CookieState): (after: CookieState)
    ensures after != CookieDirectory
    ensures after == CookieFile <==> cookies == CookieFile
  {
    if cookies == CookieDirectory then Absent else cookies
  }

  /**
   * The options the tool is given, as a relation: the fixed entries, a proxy exactly when
   * one is configured, a proof-of-origin token exactly when one is configured, and the
   * cookie file with the web client alone exactly when a cookie file is present.
   */
  ghost predicate ConfiguredFor(opts: YdlOptions, settings: Settings, cookies: CookieState, tempDir: string)
  {
    && opts.format == "worst[ext=mp4]/worst"
    && opts.outtmpl == tempDir + "/video.%(ext)s"
    && opts.quiet && opts.noWarnings && !opts.extractFlat && opts.noCheckCertificate
    && opts.postprocessors == [Postprocessor("FFmpegVideoConvertor", "mp4")]
    && opts.postprocessorArgs == FfmpegArgs
    && (opts.proxy.Some? <==> IsSet(settings.proxyUrl))
    && (opts.proxy.Some? ==> opts.proxy.value == settings.proxyUrl.value)
    && (opts.cookiefile.Some? <==> cookies == CookieFile)
    && (opts.cookiefile.Some? ==> opts.cookiefile.value == CookiesPath)
    && opts.extractorArgs.Keys == {"youtube"}
    && var yt := opts.extractorArgs["youtube"];
       && yt.playerClient == (if cookies == CookieFile then ["web"] else ["web", "android"])
       && yt.playerSkip == ["webpage", "configs", "js"]
       && (yt.poToken.Some? <==> IsSet(settings.poToken))
       && (yt.poToken.Some? ==> yt.poToken.value == ["web+" + settings.poToken.value])
  }

  /** The options are a function of the settings, the cookie state and the directory. */
  lemma ConfiguredForIsDeterministic(o1: YdlOptions, o2: YdlOptions, settings: Settings, cookies: CookieState, tempDir: string)
    requires ConfiguredFor(o1, settings, cookies, tempDir)
    requires ConfiguredFor(o2, settings, cookies, tempDir)
    ensures o1 == o2
  {
    assert o1.extractorArgs["youtube"] == o2.extractorArgs["youtube"];
    assert o1.extractorArgs == o2.extractorArgs;
  }

  /**
   * The response built from a finished download: the tool's title and extractor name with
   * "Unknown" when missing, duration and thumbnail as given, the byte count, the chunks.
   */
  ghost predicate DescribesDownload(r: DownloadResponse, info: ExtractionInfo, data: seq<byte>, chunks: seq<VideoChunk>)
  {
    && r.title == (if info.title.Some? then info.title.value else "Unknown")
    && r.source == (if info.extractor.Some? then info.extractor.value else "Unknown")
    && r.totalSizeBytes == |data|
    && r.durationSeconds == info.duration
    && r.thumbnailUrl == info.thumbnail
    && r.chunks == chunks
  }

  class VideoDownloader {
    const settings: Settings
    const maxSizeBytes: int

    /** The limit is a positive number of bytes. */
    predicate Valid()
    {
      maxSizeBytes > 0
    }

    constructor (settings: Settings)
      requires settings.maxFileSizeMb > 0
      ensures this.settings == settings
      ensures maxSizeBytes == settings.maxFileSizeMb * MiB
      ensures Valid()
    {
      this.settings := settings;
      this.maxSizeBytes := settings.maxFileSizeMb * MiB;
    }

    /**
     * The option dictionary for one run, built entry by entry, and the cookie state after
     * a cookie path that is a directory has been deleted.
     */
    method BuildOptions(cookies: CookieState, tempDir: string) returns (opts: YdlOptions, cookiesAfter: CookieState)
      ensures cookiesAfter == Healed(cookies)
      ensures ConfiguredFor(opts, settings, cookiesAfter, tempDir)
    {
      opts := YdlOptions(
        "worst[ext=mp4]/worst", tempDir + "/video.%(ext)s", true, true, false, true,
        [Postprocessor("FFmpegVideoConvertor", "mp4")], FfmpegArgs,
        None, None, map[]);
      if IsSet(settings.proxyUrl) {
        opts := opts.(proxy := Some(settings.proxyUrl.value));
      }
      var yt := YoutubeArgs(["web", "android"], ["webpage", "configs", "js"], None);
      if IsSet(settings.poToken) {
        yt := yt.(poToken := Some(["web+" + settings.poToken.value]));
      }
      cookiesAfter := cookies;
      if cookiesAfter == CookieDirectory {
        cookiesAfter := Absent;
      }
      if cookiesAfter == CookieFile {
        opts := opts.(cookiefile := Some(CookiesPath));
        yt := yt.(playerClient := ["web"]);
      }
      opts := opts.(extractorArgs := map["youtube" := yt]);
    }

    /**
     * Cuts `videoData` into chunks of at most `maxSizeBytes` bytes; `totalSize` is its length.
     * The chunks are the reference split, so they put back together give the buffer.
     */
    method SplitVideo(videoData: seq<byte>, totalSize: int, encode: seq<byte> -> string) returns (chunks: seq<VideoChunk>)
      requires Valid() && totalSize == |videoData|
      ensures chunks == Split(videoData, maxSizeBytes, encode)
      ensures Reassemble(chunks) == videoData
    {
      chunks := [];
      if totalSize <= maxSizeBytes {
        chunks := chunks + [VideoChunk(1, encode(videoData), totalSize, "mp4", videoData)];
        SplitFits(videoData, maxSizeBytes, encode);
      } else {
        var numChunks := CeilDiv(totalSize, maxSizeBytes);
        var chunkSize := CeilDiv(totalSize, numChunks);
        for i := 0 to numChunks
          invariant |chunks| == i
          invariant forall k :: 0 <= k < i ==> chunks[k] == ChunkAt(videoData, chunkSize, k, encode)
        {
          var start := i * chunkSize;
          var end := Min(start + chunkSize, totalSize);
          var chunkData := Slice(videoData, start, end);
          chunks := chunks + [VideoChunk(i + 1, encode(chunkData), |chunkData|, "mp4", chunkData)];
        }
      }
      SplitReassembles(videoData, maxSizeBytes, encode);
    }

    /**
     * One download: build the options, run the tool on them, and either re-raise its failure,
     * raise when it left no output file, or describe the file and its chunks.
     */
    method DownloadVideo(url: string, cookies: CookieState, tempDir: string,
                         extract: (string, YdlOptions) -> ToolOutcome, encode: seq<byte> -> string)
      returns (result: Result<DownloadResponse, string>, opts: YdlOptions, cookiesAfter: CookieState)
      requires Valid()
      ensures cookiesAfter == Healed(cookies)
      ensures ConfiguredFor(opts, settings, cookiesAfter, tempDir)
      ensures extract(url, opts).Raised? ==> result == Failure(extract(url, opts).message)
      ensures extract(url, opts).Finished? && extract(url, opts).videoFile.None? ==>
                result == Failure(NoOutputMessage)
      ensures extract(url, opts).Finished? && extract(url, opts).videoFile.Some? ==>
                var data := extract(url, opts).videoFile.value;
                && result.Success?
                && DescribesDownload(result.value, extract(url, opts).info, data, Split(data, maxSizeBytes, encode))
                && Reassemble(result.value.chunks) == data
    {
      opts, cookiesAfter := BuildOptions(cookies, tempDir);
      var outcome := extract(url, opts);
      if outcome.Raised? {
        return Failure(outcome.message), opts, cookiesAfter;
      }
      if outcome.videoFile.None? {
        return Failure(NoOutputMessage), opts, cookiesAfter;
      }
      var videoData := outcome.videoFile.value;
      var fileSize := |videoData|;
      var info := outcome.info;
      var metadata := DownloadResponse(
        info.title.GetOr("Unknown"),
        info.extractor.GetOr("Unknown"),
        fileSize,
        [],
        info.duration,
        info.thumbnail);
      var chunks := SplitVideo(videoData, fileSize, encode);
      metadata := metadata.(chunks := chunks);
      result := Success(metadata);
    }
  }
}
