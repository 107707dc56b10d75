/** The process-wide settings of app/config.py, passed around as one immutable value. */
module Config {
  import opened Wrappers

  datatype Settings = Settings(
    apiKey: string,
    maxFileSizeMb: int,
    videoQuality: string,
    proxyUrl: Option<string>,
    poToken: Option<string>)

  /** The defaults used when no environment variable overrides them. */
  const Defaults := Settings("your-secret-api-key-here", 25, "worst", None, None)
}
