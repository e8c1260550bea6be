/**
 * The configuration the pipeline reads: global settings and the per-channel
 * destination policy. Pointer-valued settings of the source whose nil case the
 * pipeline distinguishes are `Option`s; the others are plain values.
 */
module Policy {
  import opened Wrappers

  /** Allow- and block-lists; None is a list that is not configured. */
  datatype Filters = Filters(
    allowedExtensions: Option<seq<string>>,
    blockedExtensions: Option<seq<string>>,
    allowedDomains: Option<seq<string>>,
    blockedDomains: Option<seq<string>>)

  /** Link-log settings of a channel. */
  datatype LogLinks = LogLinks(
    destination: string,
    destinationIsFolder: bool,
    divideLogsByServer: bool,
    divideLogsByChannel: bool,
    divideLogsByUser: bool,
    divideLogsByStatus: bool,
    logFailures: bool,
    logDownloads: bool,
    filterDuplicates: Option<bool>,
    prefix: Option<string>,
    suffix: Option<string>,
    userData: Option<bool>)

  /** The destination policy of one channel. */
  datatype ChannelConfig = ChannelConfig(
    filters: Filters,
    saveImages: bool,
    saveVideos: bool,
    saveAudioFiles: bool,
    saveTextFiles: bool,
    saveOtherFiles: bool,
    divideFoldersByServer: bool,
    divideFoldersByChannel: bool,
    divideFoldersByUser: bool,
    divideFoldersByType: bool,
    savePossibleDuplicates: bool,
    reactWhenDownloaded: Option<bool>,
    reactWhenDownloadedHistory: Option<bool>,
    reactWhenDownloadedEmoji: string,
    errorMessages: bool,
    logLinks: Option<LogLinks>)

  /** Global settings. `allChannels` is the list the enrolment test searches;
      `channels` holds the registered channels' policies and `defaultChannel`
      the policy used for the others; `pathBlacklist` the substrings removed
      from folder names. */
  datatype Config = Config(
    allChannels: seq<string>,
    channels: map<string, ChannelConfig>,
    defaultChannel: ChannelConfig,
    downloadRetryMax: int,
    filterDuplicateImages: bool,
    reactWhenDownloaded: bool,
    botUserID: string,
    pathBlacklist: seq<string>)

  /** isChannelRegistered */
  predicate IsRegistered(cfg: Config, channelID: string) {
    channelID in cfg.channels
  }

  /** The policy tryDownload works under: the registered one, else the default. */
  function ChannelPolicy(cfg: Config, channelID: string): (p: ChannelConfig)
    ensures IsRegistered(cfg, channelID) ==> p == cfg.channels[channelID]
    ensures !IsRegistered(cfg, channelID) ==> p == cfg.defaultChannel
  {
    if channelID in cfg.channels then cfg.channels[channelID] else cfg.defaultChannel
  }
}
