/**
 * One download attempt (tryDownload): the chain of checks that turns a request
 * and what the outside world answers into a status, the file written (if any),
 * the database record and the reaction on the message.
 *
 * Everything the attempt asks of the outside world (URI parsing, folder
 * creation, the HTTP exchange, content sniffing, the near-duplicate image
 * index, the state cache, the clock, writing the file and the database row,
 * the reaction permission) is a field of `World`; which paths already exist
 * is the set `files`.
 */
module Executor {
  import opened Wrappers
  import opened Text
  import opened Status
  import opened Chat
  import opened Policy

  datatype Request = Request(
    inputURL: string,
    filename: string,
    path: string,
    message: Message,
    historyCmd: bool,
    emojiCmd: bool,
    manualDownload: bool)

  /** A response whose body was read. `urlFilename` is the name derived from the
      final request URL, `dispositionFilename` the unescaped filename parameter of
      a Content-Disposition header that parsed (None when there is none),
      `contentType` the MIME type sniffed from the body and `mimeExtensions` the
      extensions registered for it. */
  datatype Response = Response(
    statusCode: int,
    urlFilename: string,
    dispositionFilename: Option<string>,
    contentType: string,
    mimeExtensions: seq<string>)

  /** How the HTTP exchange ended. */
  datatype Exchange =
    | RequestFailed(err: Error)
    | TransportFailed(err: Error)
    | ReadFailed(err: Error)
    | Received(response: Response)

  /** The answers of the outside world to one attempt. `mkdirErrors` maps each
      folder whose creation fails to its error; `nearDuplicate` says whether the
      body decodes as an image whose perceptual hash is close to a stored one;
      `channel` is the state cache's view of the message's channel; `stamp` the
      message time in the filename date format; `guildEmojis` the number of
      emojis of the message's guild (None when the lookup fails). */
  datatype World = World(
    uriError: Option<Error>,
    hostname: string,
    mkdirErrors: map<string, Error>,
    exchange: Exchange,
    nearDuplicate: bool,
    channel: Option<ChannelInfo>,
    stamp: string,
    writeError: Option<Error>,
    dbError: Option<Error>,
    canReact: bool,
    guildEmojis: Option<nat>)

  /** The database row of a stored download (its time is left out). */
  datatype DownloadRecord = DownloadRecord(
    url: string,
    destination: string,
    filename: string,
    channelID: string,
    userID: string)

  /** The reaction added to the message: the configured emoji, the default one,
      a random non-animated guild emoji, or the empty name (guild lookup failed). */
  datatype Reaction = ConfiguredEmoji(emoji: string) | DefaultReaction | RandomGuildEmoji | EmptyReaction

  /** What one attempt did. */
  datatype Attempt = Attempt(
    result: StatusResult,
    written: Option<string>,
    record: Option<DownloadRecord>,
    reaction: Option<Reaction>)

  /** An attempt that ended before writing anything. */
  function Stopped(status: DownloadStatus, error: Option<Error>): Attempt {
    Attempt(StatusResult(status, error), None, None, None)
  }

  const StatusNotFound := 404

  /** The request concerns a channel the bot serves, or was asked for explicitly. */
  predicate Enrolled(cfg: Config, req: Request) {
    req.message.channelID in cfg.allChannels || req.emojiCmd || req.manualDownload
  }

  // ---------------------------------------------------------------------
  // Destination path and filename.
  // ---------------------------------------------------------------------

  /** The destination folder: the empty path and the bare separator are refused;
      any other path is given a trailing separator. */
  function NormalizePath(path: string): (r: Option<string>)
    ensures r.None? <==> path == "" || path == SepStr
    ensures r.Some? ==> HasPrefix(r.value, path) && HasSuffix(r.value, SepStr) && |r.value| <= |path| + 1
    ensures r.Some? && HasSuffix(path, SepStr) ==> r.value == path
  {
    if path == "" || path == SepStr then None
    else if HasSuffix(path, SepStr) then Some(path)
    else Some(path + SepStr)
  }

  /** The filename of the request, else a non-empty Content-Disposition filename,
      else the name taken from the URL. */
  function ChosenName(req: Request, resp: Response): (name: string)
    ensures req.filename != "" ==> name == req.filename
    ensures req.filename == "" && resp.dispositionFilename.Some? && resp.dispositionFilename.value != ""
            ==> name == resp.dispositionFilename.value
    ensures req.filename == "" && (resp.dispositionFilename.None? || resp.dispositionFilename.value == "")
            ==> name == resp.urlFilename
    ensures name == req.filename || name == resp.urlFilename
            || (resp.dispositionFilename.Some? && name == resp.dispositionFilename.value)
  {
    if req.filename != "" then req.filename
    else if resp.dispositionFilename.Some? && resp.dispositionFilename.value != "" then resp.dispositionFilename.value
    else resp.urlFilename
  }

  /** The lower-cased extension the filters see. */
  function ExtensionOf(name: string): string {
    ToLower(Ext(name))
  }

  /** The part of a MIME type before its first '/'. */
  function Category(contentType: string): (r: string)
    ensures HasPrefix(contentType, r)
    ensures '/' !in r
    ensures |r| < |contentType| ==> contentType[|r|] == '/'
  {
    if contentType == "" || contentType[0] == '/' then ""
    else [contentType[0]] + Category(contentType[1..])
  }

  /** Extensions whose sniffed type is overridden. */
  const VideoExtensions: seq<string> := [".mov", ".mp4", ".webm"]
  const ImageExtensions: seq<string> := [".psd", ".nef", ".dng", ".tif", ".tiff"]

  /** The category after the override table: a few video and raw image formats
      are sniffed as something else and are put right by their extension. */
  function FixCategory(ext: string, sniffed: string): (cat: string)
    ensures ext in VideoExtensions ==> cat == "video"
    ensures ext in ImageExtensions ==> cat == "image"
    ensures ext !in VideoExtensions && ext !in ImageExtensions ==> cat == sniffed
  {
    if ext in VideoExtensions then "video"
    else if ext in ImageExtensions then "image"
    else sniffed
  }

  /** The category of the body as the checks see it. */
  function CategoryOf(name: string, resp: Response): string {
    FixCategory(ExtensionOf(name), Category(resp.contentType))
  }

  /** A name without an extension gets the first extension registered for the
      sniffed type, if there is one. */
  function WithMimeExtension(name: string, extensions: seq<string>): (r: string)
    ensures HasPrefix(r, name)
    ensures Ext(name) != "" || extensions == [] ==> r == name
    ensures Ext(name) == "" && extensions != [] ==> r == name + extensions[0]
  {
    if Ext(name) == "" && |extensions| > 0 then name + extensions[0] else name
  }

  // ---------------------------------------------------------------------
  // Filters.
  // ---------------------------------------------------------------------

  /** The allow/block test of the source: start from "abort" when an allow-list is
      set, abort on a blocked value, and let an allowed value cancel the abort. */
  predicate Permitted(allowed: Option<seq<string>>, blocked: Option<seq<string>>, v: string) {
    var abort := allowed.Some?;
    var abort := if blocked.Some? && v in blocked.value then true else abort;
    var abort := if allowed.Some? && v in allowed.value then false else abort;
    !abort
  }

  /** An allow-list, when set, alone decides; otherwise only a block-list can refuse. */
  lemma AllowListDecides(allowed: Option<seq<string>>, blocked: Option<seq<string>>, v: string)
    ensures allowed.Some? ==> (Permitted(allowed, blocked, v) <==> v in allowed.value)
    ensures allowed.None? ==> (Permitted(allowed, blocked, v) <==> blocked.None? || v !in blocked.value)
  {
  }

  predicate ExtensionPermitted(f: Filters, ext: string) {
    Permitted(f.allowedExtensions, f.blockedExtensions, ext)
  }

  predicate DomainPermitted(f: Filters, host: string) {
    Permitted(f.allowedDomains, f.blockedDomains, host)
  }

  /** The category gate: only the five known categories can be saved, each when
      its toggle is on. */
  predicate CategoryEnabled(p: ChannelConfig, cat: string) {
    (p.saveImages && cat == "image") || (p.saveVideos && cat == "video") || (p.saveAudioFiles && cat == "audio")
    || (p.saveTextFiles && cat == "text") || (p.saveOtherFiles && cat == "application")
  }

  /** Bodies the near-duplicate image filter looks at. */
  predicate HashedForDuplicates(cfg: Config, cat: string, ext: string) {
    cfg.filterDuplicateImages && cat == "image" && ext != ".gif" && ext != ".webp"
  }

  // ---------------------------------------------------------------------
  // Subfolders.
  // ---------------------------------------------------------------------

  /** The server and channel names used for folders. */
  datatype SourceNames = SourceNames(server: string, channel: string)

  /** Names from the state cache: the channel's own name (its ID when it has
      none), prefixed by its category's name; the quoted guild name, or a fixed
      name for direct and group messages, or "UNKNOWN". */
  function NamesOf(channelID: string, info: Option<ChannelInfo>): (n: SourceNames)
    ensures info.None? ==> n == SourceNames("UNKNOWN", channelID)
    ensures info.Some? ==> HasSuffix(n.channel, if info.value.name != "" then info.value.name else channelID)
    ensures info.Some? && info.value.kind == GuildText && info.value.guildName.Some? && info.value.guildName.value != ""
            ==> n.server == "\"" + info.value.guildName.value + "\""
    ensures info.Some? && info.value.kind == GuildText && !(info.value.guildName.Some? && info.value.guildName.value != "")
            ==> n.server == "UNKNOWN"
    ensures info.Some? && info.value.kind == GuildText && info.value.parentName.Some? && info.value.parentName.value != ""
            ==> n.channel == info.value.parentName.value + " - " + (if info.value.name != "" then info.value.name else channelID)
    ensures info.Some? && !(info.value.kind == GuildText && info.value.parentName.Some? && info.value.parentName.value != "")
            ==> n.channel == (if info.value.name != "" then info.value.name else channelID)
    ensures info.Some? && info.value.kind == DirectMessage ==> n.server == "Direct Messages"
    ensures info.Some? && info.value.kind == GroupDirectMessage ==> n.server == "Group Messages"
    ensures info.Some? && info.value.kind == OtherKind ==> n.server == "UNKNOWN"
  {
    match info
    case None => SourceNames("UNKNOWN", channelID)
    case Some(ch) =>
      var own := if ch.name != "" then ch.name else channelID;
      match ch.kind
      case GuildText =>
        var server := if ch.guildName.Some? && ch.guildName.value != "" then "\"" + ch.guildName.value + "\"" else "UNKNOWN";
        var channel := if ch.parentName.Some? && ch.parentName.value != "" then ch.parentName.value + " - " + own else own;
        SourceNames(server, channel)
      case DirectMessage => SourceNames("Direct Messages", own)
      case GroupDirectMessage => SourceNames("Group Messages", own)
      case OtherKind => SourceNames("UNKNOWN", own)
  }

  /** The categories that have a folder of their own. */
  predicate KnownCategory(cat: string) {
    cat == "image" || cat == "video" || cat == "audio" || cat == "text" || cat == "application"
  }

  /** The folder of a category when folders are divided by type; "" for others. */
  function TypeFolder(cat: string): (r: string)
    ensures r == "" <==> !KnownCategory(cat)
    ensures cat == "image" ==> r == "images"
    ensures cat == "video" ==> r == "videos"
    ensures cat == "audio" ==> r == "audio"
    ensures cat == "text" ==> r == "text"
    ensures cat == "application" ==> r == "applications"
  {
    if cat == "image" then "images"
    else if cat == "video" then "videos"
    else if cat == "audio" then "audio"
    else if cat == "text" then "text"
    else if cat == "application" then "applications"
    else ""
  }

  /** No single-character blacklist entry occurs in `s`. */
  predicate FreeOfBlacklist(s: string, blacklist: seq<string>) {
    forall k :: 0 <= k < |blacklist| && |blacklist[k]| == 1 ==> blacklist[k][0] !in s
  }

  /** The server folder: the known server name with the blacklisted substrings
      removed. */
  function ServerFolder(blacklist: seq<string>, p: ChannelConfig, names: SourceNames): (r: string)
    ensures r != "" ==> p.divideFoldersByServer && names.server != "UNKNOWN"
    ensures p.divideFoldersByServer && names.server != "UNKNOWN" ==> r == Sanitize(names.server, blacklist)
    ensures FreeOfBlacklist(r, blacklist)
  {
    if p.divideFoldersByServer && names.server != "" && names.server != "UNKNOWN"
    then Sanitize(names.server, blacklist) else ""
  }

  /** The channel folder: the channel name with the blacklisted substrings removed. */
  function ChannelFolder(blacklist: seq<string>, p: ChannelConfig, names: SourceNames): (r: string)
    ensures r != "" ==> p.divideFoldersByChannel
    ensures p.divideFoldersByChannel ==> r == Sanitize(names.channel, blacklist)
    ensures FreeOfBlacklist(r, blacklist)
  {
    if p.divideFoldersByChannel && names.channel != "" then Sanitize(names.channel, blacklist) else ""
  }

  /** The user folder: "name#discriminator" with the blacklisted substrings
      removed, or the raw user ID for a user without a name. */
  function UserFolder(blacklist: seq<string>, p: ChannelConfig, u: User): (r: string)
    ensures r != "" ==> p.divideFoldersByUser
    ensures p.divideFoldersByUser && u.username == "" ==> r == u.id
    ensures p.divideFoldersByUser && u.username != "" ==> r == Sanitize(u.username + "#" + u.discriminator, blacklist)
    ensures u.username != "" ==> FreeOfBlacklist(r, blacklist)
  {
    if !p.divideFoldersByUser then ""
    else if u.username != "" then Sanitize(u.username + "#" + u.discriminator, blacklist)
    else u.id
  }

  /** The type folder, when folders are divided by type and the category has one. */
  function KindFolder(p: ChannelConfig, cat: string): (r: string)
    ensures r != "" <==> p.divideFoldersByType && KnownCategory(cat)
    ensures r != "" ==> r == TypeFolder(cat)
  {
    if p.divideFoldersByType then TypeFolder(cat) else ""
  }

  function NonEmpty(s: string): (r: seq<string>)
    ensures |r| <= 1 && "" !in r
    ensures s != "" ==> r == [s]
  {
    if s == "" then [] else [s]
  }

  /** The subfolder segments, outermost first: server, channel, user, type, each
      present only when it is not empty; none for a message without an author. */
  function Segments(blacklist: seq<string>, p: ChannelConfig, author: Option<User>, cat: string, names: SourceNames)
    : (segs: seq<string>)
    ensures author.None? ==> segs == []
    ensures author.Some? ==> segs == (NonEmpty(ServerFolder(blacklist, p, names)) + NonEmpty(ChannelFolder(blacklist, p, names)))
                                     + (NonEmpty(UserFolder(blacklist, p, author.value)) + NonEmpty(KindFolder(p, cat)))
    ensures !(p.divideFoldersByServer || p.divideFoldersByChannel || p.divideFoldersByUser || p.divideFoldersByType)
            ==> segs == []
    ensures |segs| <= 4
    ensures "" !in segs
  {
    match author
    case None => []
    case Some(u) =>
      var outer := NonEmpty(ServerFolder(blacklist, p, names)) + NonEmpty(ChannelFolder(blacklist, p, names));
      var inner := NonEmpty(UserFolder(blacklist, p, u)) + NonEmpty(KindFolder(p, cat));
      assert "" !in outer && "" !in inner;
      outer + inner
  }

  /** The slots of four optional segments: each present one sits after the
      present ones before it, and nothing else is there. */
  lemma FourSlots(a: string, b: string, c: string, d: string)
    ensures var segs := (NonEmpty(a) + NonEmpty(b)) + (NonEmpty(c) + NonEmpty(d));
      var i := if a != "" then 1 else 0;
      var j := i + if b != "" then 1 else 0;
      var k := j + if c != "" then 1 else 0;
      && |segs| == k + (if d != "" then 1 else 0)
      && (a != "" ==> segs[0] == a)
      && (b != "" ==> segs[i] == b)
      && (c != "" ==> segs[j] == c)
      && (d != "" ==> segs[k] == d)
      && (forall s :: s in segs ==> s == a || s == b || s == c || s == d)
  {
    var outer := NonEmpty(a) + NonEmpty(b);
    var inner := NonEmpty(c) + NonEmpty(d);
    assert forall k :: 0 <= k < |outer| ==> (outer + inner)[k] == outer[k];
    assert forall k :: |outer| <= k < |outer| + |inner| ==> (outer + inner)[k] == inner[k - |outer|];
  }

  /** Where each folder sits: the server folder first, then the channel folder,
      then the user folder, and the type folder last; every segment but a raw
      user ID and the type folder is free of the single-character blacklist
      entries. */
  lemma SegmentsLayout(blacklist: seq<string>, p: ChannelConfig, u: User, cat: string, names: SourceNames)
    ensures var segs := Segments(blacklist, p, Some(u), cat, names);
      var server := ServerFolder(blacklist, p, names);
      var channel := ChannelFolder(blacklist, p, names);
      var user := UserFolder(blacklist, p, u);
      var i := if server != "" then 1 else 0;
      var j := i + if channel != "" then 1 else 0;
      var k := j + if user != "" then 1 else 0;
      && |segs| == k + (if KindFolder(p, cat) != "" then 1 else 0)
      && (server != "" ==> segs[0] == server)
      && (channel != "" ==> segs[i] == channel)
      && (user != "" ==> segs[j] == user)
      && (p.divideFoldersByType && KnownCategory(cat) ==> segs[k] == TypeFolder(cat) && k == |segs| - 1)
      && (forall s :: s in segs && s != user && s != KindFolder(p, cat) ==> FreeOfBlacklist(s, blacklist))
  {
    FourSlots(ServerFolder(blacklist, p, names), ChannelFolder(blacklist, p, names), UserFolder(blacklist, p, u),
              KindFolder(p, cat));
  }

  /** Folder creation after each added segment, from segment `k` on: the error of
      the first nested folder that cannot be created. */
  function MkdirFailure(dir: string, segs: seq<string>, errs: map<string, Error>, k: nat): (r: Option<Error>)
    requires k <= |segs|
    ensures r.None? <==> forall j :: k < j <= |segs| ==> dir + JoinDirs(segs[..j]) !in errs
    ensures r.Some? ==> exists j :: k < j <= |segs| && dir + JoinDirs(segs[..j]) in errs
                                    && r.value == errs[dir + JoinDirs(segs[..j])]
                                    && forall i :: k < i < j ==> dir + JoinDirs(segs[..i]) !in errs
    decreases |segs| - k
  {
    if k == |segs| then None
    else
      var next := dir + JoinDirs(segs[..k + 1]);
      if next in errs then Some(errs[next]) else MkdirFailure(dir, segs, errs, k + 1)
  }

  /** The folder a stored file goes to ends with the separator. */
  lemma FolderEndsWithSeparator(dir: string, segs: seq<string>)
    requires HasSuffix(dir, SepStr)
    ensures HasSuffix(dir + JoinDirs(segs), SepStr)
  {
    if segs == [] {
      assert dir + JoinDirs(segs) == dir;
    }
  }

  // ---------------------------------------------------------------------
  // Collision probing.
  // ---------------------------------------------------------------------

  /** The path the probe tries for index `i`: "-i" inserted before the extension. */
  function Candidate(stem: string, i: nat, ext: string): string {
    stem + "-" + Decimal(i) + ext
  }

  /** Distinct indices give distinct candidates. */
  lemma CandidateInjective(stem: string, ext: string, a: nat, b: nat)
    requires Candidate(stem, a, ext) == Candidate(stem, b, ext)
    ensures a == b
  {
    var c := Candidate(stem, a, ext);
    var da, db := Decimal(a), Decimal(b);
    assert |da| == |db|;
    assert da == c[|stem| + 1 .. |stem| + 1 + |da|];
    assert db == c[|stem| + 1 .. |stem| + 1 + |db|];
    DecimalInjective(a, b);
  }

  /** If the first `n` candidates all exist, there are at least `n` files. */
  lemma {:induction false} TakenBound(stem: string, ext: string, files: set<string>, n: nat)
    requires forall j :: 1 <= j <= n ==> Candidate(stem, j, ext) in files
    ensures n <= |files|
  {
    if n > 0 {
      var c := Candidate(stem, n, ext);
      var rest := files - {c};
      forall j | 1 <= j <= n - 1
        ensures Candidate(stem, j, ext) in rest
      {
        if Candidate(stem, j, ext) == c {
          CandidateInjective(stem, ext, j, n);
        }
      }
      TakenBound(stem, ext, rest, n - 1);
    }
  }

  /** The first index at or after `i` whose candidate does not exist. */
  function FreeIndexFrom(stem: string, ext: string, files: set<string>, i: nat): (k: nat)
    requires 1 <= i
    requires forall j :: 1 <= j < i ==> Candidate(stem, j, ext) in files
    ensures i <= k
    ensures Candidate(stem, k, ext) !in files
    ensures forall j :: 1 <= j < k ==> Candidate(stem, j, ext) in files
    decreases |files| + 1 - i
  {
    if Candidate(stem, i, ext) !in files then i
    else
      TakenBound(stem, ext, files, i);
      FreeIndexFrom(stem, ext, files, i + 1)
  }

  /** The part of a path before its extension. */
  function Stem(path: string): (s: string)
    ensures path == s + Ext(path)
  {
    path[..|path| - |Ext(path)|]
  }

  /** Where a file whose path exists is saved instead: the first free candidate. */
  function FreePath(complete: string, files: set<string>): (r: string)
    ensures r !in files
  {
    var ext := Ext(complete);
    Candidate(Stem(complete), FreeIndexFrom(Stem(complete), ext, files, 1), ext)
  }

  /** The probe: tries "-1", "-2", ... until a path does not exist. */
  method ProbeFreePath(complete: string, files: set<string>) returns (path: string)
    ensures path == FreePath(complete, files)
  {
    var ext := Ext(complete);
    var stem := Stem(complete);
    var i := 1;
    path := Candidate(stem, i, ext);
    while path in files
      invariant 1 <= i
      invariant path == Candidate(stem, i, ext)
      invariant forall j :: 1 <= j < i ==> Candidate(stem, j, ext) in files
      invariant FreeIndexFrom(stem, ext, files, i) == FreeIndexFrom(stem, ext, files, 1)
      decreases |files| + 1 - i
    {
      TakenBound(stem, ext, files, i);
      i := i + 1;
      path := Candidate(stem, i, ext);
    }
  }

  /** Renaming keeps a file in its folder and picks a path that does not exist
      (FreeIndexFrom says it is the first such). */
  lemma ProbeStaysInFolder(folder: string, name: string, files: set<string>)
    requires HasSuffix(folder, SepStr)
    ensures HasPrefix(FreePath(folder + name, files), folder)
    ensures FreePath(folder + name, files) !in files
  {
    var complete := folder + name;
    var ext := Ext(complete);
    assert complete[|folder| - 1] == Sep;
    assert forall j :: |complete| - |ext| <= j < |complete| ==> complete[j] == ext[j - (|complete| - |ext|)];
    assert forall j :: |complete| - |ext| <= j < |complete| ==> complete[j] != Sep;
    assert |Stem(complete)| >= |folder|;
    assert Stem(complete)[..|folder|] == folder;
  }

  // ---------------------------------------------------------------------
  // Reaction.
  // ---------------------------------------------------------------------

  /** Whether to react: the channel's setting overrides the global one, and a
      channel that opts out for history downloads wins over both. */
  function ShouldReact(cfg: Config, p: ChannelConfig, history: bool): (r: bool)
    ensures history && p.reactWhenDownloadedHistory == Some(false) ==> !r
    ensures !(history && p.reactWhenDownloadedHistory == Some(false))
            ==> (r <==> p.reactWhenDownloaded.GetOr(cfg.reactWhenDownloaded))
  {
    var react := if p.reactWhenDownloaded.Some? then p.reactWhenDownloaded.value else cfg.reactWhenDownloaded;
    if p.reactWhenDownloadedHistory.Some? && history && !p.reactWhenDownloadedHistory.value then false else react
  }

  /** Which emoji: the configured one, else (in a guild with more than one emoji)
      a random one, else the default; a failed guild lookup leaves the name empty. */
  function ChooseReaction(p: ChannelConfig, guildID: string, guildEmojis: Option<nat>): (r: Reaction)
    ensures p.reactWhenDownloadedEmoji != "" <==> r == ConfiguredEmoji(p.reactWhenDownloadedEmoji)
    ensures r == RandomGuildEmoji <==> p.reactWhenDownloadedEmoji == "" && guildID != ""
                                        && guildEmojis.Some? && guildEmojis.value > 1
    ensures r == EmptyReaction <==> p.reactWhenDownloadedEmoji == "" && guildID != "" && guildEmojis.None?
    ensures r == DefaultReaction <==> p.reactWhenDownloadedEmoji == ""
                                       && (guildID == "" || (guildEmojis.Some? && guildEmojis.value <= 1))
  {
    if p.reactWhenDownloadedEmoji != "" then ConfiguredEmoji(p.reactWhenDownloadedEmoji)
    else if guildID == "" then DefaultReaction
    else if guildEmojis.None? then EmptyReaction
    else if guildEmojis.value > 1 then RandomGuildEmoji
    else DefaultReaction
  }

  /** The reaction added after a stored download, if any. */
  function ReactionFor(cfg: Config, p: ChannelConfig, req: Request, w: World): (r: Option<Reaction>)
    ensures r.Some? <==> req.message.author.Some? && ShouldReact(cfg, p, req.historyCmd) && w.canReact
  {
    if req.message.author.Some? && ShouldReact(cfg, p, req.historyCmd) && w.canReact then
      Some(ChooseReaction(p, req.message.guildID, w.guildEmojis))
    else None
  }

  // ---------------------------------------------------------------------
  // The attempt.
  // ---------------------------------------------------------------------

  /** How far the attempt gets without the collision probe: finished, or ready
      to store under `complete` (which may exist only when duplicates are saved
      under a new name) with the final filename. */
  datatype Plan = Finished(attempt: Attempt) | Store(complete: string, filename: string)

  /** The attempt got a body that is not a 404 page. */
  predicate Responded(cfg: Config, req: Request, w: World) {
    && Enrolled(cfg, req)
    && w.uriError.None?
    && NormalizePath(req.path).Some?
    && NormalizePath(req.path).value !in w.mkdirErrors
    && w.exchange.Received?
    && w.exchange.response.statusCode != StatusNotFound
  }

  function PlanDownload(cfg: Config, req: Request, w: World, files: set<string>): Plan {
    if !Enrolled(cfg, req) then Finished(Stopped(Ignored, None))
    else if w.uriError.Some? then Finished(Stopped(FailedInvalidSource, w.uriError))
    else match NormalizePath(req.path)
      case None => Finished(Stopped(FailedInvalidPath, None))
      case Some(dir) =>
        if dir in w.mkdirErrors then Finished(Stopped(FailedCreatingFolder, Some(w.mkdirErrors[dir])))
        else match w.exchange
          case RequestFailed(e) => Finished(Stopped(FailedRequesting, Some(e)))
          case TransportFailed(e) => Finished(Stopped(FailedDownloadingResponse, Some(e)))
          case ReadFailed(e) => Finished(Stopped(FailedReadResponse, Some(e)))
          case Received(resp) =>
            if resp.statusCode == StatusNotFound then Finished(Stopped(Failed404, None))
            else Screen(cfg, ChannelPolicy(cfg, req.message.channelID), req, w, files, dir, resp)
  }

  /** The filters, in the source's order: extension, domain, category, near duplicate. */
  function Screen(cfg: Config, p: ChannelConfig, req: Request, w: World, files: set<string>, dir: string,
                  resp: Response): Plan
  {
    var name := ChosenName(req, resp);
    var ext := ExtensionOf(name);
    var cat := CategoryOf(name, resp);
    if !ExtensionPermitted(p.filters, ext) then Finished(Stopped(SkippedUnpermittedExtension, None))
    else if !DomainPermitted(p.filters, w.hostname) then Finished(Stopped(SkippedUnpermittedDomain, None))
    else if !CategoryEnabled(p, cat) then Finished(Stopped(SkippedUnpermittedType, None))
    else if HashedForDuplicates(cfg, cat, ext) && w.nearDuplicate then Finished(Stopped(SkippedDetectedDuplicate, None))
    else Place(cfg, p, req, w, files, dir, cat, WithMimeExtension(name, resp.mimeExtensions))
  }

  /** The folder a stored file goes to. */
  function Folder(cfg: Config, p: ChannelConfig, req: Request, w: World, dir: string, cat: string): string {
    dir + JoinDirs(Segments(cfg.pathBlacklist, p, req.message.author, cat, NamesOf(req.message.channelID, w.channel)))
  }

  /** Subfolder creation and the existing-path test. */
  function Place(cfg: Config, p: ChannelConfig, req: Request, w: World, files: set<string>, dir: string,
                 cat: string, name: string): Plan
  {
    var segs := Segments(cfg.pathBlacklist, p, req.message.author, cat, NamesOf(req.message.channelID, w.channel));
    match MkdirFailure(dir, segs, w.mkdirErrors, 0)
    case Some(e) => Finished(Stopped(FailedCreatingSubfolder, Some(e)))
    case None =>
      var complete := dir + JoinDirs(segs) + w.stamp + name;
      if complete in files && !p.savePossibleDuplicates then Finished(Stopped(SkippedDuplicate, None))
      else Store(complete, name)
  }

  /** Writing the file and the database row, then the reaction. */
  function Finish(cfg: Config, req: Request, w: World, name: string, target: string): Attempt {
    if w.writeError.Some? then Stopped(FailedWritingFile, w.writeError)
    else if w.dbError.Some? then Attempt(StatusResult(FailedWritingDatabase, w.dbError), Some(target), None, None)
    else
      var p := ChannelPolicy(cfg, req.message.channelID);
      var userID := if req.message.author.Some? then req.message.author.value.id else cfg.botUserID;
      Attempt(StatusResult(Success, None), Some(target),
              Some(DownloadRecord(req.inputURL, target, name, req.message.channelID, userID)),
              ReactionFor(cfg, p, req, w))
  }

  /** What tryDownload does, as a function of its inputs. */
  function Attempted(cfg: Config, req: Request, w: World, files: set<string>): Attempt {
    match PlanDownload(cfg, req, w, files)
    case Finished(a) => a
    case Store(complete, name) =>
      Finish(cfg, req, w, name, if complete in files then FreePath(complete, files) else complete)
  }

  /** tryDownload: plans the attempt, probes for a free name when the path exists,
      and stores. */
  method TryDownload(cfg: Config, req: Request, w: World, files: set<string>) returns (a: Attempt)
    ensures a == Attempted(cfg, req, w, files)
  {
    var plan := PlanDownload(cfg, req, w, files);
    match plan
    case Finished(done) =>
      a := done;
    case Store(complete, name) =>
      var target := complete;
      if target in files {
        target := ProbeFreePath(complete, files);
      }
      a := Finish(cfg, req, w, name, target);
  }

  // ---------------------------------------------------------------------
  // Properties of an attempt.
  // ---------------------------------------------------------------------

  /** An attempt that wrote nothing, recorded nothing and reacted with nothing. */
  predicate Inert(a: Attempt) {
    a.written.None? && a.record.None? && a.reaction.None?
  }

  /** The folder a stored file goes to, once a body is in hand. */
  function StoreFolder(cfg: Config, req: Request, w: World): string
    requires Responded(cfg, req, w)
  {
    var resp := w.exchange.response;
    Folder(cfg, ChannelPolicy(cfg, req.message.channelID), req, w, NormalizePath(req.path).value,
           CategoryOf(ChosenName(req, resp), resp))
  }

  /** Subfolder creation fails with its own status, an existing path is skipped
      unless duplicates are kept, and otherwise the file is to be stored in the
      folder under its filename. */
  lemma PlaceOutcome(cfg: Config, p: ChannelConfig, req: Request, w: World, files: set<string>, dir: string,
                     cat: string, name: string)
    requires HasSuffix(dir, SepStr)
    ensures var pl := Place(cfg, p, req, w, files, dir, cat, name);
      var folder := Folder(cfg, p, req, w, dir, cat);
      && (pl.Finished? ==> Inert(pl.attempt) && pl.attempt.result.status in {FailedCreatingSubfolder, SkippedDuplicate})
      && (pl.Store? ==> pl.filename == name && pl.complete == folder + w.stamp + name
                        && (pl.complete in files ==> p.savePossibleDuplicates))
      && HasPrefix(folder, dir) && HasSuffix(folder, SepStr)
  {
    var segs := Segments(cfg.pathBlacklist, p, req.message.author, cat, NamesOf(req.message.channelID, w.channel));
    FolderEndsWithSeparator(dir, segs);
  }

  /** After the filters, the attempt is a skip, a subfolder failure, or a file to
      store in the folder the request's destination and subfolders make. */
  lemma ScreenOutcome(cfg: Config, req: Request, w: World, files: set<string>)
    requires Responded(cfg, req, w)
    ensures var p := ChannelPolicy(cfg, req.message.channelID);
      var resp := w.exchange.response;
      var pl := Screen(cfg, p, req, w, files, NormalizePath(req.path).value, resp);
      && (pl.Finished? ==> (Inert(pl.attempt) && pl.attempt.result.status in
            {SkippedUnpermittedExtension, SkippedUnpermittedDomain, SkippedUnpermittedType,
             SkippedDetectedDuplicate, SkippedDuplicate, FailedCreatingSubfolder}))
      && (pl.Store? ==> pl.filename == WithMimeExtension(ChosenName(req, resp), resp.mimeExtensions)
                        && pl.complete == StoreFolder(cfg, req, w) + w.stamp + pl.filename
                        && (pl.complete in files ==> p.savePossibleDuplicates))
      && HasPrefix(StoreFolder(cfg, req, w), NormalizePath(req.path).value)
      && HasSuffix(StoreFolder(cfg, req, w), SepStr)
  {
    var p := ChannelPolicy(cfg, req.message.channelID);
    var resp := w.exchange.response;
    var name := ChosenName(req, resp);
    PlaceOutcome(cfg, p, req, w, files, NormalizePath(req.path).value, CategoryOf(name, resp),
                 WithMimeExtension(name, resp.mimeExtensions));
  }

  /** The planning stage: before a body is in hand each check has its own status;
      nothing is written before the store step. */
  lemma PlanOutcome(cfg: Config, req: Request, w: World, files: set<string>)
    ensures var pl := PlanDownload(cfg, req, w, files);
      && (!Responded(cfg, req, w) ==> (pl.Finished? && Inert(pl.attempt) && pl.attempt.result.status in
            {Ignored, FailedInvalidSource, FailedInvalidPath, FailedCreatingFolder, FailedRequesting,
             FailedDownloadingResponse, FailedReadResponse, Failed404}))
      && (Responded(cfg, req, w) ==>
            pl == Screen(cfg, ChannelPolicy(cfg, req.message.channelID), req, w, files,
                         NormalizePath(req.path).value, w.exchange.response))
  {
  }

  /** The store step: a write error stops it, a database error leaves the file
      written, and success adds the record and possibly a reaction. */
  lemma FinishOutcome(cfg: Config, req: Request, w: World, name: string, target: string)
    ensures var a := Finish(cfg, req, w, name, target);
      && a.result.status in {FailedWritingFile, FailedWritingDatabase, Success}
      && (a.written.Some? <==> a.result.status != FailedWritingFile)
      && (a.written.Some? ==> a.written.value == target)
      && (a.record.Some? <==> a.result.status == Success)
      && (a.record.Some? ==> a.record.value == DownloadRecord(req.inputURL, target, name, req.message.channelID,
                                                              if req.message.author.Some? then req.message.author.value.id
                                                              else cfg.botUserID))
      && (a.reaction.Some? ==> a.result.status == Success && req.message.author.Some? && w.canReact)
      && (a.result.status == Success ==> a.reaction == ReactionFor(cfg, ChannelPolicy(cfg, req.message.channelID), req, w))
  {
  }

  /** The outcome of an attempt, stage by stage: an attempt that finishes while
      planning is the planned one; otherwise the file is stored under the planned
      path, or under the first free renamed path when that one exists. */
  lemma AttemptStages(cfg: Config, req: Request, w: World, files: set<string>)
    ensures var pl := PlanDownload(cfg, req, w, files);
      && (pl.Finished? ==> Attempted(cfg, req, w, files) == pl.attempt)
      && (pl.Store? && pl.complete !in files ==> Attempted(cfg, req, w, files) == Finish(cfg, req, w, pl.filename, pl.complete))
      && (pl.Store? && pl.complete in files ==>
            Attempted(cfg, req, w, files) == Finish(cfg, req, w, pl.filename, FreePath(pl.complete, files)))
  {
  }

  /** The checks before the body is examined run in the source's order, each
      deciding its own status, and none of them writes anything. */
  lemma EarlyChecksInOrder(cfg: Config, req: Request, w: World, files: set<string>)
    ensures var s := Attempted(cfg, req, w, files).result.status;
      && (s == Ignored <==> !Enrolled(cfg, req))
      && (s == FailedInvalidSource <==> Enrolled(cfg, req) && w.uriError.Some?)
      && (s == FailedInvalidPath <==> Enrolled(cfg, req) && w.uriError.None? && NormalizePath(req.path).None?)
      && (s == Failed404 <==> Enrolled(cfg, req) && w.uriError.None? && NormalizePath(req.path).Some?
                              && NormalizePath(req.path).value !in w.mkdirErrors
                              && w.exchange.Received? && w.exchange.response.statusCode == StatusNotFound)
      && (!Responded(cfg, req, w) ==> Inert(Attempted(cfg, req, w, files)))
  {
    var pl := PlanDownload(cfg, req, w, files);
    PlanOutcome(cfg, req, w, files);
    AttemptStages(cfg, req, w, files);
    if Responded(cfg, req, w) {
      ScreenOutcome(cfg, req, w, files);
      if pl.Store? {
        FinishOutcome(cfg, req, w, pl.filename, if pl.complete in files then FreePath(pl.complete, files) else pl.complete);
      }
    }
  }

  /** Once a body is in hand, the extension filter runs first, then the domain
      filter, then the category gate. */
  lemma FiltersInOrder(cfg: Config, req: Request, w: World, files: set<string>)
    requires Responded(cfg, req, w)
    ensures var s := Attempted(cfg, req, w, files).result.status;
      var p := ChannelPolicy(cfg, req.message.channelID);
      var name := ChosenName(req, w.exchange.response);
      && (s == SkippedUnpermittedExtension <==> !ExtensionPermitted(p.filters, ExtensionOf(name)))
      && (ExtensionPermitted(p.filters, ExtensionOf(name)) ==>
            (s == SkippedUnpermittedDomain <==> !DomainPermitted(p.filters, w.hostname)))
      && (ExtensionPermitted(p.filters, ExtensionOf(name)) && DomainPermitted(p.filters, w.hostname) ==>
            (s == SkippedUnpermittedType <==> !CategoryEnabled(p, CategoryOf(name, w.exchange.response))))
  {
    var pl := PlanDownload(cfg, req, w, files);
    PlanOutcome(cfg, req, w, files);
    AttemptStages(cfg, req, w, files);
    var p := ChannelPolicy(cfg, req.message.channelID);
    var resp := w.exchange.response;
    var name := ChosenName(req, resp);
    var dir := NormalizePath(req.path).value;
    var cat := CategoryOf(name, resp);
    if pl.Store? {
      FinishOutcome(cfg, req, w, pl.filename, if pl.complete in files then FreePath(pl.complete, files) else pl.complete);
    }
    if ExtensionPermitted(p.filters, ExtensionOf(name)) && DomainPermitted(p.filters, w.hostname)
       && CategoryEnabled(p, cat) {
      PlaceOutcome(cfg, p, req, w, files, dir, cat, WithMimeExtension(name, resp.mimeExtensions));
    }
  }

  /** An attempt never ends in the two generic statuses; those belong to the retry loop. */
  lemma NoGenericStatus(cfg: Config, req: Request, w: World, files: set<string>)
    ensures Attempted(cfg, req, w, files).result.status != Failed
    ensures Attempted(cfg, req, w, files).result.status != Skipped
  {
    var pl := PlanDownload(cfg, req, w, files);
    PlanOutcome(cfg, req, w, files);
    AttemptStages(cfg, req, w, files);
    if Responded(cfg, req, w) {
      ScreenOutcome(cfg, req, w, files);
    }
    if pl.Store? {
      FinishOutcome(cfg, req, w, pl.filename, if pl.complete in files then FreePath(pl.complete, files) else pl.complete);
    }
  }

  /** A file is written exactly when the attempt succeeds or only the database
      row fails. A record is kept exactly on success, and a reaction only follows
      a success. */
  lemma WrittenOnlyWhenStored(cfg: Config, req: Request, w: World, files: set<string>)
    ensures var a := Attempted(cfg, req, w, files);
      && (a.written.Some? <==> a.result.status == Success || a.result.status == FailedWritingDatabase)
      && (a.record.Some? <==> a.result.status == Success)
      && (a.reaction.Some? ==> a.result.status == Success && req.message.author.Some? && w.canReact)
  {
    var pl := PlanDownload(cfg, req, w, files);
    PlanOutcome(cfg, req, w, files);
    AttemptStages(cfg, req, w, files);
    if Responded(cfg, req, w) {
      ScreenOutcome(cfg, req, w, files);
    }
    if pl.Store? {
      FinishOutcome(cfg, req, w, pl.filename, if pl.complete in files then FreePath(pl.complete, files) else pl.complete);
    }
  }

  /** The path a file is stored under: the planned one, or the first free
      renamed one when it exists. Either way it is new and under `dir`. */
  lemma TargetIsNew(dir: string, folder: string, stamp: string, name: string, files: set<string>)
    requires HasPrefix(folder, dir) && HasSuffix(folder, SepStr)
    ensures var complete := folder + stamp + name;
      var target := if complete in files then FreePath(complete, files) else complete;
      target !in files && HasPrefix(target, dir)
  {
    assert folder + stamp + name == folder + (stamp + name);
    ProbeStaysInFolder(folder, stamp + name, files);
  }

  /** A written file never overwrites an existing path, and it lands under the
      request's destination folder. */
  lemma WritesOnlyNewFiles(cfg: Config, req: Request, w: World, files: set<string>)
    ensures var a := Attempted(cfg, req, w, files);
      a.written.Some? ==> a.written.value !in files && HasPrefix(a.written.value, NormalizePath(req.path).value)
  {
    var pl := PlanDownload(cfg, req, w, files);
    var a := Attempted(cfg, req, w, files);
    PlanOutcome(cfg, req, w, files);
    AttemptStages(cfg, req, w, files);
    if pl.Finished? {
      if Responded(cfg, req, w) {
        ScreenOutcome(cfg, req, w, files);
      }
      assert a.written.None?;
    } else {
      ScreenOutcome(cfg, req, w, files);
      var target := if pl.complete in files then FreePath(pl.complete, files) else pl.complete;
      FinishOutcome(cfg, req, w, pl.filename, target);
      TargetIsNew(NormalizePath(req.path).value, StoreFolder(cfg, req, w), w.stamp, pl.filename, files);
      assert a.written.Some? ==> a.written.value == target;
    }
  }

  /** A body whose name has one of the overridden extensions passes the category
      gate by that extension's toggle, whatever type it was sniffed as. */
  lemma ExtensionOverridesSniffing(cfg: Config, req: Request, w: World, files: set<string>)
    requires Responded(cfg, req, w)
    ensures var s := Attempted(cfg, req, w, files).result.status;
      var p := ChannelPolicy(cfg, req.message.channelID);
      var ext := ExtensionOf(ChosenName(req, w.exchange.response));
      ExtensionPermitted(p.filters, ext) && DomainPermitted(p.filters, w.hostname) ==>
        && (ext in VideoExtensions ==> (s == SkippedUnpermittedType <==> !p.saveVideos))
        && (ext in ImageExtensions ==> (s == SkippedUnpermittedType <==> !p.saveImages))
  {
    FiltersInOrder(cfg, req, w, files);
  }

  /** A reaction follows exactly a successful download of a message with an
      author, where the bot may react and the settings ask for one; a history
      download in a channel that opts out of history reactions gets none. */
  lemma ReactionRule(cfg: Config, req: Request, w: World, files: set<string>)
    ensures var a := Attempted(cfg, req, w, files);
      var p := ChannelPolicy(cfg, req.message.channelID);
      && (a.reaction.Some? <==> a.result.status == Success && req.message.author.Some? && w.canReact
                                && ShouldReact(cfg, p, req.historyCmd))
      && (a.reaction.Some? ==> a.reaction.value == ChooseReaction(p, req.message.guildID, w.guildEmojis))
      && (req.historyCmd && p.reactWhenDownloadedHistory == Some(false) ==> a.reaction.None?)
  {
    var pl := PlanDownload(cfg, req, w, files);
    PlanOutcome(cfg, req, w, files);
    AttemptStages(cfg, req, w, files);
    if Responded(cfg, req, w) {
      ScreenOutcome(cfg, req, w, files);
    }
    if pl.Store? {
      FinishOutcome(cfg, req, w, pl.filename, if pl.complete in files then FreePath(pl.complete, files) else pl.complete);
    }
  }

  /** The database row of a stored download: the request's URL, the path written,
      the channel and the author (the bot for a message without one). The stored
      name is the chosen name, with the first extension registered for the
      sniffed type appended when it has no extension; the file keeps the planned
      path unless that path exists. */
  lemma StoredRecord(cfg: Config, req: Request, w: World, files: set<string>)
    ensures var a := Attempted(cfg, req, w, files);
      a.record.Some? ==>
        && Responded(cfg, req, w)
        && a.written.Some?
        && var resp := w.exchange.response;
        && var name := ChosenName(req, resp);
        && var r := a.record.value;
        && r.url == req.inputURL && r.destination == a.written.value && r.channelID == req.message.channelID
        && r.userID == (if req.message.author.Some? then req.message.author.value.id else cfg.botUserID)
        && (Ext(name) == "" && resp.mimeExtensions != [] ==> r.filename == name + resp.mimeExtensions[0])
        && (Ext(name) != "" || resp.mimeExtensions == [] ==> r.filename == name)
        && ((StoreFolder(cfg, req, w) + w.stamp + r.filename) !in files ==>
              a.written.value == StoreFolder(cfg, req, w) + w.stamp + r.filename)
  {
    var pl := PlanDownload(cfg, req, w, files);
    PlanOutcome(cfg, req, w, files);
    AttemptStages(cfg, req, w, files);
    if Responded(cfg, req, w) {
      ScreenOutcome(cfg, req, w, files);
    }
    if pl.Store? {
      FinishOutcome(cfg, req, w, pl.filename, if pl.complete in files then FreePath(pl.complete, files) else pl.complete);
    }
  }

  // ---------------------------------------------------------------------
  // The request step.
  // ---------------------------------------------------------------------

  /** The attempt gets as far as building the HTTP request. */
  predicate ReachesRequest(cfg: Config, req: Request, w: World) {
    && Enrolled(cfg, req)
    && w.uriError.None?
    && NormalizePath(req.path).Some?
    && NormalizePath(req.path).value !in w.mkdirErrors
  }

  /** A request that cannot be built ends the attempt with FailedRequesting and
      the construction error, and that status arises in no other way. */
  lemma RequestFailureReported(cfg: Config, req: Request, w: World, files: set<string>)
    ensures var a := Attempted(cfg, req, w, files);
      && (a.result.status == FailedRequesting <==> ReachesRequest(cfg, req, w) && w.exchange.RequestFailed?)
      && (ReachesRequest(cfg, req, w) && w.exchange.RequestFailed? ==> a == Stopped(FailedRequesting, Some(w.exchange.err)))
  {
    var pl := PlanDownload(cfg, req, w, files);
    PlanOutcome(cfg, req, w, files);
    AttemptStages(cfg, req, w, files);
    if Responded(cfg, req, w) {
      ScreenOutcome(cfg, req, w, files);
      if pl.Store? {
        FinishOutcome(cfg, req, w, pl.filename, if pl.complete in files then FreePath(pl.complete, files) else pl.complete);
      }
    }
  }

  /** The attempt as the source writes it: the User-Agent header is set on the
      request before the construction error is looked at, so when the request
      cannot be built the nil request is dereferenced and the goroutine panics
      (None); every other attempt is the one Attempted describes. */
  function AttemptedAsWritten(cfg: Config, req: Request, w: World, files: set<string>): (r: Option<Attempt>)
    ensures r.None? <==> ReachesRequest(cfg, req, w) && w.exchange.RequestFailed?
    ensures r.Some? ==> r.value == Attempted(cfg, req, w, files)
  {
    if ReachesRequest(cfg, req, w) && w.exchange.RequestFailed? then None
    else Some(Attempted(cfg, req, w, files))
  }

  /** The FailedRequesting status is unreachable as written: the only attempts
      that would report it panic instead. */
  lemma FailedRequestingUnreachable(cfg: Config, req: Request, w: World, files: set<string>)
    requires Attempted(cfg, req, w, files).result.status == FailedRequesting
    ensures AttemptedAsWritten(cfg, req, w, files).None?
  {
    RequestFailureReported(cfg, req, w, files);
  }
}
