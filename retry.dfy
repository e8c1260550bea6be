/**
 * The retry controller (startDownload): runs attempts until one succeeds, is
 * skipped or ignored, or meets a 404, up to the configured maximum; then
 * reports a failure to the channel and appends the link to the channel's
 * link log.
 */
module Retry {
  import opened Wrappers
  import opened Text
  import opened Status
  import opened Chat
  import opened Policy
  import opened Executor

  // ---------------------------------------------------------------------
  // The retry loop.
  // ---------------------------------------------------------------------

  /** Statuses that end the loop: everything below the generic failure, and 404. */
  predicate StopsRetry(s: DownloadStatus) {
    Code(s) < Code(Failed) || s == Failed404
  }

  /** The paths that exist after an attempt. */
  function FilesAfter(files: set<string>, a: Attempt): set<string> {
    if a.written.Some? then files + {a.written.value} else files
  }

  /** One attempt as the loop sees it: given the world and the existing paths,
      what the attempt did. */
  type AttemptFn = (World, set<string>) -> Attempt

  /** tryDownload of one request under one configuration. */
  function TryDownloadFn(cfg: Config, req: Request): AttemptFn {
    (w: World, files: set<string>) => Attempted(cfg, req, w, files)
  }

  /** The attempts the loop makes from attempt number `i` on, with at most
      `retryMax` in all; attempt `i` sees the world `worlds(i)` and the files
      earlier attempts have written. */
  function Attempts(run: AttemptFn, retryMax: int, worlds: nat -> World, files: set<string>, i: nat): seq<Attempt>
    decreases retryMax - i
  {
    if retryMax <= i then []
    else
      var a := run(worlds(i), files);
      if StopsRetry(a.result.status) then [a]
      else [a] + Attempts(run, retryMax, worlds, FilesAfter(files, a), i + 1)
  }

  /** The status the loop returns: the last attempt's, or the generic failure it
      starts from when no attempt is made. */
  function FinalStatus(attempts: seq<Attempt>): StatusResult {
    if attempts == [] then MakeStatus(Failed, []) else attempts[|attempts| - 1].result
  }

  function AttemptBudget(retryMax: int): nat {
    if retryMax < 0 then 0 else retryMax
  }

  /** The loop makes at most the budgeted number of attempts and at least one when
      the budget allows; every attempt but the last asked for a retry, and the loop
      ends early only on a status that stops it. */
  lemma {:induction false} AttemptsShape(run: AttemptFn, retryMax: int, worlds: nat -> World, files: set<string>, i: nat)
    ensures var r := Attempts(run, retryMax, worlds, files, i);
      && (retryMax <= i ==> r == [])
      && (i < retryMax ==> 1 <= |r| <= retryMax - i)
      && (forall k :: 0 <= k < |r| - 1 ==> !StopsRetry(r[k].result.status))
      && (0 < |r| && i + |r| < retryMax ==> StopsRetry(r[|r| - 1].result.status))
    decreases retryMax - i
  {
    if i < retryMax {
      var a := run(worlds(i), files);
      if !StopsRetry(a.result.status) {
        var rest := Attempts(run, retryMax, worlds, FilesAfter(files, a), i + 1);
        AttemptsShape(run, retryMax, worlds, FilesAfter(files, a), i + 1);
        var r := [a] + rest;
        assert Attempts(run, retryMax, worlds, files, i) == r;
        forall k | 1 <= k < |r| ensures r[k] == rest[k - 1] { }
      }
    }
  }

  /** When no single attempt ends in the generic failure, no attempt of the loop does. */
  lemma {:induction false} AttemptsNeverGeneric(run: AttemptFn, retryMax: int, worlds: nat -> World, files: set<string>, i: nat)
    requires forall w, f :: run(w, f).result.status != Failed
    ensures forall k :: 0 <= k < |Attempts(run, retryMax, worlds, files, i)| ==>
              Attempts(run, retryMax, worlds, files, i)[k].result.status != Failed
    decreases retryMax - i
  {
    if i < retryMax {
      var a := run(worlds(i), files);
      if !StopsRetry(a.result.status) {
        var rest := Attempts(run, retryMax, worlds, FilesAfter(files, a), i + 1);
        AttemptsNeverGeneric(run, retryMax, worlds, FilesAfter(files, a), i + 1);
        var r := [a] + rest;
        assert Attempts(run, retryMax, worlds, files, i) == r;
        forall k | 1 <= k < |r| ensures r[k].result.status != Failed {
          assert r[k] == rest[k - 1];
        }
      }
    }
  }

  /** The paths written by `r` did not exist in `files` and are pairwise distinct. */
  ghost predicate WritesNew(r: seq<Attempt>, files: set<string>) {
    && (forall k :: 0 <= k < |r| && r[k].written.Some? ==> r[k].written.value !in files)
    && (forall k, l :: (0 <= k < l < |r| && r[k].written.Some? && r[l].written.Some?)
                         ==> r[k].written.value != r[l].written.value)
  }

  /** Attempts that only write paths that do not exist never overwrite a file that
      existed before the loop or that an earlier attempt wrote: the paths written
      are new and pairwise distinct. */
  lemma {:induction false} RetriesNeverOverwrite(run: AttemptFn, retryMax: int, worlds: nat -> World, files: set<string>, i: nat)
    requires forall w, f :: run(w, f).written.Some? ==> run(w, f).written.value !in f
    ensures WritesNew(Attempts(run, retryMax, worlds, files, i), files)
    decreases retryMax - i
  {
    if i < retryMax {
      var a := run(worlds(i), files);
      var r := Attempts(run, retryMax, worlds, files, i);
      if StopsRetry(a.result.status) {
        assert r == [a];
      } else {
        var after := FilesAfter(files, a);
        var rest := Attempts(run, retryMax, worlds, after, i + 1);
        RetriesNeverOverwrite(run, retryMax, worlds, after, i + 1);
        assert r == [a] + rest;
        forall k | 0 <= k < |r| && r[k].written.Some?
          ensures r[k].written.value !in files
        {
          if k > 0 {
            assert r[k] == rest[k - 1];
          } else {
            assert r[k] == a;
          }
        }
        forall k, l | 0 <= k < l < |r| && r[k].written.Some? && r[l].written.Some?
          ensures r[k].written.value != r[l].written.value
        {
          assert r[l] == rest[l - 1];
          if k > 0 {
            assert r[k] == rest[k - 1];
          } else {
            assert r[k].written.value in after;
          }
        }
      }
    }
  }

  /** tryDownload never writes over an existing path and never ends in the
      generic failure. */
  lemma TryDownloadFnFacts(cfg: Config, req: Request)
    ensures forall w, f :: TryDownloadFn(cfg, req)(w, f).written.Some? ==> TryDownloadFn(cfg, req)(w, f).written.value !in f
    ensures forall w, f :: TryDownloadFn(cfg, req)(w, f).result.status != Failed
  {
    forall w, f ensures TryDownloadFn(cfg, req)(w, f).written.Some? ==> TryDownloadFn(cfg, req)(w, f).written.value !in f
    {
      WritesOnlyNewFiles(cfg, req, w, f);
    }
    forall w, f ensures TryDownloadFn(cfg, req)(w, f).result.status != Failed {
      NoGenericStatus(cfg, req, w, f);
    }
  }

  /** Across the retries of one download no file is overwritten. The loop returns
      the generic failure exactly when the budget allows no attempt (and then
      without an error), and a retryable failure only after the whole budget. */
  lemma RunOutcome(cfg: Config, req: Request, worlds: nat -> World, files: set<string>)
    ensures var r := Attempts(TryDownloadFn(cfg, req), cfg.downloadRetryMax, worlds, files, 0);
      var s := FinalStatus(r).status;
      && (s == Failed <==> cfg.downloadRetryMax <= 0)
      && (cfg.downloadRetryMax <= 0 ==> FinalStatus(r) == StatusResult(Failed, None))
      && |r| <= AttemptBudget(cfg.downloadRetryMax)
      && (!StopsRetry(s) && 0 < cfg.downloadRetryMax ==> |r| == cfg.downloadRetryMax)
      && WritesNew(r, files)
  {
    var run := TryDownloadFn(cfg, req);
    var r := Attempts(run, cfg.downloadRetryMax, worlds, files, 0);
    TryDownloadFnFacts(cfg, req);
    AttemptsShape(run, cfg.downloadRetryMax, worlds, files, 0);
    AttemptsNeverGeneric(run, cfg.downloadRetryMax, worlds, files, 0);
    RetriesNeverOverwrite(run, cfg.downloadRetryMax, worlds, files, 0);
  }

  // ---------------------------------------------------------------------
  // Failure report.
  // ---------------------------------------------------------------------

  /** The failure notice: a mention of the author, a title, and the body. */
  datatype Notice = Notice(mention: string, title: string, body: string)

  /** What is reported after the loop: whether it gave up, the notice posted in
      the channel, and the error forwarded to the error log. */
  datatype Report = Report(gaveUp: bool, notice: Option<Notice>, errorLog: Option<string>)

  /** The notice body. It quotes the configured retry maximum as the number of
      attempts made. */
  function NoticeBody(url: string, retryMax: int, result: StatusResult): (body: string)
    ensures Contains(body, url)
  {
    var tail := ">\nafter " + Itoa(retryMax) + " failed attempts...\n\n``"
                + StatusText(Code(result.status)) + "``"
                + (if result.error.Some? then "\n```ERROR: " + result.error.value + "```" else "");
    OccursBetween("Gave up trying to download\n<", url, tail);
    "Gave up trying to download\n<" + url + tail
  }

  function FailureReport(cfg: Config, req: Request, result: StatusResult, canSend: bool): (r: Report)
    ensures r.gaveUp <==> IsFailure(result.status) && !req.historyCmd && !req.emojiCmd
    ensures r.notice.Some? <==> r.gaveUp && IsRegistered(cfg, req.message.channelID)
                                && cfg.channels[req.message.channelID].errorMessages && canSend
    ensures r.errorLog.Some? <==> r.gaveUp && IsRegistered(cfg, req.message.channelID) && result.error.Some?
    ensures r.notice.Some? ==> Contains(r.notice.value.body, req.inputURL)
  {
    var gaveUp := Code(result.status) >= Code(Failed) && !req.historyCmd && !req.emojiCmd;
    var id := req.message.channelID;
    var author := req.message.author.GetOr(EmptyUser);
    var notice :=
      if gaveUp && IsRegistered(cfg, id) && !req.historyCmd && cfg.channels[id].errorMessages && canSend then
        Some(Notice("<@!" + author.id + ">", "Download Failure", NoticeBody(req.inputURL, cfg.downloadRetryMax, result)))
      else None;
    var errorLog :=
      if gaveUp && IsRegistered(cfg, id) && result.error.Some? then
        Some("**" + StatusText(Code(result.status)) + "**\n\n" + result.error.value)
      else None;
    Report(gaveUp, notice, errorLog)
  }

  // ---------------------------------------------------------------------
  // Link log.
  // ---------------------------------------------------------------------

  /** What the link log sees of the outside world: whether the log folder can be
      created, the kind of the message's channel (None when the state lookup
      fails), the current contents of the log files, whether opening the log
      file fails, and whether appending the line to it fails. */
  datatype LogEnv = LogEnv(
    folderError: bool,
    channelKind: Option<ChannelKind>,
    logFiles: map<string, string>,
    openFails: bool,
    appendFails: bool)

  /** A line appended to a log file. */
  datatype LogWrite = LogWrite(path: string, line: string)

  /** The server part of a divided log's name: the guild ID, or the kind of a
      channel outside any guild. */
  function ServerTag(guildID: string, kind: Option<ChannelKind>): (tag: string)
    ensures guildID != "" ==> tag == " SID_" + guildID
    ensures tag == " DM" <==> guildID == "" && kind == Some(DirectMessage)
    ensures tag == " GroupDM" <==> guildID == "" && kind == Some(GroupDirectMessage)
    ensures tag == " Unknown" <==> guildID == "" && kind != Some(DirectMessage) && kind != Some(GroupDirectMessage)
  {
    if guildID != "" then
      assert (" SID_" + guildID)[1] == 'S';
      " SID_" + guildID
    else if kind == Some(DirectMessage) then " DM"
    else if kind == Some(GroupDirectMessage) then " GroupDM"
    else " Unknown"
  }

  /** The status part of a divided log's name. */
  function StatusTag(s: DownloadStatus): (tag: string)
    ensures tag == " - FAILED" <==> IsFailure(s)
    ensures tag == " - SKIPPED" <==> IsSkip(s)
    ensures tag == " - IGNORED" <==> s == Ignored
    ensures tag == " - DOWNLOADED" <==> s == Success
  {
    if Code(s) >= Code(Failed) then " - FAILED"
    else if Code(s) >= Code(Skipped) then " - SKIPPED"
    else if s == Ignored then " - IGNORED"
    else " - DOWNLOADED"
  }

  /** The name of the log file before its status part. */
  function LogStem(ll: LogLinks, msg: Message, author: User, env: LogEnv): (stem: string)
    ensures HasPrefix(stem, "Log_Links")
    ensures ll.divideLogsByChannel ==> Contains(stem, " CID_" + msg.channelID)
    ensures ll.divideLogsByUser ==> HasSuffix(stem, " UID_" + author.id)
    ensures !ll.divideLogsByServer && !ll.divideLogsByChannel && !ll.divideLogsByUser ==> stem == "Log_Links"
    ensures ll.divideLogsByServer ==> HasPrefix(stem, "Log_Links" + ServerTag(msg.guildID, env.channelKind))
    ensures !ll.divideLogsByServer
            ==> HasPrefix(stem, "Log_Links" + (if ll.divideLogsByChannel then " CID_" + msg.channelID else ""))
  {
    var head := "Log_Links" + (if ll.divideLogsByServer then ServerTag(msg.guildID, env.channelKind) else "");
    var channel := if ll.divideLogsByChannel then " CID_" + msg.channelID else "";
    var user := if ll.divideLogsByUser then " UID_" + author.id else "";
    PrefixOfAppend("Log_Links", head[9..]);
    assert head == "Log_Links" + head[9..];
    PrefixExtends(head, "Log_Links", channel);
    PrefixExtends(head + channel, "Log_Links", user);
    PrefixOfAppend(head, channel);
    PrefixExtends(head + channel, head, user);
    PrefixOfAppend(head + channel, user);
    assert !ll.divideLogsByServer ==> head == "Log_Links";
    OccursBetween(head, channel, user);
    SuffixOfAppend(head + channel, user);
    head + channel + user
  }

  /** The folder holding divided logs: the destination with a trailing separator. */
  function LogFolder(ll: LogLinks): (dir: string)
    ensures HasPrefix(dir, ll.destination) && HasSuffix(dir, SepStr)
    ensures |dir| <= |ll.destination| + 1
    ensures HasSuffix(ll.destination, SepStr) ==> dir == ll.destination
  {
    if HasSuffix(ll.destination, SepStr) then ll.destination
    else
      PrefixOfAppend(ll.destination, SepStr);
      ll.destination + SepStr
  }

  /** The log file: the destination itself, or, for a folder, a file in it named
      by the enabled divisions ("<folder>/.txt" when the folder cannot be made). */
  function LogFilePath(ll: LogLinks, msg: Message, author: User, status: DownloadStatus, env: LogEnv): (path: string)
    ensures !ll.destinationIsFolder ==> path == ll.destination
    ensures ll.destinationIsFolder ==> HasPrefix(path, LogFolder(ll)) && HasSuffix(path, ".txt")
    ensures ll.destinationIsFolder && env.folderError ==> path == LogFolder(ll) + ".txt"
    ensures ll.destinationIsFolder && !env.folderError
            ==> path == LogFolder(ll) + LogStem(ll, msg, author, env)
                       + (if ll.divideLogsByStatus then StatusTag(status) else "") + ".txt"
  {
    if !ll.destinationIsFolder then ll.destination
    else if env.folderError then
      PrefixOfAppend(LogFolder(ll), ".txt");
      SuffixOfAppend(LogFolder(ll), ".txt");
      LogFolder(ll) + ".txt"
    else
      var dir := LogFolder(ll);
      var stem := LogStem(ll, msg, author, env);
      var tag := if ll.divideLogsByStatus then StatusTag(status) else "";
      PrefixOfAppend(dir, stem);
      PrefixExtends(dir + stem, dir, tag);
      PrefixExtends(dir + stem + tag, dir, ".txt");
      SuffixOfAppend(dir + stem + tag, ".txt");
      dir + stem + tag + ".txt"
  }

  /** `a + t + b` determines `t`. */
  lemma CancelAround(a: string, t1: string, t2: string, b: string)
    requires a + t1 + b == a + t2 + b
    ensures t1 == t2
  {
    var s := a + t1 + b;
    assert |t1| == |t2|;
    assert t1 == s[|a|..|a| + |t1|];
    assert t2 == (a + t2 + b)[|a|..|a| + |t2|];
  }

  /** With logs divided by status, two downloads share a log file exactly when
      their statuses are in the same class. */
  lemma StatusSplitsLogs(ll: LogLinks, msg: Message, author: User, s1: DownloadStatus, s2: DownloadStatus, env: LogEnv)
    requires ll.destinationIsFolder && !env.folderError && ll.divideLogsByStatus
    ensures LogFilePath(ll, msg, author, s1, env) == LogFilePath(ll, msg, author, s2, env)
            <==> StatusTag(s1) == StatusTag(s2)
  {
    var head := LogFolder(ll) + LogStem(ll, msg, author, env);
    if LogFilePath(ll, msg, author, s1, env) == LogFilePath(ll, msg, author, s2, env) {
      CancelAround(head, StatusTag(s1), StatusTag(s2), ".txt");
    }
  }

  /** shouldLog as the source writes it: a status other than success is logged as
      the failure setting says; a success is always logged, since the download
      setting only ever sets the flag to the value it already has. A URL already in
      the log is not logged again when duplicates are filtered. */
  predicate ShouldLogAsWritten(ll: LogLinks, status: DownloadStatus, currentLog: string, url: string) {
    var should := true;
    var should := if Code(status) > Code(Success) then ll.logFailures else if ll.logDownloads then true else should;
    if ll.filterDuplicates.Some? && ll.filterDuplicates.value && Contains(currentLog, url) then false else should
  }

  /** shouldLog as intended: successes are logged as the download setting says. */
  predicate ShouldLog(ll: LogLinks, status: DownloadStatus, currentLog: string, url: string) {
    var should := if Code(status) > Code(Success) then ll.logFailures else ll.logDownloads;
    if ll.filterDuplicates.Some? && ll.filterDuplicates.value && Contains(currentLog, url) then false else should
  }

  /** The source logs a success even with the download setting off. */
  lemma LogDownloadsSettingIgnored(ll: LogLinks, currentLog: string, url: string)
    requires !ll.logDownloads && ll.filterDuplicates.None?
    ensures ShouldLogAsWritten(ll, Success, currentLog, url)
    ensures !ShouldLog(ll, Success, currentLog, url)
  {
  }

  /** The corrected decision: each status class follows its own setting, and the
      duplicate filter vetoes a URL already present. It differs from the source
      only for successes with the download setting off. */
  lemma ShouldLogDecides(ll: LogLinks, status: DownloadStatus, currentLog: string, url: string)
    ensures ShouldLog(ll, status, currentLog, url) ==> !(ll.filterDuplicates == Some(true) && Contains(currentLog, url))
    ensures !(ll.filterDuplicates == Some(true) && Contains(currentLog, url)) ==>
              (ShouldLog(ll, status, currentLog, url) <==> if status == Success then ll.logDownloads else ll.logFailures)
    ensures ShouldLog(ll, status, currentLog, url) != ShouldLogAsWritten(ll, status, currentLog, url)
            <==> status == Success && !ll.logDownloads && !(ll.filterDuplicates == Some(true) && Contains(currentLog, url))
  {
    assert Code(status) > Code(Success) <==> status != Success;
  }

  /** The user details put before the URL when asked for. */
  function UserInfo(msg: Message, author: User): string {
    "[" + msg.guildID + "/" + msg.channelID + "] \"" + author.username + "\"#" + author.discriminator
    + " (" + author.id + ") @ " + msg.timestamp + ": "
  }

  /** The appended line: a newline, the prefix, the user details if asked for, the
      URL and the suffix. */
  function LogLine(ll: LogLinks, req: Request, author: User): (line: string)
    ensures HasPrefix(line, "\n" + ll.prefix.GetOr(""))
    ensures HasSuffix(line, req.inputURL + ll.suffix.GetOr(""))
    ensures ll.userData != Some(true)
            ==> line == "\n" + ll.prefix.GetOr("") + req.inputURL + ll.suffix.GetOr("")
    ensures ll.userData == Some(true)
            ==> line == "\n" + ll.prefix.GetOr("") + UserInfo(req.message, author) + req.inputURL + ll.suffix.GetOr("")
  {
    var info := if ll.userData == Some(true) then UserInfo(req.message, author) else "";
    var lead := "\n" + ll.prefix.GetOr("");
    PrefixOfAppend(lead, info);
    PrefixExtends(lead + info, lead, req.inputURL + ll.suffix.GetOr(""));
    SuffixOfAppend(lead + info, req.inputURL + ll.suffix.GetOr(""));
    assert (lead + info) + (req.inputURL + ll.suffix.GetOr("")) == lead + info + req.inputURL + ll.suffix.GetOr("");
    assert ll.userData != Some(true) ==> lead + info == lead;
    (lead + info) + (req.inputURL + ll.suffix.GetOr(""))
  }

  /** Once a line is appended, the log contains its URL. */
  lemma LoggedUrlFound(currentLog: string, ll: LogLinks, req: Request, author: User)
    ensures Contains(currentLog + LogLine(ll, req, author), req.inputURL)
  {
    var info := if ll.userData == Some(true) then UserInfo(req.message, author) else "";
    var head := currentLog + (("\n" + ll.prefix.GetOr("")) + info);
    assert currentLog + LogLine(ll, req, author) == head + req.inputURL + ll.suffix.GetOr("");
    OccursBetween(head, req.inputURL, ll.suffix.GetOr(""));
  }

  /** The contents of a log file; a file that cannot be read counts as empty. */
  function CurrentLog(env: LogEnv, path: string): string {
    if path in env.logFiles then env.logFiles[path] else ""
  }

  /** The link-log settings of a registered channel that has a destination. */
  predicate LogsLinks(cfg: Config, channelID: string) {
    channelID in cfg.channels && cfg.channels[channelID].logLinks.Some?
    && cfg.channels[channelID].logLinks.value.destination != ""
  }

  /** The settings of a channel that logs links. */
  function LinksOf(cfg: Config, channelID: string): LogLinks
    requires LogsLinks(cfg, channelID)
  {
    cfg.channels[channelID].logLinks.value
  }

  /** The entry a download would append: its log file and its line. A message
      without an author is logged with the empty user. */
  function Entry(cfg: Config, req: Request, status: DownloadStatus, env: LogEnv): (e: LogWrite)
    requires LogsLinks(cfg, req.message.channelID)
    ensures var ll := LinksOf(cfg, req.message.channelID);
      && e.path == LogFilePath(ll, req.message, req.message.author.GetOr(EmptyUser), status, env)
      && HasSuffix(e.line, req.inputURL + ll.suffix.GetOr(""))
      && e.line == LogLine(ll, req, req.message.author.GetOr(EmptyUser))
  {
    var ll := LinksOf(cfg, req.message.channelID);
    var author := req.message.author.GetOr(EmptyUser);
    LogWrite(LogFilePath(ll, req.message, author, status, env), LogLine(ll, req, author))
  }

  /** The log entry of a finished download as the source writes it: appended
      when the channel logs links, the log file opens, and the source's decision
      (ShouldLogAsWritten) accepts the URL against the file's current contents. */
  function LinkLog(cfg: Config, req: Request, status: DownloadStatus, env: LogEnv): (r: Option<LogWrite>)
    ensures r.Some? <==> LogsLinks(cfg, req.message.channelID) && !env.openFails && !env.appendFails
                         && ShouldLogAsWritten(LinksOf(cfg, req.message.channelID), status,
                                               CurrentLog(env, Entry(cfg, req, status, env).path), req.inputURL)
    ensures r.Some? ==> r.value == Entry(cfg, req, status, env)
  {
    var id := req.message.channelID;
    if !LogsLinks(cfg, id) then None
    else
      var ll := cfg.channels[id].logLinks.value;
      var author := req.message.author.GetOr(EmptyUser);
      var path := LogFilePath(ll, req.message, author, status, env);
      if env.openFails || env.appendFails || !ShouldLogAsWritten(ll, status, CurrentLog(env, path), req.inputURL) then None
      else Some(LogWrite(path, LogLine(ll, req, author)))
  }

  /** The log entry with the intended decision (ShouldLog): successes follow the
      download setting. */
  function LinkLogCorrected(cfg: Config, req: Request, status: DownloadStatus, env: LogEnv): (r: Option<LogWrite>)
    ensures r.Some? <==> LogsLinks(cfg, req.message.channelID) && !env.openFails && !env.appendFails
                         && ShouldLog(LinksOf(cfg, req.message.channelID), status,
                                      CurrentLog(env, Entry(cfg, req, status, env).path), req.inputURL)
    ensures r.Some? ==> r.value == Entry(cfg, req, status, env)
  {
    var id := req.message.channelID;
    if !LogsLinks(cfg, id) then None
    else
      var ll := cfg.channels[id].logLinks.value;
      var author := req.message.author.GetOr(EmptyUser);
      var path := LogFilePath(ll, req.message, author, status, env);
      if env.openFails || env.appendFails || !ShouldLog(ll, status, CurrentLog(env, path), req.inputURL) then None
      else Some(LogWrite(path, LogLine(ll, req, author)))
  }

  /** The source's log and the intended one differ exactly on a success that the
      download setting turns off and the duplicate filter lets through. */
  lemma LinkLogDiffers(cfg: Config, req: Request, status: DownloadStatus, env: LogEnv)
    ensures LinkLog(cfg, req, status, env) != LinkLogCorrected(cfg, req, status, env)
            <==> LogsLinks(cfg, req.message.channelID) && !env.openFails && !env.appendFails
                 && var ll := LinksOf(cfg, req.message.channelID);
                 && status == Success && !ll.logDownloads
                 && !(ll.filterDuplicates == Some(true)
                      && Contains(CurrentLog(env, Entry(cfg, req, status, env).path), req.inputURL))
  {
    if LogsLinks(cfg, req.message.channelID) {
      ShouldLogDecides(LinksOf(cfg, req.message.channelID), status,
                       CurrentLog(env, Entry(cfg, req, status, env).path), req.inputURL);
    }
  }

  /** The log files after a write. */
  function Appended(env: LogEnv, w: LogWrite): LogEnv {
    env.(logFiles := env.logFiles[w.path := CurrentLog(env, w.path) + w.line])
  }

  /** After an entry is appended, its file still is the entry's file and now
      contains the URL. */
  lemma EntryFound(cfg: Config, req: Request, status: DownloadStatus, env: LogEnv)
    requires LogsLinks(cfg, req.message.channelID)
    ensures var e := Entry(cfg, req, status, env);
      && Entry(cfg, req, status, Appended(env, e)) == e
      && Contains(CurrentLog(Appended(env, e), e.path), req.inputURL)
  {
    var e := Entry(cfg, req, status, env);
    var ll := LinksOf(cfg, req.message.channelID);
    var author := req.message.author.GetOr(EmptyUser);
    assert e.line == LogLine(ll, req, author);
    assert CurrentLog(Appended(env, e), e.path) == CurrentLog(env, e.path) + LogLine(ll, req, author);
    LoggedUrlFound(CurrentLog(env, e.path), ll, req, author);
  }

  /** With duplicates filtered, a URL is logged at most once: after its line is
      appended, the same download is not logged again, by the source's decision
      and by the intended one. */
  lemma DuplicateLinksLoggedOnce(cfg: Config, req: Request, status: DownloadStatus, env: LogEnv)
    requires LogsLinks(cfg, req.message.channelID)
    requires LinksOf(cfg, req.message.channelID).filterDuplicates == Some(true)
    ensures LinkLog(cfg, req, status, env).Some? ==>
              LinkLog(cfg, req, status, Appended(env, LinkLog(cfg, req, status, env).value)).None?
    ensures LinkLogCorrected(cfg, req, status, env).Some? ==>
              LinkLogCorrected(cfg, req, status, Appended(env, LinkLogCorrected(cfg, req, status, env).value)).None?
  {
    EntryFound(cfg, req, status, env);
  }

  // ---------------------------------------------------------------------
  // startDownload.
  // ---------------------------------------------------------------------

  /** One step of Attempts: the attempt at index `i`, and what follows it. */
  lemma AttemptsUnfold(run: AttemptFn, retryMax: int, worlds: nat -> World, files: set<string>, i: nat)
    requires i < retryMax
    ensures StopsRetry(run(worlds(i), files).result.status) ==>
              Attempts(run, retryMax, worlds, files, i) == [run(worlds(i), files)]
    ensures !StopsRetry(run(worlds(i), files).result.status) ==>
              Attempts(run, retryMax, worlds, files, i)
              == [run(worlds(i), files)] + Attempts(run, retryMax, worlds, FilesAfter(files, run(worlds(i), files)), i + 1)
  {
  }

  /** One turn of the retry loop: the attempt just made is the next one
      Attempts lists. */
  lemma LoopStep(run: AttemptFn, retryMax: int, worlds: nat -> World, total: seq<Attempt>,
                 current: set<string>, i: nat, attempts: seq<Attempt>, a: Attempt)
    requires i < retryMax && a == run(worlds(i), current)
    requires attempts + Attempts(run, retryMax, worlds, current, i) == total
    ensures StopsRetry(a.result.status) ==> attempts + [a] == total
    ensures !StopsRetry(a.result.status) ==>
              (attempts + [a]) + Attempts(run, retryMax, worlds, FilesAfter(current, a), i + 1) == total
  {
    AttemptsUnfold(run, retryMax, worlds, current, i);
    var now := Attempts(run, retryMax, worlds, current, i);
    if StopsRetry(a.result.status) {
      assert now == [a];
    } else {
      var rest := Attempts(run, retryMax, worlds, FilesAfter(current, a), i + 1);
      assert now == [a] + rest;
      assert attempts + ([a] + rest) == (attempts + [a]) + rest;
    }
  }

  /** The retry loop of startDownload. */
  method RetryLoop(cfg: Config, req: Request, worlds: nat -> World, files: set<string>)
    returns (status: StatusResult, attempts: seq<Attempt>)
    ensures attempts == Attempts(TryDownloadFn(cfg, req), cfg.downloadRetryMax, worlds, files, 0)
    ensures status == FinalStatus(attempts)
  {
    ghost var run := TryDownloadFn(cfg, req);
    status := MakeStatus(Failed, []);
    attempts := [];
    var current := files;
    var i: nat := 0;
    while i < cfg.downloadRetryMax
      invariant |attempts| == i
      invariant attempts + Attempts(run, cfg.downloadRetryMax, worlds, current, i)
                == Attempts(run, cfg.downloadRetryMax, worlds, files, 0)
      invariant status == FinalStatus(attempts)
      decreases cfg.downloadRetryMax - i
    {
      var a := TryDownload(cfg, req, worlds(i), current);
      LoopStep(run, cfg.downloadRetryMax, worlds, Attempts(run, cfg.downloadRetryMax, worlds, files, 0),
               current, i, attempts, a);
      attempts := attempts + [a];
      status := a.result;
      if StopsRetry(a.result.status) {
        break;
      }
      current := FilesAfter(current, a);
      i := i + 1;
    }
  }

  /** startDownload: the retry loop over the attempts' worlds, then the failure
      report and the link log. `canSend` says whether the bot may post in the
      channel. */
  method StartDownload(cfg: Config, req: Request, worlds: nat -> World, files: set<string>, canSend: bool, env: LogEnv)
    returns (status: StatusResult, attempts: seq<Attempt>, report: Report, logged: Option<LogWrite>)
    ensures attempts == Attempts(TryDownloadFn(cfg, req), cfg.downloadRetryMax, worlds, files, 0)
    ensures status == FinalStatus(attempts)
    ensures report == FailureReport(cfg, req, status, canSend)
    ensures logged == LinkLog(cfg, req, status.status, env)
  {
    status, attempts := RetryLoop(cfg, req, worlds, files);
    report := FailureReport(cfg, req, status, canSend);
    logged := LinkLog(cfg, req, status.status, env);
  }
}
