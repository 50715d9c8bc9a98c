/**
 * The three logging sinks: the announcement posted for one verification,
 * the summary of the guild's recent rows posted to the log channel, and the
 * line appended to the day's audit file. Each catches its own failures:
 * a channel the guild does not have, a failed send or a failed file write
 * leaves things as they were and never reaches the caller.
 */
module Logger {
  import opened Wrappers
  import opened Records
  import opened Text
  import opened Ordering
  import opened Store
  import opened Listing

  const FilePrefix := "verifications-"
  const FileSuffix := ".log"
  const AdditionalTag := " | Additional: "
  const SummaryLimit := 20
  const SummaryHeader := "**\U{1F4CB} Recent Verification Log**\n\n"
  const EmptyPlaceholder := "*No verifications recorded yet.*"

  /** The day's audit file: `verifications-` + the ISO timestamp up to its `T` + `.log`. */
  function DailyFileName(isoNow: string): (name: string)
    ensures |name| >= |FilePrefix| + |FileSuffix|
    ensures name[..|FilePrefix|] == FilePrefix
    ensures name[|name| - |FileSuffix|..] == FileSuffix
    ensures var date := name[|FilePrefix|..|name| - |FileSuffix|];
            && date <= isoNow
            && 'T' !in date
            && (|date| < |isoNow| ==> isoNow[|date|] == 'T')
  {
    var date := BeforeFirst(isoNow, 'T');
    var name := FilePrefix + date + FileSuffix;
    assert name[|FilePrefix|..|name| - |FileSuffix|] == date;
    name
  }

  /** `[<timestamp>] VERIFICATION: <name> (<id>) verified by <verifier> (<verifier id>)` */
  function AuditPrefix(v: VerificationLog): string
  {
    "[" + v.timestamp + "] " + "VERIFICATION: " + v.verifiedUserDisplayName + " (" + v.verifiedUserId + ") "
      + "verified by " + v.verifierUsername + " (" + v.verifierUserId + ")"
  }

  /**
   * The audit entry: the prefix, the notes only when the guild is verbose
   * and the notes are non-empty, and exactly one newline.
   */
  function AuditEntry(v: VerificationLog, verbose: bool): (entry: string)
    ensures AuditPrefix(v) <= entry
    ensures |entry| > |AuditPrefix(v)| && entry[|entry| - 1] == '\n'
    ensures |entry| == |AuditPrefix(v)| + 1 <==> !(verbose && Truthy(v.additionalData))
    ensures verbose && Truthy(v.additionalData) ==>
              entry[|AuditPrefix(v)|..] == AdditionalTag + v.additionalData.value + "\n"
  {
    var line := if verbose && Truthy(v.additionalData)
                then AuditPrefix(v) + AdditionalTag + v.additionalData.value
                else AuditPrefix(v);
    line + "\n"
  }

  /** Reads the notes back from an entry that starts with `prefix`. */
  function NotesOf(prefix: string, entry: string): Option<string>
  {
    if |entry| > |prefix| + |AdditionalTag| + 1
       && entry[|prefix|..|prefix| + |AdditionalTag|] == AdditionalTag
    then Some(entry[|prefix| + |AdditionalTag|..|entry| - 1])
    else None
  }

  /** The notes survive in the audit entry exactly when the guild is verbose, and only then. */
  lemma AuditNotesRoundTrip(v: VerificationLog, verbose: bool)
    ensures NotesOf(AuditPrefix(v), AuditEntry(v, verbose)) ==
            (if verbose then NullIfEmpty(v.additionalData) else None)
  {
  }

  /**
   * The text of the summary post: the header, then the placeholder when
   * there are no rows and the numbered listing otherwise, then the line
   * giving the time of the update.
   */
  function Summary(logs: seq<VerificationLog>, localeTime: string -> string, nowText: string): (text: string)
    ensures SummaryHeader <= text
    ensures |text| >= |LastUpdated(nowText)| && text[|text| - |LastUpdated(nowText)|..] == LastUpdated(nowText)
    ensures logs == [] ==> text == SummaryHeader + EmptyPlaceholder + LastUpdated(nowText)
  {
    var body := if logs == [] then EmptyPlaceholder else Concat(Lines(logs, localeTime));
    SummaryHeader + body + LastUpdated(nowText)
  }

  function LastUpdated(nowText: string): string
  {
    "\n*Last updated: " + nowText + "*"
  }

  /** Builds the summary text as the source does, appending one line per row. */
  method BuildSummary(logs: seq<VerificationLog>, localeTime: string -> string, nowText: string) returns (text: string)
    ensures text == Summary(logs, localeTime, nowText)
  {
    text := SummaryHeader;
    if |logs| == 0 {
      text := text + EmptyPlaceholder;
    } else {
      var lines := Lines(logs, localeTime);
      var i := 0;
      while i < |logs|
        invariant 0 <= i <= |logs|
        invariant text == SummaryHeader + Concat(lines[..i])
      {
        ConcatPrefixStep(SummaryHeader, lines, i);
        text := text + lines[i];
        i := i + 1;
      }
      assert lines[..|logs|] == lines;
    }
    text := text + LastUpdated(nowText);
  }

  datatype Post =
    | Announcement(verifiedUser: string, verifiedBy: string, timestamp: string)
    | SummaryPost(description: string)

  /** A channel of the guild and the messages posted to it. */
  class Channel {
    const textBased: bool
    var posts: seq<Post>

    constructor (textBased: bool)
      ensures this.textBased == textBased && posts == []
    {
      this.textBased := textBased;
      posts := [];
    }
  }

  /** The audit directory: file name to file contents. */
  class AuditDirectory {
    var files: map<string, string>

    constructor ()
      ensures files == map[]
    {
      files := map[];
    }
  }

  /** The announcement embed's fields for one verification. */
  function AnnouncementOf(v: VerificationLog): Post
  {
    Announcement(
      "<@" + v.verifiedUserId + "> (" + v.verifiedUserDisplayName + ")",
      "<@" + v.verifierUserId + "> (" + v.verifierUsername + ")",
      v.timestamp)
  }

  /**
   * Where the guild's posts go: the configured channel, provided the guild
   * has a channel with that id and it is text-based.
   */
  function Destination(db: VerificationDatabase, guildId: string, channels: map<string, Channel>): Option<Channel>
    reads db
  {
    var id := db.GetLogChannel(guildId);
    if id.Some? && id.value in channels && channels[id.value].textBased then Some(channels[id.value]) else None
  }

  /** Posts the announcement to the log channel; does nothing when there is no usable channel or the send fails. */
  method LogToChannel(db: VerificationDatabase, guildId: string, channels: map<string, Channel>,
                      verification: VerificationLog, sendOk: bool)
    modifies channels.Values
    ensures forall c :: c in channels.Values ==>
              c.posts == if Destination(db, guildId, channels) == Some(c) && sendOk
                         then old(c.posts) + [AnnouncementOf(verification)]
                         else old(c.posts)
  {
    var channelId := db.GetLogChannel(guildId);
    if channelId.None? {
      return;
    }
    // Fetching an id the guild does not have throws; the error is caught.
    if channelId.value !in channels {
      return;
    }
    var channel := channels[channelId.value];
    if !channel.textBased {
      return;
    }
    if sendOk {
      channel.posts := channel.posts + [AnnouncementOf(verification)];
    }
  }

  /**
   * Posts a fresh summary of the guild's 20 most recent rows to the log
   * channel; does nothing when there is no usable channel or the send fails.
   * `shown` is the answer the store gave.
   */
  method UpdateChannelLog(db: VerificationDatabase, guildId: string, channels: map<string, Channel>,
                          localeTime: string -> string, nowText: string, sendOk: bool)
    returns (ghost shown: seq<VerificationLog>)
    modifies channels.Values
    ensures Destination(db, guildId, channels).Some? ==> IsQueryResult(db.rows, guildId, SummaryLimit, shown)
    ensures |shown| <= SummaryLimit
    ensures forall c :: c in channels.Values ==>
              c.posts == if Destination(db, guildId, channels) == Some(c) && sendOk
                         then old(c.posts) + [SummaryPost(Summary(shown, localeTime, nowText))]
                         else old(c.posts)
  {
    shown := [];
    var channelId := db.GetLogChannel(guildId);
    if channelId.None? {
      return;
    }
    if channelId.value !in channels {
      return;
    }
    var channel := channels[channelId.value];
    if !channel.textBased {
      return;
    }
    var logs := db.GetVerificationLogs(guildId, SummaryLimit);
    shown := logs;
    var text := BuildSummary(logs, localeTime, nowText);
    if sendOk {
      channel.posts := channel.posts + [SummaryPost(text)];
    }
  }

  /**
   * Appends the audit entry to the file of the day given by `isoNow`; the
   * verbose flag is that of the record's own guild. A failed write changes nothing.
   */
  method LogToServerFile(dir: AuditDirectory, db: VerificationDatabase, verification: VerificationLog,
                         isoNow: string, writeOk: bool)
    modifies dir
    ensures var name := DailyFileName(isoNow);
            var before := if name in old(dir.files) then old(dir.files)[name] else "";
            dir.files == if writeOk
                         then old(dir.files)[name := before + AuditEntry(verification, db.IsVerboseLogging(verification.guildId))]
                         else old(dir.files)
  {
    var name := DailyFileName(isoNow);
    var verbose := db.IsVerboseLogging(verification.guildId);
    var entry := AuditEntry(verification, verbose);
    if writeOk {
      var before := if name in dir.files then dir.files[name] else "";
      dir.files := dir.files[name := before + entry];
    }
  }
}
