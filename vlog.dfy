/**
 * The `vlog` command: three guards (used in a guild, mod role configured,
 * invoker holds the mod role), then a dispatch on the subcommand to
 * `update`, `view` or `stats`. Replies are values; the embeds are reduced
 * to the data they show.
 */
module VlogCommand {
  import opened Wrappers
  import opened Records
  import opened Text
  import opened Ordering
  import opened Store
  import opened Listing
  import opened Stats
  import opened Logger

  const ViewDefaultLimit := 10

  /**
   * The longest embed description discord.js accepts; a longer listing makes
   * the reply reject, and the command's outer catch answers with `Failed`.
   */
  const DescriptionLimit := 4096

  /** The interaction as the command sees it. */
  datatype Invocation = Invocation(
    inGuild: bool,
    guildId: string,
    invokerRoles: set<string>,
    subcommand: string,
    limit: Option<int>)

  /**
   * What the command takes from its environment: the current time in
   * milliseconds and as locale text, how a stored timestamp parses to
   * milliseconds (None when it does not parse), and how it renders.
   */
  datatype Clock = Clock(
    now: int,
    nowText: string,
    instant: string -> Option<int>,
    localeTime: string -> string)

  datatype VlogReply =
    | GuildOnly
    | MissingModRole
    | NotModerator
    | UnknownSubcommand
    | NoLogChannel
    | LogUpdated
    | NoLogs
    | LogList(count: nat, text: string)
    | NoStats
    | StatsReport(stats: Stats)
    | Failed

  /** `getInteger('limit') || 10`: an absent or zero option means 10. */
  function ViewLimit(limit: Option<int>): (n: int)
    ensures limit.None? || limit.value == 0 ==> n == ViewDefaultLimit
    ensures limit.Some? && limit.value != 0 ==> n == limit.value
    ensures n != 0
  {
    if limit.None? || limit.value == 0 then ViewDefaultLimit else limit.value
  }

  /** All three guards pass. */
  predicate Authorized(inv: Invocation, modRoleId: Option<string>)
  {
    inv.inGuild && Truthy(modRoleId) && modRoleId.value in inv.invokerRoles
  }

  /** The `forEach` that appends one numbered line per row to the reply text. */
  method RenderListing(logs: seq<VerificationLog>, localeTime: string -> string) returns (text: string)
    ensures text == Concat(Lines(logs, localeTime))
  {
    var lines := Lines(logs, localeTime);
    text := "";
    var i := 0;
    while i < |logs|
      invariant 0 <= i <= |logs|
      invariant text == "" + Concat(lines[..i])
    {
      ConcatPrefixStep("", lines, i);
      text := text + lines[i];
      i := i + 1;
    }
    assert lines[..|logs|] == lines;
  }

  /**
   * `view`: the guild's most recent rows, one numbered line each, in store
   * order. A listing longer than the embed allows ends in the generic error.
   */
  method HandleView(db: VerificationDatabase, guildId: string, limit: Option<int>, localeTime: string -> string)
    returns (reply: VlogReply, ghost shown: seq<VerificationLog>)
    ensures IsQueryResult(db.rows, guildId, ViewLimit(limit), shown)
    ensures shown == [] ==> reply == NoLogs
    ensures shown != [] && |Concat(Lines(shown, localeTime))| <= DescriptionLimit ==>
              reply == LogList(|shown|, Concat(Lines(shown, localeTime)))
    ensures shown != [] && |Concat(Lines(shown, localeTime))| > DescriptionLimit ==> reply == Failed
    ensures reply.NoLogs? <==> Scoped(db.rows, guildId) == []
    ensures reply.LogList? ==> reply.count == Cap(ViewLimit(limit), |Scoped(db.rows, guildId)|)
  {
    var logs := db.GetVerificationLogs(guildId, ViewLimit(limit));
    shown := logs;
    assert |logs| == 0 <==> Scoped(db.rows, guildId) == [];
    if |logs| == 0 {
      return NoLogs, shown;
    }
    var text := RenderListing(logs, localeTime);
    if |text| > DescriptionLimit {
      return Failed, shown;
    }
    reply := LogList(|logs|, text);
  }

  /**
   * `stats`: the statistics of the guild's 1000 most recent rows, or the
   * no-data reply when the guild has none. The reported first verification
   * is the oldest row of that window.
   */
  method HandleStats(db: VerificationDatabase, guildId: string, clock: Clock)
    returns (reply: VlogReply, ghost window: seq<VerificationLog>)
    ensures IsQueryResult(db.rows, guildId, StatsWindow, window)
    ensures window == [] <==> reply == NoStats
    ensures window != [] ==> reply == StatsReport(Aggregate(window, clock.now, clock.instant).value)
    ensures reply.StatsReport? ==> reply.stats.total == Cap(StatsWindow, |Scoped(db.rows, guildId)|)
    ensures reply.StatsReport? ==>
              forall x :: x in window ==> TextLe(reply.stats.firstVerification.value, x.timestamp)
  {
    var logs := db.GetVerificationLogs(guildId, StatsWindow);
    window := logs;
    if |logs| == 0 {
      return NoStats, window;
    }
    FirstVerificationIsOldest(logs, clock.now, clock.instant);
    reply := StatsReport(Aggregate(logs, clock.now, clock.instant).value);
  }

  /**
   * `update`: without a configured channel, says so; otherwise posts a
   * summary and reports success, also when the post went nowhere, because
   * the logger swallows its own failures. `shown` is the answer the store
   * gave for the summary.
   */
  method HandleUpdate(db: VerificationDatabase, guildId: string, channels: map<string, Channel>,
                      clock: Clock, sendOk: bool)
    returns (reply: VlogReply, ghost shown: seq<VerificationLog>)
    modifies channels.Values
    ensures db.GetLogChannel(guildId).None? ==> reply == NoLogChannel
    ensures db.GetLogChannel(guildId).Some? ==> reply == LogUpdated
    ensures Destination(db, guildId, channels).Some? ==> IsQueryResult(db.rows, guildId, SummaryLimit, shown)
    ensures |shown| <= SummaryLimit
    ensures forall c :: c in channels.Values ==>
              c.posts == if Destination(db, guildId, channels) == Some(c) && sendOk
                         then old(c.posts) + [SummaryPost(Summary(shown, clock.localeTime, clock.nowText))]
                         else old(c.posts)
  {
    shown := [];
    var channelId := db.GetLogChannel(guildId);
    if channelId.None? {
      return NoLogChannel, shown;
    }
    shown := UpdateChannelLog(db, guildId, channels, clock.localeTime, clock.nowText, sendOk);
    reply := LogUpdated;
  }

  /**
   * The guards in order, then the dispatch to the handler of the
   * subcommand; `shown` is the store's answer the handler used.
   */
  method Execute(db: VerificationDatabase, inv: Invocation, modRoleId: Option<string>,
                 channels: map<string, Channel>, clock: Clock, sendOk: bool)
    returns (reply: VlogReply, ghost shown: seq<VerificationLog>)
    modifies channels.Values
    ensures !inv.inGuild ==> reply == GuildOnly
    ensures inv.inGuild && !Truthy(modRoleId) ==> reply == MissingModRole
    ensures inv.inGuild && Truthy(modRoleId) && modRoleId.value !in inv.invokerRoles ==> reply == NotModerator
    ensures Authorized(inv, modRoleId) && inv.subcommand !in {"update", "view", "stats"} ==> reply == UnknownSubcommand
    ensures Authorized(inv, modRoleId) && inv.subcommand == "update" ==>
              && (db.GetLogChannel(inv.guildId).None? ==> reply == NoLogChannel)
              && (db.GetLogChannel(inv.guildId).Some? ==> reply == LogUpdated)
              && (Destination(db, inv.guildId, channels).Some? ==>
                    IsQueryResult(db.rows, inv.guildId, SummaryLimit, shown))
              && |shown| <= SummaryLimit
              && forall c :: c in channels.Values ==>
                   c.posts == if Destination(db, inv.guildId, channels) == Some(c) && sendOk
                              then old(c.posts) + [SummaryPost(Summary(shown, clock.localeTime, clock.nowText))]
                              else old(c.posts)
    ensures Authorized(inv, modRoleId) && inv.subcommand == "view" ==>
              && IsQueryResult(db.rows, inv.guildId, ViewLimit(inv.limit), shown)
              && (shown == [] ==> reply == NoLogs)
              && (shown != [] && |Concat(Lines(shown, clock.localeTime))| <= DescriptionLimit ==>
                    reply == LogList(|shown|, Concat(Lines(shown, clock.localeTime))))
              && (shown != [] && |Concat(Lines(shown, clock.localeTime))| > DescriptionLimit ==> reply == Failed)
    ensures Authorized(inv, modRoleId) && inv.subcommand == "stats" ==>
              && IsQueryResult(db.rows, inv.guildId, StatsWindow, shown)
              && (shown == [] <==> reply == NoStats)
              && (shown != [] ==> reply == StatsReport(Aggregate(shown, clock.now, clock.instant).value))
    ensures !(Authorized(inv, modRoleId) && inv.subcommand == "update") ==>
              forall c :: c in channels.Values ==> c.posts == old(c.posts)
  {
    shown := [];
    if !inv.inGuild {
      return GuildOnly, shown;
    }
    if !Truthy(modRoleId) {
      return MissingModRole, shown;
    }
    if modRoleId.value !in inv.invokerRoles {
      return NotModerator, shown;
    }
    match inv.subcommand {
      case "update" =>
        reply, shown := HandleUpdate(db, inv.guildId, channels, clock, sendOk);
      case "view" =>
        reply, shown := HandleView(db, inv.guildId, inv.limit, clock.localeTime);
      case "stats" =>
        reply, shown := HandleStats(db, inv.guildId, clock);
      case _ =>
        reply := UnknownSubcommand;
    }
  }
}
