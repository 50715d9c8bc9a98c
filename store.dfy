/**
 * The verification record store: an append-only table of verification rows
 * with AUTOINCREMENT ids, and a settings table keyed by guild holding the
 * log channel id and the verbose flag. The SQLite engine is replaced by the
 * in-memory contents of the two tables.
 */
module Store {
  import opened Wrappers
  import opened Records
  import opened Ordering

  /** A settings row; `verboseLogging` is the stored integer (the column default is 0). */
  datatype SettingsRow = SettingsRow(logChannelId: Option<string>, verboseLogging: int)

  const VerboseDefault := 0
  const DefaultLimit := 100

  class VerificationDatabase {
    var rows: seq<VerificationLog>
    var settings: map<string, SettingsRow>
    /** The next AUTOINCREMENT id; ids start at 1 and are never handed out twice. */
    var nextId: nat

    ghost predicate Valid()
      reads this
    {
      && 1 <= nextId
      && (forall i :: 0 <= i < |rows| ==> rows[i].id.Some? && 1 <= rows[i].id.value < nextId)
      && (forall i, j :: 0 <= i < j < |rows| ==> rows[i].id.value < rows[j].id.value)
    }

    constructor ()
      ensures Valid()
      ensures rows == [] && settings == map[] && nextId == 1
    {
      rows := [];
      settings := map[];
      nextId := 1;
    }

    /**
     * Inserts one row holding the given fields, with a fresh id and with an
     * absent or empty `additionalData` stored as NULL; returns the new id.
     */
    method LogVerification(verification: VerificationLog) returns (id: nat)
      requires Valid()
      modifies this
      ensures Valid()
      ensures forall i :: 0 <= i < |old(rows)| ==> old(rows)[i].id.value < id
      ensures id < nextId
      ensures rows == old(rows) + [verification.(id := Some(id), additionalData := NullIfEmpty(verification.additionalData))]
      ensures nextId == old(nextId) + 1 && settings == old(settings)
    {
      id := nextId;
      rows := rows + [verification.(id := Some(id), additionalData := NullIfEmpty(verification.additionalData))];
      nextId := nextId + 1;
    }

    /** The guild's rows, newest first, at most `limit` of them (a negative limit means all). */
    method GetVerificationLogs(guildId: string, limit: int := DefaultLimit) returns (logs: seq<VerificationLog>)
      ensures IsQueryResult(rows, guildId, limit, logs)
    {
      logs := Query(rows, guildId, limit);
      QueryIsAdmissible(rows, guildId, limit);
    }

    /**
     * `INSERT OR REPLACE INTO settings (guild_id, log_channel_id)`: the whole
     * row is replaced, so the verbose flag goes back to its default.
     */
    method SetLogChannel(guildId: string, channelId: string)
      requires Valid()
      modifies this
      ensures Valid()
      ensures settings == old(settings)[guildId := SettingsRow(Some(channelId), VerboseDefault)]
      ensures rows == old(rows) && nextId == old(nextId)
      ensures GetLogChannel(guildId) == (if channelId == "" then None else Some(channelId))
      ensures !IsVerboseLogging(guildId)
      ensures forall g :: g != guildId ==>
                GetLogChannel(g) == old(GetLogChannel(g)) && IsVerboseLogging(g) == old(IsVerboseLogging(g))
    {
      settings := settings[guildId := SettingsRow(Some(channelId), VerboseDefault)];
    }

    /** The configured channel id; an unknown guild, NULL or the empty string read as None. */
    function GetLogChannel(guildId: string): (channel: Option<string>)
      reads this
      ensures channel.Some? ==> channel.value != ""
      ensures guildId !in settings ==> channel == None
      ensures guildId in settings && Truthy(settings[guildId].logChannelId) ==> channel == settings[guildId].logChannelId
      ensures guildId in settings && !Truthy(settings[guildId].logChannelId) ==> channel == None
    {
      if guildId in settings then NullIfEmpty(settings[guildId].logChannelId) else None
    }

    /**
     * `INSERT OR REPLACE INTO settings (guild_id, verbose_logging)`: the whole
     * row is replaced, so the log channel is cleared.
     */
    method SetVerboseLogging(guildId: string, enabled: bool)
      requires Valid()
      modifies this
      ensures Valid()
      ensures settings == old(settings)[guildId := SettingsRow(None, if enabled then 1 else 0)]
      ensures rows == old(rows) && nextId == old(nextId)
      ensures IsVerboseLogging(guildId) == enabled
      ensures GetLogChannel(guildId) == None
      ensures forall g :: g != guildId ==>
                GetLogChannel(g) == old(GetLogChannel(g)) && IsVerboseLogging(g) == old(IsVerboseLogging(g))
    {
      settings := settings[guildId := SettingsRow(None, if enabled then 1 else 0)];
    }

    /** Verbose only when the guild has a row whose flag is exactly 1. */
    function IsVerboseLogging(guildId: string): (verbose: bool)
      reads this
      ensures guildId !in settings ==> !verbose
      ensures verbose ==> settings[guildId].verboseLogging == 1
      ensures guildId in settings && settings[guildId].verboseLogging == 1 ==> verbose
    {
      guildId in settings && settings[guildId].verboseLogging == 1
    }
  }

  /**
   * The two settings writers clobber each other: after enabling verbose
   * logging and then setting a channel, verbose logging is off again; after
   * setting a channel and then verbose logging, no channel is configured.
   */
  method SettingsWritesReplaceRow(guildId: string, channelId: string, enabled: bool)
    returns (verboseAfterChannel: bool, channelAfterVerbose: Option<string>)
    ensures !verboseAfterChannel
    ensures channelAfterVerbose == None
  {
    var db := new VerificationDatabase();
    db.SetVerboseLogging(guildId, enabled);
    db.SetLogChannel(guildId, channelId);
    verboseAfterChannel := db.IsVerboseLogging(guildId);
    db.SetVerboseLogging(guildId, enabled);
    channelAfterVerbose := db.GetLogChannel(guildId);
  }
}
