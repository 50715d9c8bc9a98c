/** The verification record shared by the store, the commands and the logger. */
module Records {
  import opened Wrappers

  /**
   * One verification. `id` is absent on a record that has not been stored
   * yet and is assigned by the store; `additionalData` holds the notes of a
   * verbose entry.
   */
  datatype VerificationLog = VerificationLog(
    id: Option<nat>,
    verifiedUserId: string,
    verifiedUserDisplayName: string,
    verifierUserId: string,
    verifierUsername: string,
    timestamp: string,
    guildId: string,
    additionalData: Option<string>)

  /** JavaScript truthiness of an optional string: present and not empty. */
  predicate Truthy(s: Option<string>)
  {
    s.Some? && s.value != ""
  }

  /** `s || null`: an absent or empty string becomes SQL NULL. */
  function NullIfEmpty(s: Option<string>): Option<string>
  {
    if Truthy(s) then s else None
  }
}
