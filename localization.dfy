/**
 * The localization overrides of UIBuddy (LocalizationPatch).
 *
 * Three Harmony prefixes sit in front of the game's `Localization.Get` (by
 * asset guid and by localization key) and `Localization.HasKey`. Each one asks
 * the mod's override table (LocalizationManager) whether it knows the key; if
 * it does, the prefix writes the override into `__result` and returns false,
 * which makes Harmony skip the game's own method. Otherwise it returns true and
 * leaves `__result` alone, so the game's method runs as if unpatched.
 *
 * A prefix is modelled as a function from the table, the key and the incoming
 * `__result` to the pair (run the original?, `__result` afterwards).
 */
module Localization {

  /** The game's 128-bit asset identifier (Stunlock.Core.AssetGuid), compared by value. */
  datatype AssetGuid = AssetGuid(bits: bv128)

  /** The game's localization key (Stunlock.Localization.LocalizationKey), compared by value. */
  datatype LocalizationKey = LocalizationKey(key: AssetGuid)

  /**
   * The mod's override table (LocalizationManager). Its two lookups, by guid and
   * by key, are kept as two separate finite maps: the manager's internals are not
   * part of this model, so no relation between the two is assumed.
   */
  datatype OverrideTable = OverrideTable(byGuid: map<AssetGuid, string>, byKey: map<LocalizationKey, string>)

  /** What a Harmony prefix hands back: whether the original method runs, and `__result` as the prefix leaves it. */
  datatype PrefixOutcome<T> = PrefixOutcome(runOriginal: bool, result: T)

  // LocalizationManager.HasKey / GetKey, the only calls the prefixes make.

  predicate HasGuid(table: OverrideTable, guid: AssetGuid) { guid in table.byGuid }

  function GuidText(table: OverrideTable, guid: AssetGuid): string
    requires HasGuid(table, guid)
  {
    table.byGuid[guid]
  }

  predicate HasLocalizationKey(table: OverrideTable, key: LocalizationKey) { key in table.byKey }

  function KeyText(table: OverrideTable, key: LocalizationKey): string
    requires HasLocalizationKey(table, key)
  {
    table.byKey[key]
  }

  /** The prefix of `Localization.Get(AssetGuid, bool)`. */
  function GetByGuid(table: OverrideTable, guid: AssetGuid, result: string): (r: PrefixOutcome<string>)
    ensures r.runOriginal <==> guid !in table.byGuid
    ensures r.runOriginal ==> r.result == result
    ensures !r.runOriginal ==> r.result == table.byGuid[guid]
  {
    if !HasGuid(table, guid) then PrefixOutcome(true, result)
    else PrefixOutcome(false, GuidText(table, guid))
  }

  /** The prefix of `Localization.Get(LocalizationKey, bool)`. */
  function GetByKey(table: OverrideTable, key: LocalizationKey, result: string): (r: PrefixOutcome<string>)
    ensures r.runOriginal <==> key !in table.byKey
    ensures r.runOriginal ==> r.result == result
    ensures !r.runOriginal ==> r.result == table.byKey[key]
  {
    if !HasLocalizationKey(table, key) then PrefixOutcome(true, result)
    else PrefixOutcome(false, KeyText(table, key))
  }

  /** The prefix of `Localization.HasKey(AssetGuid)`: it can only turn the answer to true, never to false. */
  function HasKey(table: OverrideTable, guid: AssetGuid, result: bool): (r: PrefixOutcome<bool>)
    ensures r.runOriginal <==> guid !in table.byGuid
    ensures r.result == (result || guid in table.byGuid)
    ensures result ==> r.result
  {
    if !HasGuid(table, guid) then PrefixOutcome(true, result)
    else PrefixOutcome(false, true)
  }

  /**
   * What Harmony does with a prefix's outcome: when the prefix asks for the
   * original, the original's return value becomes the call's result; otherwise
   * the prefix's `__result` is returned.
   */
  function Invoke<T>(prefix: PrefixOutcome<T>, original: T): T
  {
    if prefix.runOriginal then original else prefix.result
  }

  // The patched methods as the game's callers see them. The game's own
  // methods are parameters: their code is not part of this model.

  function PatchedGetByGuid(table: OverrideTable, original: (AssetGuid, bool) -> string,
                            guid: AssetGuid, flag: bool, result: string): string
  {
    Invoke(GetByGuid(table, guid, result), original(guid, flag))
  }

  function PatchedGetByKey(table: OverrideTable, original: (LocalizationKey, bool) -> string,
                           key: LocalizationKey, flag: bool, result: string): string
  {
    Invoke(GetByKey(table, key, result), original(key, flag))
  }

  function PatchedHasKey(table: OverrideTable, original: AssetGuid -> bool, guid: AssetGuid, result: bool): bool
  {
    Invoke(HasKey(table, guid, result), original(guid))
  }

  /** Patched `Get` by guid is the game's lookup overlaid by the override table. */
  lemma PatchedGetByGuidIsOverlay(table: OverrideTable, original: (AssetGuid, bool) -> string,
                                  guid: AssetGuid, flag: bool, result: string)
    ensures PatchedGetByGuid(table, original, guid, flag, result)
         == if guid in table.byGuid then table.byGuid[guid] else original(guid, flag)
  {
  }

  /** Patched `Get` by key is the game's lookup overlaid by the override table. */
  lemma PatchedGetByKeyIsOverlay(table: OverrideTable, original: (LocalizationKey, bool) -> string,
                                 key: LocalizationKey, flag: bool, result: string)
    ensures PatchedGetByKey(table, original, key, flag, result)
         == if key in table.byKey then table.byKey[key] else original(key, flag)
  {
  }

  /** Patched `HasKey` answers true exactly for the overridden guids and those the game itself knows. */
  lemma PatchedHasKeyIsUnion(table: OverrideTable, original: AssetGuid -> bool, guid: AssetGuid, result: bool)
    ensures PatchedHasKey(table, original, guid, result) == (guid in table.byGuid || original(guid))
  {
  }

  /** Called from the default `__result` (false), patched `HasKey` is the overridden guids together with the game's answer. */
  lemma PatchedHasKeyFromDefault(table: OverrideTable, original: AssetGuid -> bool, guid: AssetGuid)
    ensures PatchedHasKey(table, original, guid, false) == (guid in table.byGuid || original(guid))
  {
  }

  /**
   * `Get` by guid and `HasKey` both ask the same table question, so they override
   * the same guids; and a guid whose text is overridden is reported as present.
   */
  lemma GetAndHasKeyAgree(table: OverrideTable, guid: AssetGuid, text: string, present: bool)
    ensures GetByGuid(table, guid, text).runOriginal == HasKey(table, guid, present).runOriginal
    ensures !GetByGuid(table, guid, text).runOriginal ==> HasKey(table, guid, present).result
  {
  }
}
