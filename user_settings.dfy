/**
 * The two user preferences of the container and their persisted copy.
 * Persisted storage is a map from setting key to the boolean last stored
 * for it; a key that is absent has never been stored.
 */
module UserSettings {

  /** The keys of `SettingType`. */
  datatype SettingType = IsAsync | IsHd

  datatype Settings = Settings(isAsync: bool, isHd: bool)

  type Storage = map<SettingType, bool>

  /** `defaultSettings`: both preferences off. */
  const Defaults := Settings(false, false)

  /** The value of one preference. */
  function Get(s: Settings, key: SettingType): bool
  {
    match key
    case IsAsync => s.isAsync
    case IsHd => s.isHd
  }

  /** `settings[key] = value`: only that preference changes. */
  function With(s: Settings, key: SettingType, value: bool): (r: Settings)
    ensures Get(r, key) == value
    ensures forall k :: k != key ==> Get(r, k) == Get(s, k)
  {
    match key
    case IsAsync => s.(isAsync := value)
    case IsHd => s.(isHd := value)
  }

  /** `loadSettings`: every preference is the stored value when its key is
      present, and the default otherwise. */
  function Load(storage: Storage): (r: Settings)
    ensures forall k :: Get(r, k) == if k in storage then storage[k] else Get(Defaults, k)
  {
    Settings(
      if IsAsync in storage then storage[IsAsync] else Defaults.isAsync,
      if IsHd in storage then storage[IsHd] else Defaults.isHd)
  }

  /** Nothing stored: both preferences are the defaults. */
  lemma LoadEmpty()
    ensures Load(map[]) == Defaults
  {
  }

  /** Writing a preference through to storage keeps memory and storage in
      agreement: when the in-memory settings are what storage loads to,
      they still are after `setSetting`. */
  lemma StoreKeepsAgreement(storage: Storage, s: Settings, key: SettingType, value: bool)
    requires Load(storage) == s
    ensures Load(storage[key := value]) == With(s, key, value)
  {
  }
}
