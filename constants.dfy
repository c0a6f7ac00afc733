/** The application constants the modelled core depends on (constants/index.ts). */
module Constants {

  /** Generations a freshly signed-in user may run (MAX_FREE_QUOTA). */
  const MaxFreeQuota: int := 10

  /** The AsyncStorage keys of STORAGE_KEYS. */
  const UserKey: string := "zyora:user"
  const LooksCountKey: string := "zyora:looks:count"
  const SavedLooksKey: string := "zyora:saved_looks"
  const DevModeKey: string := "zyora:dev_mode"

  /** Object.values(STORAGE_KEYS): every key the app owns. */
  const StorageKeys: set<string> := {UserKey, LooksCountKey, SavedLooksKey, DevModeKey}
}
