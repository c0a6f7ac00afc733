/**
 * The session store of store/authStore.ts: one mutable record of session
 * state whose actions rewrite fields and then write through to the storage
 * adapters. Each write is taken to complete atomically, in call order.
 */
module Session {
  import opened Types
  import opened Constants
  import opened Storage

  /** The fields signInWithGoogle takes from the identity provider. */
  datatype ProviderUser = ProviderUser(
    uid: string,
    displayName: Option<string>,
    email: Option<string>,
    photoURL: Option<string>)

  /** What the identity provider's sign-out came to; signOut only logs a failure. */
  datatype ProviderSignOut = ProviderSignedOut | ProviderFailed(message: string)

  /** The character of a decimal digit. */
  function DigitChar(d: nat): (c: char)
    requires d < 10
    ensures '0' <= c <= '9'
    ensures (c as int) - ('0' as int) == d
  {
    (('0' as int) + d) as char
  }

  /** String(n) for a non-negative integer: its decimal digits, no leading zeros. */
  function DecimalString(n: nat): (s: string)
    ensures |s| >= 1
    ensures forall i :: 0 <= i < |s| ==> '0' <= s[i] <= '9'
    ensures s[0] == '0' ==> s == "0"
    decreases n
  {
    if n < 10 then [DigitChar(n)] else DecimalString(n / 10) + [DigitChar(n % 10)]
  }

  /** The number a string of decimal digits denotes. */
  function DecimalValue(s: string): nat
    requires forall i :: 0 <= i < |s| ==> '0' <= s[i] <= '9'
    decreases |s|
  {
    if s == [] then 0
    else DecimalValue(s[..|s| - 1]) * 10 + ((s[|s| - 1] as int) - ('0' as int))
  }

  lemma {:induction false} DecimalRoundTrip(n: nat)
    ensures DecimalValue(DecimalString(n)) == n
    decreases n
  {
    var last := DigitChar(n % 10);
    if n < 10 {
      DecimalValueSnoc([], last);
      assert [] + [last] == DecimalString(n);
    } else {
      DecimalRoundTrip(n / 10);
      DecimalValueSnoc(DecimalString(n / 10), last);
    }
  }

  /** Appending a digit multiplies the value by ten and adds the digit. */
  lemma DecimalValueSnoc(front: string, c: char)
    requires forall i :: 0 <= i < |front| ==> '0' <= front[i] <= '9'
    requires '0' <= c <= '9'
    ensures forall i :: 0 <= i < |front + [c]| ==> '0' <= (front + [c])[i] <= '9'
    ensures DecimalValue(front + [c]) == DecimalValue(front) * 10 + ((c as int) - ('0' as int))
  {
    assert (front + [c])[..|front|] == front;
  }

  /** The developer uid 'dev-user-' + Date.now(). */
  function DeveloperUid(now: nat): (uid: string)
    ensures |uid| > 9 && uid[..9] == "dev-user-"
    ensures forall i :: 9 <= i < |uid| ==> '0' <= uid[i] <= '9'
    ensures DecimalValue(uid[9..]) == now
    ensures uid[9] == '0' ==> uid == "dev-user-0"
  {
    DecimalRoundTrip(now);
    var uid := "dev-user-" + DecimalString(now);
    assert uid[9..] == DecimalString(now);
    uid
  }

  /** Two developer sign-ins at different times get different uids. */
  lemma DeveloperUidInjective(a: nat, b: nat)
    requires a != b
    ensures DeveloperUid(a) != DeveloperUid(b)
  {
  }

  /** The zustand store `useAuthStore`, holding the session's one record. */
  class AuthStore {
    var user: Option<UserProfile>
    var isLoading: bool
    var isDevMode: bool
    var userImg: Option<ImageAsset>
    var fitImg: Option<ImageAsset>
    var savedLooks: seq<SavedLook>

    /** The on-device key-value store the actions write through to. */
    const storage: LocalStorage

    /** Decoding the stored user gives the in-memory user. */
    ghost predicate UserPersisted()
      reads this, storage
    {
      ReadUser(storage.entries) == Ok(user)
    }

    /** The stored flag reads as the in-memory flag. */
    ghost predicate DevModePersisted()
      reads this, storage
    {
      ReadDevMode(storage.entries) == isDevMode
    }

    /** The stored gallery is exactly the first 50 in-memory looks. */
    ghost predicate LooksMirrored()
      reads this, storage
    {
      ReadLooks(storage.entries) == Ok(Take(savedLooks, MaxSavedLooks))
    }

    /** The stored gallery is a prefix of the in-memory one, at most 50 long. */
    ghost predicate LooksPrefixPersisted()
      reads this, storage
    {
      PrefixOfMemory(storage.entries, savedLooks)
    }

    /** The initial state of `create<AuthState>(...)`. */
    constructor (storage: LocalStorage)
      ensures this.storage == storage
      ensures user == None && isLoading && !isDevMode && userImg == None && fitImg == None && savedLooks == []
      ensures storage.entries == map[] ==> UserPersisted() && DevModePersisted() && LooksMirrored()
    {
      this.storage := storage;
      user := None;
      isLoading := true;
      isDevMode := false;
      userImg := None;
      fitImg := None;
      savedLooks := [];
    }

    /** setUser: a profile is saved, null removes the stored one. */
    method SetUser(newUser: Option<UserProfile>)
      modifies this`user, storage
      ensures user == newUser
      ensures storage.entries == match newUser
                                 case Some(u) => old(storage.entries)[UserKey := ProfileJson(u)]
                                 case None => old(storage.entries) - {UserKey}
      ensures UserPersisted()
    {
      user := newUser;
      if newUser.Some? {
        storage.SaveUser(newUser.value);
      } else {
        storage.RemoveUser();
      }
    }

    /** setLoading */
    method SetLoading(loading: bool)
      modifies this`isLoading
      ensures isLoading == loading
    {
      isLoading := loading;
    }

    /** setDevMode */
    method SetDevMode(enabled: bool)
      modifies this`isDevMode, storage
      ensures isDevMode == enabled
      ensures storage.entries == old(storage.entries)[DevModeKey := EncodeDevMode(enabled)]
      ensures DevModePersisted()
    {
      isDevMode := enabled;
      storage.SetDevModeEnabled(enabled);
    }

    /** setUserImg: memory only. */
    method SetUserImg(img: Option<ImageAsset>)
      modifies this`userImg
      ensures userImg == img
    {
      userImg := img;
    }

    /** setFitImg: memory only. */
    method SetFitImg(img: Option<ImageAsset>)
      modifies this`fitImg
      ensures fitImg == img
    {
      fitImg := img;
    }

    /** setSavedLooks: memory only, so it keeps no link to the stored gallery. */
    method SetSavedLooks(looks: seq<SavedLook>)
      modifies this`savedLooks
      ensures savedLooks == looks
    {
      savedLooks := looks;
    }

    /**
     * addSavedLook: prepend in memory without a cap, then looksStorage.save,
     * which keeps the first 50 of the stored list.
     */
    method AddSavedLook(look: SavedLook) returns (c: Completion)
      modifies this`savedLooks, storage
      ensures savedLooks == [look] + old(savedLooks)
      ensures |savedLooks| == |old(savedLooks)| + 1
      ensures storage.entries == SaveLookEffect(old(storage.entries), look)
      ensures c.Rejected? <==> old(ReadLooks(storage.entries)).Err?
      ensures old(LooksMirrored()) ==> LooksMirrored()
      ensures old(LooksPrefixPersisted()) ==> LooksPrefixPersisted()
    {
      ghost var before := storage.entries;
      ghost var mem := savedLooks;
      var updated := [look] + savedLooks;
      savedLooks := updated;
      c := storage.SaveLook(look);
      if ReadLooks(before) == Ok(Take(mem, MaxSavedLooks)) {
        SaveKeepsMirror(before, mem, look);
      }
      if PrefixOfMemory(before, mem) {
        SaveKeepsPrefix(before, mem, look);
      }
    }

    /** removeSavedLook: filter by id in memory, then looksStorage.remove. */
    method RemoveSavedLook(id: string) returns (c: Completion)
      modifies this`savedLooks, storage
      ensures savedLooks == WithoutLook(old(savedLooks), id)
      ensures storage.entries == RemoveLookEffect(old(storage.entries), id)
      ensures c.Rejected? <==> old(ReadLooks(storage.entries)).Err?
      ensures (forall i :: 0 <= i < |old(savedLooks)| ==> old(savedLooks)[i].id != id) ==> savedLooks == old(savedLooks)
      ensures old(LooksPrefixPersisted()) ==> LooksPrefixPersisted()
    {
      ghost var before := storage.entries;
      ghost var mem := savedLooks;
      var updated := WithoutLook(savedLooks, id);
      savedLooks := updated;
      c := storage.RemoveLook(id);
      if forall i :: 0 <= i < |mem| ==> mem[i].id != id {
        WithoutAbsentLook(mem, id);
      }
      if PrefixOfMemory(before, mem) {
        RemoveKeepsPrefix(before, mem, id);
      }
    }

    /** incrementQuota: without a user nothing happens; otherwise quota + 1, saved whole. */
    method IncrementQuota()
      modifies this`user, storage
      ensures old(user).None? ==> user == None && storage.entries == old(storage.entries)
      ensures old(user).Some? ==> user == Some(old(user).value.(quota := old(user).value.quota + 1))
      ensures old(user).Some? ==> storage.entries == old(storage.entries)[UserKey := ProfileJson(user.value)]
      ensures old(user).Some? ==> UserPersisted()
    {
      if user.Some? {
        var updatedUser := user.value.(quota := user.value.quota + 1);
        user := Some(updatedUser);
        storage.SaveUser(updatedUser);
      }
    }

    /**
     * signOut: the provider's sign-out may fail and is only logged; the session
     * is cleared in memory and in storage either way. Saved looks stay.
     */
    method SignOut(provider: ProviderSignOut)
      modifies this`user, this`isDevMode, this`userImg, this`fitImg, storage
      ensures user == None && !isDevMode && userImg == None && fitImg == None
      ensures savedLooks == old(savedLooks)
      ensures storage.entries == (old(storage.entries) - {UserKey})[DevModeKey := EncodeDevMode(false)]
      ensures UserPersisted() && DevModePersisted()
    {
      user, isDevMode, userImg, fitImg := None, false, None, None;
      storage.RemoveUser();
      storage.SetDevModeEnabled(false);
    }

    /** signInAsDeveloper, with Date.now() passed in as `now`. */
    method SignInAsDeveloper(now: nat)
      modifies this`user, this`isDevMode, storage
      ensures user == Some(UserProfile(DeveloperUid(now), Some("Developer"), Some("dev@zyora.app"), None, 0, MaxFreeQuota))
      ensures isDevMode
      ensures storage.entries == old(storage.entries)[UserKey := ProfileJson(user.value)][DevModeKey := EncodeDevMode(true)]
      ensures UserPersisted() && DevModePersisted()
    {
      var devUser := UserProfile(
        DeveloperUid(now), Some("Developer"), Some("dev@zyora.app"), None, 0, MaxFreeQuota);
      user, isDevMode := Some(devUser), true;
      storage.SaveUser(devUser);
      storage.SetDevModeEnabled(true);
    }

    /**
     * signInWithGoogle: the provider's fields with a fresh quota. The stored
     * dev-mode flag is not written, so it agrees with memory only if it did not read "true".
     */
    method SignInWithGoogle(googleUser: ProviderUser)
      modifies this`user, this`isDevMode, storage
      ensures user == Some(UserProfile(googleUser.uid, googleUser.displayName, googleUser.email,
                                       googleUser.photoURL, 0, MaxFreeQuota))
      ensures !isDevMode
      ensures storage.entries == old(storage.entries)[UserKey := ProfileJson(user.value)]
      ensures UserPersisted()
      ensures DevModePersisted() <==> !old(ReadDevMode(storage.entries))
    {
      var newUser := UserProfile(googleUser.uid, googleUser.displayName, googleUser.email,
                                 googleUser.photoURL, 0, MaxFreeQuota);
      user, isDevMode := Some(newUser), false;
      storage.SaveUser(newUser);
    }

    /**
     * loadFromStorage: read the three adapters; if any read rejects, only
     * isLoading changes, otherwise the store takes what was read.
     */
    method LoadFromStorage()
      modifies this`user, this`savedLooks, this`isDevMode, this`isLoading
      ensures !isLoading
      ensures var u, l := ReadUser(storage.entries), ReadLooks(storage.entries);
              if u.Ok? && l.Ok? then
                user == u.value && savedLooks == l.value && isDevMode == ReadDevMode(storage.entries)
              else
                user == old(user) && savedLooks == old(savedLooks) && isDevMode == old(isDevMode)
      ensures ReadUser(storage.entries).Ok? && ReadLooks(storage.entries).Ok? ==>
                UserPersisted() && DevModePersisted() && LooksPrefixPersisted() == (|savedLooks| <= MaxSavedLooks)
      ensures ReadUser(storage.entries).Ok? && ReadLooks(storage.entries).Ok? && |savedLooks| <= MaxSavedLooks ==>
                LooksMirrored()
    {
      isLoading := true;
      var storedUser := storage.GetUser();
      var storedLooks := storage.GetAllLooks();
      var devMode := storage.IsDevModeEnabled();
      if storedUser.Ok? && storedLooks.Ok? {
        user, savedLooks, isDevMode, isLoading := storedUser.value, storedLooks.value, devMode, false;
      } else {
        isLoading := false;
      }
    }
  }
}
