/**
 * The storage adapters of lib/storage.ts over the on-device key-value store.
 *
 * AsyncStorage keeps strings; a value written with JSON.stringify is
 * represented here by the document it encodes (`ProfileJson`, `LooksJson`),
 * every other string by `Text`. Decoding a document written by `save` gives
 * back exactly what was saved, which is all the adapters rely on.
 */
module Storage {
  import opened Types
  import opened Constants

  /** What the key-value store holds under one key. */
  datatype Stored =
    | ProfileJson(profile: UserProfile)   // JSON.stringify(user)
    | LooksJson(looks: seq<SavedLook>)    // JSON.stringify(looks)
    | Text(text: string)                  // any other string, e.g. "true", "false", ""

  /** JSON.parse threw on the string stored under `key`. */
  datatype StorageError = Unparsable(key: string)

  /** The outcome of an adapter read: a value, or the error the promise rejects with. */
  datatype ReadResult<T> = Ok(value: T) | Err(error: StorageError)

  /** The outcome of an adapter write whose promise may reject. */
  datatype Completion = Completed | Rejected(error: StorageError)

  /** looks.slice(0, 50) in looksStorage.save. */
  const MaxSavedLooks: nat := 50

  /** `m'` agrees with `m` on every key other than `key`. */
  ghost predicate SameExcept(m: map<string, Stored>, m': map<string, Stored>, key: string)
  {
    forall k :: k != key ==> (k in m <==> k in m') && (k in m && k in m' ==> m[k] == m'[k])
  }

  /** s.slice(0, n). */
  function Take<T>(s: seq<T>, n: nat): (r: seq<T>)
    ensures |r| == if |s| <= n then |s| else n
    ensures r <= s
  {
    if |s| <= n then s else s[..n]
  }

  // ---------------------------------------------------------------------
  // Decoding what is stored (the `get`/`getAll`/`isEnabled` reads)
  // ---------------------------------------------------------------------

  /** userStorage.get: `data ? JSON.parse(data) : null`. */
  function ReadUser(m: map<string, Stored>): (r: ReadResult<Option<UserProfile>>)
    ensures UserKey !in m ==> r == Ok(None)
    ensures UserKey in m && m[UserKey] == Text("") ==> r == Ok(None)
    ensures UserKey in m && m[UserKey].ProfileJson? ==> r == Ok(Some(m[UserKey].profile))
    ensures r.Err? <==> UserKey in m && !m[UserKey].ProfileJson? && m[UserKey] != Text("")
  {
    if UserKey !in m then Ok(None)
    else match m[UserKey]
      case ProfileJson(u) => Ok(Some(u))
      case Text(t) => if t == "" then Ok(None) else Err(Unparsable(UserKey))
      case LooksJson(_) => Err(Unparsable(UserKey))
  }

  /** looksStorage.getAll: `data ? JSON.parse(data) : []`. */
  function ReadLooks(m: map<string, Stored>): (r: ReadResult<seq<SavedLook>>)
    ensures SavedLooksKey !in m ==> r == Ok([])
    ensures SavedLooksKey in m && m[SavedLooksKey] == Text("") ==> r == Ok([])
    ensures SavedLooksKey in m && m[SavedLooksKey].LooksJson? ==> r == Ok(m[SavedLooksKey].looks)
    ensures r.Err? <==> SavedLooksKey in m && !m[SavedLooksKey].LooksJson? && m[SavedLooksKey] != Text("")
  {
    if SavedLooksKey !in m then Ok([])
    else match m[SavedLooksKey]
      case LooksJson(looks) => Ok(looks)
      case Text(t) => if t == "" then Ok([]) else Err(Unparsable(SavedLooksKey))
      case ProfileJson(_) => Err(Unparsable(SavedLooksKey))
  }

  /** devModeStorage.isEnabled: only the exact string "true" is enabled. */
  function ReadDevMode(m: map<string, Stored>): (enabled: bool)
    ensures enabled ==> DevModeKey in m
    ensures DevModeKey in m ==> (enabled <==> m[DevModeKey] == Text("true"))
  {
    DevModeKey in m && m[DevModeKey] == Text("true")
  }

  /** devModeStorage.setEnabled's encoding, `enabled ? 'true' : 'false'`. */
  function EncodeDevMode(enabled: bool): (v: Stored)
    ensures v.Text? && (v.text == "true" || v.text == "false")
    ensures v == Text("true") <==> enabled
  {
    Text(if enabled then "true" else "false")
  }

  lemma DevModeRoundTrip(m: map<string, Stored>, enabled: bool)
    ensures ReadDevMode(m[DevModeKey := EncodeDevMode(enabled)]) == enabled
  {
  }

  /** Any stored value other than the string "true", and an absent key, read as false. */
  lemma DevModeOnlyExactTrue(m: map<string, Stored>, v: Stored)
    ensures ReadDevMode(m[DevModeKey := v]) <==> v == Text("true")
    ensures DevModeKey !in m ==> !ReadDevMode(m)
  {
  }

  // ---------------------------------------------------------------------
  // The saved-looks list
  // ---------------------------------------------------------------------

  /** The list looksStorage.save writes: unshift, then keep the first 50. */
  function LooksAfterSave(stored: seq<SavedLook>, look: SavedLook): (r: seq<SavedLook>)
    ensures |r| == if |stored| < MaxSavedLooks then |stored| + 1 else MaxSavedLooks
    ensures |r| <= MaxSavedLooks
    ensures r[0] == look && r[1..] <= stored
  {
    Take([look] + stored, MaxSavedLooks)
  }

  /** looks.filter((look) => look.id !== id). */
  function WithoutLook(looks: seq<SavedLook>, id: string): (r: seq<SavedLook>)
    ensures |r| <= |looks|
    ensures forall i :: 0 <= i < |r| ==> r[i].id != id && r[i] in looks
  {
    if looks == [] then []
    else (if looks[0].id == id then [] else [looks[0]]) + WithoutLook(looks[1..], id)
  }

  /** The filter removes exactly the looks with that id: every other look keeps its multiplicity. */
  lemma {:induction false} WithoutLookCount(looks: seq<SavedLook>, id: string, x: SavedLook)
    ensures multiset(WithoutLook(looks, id))[x] == if x.id == id then 0 else multiset(looks)[x]
  {
    if looks != [] {
      WithoutLookCount(looks[1..], id, x);
      HeadCount(looks, x);
      var r := WithoutLook(looks, id);
      if looks[0].id != id {
        assert r == [looks[0]] + WithoutLook(looks[1..], id);
        HeadCount(r, x);
      }
    }
  }

  /** A sequence's count of x is its tail's plus one when its head is x. */
  lemma HeadCount<T>(s: seq<T>, x: T)
    requires s != []
    ensures multiset(s)[x] == multiset(s[1..])[x] + (if s[0] == x then 1 else 0)
  {
    assert s == [s[0]] + s[1..];
  }

  /** The filter keeps the order of what it keeps: it distributes over concatenation. */
  lemma {:induction false} WithoutLookAppend(a: seq<SavedLook>, b: seq<SavedLook>, id: string)
    ensures WithoutLook(a + b, id) == WithoutLook(a, id) + WithoutLook(b, id)
  {
    if a != [] {
      assert (a + b)[1..] == a[1..] + b;
      WithoutLookAppend(a[1..], b, id);
    } else {
      assert a + b == b;
    }
  }

  /** Removing an id that no look carries changes nothing. */
  lemma {:induction false} WithoutAbsentLook(looks: seq<SavedLook>, id: string)
    requires forall i :: 0 <= i < |looks| ==> looks[i].id != id
    ensures WithoutLook(looks, id) == looks
  {
    if looks != [] {
      WithoutAbsentLook(looks[1..], id);
    }
  }

  lemma WithoutLookIdempotent(looks: seq<SavedLook>, id: string)
    ensures WithoutLook(WithoutLook(looks, id), id) == WithoutLook(looks, id)
  {
    WithoutAbsentLook(WithoutLook(looks, id), id);
  }

  /** Filtering a prefix of a list gives a prefix of the filtered list. */
  lemma WithoutLookPrefix(p: seq<SavedLook>, s: seq<SavedLook>, id: string)
    requires p <= s
    ensures WithoutLook(p, id) <= WithoutLook(s, id)
  {
    assert s == p + s[|p|..];
    WithoutLookAppend(p, s[|p|..], id);
  }

  /** Keeping the first n of a list with one more element in front does not depend on what lay beyond n. */
  lemma TakeCons<T>(x: T, s: seq<T>, n: nat)
    requires n > 0
    ensures Take([x] + Take(s, n), n) == Take([x] + s, n)
  {
    if |s| > n {
      assert ([x] + s[..n])[..n] == ([x] + s)[..n];
    }
  }

  /** Saving looks one by one, oldest first, onto a stored list. */
  function SaveAll(stored: seq<SavedLook>, looks: seq<SavedLook>): seq<SavedLook>
    decreases |looks|
  {
    if looks == [] then stored else SaveAll(LooksAfterSave(stored, looks[0]), looks[1..])
  }

  /** Newest first: the list the same looks make in memory, each prepended in turn. */
  function Prepended(mem: seq<SavedLook>, looks: seq<SavedLook>): seq<SavedLook>
    decreases |looks|
  {
    if looks == [] then mem else Prepended([looks[0]] + mem, looks[1..])
  }

  /**
   * Starting from a stored list that is the first 50 of the in-memory one, any
   * sequence of saves keeps the stored list the first 50 of the in-memory one.
   */
  lemma {:induction false} SaveAllMirrors(mem: seq<SavedLook>, looks: seq<SavedLook>)
    ensures SaveAll(Take(mem, MaxSavedLooks), looks) == Take(Prepended(mem, looks), MaxSavedLooks)
    decreases |looks|
  {
    if looks != [] {
      TakeCons(looks[0], mem, MaxSavedLooks);
      SaveAllMirrors([looks[0]] + mem, looks[1..]);
    }
  }

  /** From an empty store, saving looks persists the first 50 of the newest-first list. */
  lemma SaveAllFromEmpty(looks: seq<SavedLook>)
    ensures SaveAll([], looks) == Take(Prepended([], looks), MaxSavedLooks)
  {
    SaveAllMirrors([], looks);
  }

  // ---------------------------------------------------------------------
  // What each read-modify-write adapter leaves in the store
  // ---------------------------------------------------------------------

  /** looksStorage.save: a failed read rejects before anything is written. */
  function SaveLookEffect(m: map<string, Stored>, look: SavedLook): (m': map<string, Stored>)
    ensures SameExcept(m, m', SavedLooksKey)
    ensures ReadLooks(m).Ok? ==> ReadLooks(m') == Ok(LooksAfterSave(ReadLooks(m).value, look))
    ensures ReadLooks(m).Err? ==> m' == m
  {
    match ReadLooks(m)
    case Ok(stored) => m[SavedLooksKey := LooksJson(LooksAfterSave(stored, look))]
    case Err(_) => m
  }

  /** looksStorage.remove: a failed read rejects before anything is written. */
  function RemoveLookEffect(m: map<string, Stored>, id: string): (m': map<string, Stored>)
    ensures SameExcept(m, m', SavedLooksKey)
    ensures ReadLooks(m).Ok? ==> ReadLooks(m') == Ok(WithoutLook(ReadLooks(m).value, id))
    ensures ReadLooks(m).Err? ==> m' == m
  {
    match ReadLooks(m)
    case Ok(stored) => m[SavedLooksKey := LooksJson(WithoutLook(stored, id))]
    case Err(_) => m
  }

  /** userStorage.updateQuota: nothing is written without a stored user. */
  function UpdateQuotaEffect(m: map<string, Stored>, quota: int): (m': map<string, Stored>)
    ensures SameExcept(m, m', UserKey)
    ensures ReadUser(m).Ok? && ReadUser(m).value.Some? ==>
              ReadUser(m') == Ok(Some(ReadUser(m).value.value.(quota := quota)))
    ensures ReadUser(m).Err? || ReadUser(m) == Ok(None) ==> m' == m
  {
    match ReadUser(m)
    case Ok(Some(user)) => m[UserKey := ProfileJson(user.(quota := quota))]
    case _ => m
  }

  /** clearAllData: AsyncStorage.multiRemove(Object.values(STORAGE_KEYS)). */
  function WithoutAppKeys(m: map<string, Stored>): (m': map<string, Stored>)
    ensures m'.Keys == m.Keys - StorageKeys
    ensures forall k :: k in m' ==> m'[k] == m[k]
    ensures ReadUser(m') == Ok(None) && ReadLooks(m') == Ok([]) && !ReadDevMode(m')
  {
    m - StorageKeys
  }

  /** Removing twice is removing once, in the store as in memory. */
  lemma RemoveLookEffectIdempotent(m: map<string, Stored>, id: string)
    ensures RemoveLookEffect(RemoveLookEffect(m, id), id) == RemoveLookEffect(m, id)
  {
    if ReadLooks(m).Ok? {
      WithoutLookIdempotent(ReadLooks(m).value, id);
    }
  }

  /** Removing an id no stored look carries leaves the stored list as it reads. */
  lemma RemoveAbsentLookEffect(m: map<string, Stored>, id: string)
    requires ReadLooks(m).Ok?
    requires forall i :: 0 <= i < |ReadLooks(m).value| ==> ReadLooks(m).value[i].id != id
    ensures ReadLooks(RemoveLookEffect(m, id)) == ReadLooks(m)
  {
    WithoutAbsentLook(ReadLooks(m).value, id);
  }

  /** A save keeps "the stored list is the first 50 of `mem`" when `look` is prepended to `mem`. */
  lemma SaveKeepsMirror(m: map<string, Stored>, mem: seq<SavedLook>, look: SavedLook)
    requires ReadLooks(m) == Ok(Take(mem, MaxSavedLooks))
    ensures ReadLooks(SaveLookEffect(m, look)) == Ok(Take([look] + mem, MaxSavedLooks))
  {
    TakeCons(look, mem, MaxSavedLooks);
  }

  /** The weaker link "the stored list is a prefix of `mem`, at most 50 long". */
  predicate PrefixOfMemory(m: map<string, Stored>, mem: seq<SavedLook>)
  {
    ReadLooks(m).Ok? && |ReadLooks(m).value| <= MaxSavedLooks && ReadLooks(m).value <= mem
  }

  lemma SaveKeepsPrefix(m: map<string, Stored>, mem: seq<SavedLook>, look: SavedLook)
    requires PrefixOfMemory(m, mem)
    ensures PrefixOfMemory(SaveLookEffect(m, look), [look] + mem)
  {
    var stored := ReadLooks(m).value;
    var r := LooksAfterSave(stored, look);
    assert r == [look] + r[1..];
    assert r[1..] <= mem;
  }

  lemma RemoveKeepsPrefix(m: map<string, Stored>, mem: seq<SavedLook>, id: string)
    requires PrefixOfMemory(m, mem)
    ensures PrefixOfMemory(RemoveLookEffect(m, id), WithoutLook(mem, id))
  {
    WithoutLookPrefix(ReadLooks(m).value, mem, id);
  }

  /**
   * The exact link does not survive a removal: with more than 50 looks in
   * memory, removing the newest leaves 49 stored where memory's first 50 are 50.
   */
  lemma RemoveBreaksMirror(mem: seq<SavedLook>)
    requires |mem| > MaxSavedLooks
    requires forall i :: 1 <= i < |mem| ==> mem[i].id != mem[0].id
    ensures WithoutLook(Take(mem, MaxSavedLooks), mem[0].id) != Take(WithoutLook(mem, mem[0].id), MaxSavedLooks)
  {
    var first := Take(mem, MaxSavedLooks);
    assert first == mem[..MaxSavedLooks];
    assert forall i :: 1 <= i < |first| ==> first[i].id != first[0].id by {
      forall i | 1 <= i < |first|
        ensures first[i].id != first[0].id
      {
        assert first[i] == mem[i];
      }
    }
    WithoutOnlyHead(first);
    assert |WithoutLook(first, mem[0].id)| == MaxSavedLooks - 1;
    WithoutOnlyHead(mem);
    assert |Take(WithoutLook(mem, mem[0].id), MaxSavedLooks)| == MaxSavedLooks;
  }

  /** Filtering the id of the head, when no other look carries it, drops just the head. */
  lemma WithoutOnlyHead(s: seq<SavedLook>)
    requires s != []
    requires forall i :: 1 <= i < |s| ==> s[i].id != s[0].id
    ensures WithoutLook(s, s[0].id) == s[1..]
  {
    WithoutAbsentLook(s[1..], s[0].id);
  }

  // ---------------------------------------------------------------------
  // The adapters over the store
  // ---------------------------------------------------------------------

  /** AsyncStorage with userStorage, looksStorage, devModeStorage and clearAllData over it. */
  class LocalStorage {
    var entries: map<string, Stored>

    constructor (initial: map<string, Stored>)
      ensures entries == initial
    {
      entries := initial;
    }

    /** userStorage.save */
    method SaveUser(user: UserProfile)
      modifies this
      ensures entries == old(entries)[UserKey := ProfileJson(user)]
      ensures SameExcept(old(entries), entries, UserKey)
      ensures ReadUser(entries) == Ok(Some(user))
    {
      entries := entries[UserKey := ProfileJson(user)];
    }

    /** userStorage.get */
    method GetUser() returns (r: ReadResult<Option<UserProfile>>)
      ensures r == ReadUser(entries)
    {
      r := ReadUser(entries);
    }

    /** userStorage.remove */
    method RemoveUser()
      modifies this
      ensures entries == old(entries) - {UserKey}
      ensures SameExcept(old(entries), entries, UserKey)
      ensures ReadUser(entries) == Ok(None)
    {
      entries := entries - {UserKey};
    }

    /** userStorage.updateQuota: the fetched user is changed in its quota only and saved again. */
    method UpdateQuota(quota: int) returns (c: Completion)
      modifies this
      ensures entries == UpdateQuotaEffect(old(entries), quota)
      ensures c.Rejected? <==> ReadUser(old(entries)).Err?
    {
      var user := GetUser();
      match user
      case Err(e) => c := Rejected(e);
      case Ok(None) => c := Completed;
      case Ok(Some(u)) =>
        SaveUser(u.(quota := quota));
        c := Completed;
    }

    /** looksStorage.save: read the list, unshift the look, keep the first 50, write it back. */
    method SaveLook(look: SavedLook) returns (c: Completion)
      modifies this
      ensures entries == SaveLookEffect(old(entries), look)
      ensures c.Rejected? <==> ReadLooks(old(entries)).Err?
    {
      var looks := GetAllLooks();
      match looks
      case Err(e) => c := Rejected(e);
      case Ok(stored) =>
        var unshifted := [look] + stored;
        var trimmed := Take(unshifted, MaxSavedLooks);
        entries := entries[SavedLooksKey := LooksJson(trimmed)];
        c := Completed;
    }

    /** looksStorage.getAll */
    method GetAllLooks() returns (r: ReadResult<seq<SavedLook>>)
      ensures r == ReadLooks(entries)
    {
      r := ReadLooks(entries);
    }

    /** looksStorage.remove: read the list, filter out the id, write it back. */
    method RemoveLook(id: string) returns (c: Completion)
      modifies this
      ensures entries == RemoveLookEffect(old(entries), id)
      ensures c.Rejected? <==> ReadLooks(old(entries)).Err?
    {
      var looks := GetAllLooks();
      match looks
      case Err(e) => c := Rejected(e);
      case Ok(stored) =>
        entries := entries[SavedLooksKey := LooksJson(WithoutLook(stored, id))];
        c := Completed;
    }

    /** looksStorage.clear */
    method ClearLooks()
      modifies this
      ensures entries == old(entries) - {SavedLooksKey}
      ensures SameExcept(old(entries), entries, SavedLooksKey)
      ensures ReadLooks(entries) == Ok([])
    {
      entries := entries - {SavedLooksKey};
    }

    /** devModeStorage.isEnabled */
    method IsDevModeEnabled() returns (enabled: bool)
      ensures enabled == ReadDevMode(entries)
    {
      enabled := ReadDevMode(entries);
    }

    /** devModeStorage.setEnabled */
    method SetDevModeEnabled(enabled: bool)
      modifies this
      ensures entries == old(entries)[DevModeKey := EncodeDevMode(enabled)]
      ensures SameExcept(old(entries), entries, DevModeKey)
      ensures ReadDevMode(entries) == enabled
    {
      entries := entries[DevModeKey := EncodeDevMode(enabled)];
    }

    /** clearAllData */
    method ClearAllData()
      modifies this
      ensures entries == WithoutAppKeys(old(entries))
    {
      entries := entries - StorageKeys;
    }
  }
}
