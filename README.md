# Zyora client state and persistence, modelled in Dafny

This project models the local core of the Zyora virtual try-on app.

- **Session store.** `store/authStore.ts` is a single mutable record. It holds the signed-in user, the loading and developer-mode flags, the two staged images and the saved-looks gallery. Its actions write through to on-device storage.
- **Storage adapters.** `lib/storage.ts` holds typed read-modify-write wrappers over AsyncStorage for the profile, the gallery and the developer flag, plus `clearAllData`.
- **Generation client.** These are the pure decisions of `lib/api.ts`: cleaning a data-URL prefix, the bearer header, turning the generation response into a `GenerationResult`, the branch choice of `uriToBase64`, and the health test.
- **Profile edit.** This is the merge rule of the personal-info screen's `handleSave`.

Files and modules:

- `constants.dfy` (`Constants`): `MAX_FREE_QUOTA` and `STORAGE_KEYS`.
- `types.dfy` (`Types`): the records of `types/index.ts`. A nullable field is an `Option`.
- `storage.dfy` (`Storage`): the stored-value datatype, the decoding functions, the effect of each read-modify-write adapter as a function, and the sequence lemmas. It also holds the class `LocalStorage`, whose `entries: map<string, Stored>` field is the key-value store and whose methods are the adapters.
- `session.dfy` (`Session`): the class `AuthStore`. Its fields are the store's fields. It has one method per action, and its `storage` field points at the `LocalStorage` it writes through to.
- `api.dfy` (`Api`): `indexOf`/`split` for one separator, and the generation, header, `uriToBase64` and health decisions.
- `profile.dfy` (`Profile`): `String.prototype.trim`, the merge, and `HandleSave` calling the store.

JSON is abstract. A value written with `JSON.stringify` is the document it encodes (`ProfileJson`, `LooksJson`). Any other string is `Text`. The empty string is falsy, so it reads as absent.

The store is linked to storage by four predicates of `AuthStore`:

- `UserPersisted`: the stored user decodes to the in-memory user.
- `DevModePersisted`: the stored flag reads as the in-memory flag.
- `LooksMirrored`: the stored gallery is exactly the first 50 in-memory looks.
- `LooksPrefixPersisted`: the stored gallery is a prefix of the in-memory one and holds at most 50 looks.

The in-memory gallery has no cap. Only the stored copy is cut to 50.

- From empty storage, `AddSavedLook` keeps `LooksMirrored`. `SaveAllFromEmpty` states this for any sequence of saves.
- `RemoveSavedLook` keeps only the weaker `LooksPrefixPersisted`. Take more than 50 looks in memory, where no other look carries the newest look's id. Removing the newest then leaves 49 stored, while the first 50 in memory are still 50 (`RemoveBreaksMirror`). `LoadFromStorage` takes what is stored, so after a reload the gallery holds 49 looks where the first 50 in memory were 50.
- `SignInWithGoogle` does not write the developer flag. `DevModePersisted` holds after it exactly when the stored flag did not read `"true"`.

## Model

| member | source | states |
|---|---|---|
| `Storage.ReadUser` | lib/storage.ts:13-16 | An absent key or an empty string reads as null. A stored profile reads as itself. Decoding fails exactly when the stored string is neither empty nor a stored profile. |
| `Storage.LocalStorage.GetUser` | lib/storage.ts:13-16 | Returns what `ReadUser` decodes from the current store. |
| `Storage.LocalStorage.SaveUser` | lib/storage.ts:9-11 | Writes the profile under `zyora:user` and no other key. Reading back gives the same profile. |
| `Storage.LocalStorage.RemoveUser` | lib/storage.ts:18-20 | Removes `zyora:user` and nothing else. Reading back gives null. |
| `Storage.UpdateQuotaEffect` | lib/storage.ts:22-28 | Changes nothing when no user is stored or the read fails. Otherwise the stored user gets the new quota and keeps all other fields. Other keys are untouched. |
| `Storage.LocalStorage.UpdateQuota` | lib/storage.ts:22-28 | The store becomes `UpdateQuotaEffect` of the old one. The call rejects exactly when the stored user cannot be decoded. |
| `Storage.LooksAfterSave` | lib/storage.ts:35-41 | The new look is first and the rest is a prefix of the stored list. The length is the old length plus one, capped at 50. |
| `Storage.SaveLookEffect` | lib/storage.ts:35-41 | Only the gallery key changes. It then reads as `LooksAfterSave` of the old list. A failed read writes nothing. |
| `Storage.LocalStorage.SaveLook` | lib/storage.ts:35-41 | Read, unshift, slice to 50, write back: the store becomes `SaveLookEffect`. It rejects exactly when the read fails. |
| `Storage.ReadLooks` | lib/storage.ts:43-46 | An absent key or an empty string reads as `[]`. A stored looks array reads as itself. Decoding fails exactly when the stored string is neither empty nor a looks array. |
| `Storage.LocalStorage.GetAllLooks` | lib/storage.ts:43-46 | Returns what `ReadLooks` decodes from the current store. |
| `Storage.WithoutLook` | lib/storage.ts:50 | The filter is no longer than its input. Every kept look is from the input and has a different id. |
| `Storage.WithoutLookCount` | lib/storage.ts:50 | Looks with that id are removed entirely. Every other look keeps its multiplicity. |
| `Storage.WithoutLookAppend` | lib/storage.ts:50 | The filter distributes over concatenation, so the kept looks stay in order. |
| `Storage.WithoutLookPrefix` | lib/storage.ts:50 | Filtering a prefix gives a prefix of the filtered list. |
| `Storage.WithoutAbsentLook` | lib/storage.ts:48-52 | Removing an id no look carries returns the list unchanged. |
| `Storage.WithoutLookIdempotent` | lib/storage.ts:48-52 | Filtering twice by the same id equals filtering once. |
| `Storage.RemoveLookEffect` | lib/storage.ts:48-52 | Only the gallery key changes. It then reads as the filtered old list. A failed read writes nothing. |
| `Storage.RemoveLookEffectIdempotent` | lib/storage.ts:48-52 | Removing the same id twice leaves the store as removing it once. |
| `Storage.RemoveAbsentLookEffect` | lib/storage.ts:48-52 | Removing an absent id leaves the stored gallery reading the same. |
| `Storage.LocalStorage.RemoveLook` | lib/storage.ts:48-52 | The store becomes `RemoveLookEffect`. It rejects exactly when the read fails. |
| `Storage.LocalStorage.ClearLooks` | lib/storage.ts:54-56 | Removes only the gallery key. The gallery then reads as `[]`. |
| `Storage.LocalStorage.IsDevModeEnabled` | lib/storage.ts:63-66 | Returns true exactly when the flag key holds the string `"true"`. |
| `Storage.DevModeOnlyExactTrue` | lib/storage.ts:63-66 | Every stored value other than `"true"`, and an absent key, reads as false. |
| `Storage.ReadDevMode` | lib/storage.ts:63-66 | The flag is on only when the key is present, and then exactly when it holds the string `"true"`. |
| `Storage.EncodeDevMode` | lib/storage.ts:68-70 | The stored value is the string `"true"` or `"false"`, and it is `"true"` exactly when the flag is on. |
| `Storage.DevModeRoundTrip` | lib/storage.ts:62-71 | Writing the encoding of `b` and reading the flag back gives `b`. |
| `Storage.LocalStorage.SetDevModeEnabled` | lib/storage.ts:68-70 | Writes `"true"` or `"false"` under the flag key only. Reading back gives the flag. |
| `Storage.WithoutAppKeys` | lib/storage.ts:76-79 | Removes exactly the four `STORAGE_KEYS`, including `zyora:looks:count`. Every other key keeps its value. The app then reads as signed out, with no looks and the flag off. |
| `Storage.LocalStorage.ClearAllData` | lib/storage.ts:76-79 | The store becomes `WithoutAppKeys` of the old one. |
| `Storage.Take` | lib/storage.ts:39 | `slice(0, n)` returns a prefix of length min(len, n). |
| `Storage.TakeCons` | lib/storage.ts:37-39 | Cutting to n after prepending does not depend on what lay beyond position n. |
| `Storage.SaveAllMirrors` | lib/storage.ts:35-41 | Take a stored list that is the first 50 of the in-memory one. After any sequence of saves it still equals the first 50 of the newest-first in-memory list. |
| `Storage.SaveAllFromEmpty` | lib/storage.ts:35-41 | From empty storage, the stored gallery after any sequence of saves is the first 50 of the newest-first list. |
| `Storage.SaveKeepsMirror` | store/authStore.ts:67-72 | A save keeps "stored = first 50 of memory" when the look is also prepended in memory. |
| `Storage.SaveKeepsPrefix` | store/authStore.ts:67-72 | A save keeps "stored is a prefix of memory, at most 50 long". |
| `Storage.RemoveKeepsPrefix` | store/authStore.ts:74-79 | A removal keeps "stored is a prefix of memory, at most 50 long". |
| `Storage.RemoveBreaksMirror` | store/authStore.ts:74-79 | Suppose more than 50 looks are in memory and no other look carries the newest look's id. Then removing the newest breaks "stored = first 50 of memory". |
| `Session.AuthStore.constructor` | store/authStore.ts:37-43 | The initial state: no user, loading, flag off, no images, no looks. On empty storage all links hold. |
| `Session.AuthStore.SetUser` | store/authStore.ts:45-52 | A profile is stored and null removes the stored user. Afterwards the stored user equals the in-memory one. |
| `Session.AuthStore.SetLoading` | store/authStore.ts:54 | Sets `isLoading` only. |
| `Session.AuthStore.SetDevMode` | store/authStore.ts:56-59 | Sets the flag in memory and in storage. Afterwards the two agree. |
| `Session.AuthStore.SetUserImg` | store/authStore.ts:61 | Sets the staged user image, in memory only. |
| `Session.AuthStore.SetFitImg` | store/authStore.ts:63 | Sets the staged garment image, in memory only. |
| `Session.AuthStore.SetSavedLooks` | store/authStore.ts:65 | Replaces the in-memory gallery and writes nothing. |
| `Session.AuthStore.AddSavedLook` | store/authStore.ts:67-72 | The gallery becomes `[look] + old`, one longer, with no cap. The store gets `SaveLookEffect`. It keeps both gallery links. |
| `Session.AuthStore.RemoveSavedLook` | store/authStore.ts:74-79 | Filters the id in memory and in storage. An absent id leaves memory unchanged. It keeps the prefix link. |
| `Session.AuthStore.IncrementQuota` | store/authStore.ts:81-88 | Without a user nothing changes. With a user, quota rises by 1 and the other fields stay. The stored user then equals the new one. |
| `Session.AuthStore.SignOut` | store/authStore.ts:90-104 | Whatever the provider's sign-out did, the state ends with no user, the flag off and no images. The user key is removed, the flag is stored as `"false"`, and the looks are untouched. |
| `Session.AuthStore.SignInAsDeveloper` | store/authStore.ts:106-118 | The user is `dev-user-<now>`, "Developer", dev@zyora.app, with no photo, quota 0 and max quota 10. The flag is on. Both are stored. |
| `Session.AuthStore.SignInWithGoogle` | store/authStore.ts:120-131 | The provider's four fields are copied, with quota 0, max quota 10 and the flag off in memory. Only the user is stored. The flags agree afterwards exactly when the stored flag was not `"true"`. |
| `Session.AuthStore.LoadFromStorage` | store/authStore.ts:133-153 | `isLoading` ends false. If a read fails nothing else changes. Otherwise user, looks and flag are what storage decodes to. |
| `Session.DecimalString` | store/authStore.ts:108 | `String(Date.now())` is a non-empty string of decimal digits with no leading zero (only 0 itself starts with `0`). |
| `Session.DecimalRoundTrip` | store/authStore.ts:108 | Reading the digits back gives the number. |
| `Session.DeveloperUid` | store/authStore.ts:108 | The uid is `"dev-user-"` followed by digits only, with no leading zero, and those digits denote the sign-in time. |
| `Session.DeveloperUidInjective` | store/authStore.ts:108 | Developer sign-ins at different times get different uids. |
| `Api.OrDefault` | lib/api.ts:97 | A non-empty message is kept; an empty one becomes "Failed to generate look". |
| `Api.IndexFrom` | lib/api.ts:15 | The first index at or after k holding the character, or the length when none does. No position in between holds it. |
| `Api.IndexOf` | lib/api.ts:15 | The first index of the character, or the length when it is absent. No earlier position holds it. |
| `Api.IndexOfAbsent` | lib/api.ts:15 | The search reaches the end exactly when the character does not occur. |
| `Api.SplitFrom` | lib/api.ts:15 | Splitting from position k gives at least one piece, and no piece holds the separator. There is exactly one piece when no separator follows k. |
| `Api.Split` | lib/api.ts:15 | At least one piece, and no piece holds the separator. There is exactly one piece when the separator is absent. |
| `Api.SplitJoin` | lib/api.ts:15 | Joining the pieces with the separator gives back the string. |
| `Api.SplitFromJoin` | lib/api.ts:15 | Joining the pieces split from position k gives back the string from k on. |
| `Api.SplitSecondPiece` | lib/api.ts:15 | `split(',')[1]` runs from after the first comma to the next comma or the end. |
| `Api.CleanBase64` | lib/api.ts:15-16 | Without a comma the input is returned as is. With one, the result is the segment after the first comma, up to the next comma or the end. The result holds no comma. |
| `Api.CleanBase64RecoversPayload` | lib/api.ts:89-92 | Cleaning `"data:image/png;base64," + p` gives back any comma-free `p`. |
| `Api.BuildHeaders` | lib/api.ts:53-56 | `Authorization` is present exactly when the token is non-empty. Its value is `"Bearer " + token` and there is no other header. |
| `Api.FailureMessage` | lib/api.ts:72-81 | Never empty. A parsed body gives its non-empty `error`. An unparsable body gives its non-empty text. Otherwise the default message. |
| `Api.GenerateLookResult` | lib/api.ts:72-99 | Success exactly when the response is OK with a non-empty `image`, and then the image is the PNG data URL. Every failure carries a non-empty error: the message of `FailureMessage`, "No image returned from server", or the thrown message (or the default). It never throws. Cleaning a successful image with `CleanBase64` gives back the server's payload when it has no comma. |
| `Api.UriToBase64Source` | lib/api.ts:144-162 | A `data:` URI is answered inline with no I/O. The payload is the segment after the first comma, or undefined when there is no comma. Any other URI starting with `file://`, `ph://` or `assets-library://` is read as a local file, and everything else is fetched. |
| `Api.InlinePayloadIsCleaned` | lib/api.ts:146-148 | For a `data:` URI with a comma, the inline payload equals `CleanBase64` of it. |
| `Api.CheckHealth` | lib/api.ts:131-139 | True exactly when a parsed body has `status` `"ok"`. A throw or an unparsable body gives false. |
| `Profile.TrimStart` | app/profile/personal.tsx:47-48 | Drops only leading whitespace. The result is a suffix and does not start with whitespace. |
| `Profile.TrimEnd` | app/profile/personal.tsx:47-48 | Drops only trailing whitespace. The result is a prefix and does not end with whitespace. |
| `Profile.Trim` | app/profile/personal.tsx:47-48 | Neither end of the result is whitespace. The result is empty exactly when the input is all whitespace. An already trimmed input is returned unchanged. The result is no longer than the input. |
| `Profile.TrimDecomposes` | app/profile/personal.tsx:47-48 | The input is the result of `Trim` with whitespace before and after it. |
| `Profile.TrimUnique` | app/profile/personal.tsx:47-48 | Any non-empty, trimmed middle of a whitespace-surrounded string is what `Trim` returns. With `Trim`'s contract, this makes the result exactly the input minus its leading and trailing whitespace. |
| `Profile.Prefill` | app/profile/personal.tsx:15-17 | A field's initial input is empty exactly when the field is missing or empty. A non-empty input is the stored value. |
| `Profile.MergeProfile` | app/profile/personal.tsx:45-50 | Keeps `uid`, `quota` and `maxQuota`. A name or e-mail that is not all whitespace becomes its trimmed form, otherwise the old value stays. A non-empty photo URL replaces the old one untrimmed. |
| `Profile.SavingPrefilledFormKeepsProfile` | app/profile/personal.tsx:15-50 | Suppose the stored name and e-mail have no surrounding whitespace, or are all whitespace. Then saving the form as prefilled leaves the profile unchanged. |
| `Profile.MergeIdempotent` | app/profile/personal.tsx:45-50 | Saving twice with the same inputs gives the same profile as saving once. |
| `Profile.HandleSave` | app/profile/personal.tsx:40-52 | Without a user nothing changes. Otherwise the store's user becomes the merged profile and storage holds it. |

## Left out

- Asynchrony and interleaving: the store chains its storage writes without awaiting them. Each adapter call is modelled as completing atomically, in call order, so lost updates between overlapping read-modify-write calls are not modelled.
- Storage engine failures: AsyncStorage's own I/O errors are not modelled. The only read failure is a stored string that does not decode. Every write succeeds.
- JSON: `JSON.stringify`/`JSON.parse` are an exact encode/decode pair. A string under the user or gallery key that is not a stored document reads as a parse failure. JavaScript would instead return whatever valid JSON such as `"null"` or `"true"` parses to.
- Storage.ReadUser: does not model a stored JSON value of the wrong shape being returned as a profile; it is a decode failure instead.
- Storage.ReadLooks: does not model a stored JSON value of the wrong shape, such as a profile object under the gallery key, being returned by `getAll` (lib/storage.ts:45); it is a decode failure instead.
- Api.GenerateLookResult: a parsed body is modelled only as its `error`/`image`/`status` string fields. A JSON `null` body, which makes `errorData.error` throw a TypeError, and non-string field values are not modelled.
- Api.GenerateLookResult: the temp-file writes and deletes, `FormData` and `fetch` are I/O. Their only modelled effect is the outcome they hand on: a response, or a thrown message.
- `fetchImageFromUrl` and the file and remote branches of `uriToBase64` are I/O (FileReader, FileSystem, fetch). Only the branch choice is modelled.
- `exchangeTokenForFirebase`, `getGoogleUserInfo` and `lib/firebase.ts` wrap vendor SDKs and the network. Provider sign-out appears only as a parameter of `SignOut` that may report a failure. store/authStore.ts:5 imports `signOut` from `@/lib/auth`, but lib/auth.ts exports no `signOut`. Read as written, `firebaseSignOut` is undefined, so the call at line 92 always throws into the catch. This was not executed. The `ProviderFailed` outcome covers it, and the rest of `SignOut` is the same either way.
- `Date.now()` is an argument (`now`) of `SignInAsDeveloper`.
- `handleSave`'s `isSaving` flag, the 500 ms timer and the alert are screen state. The rest of `app/profile/personal.tsx` is rendering.
- The generation screen (`app/generate.tsx`) runs a progress ticker and, on success, calls `incrementQuota` and then `addSavedLook`. It is not modelled. The two actions' contracts cover that composition.
- Quota arithmetic is unbounded. JavaScript numbers are exact up to 2^53, far beyond any reachable quota.
- `String(Date.now())` is modelled for non-negative integers only.
- Logging (`console.error`) is dropped.
