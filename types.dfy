/** The records of types/index.ts. */
module Types {

  /** A value that may be `null` (or `undefined`). */
  datatype Option<T> = None | Some(value: T)

  /** UserProfile: `displayName`, `email` and `photoURL` may be null. */
  datatype UserProfile = UserProfile(
    uid: string,
    displayName: Option<string>,
    email: Option<string>,
    photoURL: Option<string>,
    quota: int,
    maxQuota: int)

  /** ImageAsset.type: 'user' | 'fit' | 'generated'. */
  datatype ImageKind = UserImage | FitImage | GeneratedImage

  /** A staged image held only in memory. */
  datatype ImageAsset = ImageAsset(id: string, uri: string, kind: ImageKind, date: int, base64: Option<string>)

  /** An entry of the saved-looks gallery. */
  datatype SavedLook = SavedLook(
    id: string,
    image: string,
    createdAt: int,
    userImageUri: Option<string>,
    fitImageUri: Option<string>)

  /** GenerationResult: `{ success, image?, error? }`. */
  datatype GenerationResult = GenerationResult(success: bool, image: Option<string>, error: Option<string>)
}
