/**
 * The save rule of the personal-info screen (app/profile/personal.tsx,
 * `handleSave`): a field edit replaces the stored value only when it says
 * something, and identity and quota are carried over.
 */
module Profile {
  import opened Types
  import opened Constants
  import opened Storage
  import Session

  /** The characters String.prototype.trim removes: WhiteSpace and LineTerminator. */
  predicate IsWhitespace(c: char)
  {
    c == '\U{0009}' || c == '\U{000A}' || c == '\U{000B}' || c == '\U{000C}' || c == '\U{000D}'
    || c == ' ' || c == '\U{00A0}' || c == '\U{1680}' || ('\U{2000}' <= c <= '\U{200A}')
    || c == '\U{2028}' || c == '\U{2029}' || c == '\U{202F}' || c == '\U{205F}' || c == '\U{3000}'
    || c == '\U{FEFF}'
  }

  predicate AllWhitespace(s: string)
  {
    forall i :: 0 <= i < |s| ==> IsWhitespace(s[i])
  }

  /** Neither end of `s` is whitespace. */
  predicate Trimmed(s: string)
  {
    s == [] || (!IsWhitespace(s[0]) && !IsWhitespace(s[|s| - 1]))
  }

  /** Drops the leading whitespace. */
  function TrimStart(s: string): (r: string)
    ensures |r| <= |s| && r == s[|s| - |r|..]
    ensures AllWhitespace(s[..|s| - |r|])
    ensures r == [] || !IsWhitespace(r[0])
  {
    if s != [] && IsWhitespace(s[0]) then TrimStart(s[1..]) else s
  }

  /** Drops the trailing whitespace. */
  function TrimEnd(s: string): (r: string)
    ensures |r| <= |s| && r == s[..|r|]
    ensures AllWhitespace(s[|r|..])
    ensures r == [] || !IsWhitespace(r[|r| - 1])
  {
    if s != [] && IsWhitespace(s[|s| - 1]) then TrimEnd(s[..|s| - 1]) else s
  }

  /** String.prototype.trim */
  function Trim(s: string): (r: string)
    ensures Trimmed(r)
    ensures r == [] <==> AllWhitespace(s)
    ensures Trimmed(s) ==> r == s
    ensures |r| <= |s|
  {
    var t := TrimStart(s);
    var r := TrimEnd(t);
    assert r != [] ==> !IsWhitespace(r[0]) by {
      if r != [] {
        assert r[0] == t[0];
      }
    }
    assert r == [] ==> AllWhitespace(s) by {
      if r == [] {
        assert t == [];
        assert s[..|s|] == s;
      }
    }
    r
  }

  /** The input is Trim's result with whitespace before and after it. */
  lemma TrimDecomposes(s: string)
    ensures exists a, b :: s == a + Trim(s) + b && AllWhitespace(a) && AllWhitespace(b)
  {
    WhitespaceEnds(s, TrimStart(s), TrimEnd(TrimStart(s)));
  }

  /** The leading whitespace TrimStart dropped and the trailing whitespace TrimEnd dropped surround the result. */
  lemma WhitespaceEnds(s: string, t: string, r: string)
    requires t == TrimStart(s) && r == TrimEnd(t)
    ensures exists a, b :: s == a + r + b && AllWhitespace(a) && AllWhitespace(b)
  {
    Surrounded(s, |s| - |t|, t, r);
  }

  /** A suffix `t` of `s` after whitespace, and a prefix `r` of `t` before whitespace. */
  lemma Surrounded(s: string, k: nat, t: string, r: string)
    requires k <= |s| && t == s[k..] && AllWhitespace(s[..k])
    requires |r| <= |t| && r == t[..|r|] && AllWhitespace(t[|r|..])
    ensures exists a, b :: s == a + r + b && AllWhitespace(a) && AllWhitespace(b)
  {
    var a, b := s[..k], t[|r|..];
    assert t == r + b;
    assert s == a + t;
    assert s == a + r + b && AllWhitespace(a) && AllWhitespace(b);
  }

  /** Trim gives the only trimmed, non-empty middle of a whitespace-surrounded string. */
  lemma TrimUnique(s: string, a: string, m: string, b: string)
    requires s == a + m + b && AllWhitespace(a) && AllWhitespace(b)
    requires Trimmed(m) && m != []
    ensures Trim(s) == m
  {
    var r := Trim(s);
    TrimDecomposes(s);
    var a', b' :| s == a' + r + b' && AllWhitespace(a') && AllWhitespace(b');
    if r == [] {
      Positions(s, a, m, b);
      assert false;
    }
    SameMiddle(s, a, m, b, a', r, b');
  }

  /** Two decompositions with whitespace ends and trimmed, non-empty middles agree. */
  lemma SameMiddle(s: string, a: string, m: string, b: string, a': string, r: string, b': string)
    requires s == a + m + b && AllWhitespace(a) && AllWhitespace(b) && Trimmed(m) && m != []
    requires s == a' + r + b' && AllWhitespace(a') && AllWhitespace(b') && Trimmed(r) && r != []
    ensures r == m
  {
    Positions(s, a, m, b);
    Positions(s, a', r, b');
    assert |a| == |a'| && |b| == |b'|;
    assert r == s[|a|..|s| - |b|];
  }

  /** Where the ends and the middle of `a + m + b` sit in the whole. */
  lemma Positions(s: string, a: string, m: string, b: string)
    requires s == a + m + b && AllWhitespace(a) && AllWhitespace(b) && m != []
    ensures s[|a|] == m[0] && s[|s| - |b| - 1] == m[|m| - 1]
    ensures forall i :: 0 <= i < |a| ==> IsWhitespace(s[i])
    ensures forall i :: |s| - |b| <= i < |s| ==> IsWhitespace(s[i])
    ensures s[|a|..|s| - |b|] == m
  {
    forall i | |s| - |b| <= i < |s|
      ensures IsWhitespace(s[i])
    {
      assert s[i] == b[i - (|s| - |b|)];
    }
    assert s[|a|..|s| - |b|] == m;
  }

  /**
   * The merged profile of handleSave: `input.trim() || old` for the display
   * name and the e-mail, `input || old` for the photo URL, the rest as stored.
   */
  function MergeProfile(current: UserProfile, displayName: string, email: string, photoURL: string): (merged: UserProfile)
    ensures merged.uid == current.uid && merged.quota == current.quota && merged.maxQuota == current.maxQuota
    ensures merged.displayName == if AllWhitespace(displayName) then current.displayName else Some(Trim(displayName))
    ensures merged.email == if AllWhitespace(email) then current.email else Some(Trim(email))
    ensures merged.photoURL == if photoURL == "" then current.photoURL else Some(photoURL)
  {
    var trimmedName := Trim(displayName);
    var trimmedEmail := Trim(email);
    current.(
      displayName := if trimmedName != "" then Some(trimmedName) else current.displayName,
      email := if trimmedEmail != "" then Some(trimmedEmail) else current.email,
      photoURL := if photoURL != "" then Some(photoURL) else current.photoURL)
  }

  /** The screen's initial input for a field, `user?.field || ''`. */
  function Prefill(field: Option<string>): (input: string)
    ensures input == "" <==> field.None? || field.value == ""
    ensures input != "" ==> field == Some(input)
  {
    if field.Some? then field.value else ""
  }

  /** A stored field the trim rule leaves alone. */
  predicate TrimStable(field: Option<string>)
  {
    field.None? || Trimmed(field.value) || AllWhitespace(field.value)
  }

  /** Saving the form as it was prefilled leaves a profile with trim-stable fields unchanged. */
  lemma SavingPrefilledFormKeepsProfile(user: UserProfile)
    requires TrimStable(user.displayName) && TrimStable(user.email)
    ensures MergeProfile(user, Prefill(user.displayName), Prefill(user.email), Prefill(user.photoURL)) == user
  {
    if user.displayName.Some? && !AllWhitespace(user.displayName.value) {
      assert Trim(user.displayName.value) == user.displayName.value;
    }
    if user.email.Some? && !AllWhitespace(user.email.value) {
      assert Trim(user.email.value) == user.email.value;
    }
  }

  /** A second save with the same inputs changes nothing more. */
  lemma MergeIdempotent(user: UserProfile, displayName: string, email: string, photoURL: string)
    ensures var once := MergeProfile(user, displayName, email, photoURL);
            MergeProfile(once, displayName, email, photoURL) == once
  {
  }

  /** handleSave: nothing without a signed-in user, otherwise setUser with the merged profile. */
  method HandleSave(store: Session.AuthStore, displayName: string, email: string, photoURL: string)
    modifies store`user, store.storage
    ensures old(store.user).None? ==> store.user == None && store.storage.entries == old(store.storage.entries)
    ensures old(store.user).Some? ==>
              store.user == Some(MergeProfile(old(store.user).value, displayName, email, photoURL))
              && store.storage.entries == old(store.storage.entries)[UserKey := ProfileJson(store.user.value)]
    ensures store.UserPersisted() <==> old(store.user).Some? || old(store.UserPersisted())
  {
    if store.user.None? {
      return;
    }
    var updatedUser := MergeProfile(store.user.value, displayName, email, photoURL);
    store.SetUser(Some(updatedUser));
  }
}
