/**
 * screens/chat/ProfileScreen.tsx: the validation of the edited display
 * name, when saving is allowed, what a save sends, and the cache-busting of
 * the refreshed avatar urls.
 */
module Profile {
  import opened Wrappers
  import opened Text
  import opened Domain

  const MinNameLength := 3
  const MaxNameLength := 32
  const NameTooShort := "Name must be at least 3 characters."
  const NameTooLong := "Name is too long."

  /** The current name to compare against: the signed-in user's, or "" without one. */
  function CurrentName(userName: Option<string>): string {
    userName.GetOr("")
  }

  /**
   * `nameError`: no error for an unchanged (trimmed) name; otherwise an
   * error when the trimmed name is shorter than 3 or longer than 32 UTF-16
   * code units.
   */
  function NameError(name: string, userName: Option<string>): (e: Option<string>)
    ensures Trim(name) == CurrentName(userName) ==> e.None?
    ensures Trim(name) != CurrentName(userName) ==>
      (e.None? <==> MinNameLength <= Utf16Length(Trim(name)) <= MaxNameLength)
    ensures e.Some? ==> e.value == if Utf16Length(Trim(name)) < MinNameLength then NameTooShort else NameTooLong
  {
    var trimmed := Trim(name);
    if trimmed == CurrentName(userName) then None
    else if Utf16Length(trimmed) < MinNameLength then Some(NameTooShort)
    else if Utf16Length(trimmed) > MaxNameLength then Some(NameTooLong)
    else None
  }

  /** `isDirty`: the trimmed name differs from the current one, or a new image is picked. */
  predicate IsDirty(name: string, userName: Option<string>, imageSelected: bool) {
    Trim(name) != CurrentName(userName) || imageSelected
  }

  /** `canSave`. */
  predicate CanSave(name: string, userName: Option<string>, imageSelected: bool, isSaving: bool) {
    IsDirty(name, userName, imageSelected) && NameError(name, userName).None? && !isSaving
  }

  /**
   * Saving is possible exactly when nothing is in flight and either a new
   * image is picked and the name is unchanged or valid, or the name changed
   * to a valid one.
   */
  lemma CanSaveIff(name: string, userName: Option<string>, imageSelected: bool, isSaving: bool)
    ensures CanSave(name, userName, imageSelected, isSaving) <==>
      && !isSaving
      && (Trim(name) == CurrentName(userName) || MinNameLength <= Utf16Length(Trim(name)) <= MaxNameLength)
      && (Trim(name) != CurrentName(userName) || imageSelected)
  {
  }

  // ---------------------------------------------------------------------------
  // Saving

  /** `UploadableImage`: a picked image file. */
  datatype Upload = Upload(uri: string, name: string, mimeType: string)

  /** The body of `updateProfile`: the new name and the new avatar, each only when there is one. */
  datatype ProfileUpdate = ProfileUpdate(name: Option<string>, avatar: Option<Upload>)

  /** `handleSave`'s request: none without a user or when saving is not allowed. */
  function SavePayload(user: Option<User>, name: string, selected: Option<Upload>, isSaving: bool): (p: Option<ProfileUpdate>)
    ensures p.Some? <==> user.Some? && CanSave(name, Some(user.value.name), selected.Some?, isSaving)
    ensures p.Some? ==> p.value.avatar == selected
  {
    if user.None? || !CanSave(name, Some(user.value.name), selected.Some?, isSaving) then None
    else
      var trimmed := Trim(name);
      Some(ProfileUpdate(if trimmed != user.value.name then Some(trimmed) else None, selected))
  }

  /**
   * A save never sends an empty update, sends a name only when the trimmed
   * name differs from the user's, and then sends that trimmed name, which
   * is between 3 and 32 code units long.
   */
  lemma SavePayloadFacts(user: Option<User>, name: string, selected: Option<Upload>, isSaving: bool)
    ensures var p := SavePayload(user, name, selected, isSaving);
      p.Some? ==> p.value.name.Some? || p.value.avatar.Some?
    ensures var p := SavePayload(user, name, selected, isSaving);
      p.Some? ==> (p.value.name.Some? <==> Trim(name) != user.value.name)
    ensures var p := SavePayload(user, name, selected, isSaving);
      p.Some? && p.value.name.Some? ==>
        && p.value.name.value == Trim(name)
        && MinNameLength <= Utf16Length(p.value.name.value) <= MaxNameLength
  {
  }

  // ---------------------------------------------------------------------------
  // Cache busting

  /** `append`: the timestamp as a query parameter, joined with `&` when the url already has a query. */
  function AppendTs(url: string, ts: nat): (r: string)
    ensures |r| > |url| && r[..|url|] == url
    ensures r[|url|..] == (if Contains(url, "?") then "&t=" else "?t=") + NatToString(ts)
  {
    url + (if Contains(url, "?") then "&t=" else "?t=") + NatToString(ts)
  }

  lemma ContainsAppended(a: string, b: string, sub: string)
    requires Contains(a, sub)
    ensures Contains(a + b, sub)
  {
    var i :| OccursAt(a, sub, i);
    assert (a + b)[i..i + |sub|] == a[i..i + |sub|];
    assert OccursAt(a + b, sub, i);
  }

  /** Every busted url carries a query, so busting it again appends with `&`. */
  lemma AppendTsHasQuery(url: string, ts: nat)
    ensures Contains(AppendTs(url, ts), "?")
  {
    var r := AppendTs(url, ts);
    if Contains(url, "?") {
      ContainsAppended(url, r[|url|..], "?");
      assert url + r[|url|..] == r;
    } else {
      assert r[|url|] == '?';
      assert r[|url|..|url| + 1] == "?";
      assert OccursAt(r, "?", |url|);
    }
  }

  lemma AppendTsTwice(url: string, ts1: nat, ts2: nat)
    ensures AppendTs(AppendTs(url, ts1), ts2) == AppendTs(url, ts1) + "&t=" + NatToString(ts2)
  {
    AppendTsHasQuery(url, ts1);
  }

  /** `withCacheBust`: no avatar stays none; each of the three urls gets the same timestamp. */
  function WithCacheBust(avatar: Option<AvatarSet>, ts: nat): (r: Option<AvatarSet>)
    ensures r.None? <==> avatar.None?
    ensures r.Some? ==>
      && r.value.original == AppendTs(avatar.value.original, ts)
      && r.value.medium == AppendTs(avatar.value.medium, ts)
      && r.value.small == AppendTs(avatar.value.small, ts)
  {
    match avatar
    case None => None
    case Some(a) => Some(AvatarSet(AppendTs(a.original, ts), AppendTs(a.medium, ts), AppendTs(a.small, ts)))
  }

  /** The avatar stored after a successful save: busted only when a new image was uploaded. */
  function AvatarAfterSave(avatarChanged: bool, latest: Option<AvatarSet>, ts: nat): (r: Option<AvatarSet>)
    ensures !avatarChanged ==> r == latest
    ensures r.None? <==> latest.None?
    ensures avatarChanged && latest.Some? ==> r == WithCacheBust(latest, ts)
  {
    if avatarChanged && latest.Some? then WithCacheBust(latest, ts) else latest
  }

  /** A busted url differs from the url it came from, so the image cache cannot serve the old picture. */
  lemma CacheBustChangesUrls(a: AvatarSet, ts: nat)
    ensures var b := WithCacheBust(Some(a), ts).value;
      b.original != a.original && b.medium != a.medium && b.small != a.small
  {
  }
}
