/**
 * src/components/ProfileManager.tsx: the profile form. It starts from the
 * signed-in account's metadata, accepts an image file as the new avatar when
 * it is an image of at most 5 MiB, edits single fields, and on save writes the
 * three profile fields into the account's `user_metadata`, meaning to publish
 * the result to the auth context and to storage under `user`. The auth context
 * offers no `setUser`, so as written the save throws at that call and reports
 * failure; the save it was meant to be is kept beside it.
 */
module ProfileManager {
  import opened Wrappers
  import opened Text
  import opened Identity

  /** The account record as the form spreads it: `email`, the other top-level fields, and `user_metadata`. */
  datatype Account = Account(email: Option<string>, fields: map<string, string>, metadata: map<string, string>)

  /** The form state `profileData`. */
  datatype ProfileData = ProfileData(name: string, displayName: string, avatarUrl: string)

  /** The keys `handleInputChange` is given. */
  datatype ProfileField = Name | DisplayName | AvatarUrl

  /** The chosen file's `type` and `size` in bytes. */
  datatype ImageFile = ImageFile(mimeType: string, size: int)

  /** What the upload handler did; the two rejections show a toast. */
  datatype UploadResult = NoFile | InvalidType | TooLarge | Accepted

  /** `5 * 1024 * 1024` bytes. */
  const MaxImageBytes: int := 5242880

  /** `user?.user_metadata?.[key]`. */
  function Meta(user: Option<Account>, key: string): (r: Option<string>)
    ensures r.Some? <==> user.Some? && key in user.value.metadata
    ensures r.Some? ==> r.value == user.value.metadata[key]
  {
    if user.Some? && key in user.value.metadata then Some(user.value.metadata[key]) else None
  }

  /** `user?.email?.split('@')[0]`. */
  function LocalOf(user: Option<Account>): (r: Option<string>)
    ensures r.Some? <==> user.Some? && user.value.email.Some?
    ensures r.Some? ==> r.value == LocalPart(user.value.email.value)
  {
    if user.Some? then EmailLocalPart(user.value.email) else None
  }

  /** The initial `profileData`: each name from its metadata field, else the email's local part, else "". */
  function InitialProfile(user: Option<Account>): (p: ProfileData)
    ensures Truthy(Meta(user, "name")) ==> p.name == Meta(user, "name").value
    ensures !Truthy(Meta(user, "name")) ==> p.name == Or(LocalOf(user), "")
    ensures Truthy(Meta(user, "display_name")) ==> p.displayName == Meta(user, "display_name").value
    ensures !Truthy(Meta(user, "display_name")) ==> p.displayName == Or(LocalOf(user), "")
    ensures p.avatarUrl == Or(Meta(user, "avatar_url"), "")
    ensures user.None? ==> p == ProfileData("", "", "")
  {
    ProfileData(
      Or(Meta(user, "name"), Or(LocalOf(user), "")),
      Or(Meta(user, "display_name"), Or(LocalOf(user), "")),
      Or(Meta(user, "avatar_url"), ""))
  }

  /** The checks of `handleImageUpload`, in order: a file, an `image/` type, at most 5 MiB. */
  function CheckImage(file: Option<ImageFile>): (r: UploadResult)
    ensures r == Accepted <==> file.Some? && StartsWith(file.value.mimeType, "image/") && file.value.size <= MaxImageBytes
    ensures r == NoFile <==> file.None?
    ensures r == InvalidType <==> file.Some? && !StartsWith(file.value.mimeType, "image/")
  {
    match file
    case None => NoFile
    case Some(f) =>
      if !StartsWith(f.mimeType, "image/") then InvalidType
      else if f.size > MaxImageBytes then TooLarge
      else Accepted
  }

  /** The size limit is inclusive: an image of exactly 5 MiB is taken, one byte more is not. */
  lemma SizeLimitInclusive(mimeType: string)
    requires StartsWith(mimeType, "image/")
    ensures CheckImage(Some(ImageFile(mimeType, MaxImageBytes))) == Accepted
    ensures CheckImage(Some(ImageFile(mimeType, MaxImageBytes + 1))) == TooLarge
  {
  }

  /** `setProfileData(prev => ({ ...prev, [field]: value }))`. */
  function WithField(p: ProfileData, field: ProfileField, value: string): (q: ProfileData)
    ensures field == Name ==> q.name == value && q.displayName == p.displayName && q.avatarUrl == p.avatarUrl
    ensures field == DisplayName ==> q.displayName == value && q.name == p.name && q.avatarUrl == p.avatarUrl
    ensures field == AvatarUrl ==> q.avatarUrl == value && q.name == p.name && q.displayName == p.displayName
  {
    match field
    case Name => p.(name := value)
    case DisplayName => p.(displayName := value)
    case AvatarUrl => p.(avatarUrl := value)
  }

  /** Setting a field to what it already holds changes nothing; setting it twice keeps the last value. */
  lemma WithFieldLastWins(p: ProfileData, field: ProfileField, a: string, b: string)
    ensures WithField(WithField(p, field, a), field, b) == WithField(p, field, b)
  {
  }

  /** The `updatedUser` of `handleSaveProfile`: the account spread, its metadata spread with the three fields on top. */
  function Saved(user: Option<Account>, p: ProfileData): (a: Account)
    ensures a.metadata.Keys == (if user.Some? then user.value.metadata.Keys else {}) + {"name", "display_name", "avatar_url"}
    ensures a.metadata["name"] == p.name && a.metadata["display_name"] == p.displayName
    ensures a.metadata["avatar_url"] == p.avatarUrl
    ensures user.Some? ==> a.email == user.value.email && a.fields == user.value.fields
    ensures user.None? ==> a.email.None? && a.fields == map[]
  {
    var base := if user.Some? then user.value else Account(None, map[], map[]);
    base.(metadata := base.metadata["name" := p.name]["display_name" := p.displayName]["avatar_url" := p.avatarUrl])
  }

  /** Saving leaves every other metadata key as it was. */
  lemma SavedKeepsOtherMetadata(u: Account, p: ProfileData, k: string)
    requires k in u.metadata && k != "name" && k != "display_name" && k != "avatar_url"
    ensures Saved(Some(u), p).metadata[k] == u.metadata[k]
  {
  }

  /** A saved profile with all three fields set is what the form starts from when it next opens on that account. */
  lemma SaveThenReopen(user: Option<Account>, p: ProfileData)
    requires p.name != "" && p.displayName != ""
    ensures InitialProfile(Some(Saved(user, p))) == p
  {
  }

  /** The toast a save ends with: "Profile updated!" or the destructive "Error". */
  datatype SaveToast = ProfileUpdated | UpdateFailed

  /** What a save can change outside the form: the context's user and the `user` storage slot. */
  datatype Published = Published(user: Option<Account>, storedUser: Option<Account>)

  /**
   * The save as written: the auth context has no `setUser`, so the call to it
   * throws before storage is written, and the catch shows the failure toast.
   */
  function SaveAsWritten(before: Published, p: ProfileData): (r: (Published, SaveToast))
    ensures r.0 == before && r.1 == UpdateFailed
  {
    (before, UpdateFailed)
  }

  /** The save with a working `setUser`: the merged account goes to the context and to storage. */
  function SaveCorrected(before: Published, p: ProfileData): (r: (Published, SaveToast))
    ensures r.0.user == Some(Saved(before.user, p)) && r.0.storedUser == r.0.user
    ensures r.1 == ProfileUpdated
  {
    var a := Saved(before.user, p);
    (Published(Some(a), Some(a)), ProfileUpdated)
  }

  /**
   * As written, an edited profile is lost: reopening the form on the account
   * shows the old values, where the corrected save shows the edit.
   */
  lemma AsWrittenLosesEdit(before: Published, p: ProfileData)
    requires p.name != "" && p.displayName != "" && InitialProfile(before.user) != p
    ensures SaveAsWritten(before, p).1 == UpdateFailed && SaveCorrected(before, p).1 == ProfileUpdated
    ensures InitialProfile(SaveAsWritten(before, p).0.user) != p
    ensures InitialProfile(SaveCorrected(before, p).0.user) == p
  {
    SaveThenReopen(before.user, p);
  }

  /** The form instance: its state, the context's user, the file input's value and the `user` storage slot. */
  class ProfileForm {
    var profile: ProfileData
    var previewUrl: Option<string>
    var isUploading: bool
    var user: Option<Account>
    var fileInput: string
    var storedUser: Option<Account>

    constructor (user: Option<Account>, storedUser: Option<Account>)
      ensures this.user == user && this.storedUser == storedUser
      ensures profile == InitialProfile(user) && previewUrl.None? && !isUploading && fileInput == ""
    {
      this.user := user;
      this.storedUser := storedUser;
      profile := InitialProfile(user);
      previewUrl := None;
      isUploading := false;
      fileInput := "";
    }

    /** `handleImageUpload`; `objectUrl` stands for `URL.createObjectURL(file)`. */
    method HandleImageUpload(file: Option<ImageFile>, objectUrl: string) returns (r: UploadResult)
      modifies this
      ensures r == CheckImage(file)
      ensures user == old(user) && storedUser == old(storedUser) && isUploading == old(isUploading)
      ensures fileInput == old(fileInput)
      ensures r == Accepted ==> previewUrl == Some(objectUrl) && profile == WithField(old(profile), AvatarUrl, objectUrl)
      ensures r != Accepted ==> previewUrl == old(previewUrl) && profile == old(profile)
    {
      r := CheckImage(file);
      if r == Accepted {
        previewUrl := Some(objectUrl);
        profile := profile.(avatarUrl := objectUrl);
      }
    }

    /** `handleRemoveImage`: no preview, no avatar, and the file input emptied. */
    method HandleRemoveImage()
      modifies this
      ensures previewUrl.None? && profile == WithField(old(profile), AvatarUrl, "") && fileInput == ""
      ensures user == old(user) && storedUser == old(storedUser) && isUploading == old(isUploading)
    {
      previewUrl := None;
      profile := profile.(avatarUrl := "");
      fileInput := "";
    }

    /** `handleInputChange(field, value)`. */
    method HandleInputChange(field: ProfileField, value: string)
      modifies this
      ensures profile == WithField(old(profile), field, value)
      ensures previewUrl == old(previewUrl) && user == old(user) && storedUser == old(storedUser)
      ensures isUploading == old(isUploading) && fileInput == old(fileInput)
    {
      profile := WithField(profile, field, value);
    }

    /** `handleSaveProfile` as written: the call to `setUser` throws, nothing is published and the failure toast shows. */
    method HandleSaveProfile() returns (toast: SaveToast)
      modifies this
      ensures (Published(user, storedUser), toast) == SaveAsWritten(Published(old(user), old(storedUser)), old(profile))
      ensures user == old(user) && storedUser == old(storedUser) && toast == UpdateFailed
      ensures !isUploading
      ensures profile == old(profile) && previewUrl == old(previewUrl) && fileInput == old(fileInput)
    {
      isUploading := true;
      // `setUser` is not part of the auth context: calling it throws here, before storage is written.
      toast := UpdateFailed;
      isUploading := false;
    }

    /** `handleSaveProfile` with a working `setUser`: the merged account goes to the context and to storage. */
    method HandleSaveProfileCorrected() returns (toast: SaveToast)
      modifies this
      ensures (Published(user, storedUser), toast) == SaveCorrected(Published(old(user), old(storedUser)), old(profile))
      ensures user == Some(Saved(old(user), old(profile))) && storedUser == user && toast == ProfileUpdated
      ensures !isUploading
      ensures profile == old(profile) && previewUrl == old(previewUrl) && fileInput == old(fileInput)
    {
      isUploading := true;
      var updated := Saved(user, profile);
      user := Some(updated);
      storedUser := Some(updated);
      toast := ProfileUpdated;
      isUploading := false;
    }
  }
}
