/** The avatar hooks: `useUpdateAvatar`'s checks and storage path, and
    `useAvatar`'s search for an existing avatar. Storage, the profile table and
    the HEAD probe are oracles passed in as parameters. */
module Avatar {
  import opened Wrappers
  import opened Text

  /** The parts of a browser `File` the checks read; `size` is in bytes. */
  datatype File = File(name: string, mimeType: string, size: nat)

  /** The errors `useUpdateAvatar` throws, in the order it checks for them. */
  datatype AvatarError =
    | NoUser
    | NoFile
    | UnsupportedType
    | TooLarge
    | UploadFailed
    | ProfileUpdateFailed

  const AllowedTypes: seq<string> := ["image/jpeg", "image/jpg", "image/png", "image/webp"]

  /** 5 MiB. */
  const MaxSize: nat := 5 * 1024 * 1024

  /** `user?.id` is truthy: a user is present and the id is not empty. */
  predicate HasUserId(user: Option<string>) {
    user.Some? && user.value != ""
  }

  /** The type and size checks, in that order. */
  function CheckFile(file: File): (e: Option<AvatarError>)
    ensures e == None <==> file.mimeType in AllowedTypes && file.size <= MaxSize
    ensures file.mimeType !in AllowedTypes ==> e == Some(UnsupportedType)
    ensures file.mimeType in AllowedTypes && file.size > MaxSize ==> e == Some(TooLarge)
  {
    if file.mimeType !in AllowedTypes then Some(UnsupportedType)
    else if file.size > MaxSize then Some(TooLarge)
    else None
  }

  /** The size limit is inclusive: 5 242 880 bytes pass, one byte more fails. */
  lemma SizeLimitBoundary(name: string)
    ensures CheckFile(File(name, "image/png", 5242880)) == None
    ensures CheckFile(File(name, "image/png", 5242881)) == Some(TooLarge)
  {
  }

  /** `name.split(".").pop()?.toLowerCase()`. */
  function FileExtension(name: string): (ext: string)
    ensures '.' !in ext
    ensures '.' !in name ==> ext == Lower(name)
  {
    var parts := Split(name, '.');
    var last := parts[|parts| - 1];
    LowerKeepsDots(last);
    assert '.' !in name ==> parts == [name] by {
      if '.' !in name { SplitWithoutSeparator(name, '.'); }
    }
    Lower(last)
  }

  /** The extension is the lower-cased text after the last '.' of the name, or
      the whole lower-cased name when it has no '.'. */
  lemma FileExtensionIsLastSegment(name: string)
    ensures '.' !in FileExtension(name)
    ensures '.' !in name ==> FileExtension(name) == Lower(name)
    ensures '.' in name ==>
      var n := |FileExtension(name)|;
      n < |name| && name[|name| - n - 1] == '.' && Lower(name[|name| - n..]) == FileExtension(name)
  {
    var parts := Split(name, '.');
    var last := parts[|parts| - 1];
    assert '.' !in last;
    if '.' in name {
      JoinSplit(name, '.');
      JoinLast(parts, '.');
      var front := Join(parts[..|parts| - 1], '.');
      assert name == front + ['.'] + last;
      assert name[|name| - |last|..] == last;
    } else {
      SplitWithoutSeparator(name, '.');
    }
    LowerKeepsDots(last);
  }

  lemma LowerKeepsDots(s: string)
    requires '.' !in s
    ensures '.' !in Lower(s)
  {
    forall i | 0 <= i < |s|
      ensures Lower(s)[i] != '.'
    {
      assert s[i] != '.';
    }
  }

  /** The storage path `${user.id}.${fileExt}`. */
  function AvatarPath(userId: string, fileName: string): (path: string)
    ensures '.' !in userId ==> Split(path, '.') == [userId, FileExtension(fileName)]
  {
    var ext := FileExtension(fileName);
    var path := userId + "." + ext;
    SplitConcat(userId, ext, '.');
    SplitWithoutSeparator(ext, '.');
    assert '.' !in userId ==> Split(userId, '.') == [userId] by {
      if '.' !in userId { SplitWithoutSeparator(userId, '.'); }
    }
    path
  }

  /** What one call of the upload mutation did: its result (the public URL or the
      error thrown), the path it uploaded to, and whether it went on to upsert the
      profile row (which can itself fail). */
  datatype UploadTrace = UploadTrace(
    result: Result<string, AvatarError>,
    uploadedTo: Option<string>,
    profileAttempted: bool)

  /** `useUpdateAvatar`'s mutation. `uploadOk` and `profileOk` say whether the
      storage upload and the profile upsert succeed; `publicUrl` is the
      storage's `getPublicUrl`. */
  function UpdateAvatar(user: Option<string>, file: Option<File>, uploadOk: bool, profileOk: bool,
                        publicUrl: string -> string): (t: UploadTrace)
    ensures t.uploadedTo.Some? <==>
      HasUserId(user) && file.Some? && CheckFile(file.value) == None
    ensures t.uploadedTo.Some? ==> t.uploadedTo.value == AvatarPath(user.value, file.value.name)
    ensures t.profileAttempted <==> t.uploadedTo.Some? && uploadOk
    ensures t.result.Success? <==> t.profileAttempted && profileOk
    ensures t.result.Success? ==> t.result.value == publicUrl(t.uploadedTo.value)
  {
    if !HasUserId(user) then UploadTrace(Failure(NoUser), None, false)
    else if file.None? then UploadTrace(Failure(NoFile), None, false)
    else match CheckFile(file.value)
      case Some(e) => UploadTrace(Failure(e), None, false)
      case None =>
        var path := AvatarPath(user.value, file.value.name);
        if !uploadOk then UploadTrace(Failure(UploadFailed), Some(path), false)
        else if !profileOk then UploadTrace(Failure(ProfileUpdateFailed), Some(path), true)
        else UploadTrace(Success(publicUrl(path)), Some(path), true)
  }

  /** The first failing check decides the error: a missing user before a
      missing file, both before the file's type, the type before its size,
      and an upload error before any attempt at the profile row. */
  lemma UpdateAvatarErrorOrder(user: Option<string>, file: Option<File>, uploadOk: bool, profileOk: bool,
                               publicUrl: string -> string)
    ensures var t := UpdateAvatar(user, file, uploadOk, profileOk, publicUrl);
      (!HasUserId(user) ==> t.result == Failure(NoUser)) &&
      (HasUserId(user) && file.None? ==> t.result == Failure(NoFile)) &&
      (HasUserId(user) && file.Some? && CheckFile(file.value).Some? ==>
         t.result == Failure(CheckFile(file.value).value)) &&
      (t.uploadedTo.Some? && !uploadOk ==> t.result == Failure(UploadFailed) && !t.profileAttempted) &&
      (t.profileAttempted && !profileOk ==> t.result == Failure(ProfileUpdateFailed))
  {
  }

  /** The extensions `useAvatar` tries, in order. */
  const AvatarExtensions: seq<string> := ["jpg", "jpeg", "png", "webp", "gif"]

  /** The avatar stored under `ext` exists: its public URL is not empty and a
      HEAD request for it answers ok. */
  ghost predicate Found(userId: string, ext: string, publicUrl: string -> string, headOk: string -> bool) {
    var url := publicUrl(userId + "." + ext);
    url != "" && headOk(url)
  }

  /** `useAvatar`'s query: no lookup at all without a user id; otherwise the URL
      of the first extension whose file exists, and `tried` extensions looked up. */
  method FindAvatar(userId: Option<string>, publicUrl: string -> string, headOk: string -> bool)
    returns (url: Option<string>, tried: nat)
    ensures !HasUserId(userId) ==> url == None && tried == 0
    ensures HasUserId(userId) ==>
      (url.None? <==> forall k :: 0 <= k < |AvatarExtensions| ==>
                        !Found(userId.value, AvatarExtensions[k], publicUrl, headOk))
    ensures url.Some? ==>
      1 <= tried <= |AvatarExtensions| &&
      url.value == publicUrl(userId.value + "." + AvatarExtensions[tried - 1]) &&
      Found(userId.value, AvatarExtensions[tried - 1], publicUrl, headOk) &&
      forall k :: 0 <= k < tried - 1 ==> !Found(userId.value, AvatarExtensions[k], publicUrl, headOk)
    ensures HasUserId(userId) && url.None? ==> tried == |AvatarExtensions|
  {
    if !HasUserId(userId) {
      return None, 0;
    }
    var id := userId.value;
    tried := 0;
    while tried < |AvatarExtensions|
      invariant 0 <= tried <= |AvatarExtensions|
      invariant forall k :: 0 <= k < tried ==> !Found(id, AvatarExtensions[k], publicUrl, headOk)
    {
      var candidate := publicUrl(id + "." + AvatarExtensions[tried]);
      tried := tried + 1;
      if candidate != "" && headOk(candidate) {
        return Some(candidate), tried;
      }
    }
    url := None;
  }
}
