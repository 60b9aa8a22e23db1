/**
 * POST and DELETE of app/api/avatar/route.ts: upload checks, the stored
 * avatar URL and the update of the session user's `image` column.
 *
 * Writing the file to disk is not part of this model; the uuid that names
 * the file is the parameter `fileId`.
 */
module Avatar {
  import opened Schema
  import opened Http
  import opened Auth
  import opened Database

  /** The `avatar` form field: its file name, MIME type and size in bytes. */
  datatype UploadedFile = UploadedFile(name: string, mimeType: string, size: int)

  const AllowedTypes: seq<string> := ["image/jpeg", "image/png", "image/webp", "image/gif"]
  const MaxSize := 5 * 1024 * 1024
  const DefaultExtension := "jpg"
  const AvatarDir := "/uploads/avatars/"

  const NotSignedIn := Reply(Unauthorized, "Unauthorized")
  const NoFile := Reply(BadRequest, "No file provided")
  const BadType := Reply(BadRequest, "Invalid file type. Only JPEG, PNG, WebP, and GIF are allowed.")
  const TooLarge := Reply(BadRequest, "File too large. Maximum size is 5MB.")
  const Uploaded := Reply(Ok, "Avatar updated successfully")
  const Removed := Reply(Ok, "Avatar removed successfully")

  /**
   * `s.split('.').pop()`: the text after the last '.', or all of `s` when it
   * has no '.'.
   */
  function LastSegment(s: string): string
    decreases |s|
  {
    if s == [] then []
    else if s[|s| - 1] == '.' then []
    else LastSegment(s[..|s| - 1]) + [s[|s| - 1]]
  }

  /** The last segment is a suffix without '.', and it is all of `s` or follows a '.'. */
  lemma {:induction false} LastSegmentSpec(s: string)
    ensures '.' !in LastSegment(s)
    ensures |LastSegment(s)| <= |s| && LastSegment(s) == s[|s| - |LastSegment(s)|..]
    ensures |LastSegment(s)| < |s| ==> s[|s| - |LastSegment(s)| - 1] == '.'
    decreases |s|
  {
    if s != [] && s[|s| - 1] != '.' {
      var init, c := s[..|s| - 1], s[|s| - 1];
      assert s == init + [c];
      LastSegmentSpec(init);
      var rest := LastSegment(init);
      assert LastSegment(s) == rest + [c];
      var k := |init| - |rest|;
      assert s[k..] == init[k..] + [c];
      if k > 0 {
        assert s[k - 1] == init[k - 1];
      }
    }
  }

  /** Those three facts pin the segment down: no other suffix has them. */
  lemma LastSegmentUnique(s: string, r: string)
    requires '.' !in r && |r| <= |s| && r == s[|s| - |r|..]
    requires |r| < |s| ==> s[|s| - |r| - 1] == '.'
    ensures r == LastSegment(s)
  {
    LastSegmentSpec(s);
  }

  /** `file.name.split('.').pop() || 'jpg'`. */
  function Extension(name: string): (ext: string)
    ensures ext != [] && '.' !in ext
    ensures LastSegment(name) != [] ==> ext == LastSegment(name)
    ensures LastSegment(name) == [] ==> ext == DefaultExtension
    ensures '.' !in name && name != [] ==> ext == name
  {
    LastSegmentSpec(name);
    var last := LastSegment(name);
    if last == [] then DefaultExtension else last
  }

  /** The extension is taken after the last '.', falls back to "jpg", and is the whole name without a '.'. */
  lemma ExtensionExamples()
    ensures Extension("me.photo.png") == "png"
    ensures Extension("avatar.") == "jpg"
    ensures Extension("avatar") == "avatar"
  {
    LastSegmentUnique("me.photo.png", "png");
    LastSegmentUnique("avatar.", "");
  }

  /**
   * The URL stored in `image` and returned: directory, uuid, '.', extension.
   * It lies under the avatar directory, and its last '.'-segment is the
   * upload's extension.
   */
  function AvatarUrl(fileId: string, name: string): (url: string)
    ensures |AvatarDir| <= |url| && url[..|AvatarDir|] == AvatarDir
    ensures LastSegment(url) == Extension(name)
  {
    var ext := Extension(name);
    var url := (AvatarDir + fileId) + "." + ext;
    assert url[..|AvatarDir|] == AvatarDir;
    assert url[|url| - |ext|..] == ext;
    assert url[|url| - |ext| - 1] == '.';
    LastSegmentUnique(url, ext);
    url
  }

  /** Deriving an extension from the stored URL gives the upload's extension back. */
  lemma UrlKeepsExtension(fileId: string, name: string)
    ensures Extension(AvatarUrl(fileId, name)) == Extension(name)
  {
  }

  /**
   * POST's checks in source order: session, file present, MIME type, size.
   * None means every check passed.
   */
  function Check(session: Option<Session>, file: Option<UploadedFile>): (r: Option<Reply>)
    ensures r.None? <==> UserId(session).Some? && file.Some? && file.value.mimeType in AllowedTypes
                         && file.value.size <= MaxSize
    ensures UserId(session).None? ==> r == Some(NotSignedIn)
    ensures UserId(session).Some? && file.None? ==> r == Some(NoFile)
    ensures UserId(session).Some? && file.Some? && file.value.mimeType !in AllowedTypes ==> r == Some(BadType)
    ensures (UserId(session).Some? && file.Some? && file.value.mimeType in AllowedTypes
             && file.value.size > MaxSize) ==> r == Some(TooLarge)
  {
    if UserId(session).None? then Some(NotSignedIn)
    else if file.None? then Some(NoFile)
    else if file.value.mimeType !in AllowedTypes then Some(BadType)
    else if file.value.size > MaxSize then Some(TooLarge)
    else None
  }

  /** A file of exactly 5 MiB in an allowed type is accepted. */
  lemma FiveMiBAccepted(session: Option<Session>, name: string)
    requires UserId(session).Some?
    ensures Check(session, Some(UploadedFile(name, "image/png", 5242880))).None?
  {
    assert AllowedTypes[1] == "image/png";
  }

  /**
   * POST: when every check passes, the session user's `image` becomes the
   * new URL, which is also returned; otherwise nothing is written. The
   * answer is 200 even when no row has the session id.
   */
  method Upload(db: Db, session: Option<Session>, file: Option<UploadedFile>, fileId: string, now: Time)
    returns (reply: Reply, avatarUrl: Option<string>)
    requires db.Valid()
    modifies db
    ensures db.Valid() && db.tokens == old(db.tokens)
    ensures Check(session, file).Some? ==>
      reply == Check(session, file).value && avatarUrl.None? && db.users == old(db.users)
    ensures Check(session, file).None? ==>
      && reply == Uploaded
      && avatarUrl == Some(AvatarUrl(fileId, file.value.name))
      && db.users == UpdateUser(old(db.users), UserId(session).value, SetImage(avatarUrl), now)
  {
    var rejected := Check(session, file);
    if rejected.Some? {
      return rejected.value, None;
    }
    var id := UserId(session).value;
    var url := AvatarUrl(fileId, file.value.name);
    UpdateKeepsValid(db.users, id, SetImage(Some(url)), now);
    db.users := UpdateUser(db.users, id, SetImage(Some(url)), now);
    reply, avatarUrl := Uploaded, Some(url);
  }

  /** DELETE: 401 without a session id; otherwise the session user's `image` becomes null. */
  method Remove(db: Db, session: Option<Session>, now: Time) returns (reply: Reply)
    requires db.Valid()
    modifies db
    ensures db.Valid() && db.tokens == old(db.tokens)
    ensures UserId(session).None? ==> reply == NotSignedIn && db.users == old(db.users)
    ensures UserId(session).Some? ==>
      reply == Removed && db.users == UpdateUser(old(db.users), UserId(session).value, SetImage(None), now)
  {
    var id := UserId(session);
    if id.None? {
      return NotSignedIn;
    }
    UpdateKeepsValid(db.users, id.value, SetImage(None), now);
    db.users := UpdateUser(db.users, id.value, SetImage(None), now);
    reply := Removed;
  }
}
