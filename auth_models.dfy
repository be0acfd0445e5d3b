// The avatar side of a user's profile: where an uploaded picture is stored, the
// URL it is served at and its removal.

module AuthModels {
  import opened Wrappers
  import opened Text

  // ---------- avatar_upload_to ----------

  /** The last position of c in s (str.rfind), or -1. */
  function RFind(s: string, c: char): (i: int)
    ensures -1 <= i < |s|
    ensures i >= 0 ==> s[i] == c
    ensures forall k :: i < k < |s| ==> s[k] != c
  {
    if s == [] then -1
    else if s[|s| - 1] == c then |s| - 1
    else RFind(s[..|s| - 1], c)
  }

  /**
   * PurePosixPath(filename).name: the last component, where empty components
   * (repeated or trailing slashes) and "." components do not count.
   */
  function PathName(filename: string): (name: string)
    ensures '/' !in name
  {
    LastComponent(Split(filename, '/'))
  }

  function LastComponent(parts: seq<string>): (name: string)
    ensures name == [] || name in parts
    ensures name != "."
  {
    if parts == [] then []
    else if parts[|parts| - 1] == [] || parts[|parts| - 1] == "." then LastComponent(parts[..|parts| - 1])
    else parts[|parts| - 1]
  }

  /** PurePath.suffix of a name: from its last '.', unless that dot is the first or the last character. */
  function NameSuffix(name: string): (r: string)
    ensures r == [] || (2 <= |r| < |name| && r[0] == '.' && '.' !in r[1..] && r == name[|name| - |r|..])
    ensures r != [] <==> exists i :: 0 < i < |name| - 1 && name[i] == '.' && '.' !in name[i + 1..]
  {
    var i := RFind(name, '.');
    if 0 < i < |name| - 1 then
      name[i..]
    else []
  }

  /** A name made of a non-empty stem, a dot and a dot-free extension has that dot and extension as its suffix. */
  lemma StemSuffix(stem: string, ext: string)
    requires stem != [] && ext != [] && '.' !in ext
    ensures NameSuffix(stem + "." + ext) == "." + ext
  {
    var name := stem + "." + ext;
    assert name[|stem|] == '.';
    assert name[|stem| + 1..] == ext;
    assert name[|stem|..] == "." + ext;
  }

  function Suffix(filename: string): (r: string)
    ensures '/' !in r
  {
    NameSuffix(PathName(filename))
  }

  const AvatarDir: string := "avatars/"

  /** avatar_upload_to: "avatars/<user id>/avatar" followed by the upload's suffix in lower case. */
  function AvatarUploadTo(userId: nat, filename: string): string {
    AvatarPath(NatToString(userId), Lower(Suffix(filename)))
  }

  function AvatarPath(idText: string, suffix: string): string {
    AvatarDir + idText + "/avatar" + suffix
  }

  /** The lower-cased suffix is empty or a dot followed by a dot-free, slash-free extension. */
  lemma LoweredSuffixShape(filename: string)
    ensures var sfx := Lower(Suffix(filename));
      '/' !in sfx && (sfx == [] || (sfx[0] == '.' && '.' !in sfx[1..]))
  {
    var raw := Suffix(filename);
    var sfx := Lower(raw);
    forall k | 0 <= k < |sfx|
      ensures sfx[k] != '/' && (k > 0 ==> sfx[k] != '.')
    {
      assert sfx[k] == LowerChar(raw[k]);
      if k > 0 {
        assert raw[1..][k - 1] == raw[k];
      }
    }
  }

  /** Every avatar is stored directly in its user's own directory, as "avatar" plus at most one extension. */
  lemma AvatarPathShape(userId: nat, filename: string)
    ensures var path := AvatarUploadTo(userId, filename);
            var dir := AvatarDir + NatToString(userId) + "/";
      StartsWith(path, dir)
      && '/' !in path[|dir|..]
      && (path[|dir|..] == "avatar" || (path[|dir|..][..7] == "avatar." && '.' !in path[|dir| + 7..]))
  {
    var d, sfx := NatToString(userId), Lower(Suffix(filename));
    LoweredSuffixShape(filename);
    AvatarPathSplit(d, sfx);
    FileInDir(AvatarDir + d + "/", sfx);
  }

  lemma AvatarPathSplit(d: string, sfx: string)
    ensures AvatarPath(d, sfx) == (AvatarDir + d + "/") + "avatar" + sfx
  {
    assert "/avatar" == "/" + "avatar";
  }

  lemma FileInDir(dir: string, sfx: string)
    requires '/' !in sfx && (sfx == [] || (sfx[0] == '.' && '.' !in sfx[1..]))
    ensures var path := dir + "avatar" + sfx;
      StartsWith(path, dir)
      && '/' !in path[|dir|..]
      && (path[|dir|..] == "avatar" || (path[|dir|..][..7] == "avatar." && '.' !in path[|dir| + 7..]))
  {
    var path := dir + "avatar" + sfx;
    assert path[..|dir|] == dir;
    assert path[|dir|..] == "avatar" + sfx;
    if sfx != [] {
      assert ("avatar" + sfx)[..7] == "avatar.";
      assert path[|dir| + 7..] == sfx[1..];
    }
  }

  /** A name whose only dot is its first character (".profile") has no suffix. */
  lemma DotFileHasNoSuffix(filename: string)
    requires PathName(filename) != [] && PathName(filename)[0] == '.'
    requires '.' !in PathName(filename)[1..]
    ensures Suffix(filename) == []
  {
  }

  /** An upload without an extension lands at exactly "avatars/<user id>/avatar". */
  lemma NoExtension(userId: nat, filename: string)
    requires '.' !in PathName(filename)
    ensures AvatarUploadTo(userId, filename) == AvatarDir + NatToString(userId) + "/avatar"
  {
  }

  /** The extension keeps its letters but loses its capitals: "photo.JPG" and "photo.jpg" land together. */
  lemma ExtensionLowered(userId: nat, a: string, b: string)
    requires Lower(Suffix(a)) == Lower(Suffix(b))
    ensures AvatarUploadTo(userId, a) == AvatarUploadTo(userId, b)
  {
  }

  /**
   * The path format: an upload whose name is a stem, a dot and a dot-free extension is
   * stored as "avatars/<user id>/avatar." followed by the extension in lower case.
   */
  lemma AvatarKeepsExtension(userId: nat, filename: string, stem: string, ext: string)
    requires PathName(filename) == stem + "." + ext && stem != [] && ext != [] && '.' !in ext
    ensures AvatarUploadTo(userId, filename) == AvatarDir + NatToString(userId) + "/avatar." + Lower(ext)
  {
    StemSuffix(stem, ext);
    assert Suffix(filename) == "." + ext;
    LowerAfterDot(ext);
    AvatarPathDot(NatToString(userId), Lower(ext));
  }

  lemma AvatarPathDot(d: string, e: string)
    ensures AvatarPath(d, "." + e) == AvatarDir + d + "/avatar." + e
  {
    assert "/avatar" + "." == "/avatar.";
  }

  lemma LowerAfterDot(ext: string)
    ensures Lower("." + ext) == "." + Lower(ext)
  {
    assert ("." + ext)[1..] == ext;
  }

  /** The documented example: an upload named "<stem>.jpg" by user 42 is stored as avatars/42/avatar.jpg. */
  lemma JpgOfUser42(filename: string, stem: string)
    requires PathName(filename) == stem + ".jpg" && stem != []
    ensures AvatarUploadTo(42, filename) == "avatars/42/avatar.jpg"
  {
    assert stem + "." + "jpg" == stem + ".jpg";
    AvatarKeepsExtension(42, filename, stem, "jpg");
    LowerUnchanged("jpg");
    PathOf42();
  }

  lemma PathOf42()
    ensures AvatarDir + NatToString(42) + "/avatar." + "jpg" == "avatars/42/avatar.jpg"
  {
    assert NatToString(42) == "42";
  }

  /** Two users never share an avatar path. */
  lemma AvatarPathsPerUser(a: nat, fa: string, b: nat, fb: string)
    requires AvatarUploadTo(a, fa) == AvatarUploadTo(b, fb)
    ensures a == b
  {
    SameDigits(NatToString(a), Lower(Suffix(fa)), NatToString(b), Lower(Suffix(fb)));
    NatToStringInjective(a, b);
  }

  lemma SameDigits(da: string, sa: string, db: string, sb: string)
    requires AllDigits(da) && AllDigits(db)
    requires AvatarPath(da, sa) == AvatarPath(db, sb)
    ensures da == db
  {
    var ta, tb := "/avatar" + sa, "/avatar" + sb;
    assert AvatarPath(da, sa) == AvatarDir + da + ta;
    assert AvatarPath(db, sb) == AvatarDir + db + tb;
    assert (AvatarDir + da + ta)[|AvatarDir|..] == da + ta;
    assert (AvatarDir + db + tb)[|AvatarDir|..] == db + tb;
    DigitsUpToSlash(da, ta);
    DigitsUpToSlash(db, tb);
  }

  /** The digits of the id are what comes before the first '/'. */
  lemma DigitsUpToSlash(d: string, tail: string)
    requires AllDigits(d)
    requires tail != [] && tail[0] == '/'
    ensures (d + tail)[..FirstSlash(d + tail)] == d
  {
    FirstSlashAt(d + tail, |d|);
    assert (d + tail)[..|d|] == d;
  }

  /** The position of the first '/' in s, or |s|. */
  function FirstSlash(s: string): (i: nat)
    ensures i <= |s|
    ensures forall k :: 0 <= k < i ==> s[k] != '/'
  {
    if s == [] then 0 else if s[0] == '/' then 0 else 1 + FirstSlash(s[1..])
  }

  lemma {:induction false} FirstSlashAt(s: string, i: nat)
    requires i < |s| && s[i] == '/'
    requires forall k :: 0 <= k < i ==> s[k] != '/'
    ensures FirstSlash(s) == i
  {
    if i > 0 {
      FirstSlashAt(s[1..], i - 1);
    }
  }

  // ---------- UserProfile ----------

  /** The media storage the avatar files live in: the names of the stored files. */
  class MediaStorage {
    var files: set<string>

    constructor(files0: set<string>)
      ensures files == files0
    {
      files := files0;
    }
  }

  /**
   * UserProfile: the owning user's id, the avatar field's file name (None for NULL, ""
   * for an empty field) and the avatar as last saved to the database.
   */
  class UserProfile {
    var userId: nat
    var avatar: Option<string>
    var savedAvatar: Option<string>

    constructor(userId0: nat, avatar0: Option<string>)
      ensures userId == userId0 && avatar == avatar0 && savedAvatar == avatar0
    {
      userId := userId0;
      avatar := avatar0;
      savedAvatar := avatar0;
    }

    /** `if self.avatar`: a file field is truthy when it names a file. */
    predicate HasAvatar()
      reads this
    {
      avatar.Some? && avatar.value != []
    }

    /**
     * get_avatar_url: the storage URL of the avatar (the media URL prefix followed by
     * the file name), or None without an avatar.
     */
    function AvatarUrl(mediaUrl: string): (r: Option<string>)
      reads this
      ensures r.None? <==> !HasAvatar()
      ensures r.Some? ==> StartsWith(r.value, mediaUrl) && r.value[|mediaUrl|..] == avatar.value
    {
      if HasAvatar() then Some(mediaUrl + avatar.value) else None
    }

    /**
     * delete_avatar: with an avatar, its file is removed from storage and the field is
     * cleared and saved; without one nothing happens.
     */
    method DeleteAvatar(storage: MediaStorage)
      modifies this, storage
      ensures old(HasAvatar()) ==> storage.files == old(storage.files) - {old(avatar.value)}
      ensures old(HasAvatar()) ==> avatar.None? && savedAvatar.None?
      ensures !old(HasAvatar()) ==> storage.files == old(storage.files) && avatar == old(avatar) && savedAvatar == old(savedAvatar)
      ensures userId == old(userId)
      ensures !HasAvatar() && AvatarUrl("").None?
    {
      if HasAvatar() {
        storage.files := storage.files - {avatar.value};
        avatar := None;
        savedAvatar := avatar;
      }
    }
  }
}
