/**
 * How a post card decides which media player to render: JavaScript truthiness
 * of `item.file` and `String.prototype.includes` on the stored file path.
 */
module Media {
  import opened Optional

  /** Storage folder names that mark a path as an image or as a video. */
  const ImageFolder := "postImages"
  const VideoFolder := "postVideos"

  datatype MediaKind = Image | Video

  /** `sub` occurs in `s` starting at index `i`. */
  predicate OccursAt(s: string, sub: string, i: nat)
  {
    i + |sub| <= |s| && s[i..i + |sub|] == sub
  }

  /** `s.includes(sub)`, computed by trying each start position in turn. */
  function Includes(s: string, sub: string): (r: bool)
    ensures r <==> exists i: nat :: OccursAt(s, sub, i)
    decreases |s|
  {
    if |sub| > |s| then false
    else if s[..|sub|] == sub then
      assert OccursAt(s, sub, 0);
      true
    else
      var r := Includes(s[1..], sub);
      assert forall i: nat :: OccursAt(s[1..], sub, i) ==> OccursAt(s, sub, i + 1) by {
        forall i: nat | OccursAt(s[1..], sub, i) ensures OccursAt(s, sub, i + 1) {
          assert s[1..][i..i + |sub|] == s[i + 1..i + 1 + |sub|];
        }
      }
      assert forall i: nat :: OccursAt(s, sub, i) ==> i > 0 && OccursAt(s[1..], sub, i - 1) by {
        forall i: nat | OccursAt(s, sub, i) ensures i > 0 && OccursAt(s[1..], sub, i - 1) {
          assert s[1..][i - 1..i - 1 + |sub|] == s[i..i + |sub|];
        }
      }
      r
  }

  /** `item?.file` used as a condition: present and not the empty string. */
  predicate Present(file: Option<string>): (b: bool)
    ensures b <==> file.Some? && |file.value| > 0
  {
    file.Some? && file.value != ""
  }

  /**
   * The media players a post card renders for `file`: the image test and the
   * video test are evaluated independently.
   */
  function MediaShown(file: Option<string>): (r: set<MediaKind>)
    ensures Image in r <==> file.Some? && exists i: nat :: OccursAt(file.value, ImageFolder, i)
    ensures Video in r <==> file.Some? && exists i: nat :: OccursAt(file.value, VideoFolder, i)
  {
    (if Present(file) && Includes(file.value, ImageFolder) then {Image} else {})
    + (if Present(file) && Includes(file.value, VideoFolder) then {Video} else {})
  }

  /** Any path naming both folders is rendered both as an image and as a video. */
  lemma BothPlayersForBothFolders(path: string)
    requires Includes(path, ImageFolder) && Includes(path, VideoFolder)
    ensures MediaShown(Some(path)) == {Image, Video}
  {
  }

  /** Such paths exist: the two tests do not exclude each other. */
  lemma BothFoldersExample()
    ensures MediaShown(Some("postImages/postVideos")) == {Image, Video}
  {
    var path := "postImages/postVideos";
    assert OccursAt(path, ImageFolder, 0);
    assert OccursAt(path, VideoFolder, 11);
  }

  /** An absent file, or one naming neither folder, renders no media at all. */
  lemma NoPlayerWithoutFolder(file: Option<string>)
    requires file.Some? ==> !Includes(file.value, ImageFolder) && !Includes(file.value, VideoFolder)
    ensures MediaShown(file) == {}
  {
  }
}
