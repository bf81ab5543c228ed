/**
 * PathUtility: rewriting a Windows path (`C:\dir\file`) into the form WSL
 * mounts it under (`/mnt/c/dir/file`).
 */
module PathUtility {
  import opened Text

  /** The marker `convertToWslPath` looks for: a colon followed by a backslash. */
  const DriveMarker: string := [':', '\\']

  const MountPrefix: string := "/mnt/"

  /**
   * `convertToWslPath`: a path holding `:\` anywhere is taken to start with
   * its drive letter; the letter is lowered, the two chars after position 0
   * give way to the mount prefix, and every backslash becomes a slash. Any
   * other path is returned as it is.
   */
  function ConvertToWslPath(windowsPath: string): (r: string)
    ensures !Contains(windowsPath, DriveMarker) ==> r == windowsPath
    ensures Contains(windowsPath, DriveMarker) ==>
      |windowsPath| >= 2 && |r| == |windowsPath| + 4
      && r[..5] == MountPrefix && r[5] == ToLower(windowsPath[0])
  {
    if Contains(windowsPath, DriveMarker) then
      ContainsLength(windowsPath, DriveMarker);
      var drive := [ToLower(windowsPath[0])];
      var path := ReplaceChar(windowsPath[2..], '\\', '/');
      MountPrefix + drive + path
    else windowsPath
  }

  /** A converted path starts with `/mnt/`, then the drive char, and holds no backslash after it. */
  lemma ConvertedShape(windowsPath: string)
    requires Contains(windowsPath, DriveMarker)
    ensures StartsWith(ConvertToWslPath(windowsPath), MountPrefix)
    ensures '\\' !in ConvertToWslPath(windowsPath)[6..]
  {
    var r := ConvertToWslPath(windowsPath);
    assert r[..|MountPrefix|] == MountPrefix;
  }

  /** Whatever the input, the result never holds `:\`. */
  lemma ConvertedHasNoMarker(windowsPath: string)
    requires Contains(windowsPath, DriveMarker)
    ensures !Contains(ConvertToWslPath(windowsPath), DriveMarker)
  {
    var r := ConvertToWslPath(windowsPath);
    ConvertedShape(windowsPath);
    forall i: nat ensures !OccursAt(r, DriveMarker, i) {
      if i + 2 <= |r| {
        if i < 5 {
          assert r[i..i + 2][0] == r[..5][i] == MountPrefix[i] != ':';
        } else {
          assert r[i..i + 2][1] == r[6..][i - 5] != '\\';
        }
      }
    }
    NoOccurrence(r, DriveMarker);
  }

  /** Converting twice is converting once. */
  lemma ConversionIdempotent(windowsPath: string)
    ensures ConvertToWslPath(ConvertToWslPath(windowsPath)) == ConvertToWslPath(windowsPath)
  {
    if Contains(windowsPath, DriveMarker) {
      ConvertedHasNoMarker(windowsPath);
    }
  }

  /**
   * A path `d:` followed by a backslash and the rest becomes `/mnt/`, the
   * lowered drive, then the rest with its backslashes turned into slashes.
   */
  lemma DrivePath(drive: char, tail: string)
    requires tail != [] && tail[0] == '\\'
    ensures ConvertToWslPath([drive, ':'] + tail) == MountPrefix + [ToLower(drive)] + ReplaceChar(tail, '\\', '/')
  {
    var p := [drive, ':'] + tail;
    assert p[1..][..2] == DriveMarker;
    ContainsAt(p, DriveMarker, 1);
    assert p[2..] == tail;
  }
}
