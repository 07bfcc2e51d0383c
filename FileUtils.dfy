// The path-splitting functions of FileUtils. Each is find_last_of followed by substr, with
// size_t arithmetic: a missing character is npos (2^64 - 1), npos + 1 wraps to 0, and a
// negative length wraps to a huge one that substr clamps to the end of the string.

module FileUtils {
  import opened Base

  const NPOS: u64 := 0xFFFF_FFFF_FFFF_FFFF

  /** A std::string: its size is below npos. */
  type StdString = s: string | |s| < NPOS

  /** size_t arithmetic: the value modulo 2^64. */
  function Wrap(x: int): (r: u64)
    ensures 0 <= x < 0x1_0000_0000_0000_0000 ==> r == x
    ensures -0x1_0000_0000_0000_0000 <= x < 0 ==> r == x + 0x1_0000_0000_0000_0000
    ensures 0x1_0000_0000_0000_0000 <= x < 0x2_0000_0000_0000_0000 ==> r == x - 0x1_0000_0000_0000_0000
  {
    x % 0x1_0000_0000_0000_0000
  }

  /** std::string::find_last_of(c): the last index of c, or npos. */
  function FindLastOf(s: StdString, c: char): (r: u64)
    ensures r == NPOS <==> c !in s
    ensures r != NPOS ==> r < |s| && s[r] == c && LastIndex(s, c) == Some(r)
  {
    match LastIndex(s, c)
    case None => NPOS
    case Some(i) => i
  }

  /** std::string::substr(pos, count): at most count characters from pos; pos must not pass the end. */
  function Substr(s: StdString, pos: u64, count: u64): (r: StdString)
    requires pos <= |s|
    ensures |r| <= |s| - pos
    ensures count >= |s| - pos ==> r == s[pos..]
    ensures count < |s| - pos ==> r == s[pos..pos + count]
  {
    s[pos..pos + Min(count, |s| - pos)]
  }

  /** The start of the name: just after the last '/', or 0 when there is none (npos + 1 wraps). */
  function NameStart(path: StdString): (start: nat)
    ensures start <= |path|
  {
    Wrap(FindLastOf(path, '/') + 1)
  }

  function GetDirectory(path: StdString): (r: StdString)
    ensures |r| <= |path|
  {
    Substr(path, 0, FindLastOf(path, '/'))
  }

  function GetFileName(path: StdString): (r: StdString)
    ensures |r| <= |path|
  {
    Substr(path, NameStart(path), NPOS)
  }

  function GetFileExtension(path: StdString): (r: StdString)
    ensures |r| <= |path|
  {
    Substr(path, Wrap(FindLastOf(path, '.') + 1), NPOS)
  }

  function GetFileNameWithoutExtension(path: StdString): (r: StdString)
    ensures |r| <= |path|
  {
    var lastSlash, lastDot := FindLastOf(path, '/'), FindLastOf(path, '.');
    Substr(path, Wrap(lastSlash + 1), Wrap(lastDot - lastSlash - 1))
  }

  /** GetDirectory: the text before the last '/', or the whole path when there is none. */
  lemma DirectoryIsBeforeLastSlash(path: StdString)
    ensures '/' !in path ==> GetDirectory(path) == path
    ensures '/' in path ==> exists i :: LastIndex(path, '/') == Some(i) && GetDirectory(path) == path[..i]
  {
    if '/' in path {
      var i := LastIndex(path, '/').value;
      assert GetDirectory(path) == path[..i];
    }
  }

  /** GetFileName: the text after the last '/', or the whole path when there is none; it never
      holds a '/'. */
  lemma FileNameIsAfterLastSlash(path: StdString)
    ensures '/' !in path ==> GetFileName(path) == path
    ensures '/' in path ==> exists i :: LastIndex(path, '/') == Some(i) && GetFileName(path) == path[i + 1..]
    ensures '/' !in GetFileName(path)
  {
    var name := GetFileName(path);
    if '/' in path {
      var i := LastIndex(path, '/').value;
      forall k | 0 <= k < |name|
        ensures name[k] != '/'
      {
        LastIndexIsLast(path, '/', i + 1 + k);
      }
    }
  }

  /** GetFileExtension: the text after the last '.', or the whole path when there is none. */
  lemma ExtensionIsAfterLastDot(path: StdString)
    ensures '.' !in path ==> GetFileExtension(path) == path
    ensures '.' in path ==> exists i :: LastIndex(path, '.') == Some(i) && GetFileExtension(path) == path[i + 1..]
    ensures '.' !in GetFileExtension(path)
  {
    var ext := GetFileExtension(path);
    if '.' in path {
      var i := LastIndex(path, '.').value;
      forall k | 0 <= k < |ext|
        ensures ext[k] != '.'
      {
        LastIndexIsLast(path, '.', i + 1 + k);
      }
    }
  }

  /** GetFileNameWithoutExtension: from the name's start up to the last '.' when that dot lies
      in the name; otherwise (no dot, or the dot is in a directory) the whole name, because the
      length wraps around and is clamped. */
  lemma StemCases(path: StdString)
    ensures var start, dot := NameStart(path), LastIndex(path, '.');
      && (dot.Some? && dot.value >= start ==> GetFileNameWithoutExtension(path) == path[start..dot.value])
      && (dot.None? || dot.value < start ==> GetFileNameWithoutExtension(path) == path[start..])
  {
    var lastSlash: int, lastDot: int := FindLastOf(path, '/'), FindLastOf(path, '.');
    var start, count := Wrap(lastSlash + 1), Wrap(lastDot - lastSlash - 1);
    assert GetFileNameWithoutExtension(path) == Substr(path, start, count);
    if lastSlash == NPOS {
      assert start == 0;
      if lastDot == NPOS {
        assert count == NPOS;
      } else {
        assert count == lastDot;
      }
    } else if lastDot == NPOS {
      assert count == NPOS - lastSlash - 1;
    } else if lastDot > lastSlash {
      assert count == lastDot - lastSlash - 1;
    } else {
      assert count == lastDot - lastSlash - 1 + 0x1_0000_0000_0000_0000;
    }
  }

  /** With a '/', the directory, a '/' and the file name give the path back. */
  lemma DirectoryAndFileName(path: StdString)
    requires '/' in path
    ensures GetDirectory(path) + "/" + GetFileName(path) == path
  {
    var i := LastIndex(path, '/').value;
    assert path == path[..i] + [path[i]] + path[i + 1..];
  }

  /** When the last '.' is in the name, the stem, a '.' and the extension give the name back. */
  lemma StemAndExtension(path: StdString)
    requires '.' in path && LastIndex(path, '.').value >= NameStart(path)
    ensures GetFileNameWithoutExtension(path) + "." + GetFileExtension(path) == GetFileName(path)
  {
    var start, d := NameStart(path), LastIndex(path, '.').value;
    StemCases(path);
    ExtensionIsAfterLastDot(path);
    FileNameIsAfterLastSlash(path);
    StemSplit(path, start, d);
  }

  lemma StemSplit(path: string, start: nat, d: nat)
    requires start <= d < |path|
    ensures path[start..d] + [path[d]] + path[d + 1..] == path[start..]
  {
  }
}
