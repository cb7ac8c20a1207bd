/** The two `System.IO.Path` routines the converter relies on for file names:
    `ChangeExtension` and `GetExtension`. */
module Path {
  import opened Common

  /** Both directory separators of Windows paths. */
  predicate IsDirectorySeparator(c: char) {
    c == '/' || c == '\\'
  }

  /** Scanning `path[..i]` from its end: the index of the last '.' that has no directory
      separator after it. */
  function LastDot(path: string, i: nat): (r: Option<nat>)
    requires i <= |path|
    ensures r.Some? ==> r.value < i && path[r.value] == '.'
    ensures r.Some? ==> forall k :: r.value < k < i ==> path[k] != '.' && !IsDirectorySeparator(path[k])
    ensures r.None? ==> forall k :: 0 <= k < i && path[k] == '.' ==>
      exists j :: k < j < i && IsDirectorySeparator(path[j])
    decreases i
  {
    if i == 0 then None
    else if path[i - 1] == '.' then Some(i - 1)
    else if IsDirectorySeparator(path[i - 1]) then None
    else LastDot(path, i - 1)
  }

  /** The path without its extension. */
  function Stem(path: string): (r: string)
    ensures |r| <= |path| && r == path[..|r|]
  {
    match LastDot(path, |path|)
    case None => path
    case Some(dot) => path[..dot]
  }

  /** `Path.ChangeExtension(path, extension)` for an extension that starts with '.': an empty
      path stays empty; otherwise the old extension, if any, gives way to the new one. */
  function ChangeExtension(path: string, extension: string): (r: string)
    requires |extension| > 0 && extension[0] == '.'
    ensures path == "" ==> r == ""
    ensures path != "" ==> r == Stem(path) + extension
  {
    if path == "" then "" else Stem(path) + extension
  }

  /** `Path.GetExtension`: from the last '.' after the last separator to the end, or empty when
      there is no such '.' or it is the last character. */
  function GetExtension(path: string): (r: string)
    ensures r != "" ==> r[0] == '.' && 2 <= |r| <= |path| && r == path[|path| - |r|..]
  {
    match LastDot(path, |path|)
    case None => ""
    case Some(dot) => if dot == |path| - 1 then "" else path[dot..]
  }

  /** A proper extension: a '.', then at least one character, none of them a '.' or a
      separator. */
  predicate ProperExtension(extension: string) {
    |extension| >= 2 && extension[0] == '.'
    && forall k :: 1 <= k < |extension| ==> extension[k] != '.' && !IsDirectorySeparator(extension[k])
  }

  /** Any name followed by a proper extension has that extension. */
  lemma GetExtensionOfSuffix(name: string, extension: string)
    requires ProperExtension(extension)
    ensures GetExtension(name + extension) == extension
  {
    var path := name + extension;
    var dot := |name|;
    assert path[dot] == '.';
    assert forall k :: dot < k < |path| ==> path[k] == extension[k - dot];
    var found := LastDot(path, |path|);
    if found.None? {
      assert false;
    } else if found.value < dot {
      assert false;
    }
    assert path[dot..] == extension;
  }

  /** Changing the extension of a non-empty path to a proper one yields a path with exactly
      that extension, and changing it again changes nothing. */
  lemma ChangeExtensionProperties(path: string, extension: string)
    requires ProperExtension(extension)
    requires path != ""
    ensures GetExtension(ChangeExtension(path, extension)) == extension
    ensures ChangeExtension(ChangeExtension(path, extension), extension) == ChangeExtension(path, extension)
  {
    var r := ChangeExtension(path, extension);
    GetExtensionOfSuffix(Stem(path), extension);
    var dot := |Stem(path)|;
    assert r[dot] == '.';
    assert forall k :: dot < k < |r| ==> r[k] == extension[k - dot];
    var found := LastDot(r, |r|);
    if found.None? {
      assert false;
    } else if found.value < dot {
      assert false;
    }
    assert Stem(r) == Stem(path);
  }
}
