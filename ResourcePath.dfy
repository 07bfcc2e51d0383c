// ResourcePath: one base path, assigned by SetBasePath and prefixed to every relative path.
// The static member becomes a field of a single object; its initial value is the empty string.

module Resources {
  class ResourcePath {
    /** s_BasePath. */
    var basePath: string

    /** The static initialiser: the base starts empty. */
    constructor ()
      ensures basePath == ""
    {
      basePath := "";
    }

    method SetBasePath(path: string)
      modifies this`basePath
      ensures basePath == path
    {
      basePath := path;
    }

    function GetBasePath(): (b: string)
      reads this
      ensures b == basePath
    {
      basePath
    }

    /** GetFullPath: the base followed by the relative path, with no separator added. */
    function GetFullPath(relativePath: string): (full: string)
      reads this
      ensures |full| == |basePath| + |relativePath|
      ensures full[..|basePath|] == basePath && full[|basePath|..] == relativePath
    {
      basePath + relativePath
    }
  }
}
