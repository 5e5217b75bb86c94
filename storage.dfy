/**
  Where the improved code goes: output paths, the names `generateUniqueFileName`
  proposes, and `saveImprovedCode` on a file system that is a map from paths to
  contents plus the set of directories.
*/
module Storage {
  import opened Wrappers
  import opened Text

  const DefaultOutputFolder := "C:\\GhidraDeepSeek"

  /**
    `os.path.join(folder, name)` for a relative `name`: a separator is put
    between the two unless the folder is empty or already ends in one.
  */
  function PathJoin(folder: string, name: string): (path: string)
    ensures |path| >= |folder| + |name| && path[..|folder|] == folder
    ensures path[|path| - |name|..] == name
  {
    if folder == [] || folder[|folder| - 1] == '\\' || folder[|folder| - 1] == '/' then folder + name
    else folder + "\\" + name
  }

  /** Two names joined to the same folder give the same path only if they are the same name. */
  lemma PathJoinInjective(folder: string, a: string, b: string)
    requires PathJoin(folder, a) == PathJoin(folder, b)
    ensures a == b
  {
    var pa := PathJoin(folder, a);
    assert |pa| - |folder| == |a| || |pa| - |folder| == |a| + 1;
    var pb := PathJoin(folder, b);
    assert |pb| - |folder| == |b| || |pb| - |folder| == |b| + 1;
  }

  /** A number that `random.randint(100000000, 999999999)` can draw. */
  type NineDigit = n: nat | 100000000 <= n <= 999999999 witness 100000000

  /** `"{}_{}_imp.c".format(functionName, n)`. */
  function CandidateFileName(functionName: string, n: nat): (name: string)
    ensures |name| >= |functionName| + 8
    ensures name[..|functionName|] == functionName && name[|functionName|] == '_'
    ensures name[|name| - 6..] == "_imp.c"
  {
    functionName + "_" + DecimalString(n) + "_imp.c"
  }

  /** The path `generateUniqueFileName` tries for the draw `n`. */
  function CandidatePath(outputFolder: string, functionName: string, n: nat): string
  {
    PathJoin(outputFolder, CandidateFileName(functionName, n))
  }

  /** A drawn number is written with exactly nine digits. */
  lemma NineDigitsWide(n: NineDigit)
    ensures |DecimalString(n)| == 9
  {
    assert Pow10(8) == 100000000;
    assert Pow10(9) == 1000000000;
    DecimalLength(n, 8);
  }

  /**
    A candidate name has the form `{functionName}_{nine digits}_imp.c`, and
    its nine digits denote the draw.
  */
  lemma CandidateFileNameShape(functionName: string, n: NineDigit)
    ensures var name := CandidateFileName(functionName, n);
      var k := |functionName|;
      && |name| == k + 16
      && name[..k] == functionName
      && name[k] == '_'
      && IsDigits(name[k + 1..k + 10])
      && DecimalValue(name[k + 1..k + 10]) == n
      && name[k + 10..] == "_imp.c"
  {
    NineDigitsWide(n);
    DecimalRoundTrip(n);
    var name := CandidateFileName(functionName, n);
    var k := |functionName|;
    assert name[k + 1..k + 10] == DecimalString(n);
  }

  /** Different draws give different names for the same function. */
  lemma CandidateFileNameInjective(functionName: string, a: NineDigit, b: NineDigit)
    requires CandidateFileName(functionName, a) == CandidateFileName(functionName, b)
    ensures a == b
  {
    CandidateFileNameShape(functionName, a);
    CandidateFileNameShape(functionName, b);
  }

  /** Different draws give different paths in the same folder. */
  lemma CandidatePathInjective(outputFolder: string, functionName: string, a: NineDigit, b: NineDigit)
    requires CandidatePath(outputFolder, functionName, a) == CandidatePath(outputFolder, functionName, b)
    ensures a == b
  {
    PathJoinInjective(outputFolder, CandidateFileName(functionName, a), CandidateFileName(functionName, b));
    CandidateFileNameInjective(functionName, a, b);
  }

  /** The part of the file system the plugin touches: regular files with their contents, and directories. */
  class FileSystem {
    var files: map<string, string>
    var dirs: set<string>

    /** Nothing is both a regular file and a directory. */
    ghost predicate Valid()
      reads this
    {
      files.Keys !! dirs
    }

    constructor (files: map<string, string>, dirs: set<string>)
      requires files.Keys !! dirs
      ensures this.files == files && this.dirs == dirs
      ensures Valid()
    {
      this.files := files;
      this.dirs := dirs;
    }

    /** `os.path.exists(path)`. */
    predicate Exists(path: string)
      reads this
    {
      path in files || path in dirs
    }

    /**
      `generateUniqueFileName(outputFolder, functionName)`, with the random
      numbers it would draw given as `draws`: the path for the first draw that
      is not taken. When every draw is taken the supply runs out and there is
      no path.
    */
    method GenerateUniqueFileName(outputFolder: string, functionName: string, draws: seq<NineDigit>)
      returns (filePath: Option<string>)
      ensures filePath.Some? ==>
        exists k :: 0 <= k < |draws|
          && filePath.value == CandidatePath(outputFolder, functionName, draws[k])
          && !Exists(filePath.value)
          && forall j :: 0 <= j < k ==> Exists(CandidatePath(outputFolder, functionName, draws[j]))
      ensures filePath.None? ==>
        forall j :: 0 <= j < |draws| ==> Exists(CandidatePath(outputFolder, functionName, draws[j]))
    {
      var i := 0;
      while i < |draws|
        invariant 0 <= i <= |draws|
        invariant forall j :: 0 <= j < i ==> Exists(CandidatePath(outputFolder, functionName, draws[j]))
      {
        var fileName := CandidateFileName(functionName, draws[i]);
        var candidate := PathJoin(outputFolder, fileName);
        if !Exists(candidate) {
          assert candidate == CandidatePath(outputFolder, functionName, draws[i]);
          return Some(candidate);
        }
        i := i + 1;
      }
      return None;
    }

    /**
      `saveImprovedCode(outputFolder, fileName, improvedCode)`: create the
      folder when nothing is at its path, then write the code as the whole
      content of the file, replacing whatever was there. The write fails (the
      source raises) when the folder path is a regular file or the file path a
      directory; then no file changes.
    */
    method SaveImprovedCode(outputFolder: string, fileName: string, improvedCode: string) returns (written: bool)
      requires Valid()
      modifies this
      ensures Valid()
      ensures old(outputFolder in files) ==> !written
      ensures dirs == if old(Exists(outputFolder)) then old(dirs) else old(dirs) + {outputFolder}
      ensures written <==> outputFolder in dirs && PathJoin(outputFolder, fileName) !in dirs
      ensures files == if written then old(files)[PathJoin(outputFolder, fileName) := improvedCode] else old(files)
    {
      if !Exists(outputFolder) {
        dirs := dirs + {outputFolder};
      }
      var outputFile := PathJoin(outputFolder, fileName);
      written := outputFolder in dirs && outputFile !in dirs;
      if written {
        files := files[outputFile := improvedCode];
      }
    }
  }
}
