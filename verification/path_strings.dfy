/** String helpers on paths from `src/shared/utils/fs.ts`:
    joining an entry name onto a folder, comparing folders while ignoring
    trailing separators, and upper-casing a Windows drive letter. */
module PathStrings {
  import Ascii

  type Path = string

  /** `path.join(parent, name)` for a single entry name, with `/` as the
      separator. Normalisation of `.`, `..` and doubled separators is not
      modelled. */
  function Join(parent: Path, name: string): (r: Path)
    ensures |r| == |parent| + 1 + |name|
    ensures r[..|parent|] == parent && r[|parent|] == '/' && r[|parent| + 1..] == name
  {
    parent + "/" + name
  }

  /** Joining onto a fixed folder tells entry names apart. */
  lemma JoinInjective(parent: Path, a: string, b: string)
    ensures Join(parent, a) == Join(parent, b) <==> a == b
  {
    if Join(parent, a) == Join(parent, b) {
      assert a == Join(parent, a)[|parent| + 1..];
    }
  }

  predicate IsSeparator(c: char) {
    c == '/' || c == '\\'
  }

  predicate AllSeparators(s: string) {
    forall i :: 0 <= i < |s| ==> IsSeparator(s[i])
  }

  /** `s.replace(/[\\/]+$/, "")`: drop the maximal run of trailing `/` and `\`.
      The result is the unique prefix of `s` that does not end in a separator
      and is followed only by separators. */
  function TrimTrailingSeparators(s: string): (r: string)
    ensures r <= s
    ensures r == [] || !IsSeparator(r[|r| - 1])
    ensures AllSeparators(s[|r|..])
  {
    if |s| > 0 && IsSeparator(s[|s| - 1]) then
      var r := TrimTrailingSeparators(s[..|s| - 1]);
      assert s[|r|..] == s[..|s| - 1][|r|..] + [s[|s| - 1]];
      r
    else
      s
  }

  /** The three facts in `TrimTrailingSeparators`' contract pin its result down. */
  lemma TrimUnique(s: string, r: string)
    requires r <= s
    requires r == [] || !IsSeparator(r[|r| - 1])
    requires AllSeparators(s[|r|..])
    ensures r == TrimTrailingSeparators(s)
  {
    var t := TrimTrailingSeparators(s);
  }

  /** Appending any run of separators does not change the trimmed form. */
  lemma TrimIgnoresTrailingSeparators(s: string, seps: string)
    requires AllSeparators(seps)
    ensures TrimTrailingSeparators(s + seps) == TrimTrailingSeparators(s)
  {
    var t := TrimTrailingSeparators(s);
    assert (s + seps)[|t|..] == s[|t|..] + seps;
    TrimUnique(s + seps, t);
  }

  /** `areSameFolder(folder1, folder2)` */
  predicate AreSameFolder(folder1: Path, folder2: Path) {
    TrimTrailingSeparators(folder1) == TrimTrailingSeparators(folder2)
  }

  /** `areSameFolder` is an equivalence that ignores trailing separators. */
  lemma AreSameFolderIsEquivalence(a: Path, b: Path, c: Path)
    ensures AreSameFolder(a, a)
    ensures AreSameFolder(a, b) <==> AreSameFolder(b, a)
    ensures AreSameFolder(a, b) && AreSameFolder(b, c) ==> AreSameFolder(a, c)
  {
  }

  lemma AreSameFolderIgnoresTrailingSeparators(folder: Path, seps: string)
    requires AllSeparators(seps)
    ensures AreSameFolder(folder + seps, folder)
  {
    TrimIgnoresTrailingSeparators(folder, seps);
  }

  /** Two folders are the same exactly when one is the other plus separators,
      after both are trimmed. In particular `"a/"`, `"a\\"` and `"a"` agree. */
  lemma AreSameFolderExample()
    ensures AreSameFolder("a/", "a\\") && AreSameFolder("a\\", "a") && AreSameFolder("a//\\", "a")
  {
    SeparatorSuffixes();
    AreSameFolderIgnoresTrailingSeparators("a", "/");
    AreSameFolderIgnoresTrailingSeparators("a", "\\");
    AreSameFolderIgnoresTrailingSeparators("a", "//\\");
  }

  lemma SeparatorSuffixes()
    ensures "a" + "/" == "a/" && "a" + "\\" == "a\\" && "a" + "//\\" == "a//\\"
    ensures AllSeparators("/") && AllSeparators("\\") && AllSeparators("//\\")
  {
  }

  /** A trailing component is not a separator: `"a/b"` is not `"a"`. */
  lemma DifferentFoldersExample()
    ensures !AreSameFolder("a/b", "a")
  {
    assert TrimTrailingSeparators("a/b") == "a/b";
  }

  /** `forceWindowsDriveLetterToUppercase(p)`: on Windows, an absolute path whose
      first character is unchanged by lower-casing has that character
      upper-cased. `isWin` and `path.isAbsolute` are parameters. */
  function ForceWindowsDriveLetterToUppercase(p: Path, isWin: bool, isAbsolute: Path -> bool): (r: Path)
    ensures |r| == |p|
    ensures !isWin || !isAbsolute(p) || p == [] ==> r == p
    ensures isWin && isAbsolute(p) && p != [] ==> r[0] == Ascii.ToUpper(p[0]) && r[1..] == p[1..]
  {
    if p != [] && isWin && isAbsolute(p) && p[0] == Ascii.ToLower(p[0]) then
      [Ascii.ToUpper(p[0])] + p[1..]
    else
      p
  }

  /** Applying the normalisation twice is the same as applying it once. */
  lemma ForceWindowsDriveLetterToUppercaseIdempotent(p: Path, isWin: bool, isAbsolute: Path -> bool)
    ensures var once := ForceWindowsDriveLetterToUppercase(p, isWin, isAbsolute);
            ForceWindowsDriveLetterToUppercase(once, isWin, isAbsolute) == once
  {
    var once := ForceWindowsDriveLetterToUppercase(p, isWin, isAbsolute);
    if once != [] && isWin && isAbsolute(once) {
      assert once == [once[0]] + once[1..];
    }
  }

  lemma ForceWindowsDriveLetterExample(isAbsolute: Path -> bool)
    requires isAbsolute("c:\\src") && isAbsolute("C:\\src")
    ensures ForceWindowsDriveLetterToUppercase("c:\\src", true, isAbsolute) == "C:\\src"
    ensures ForceWindowsDriveLetterToUppercase("C:\\src", true, isAbsolute) == "C:\\src"
    ensures ForceWindowsDriveLetterToUppercase("c:\\src", false, isAbsolute) == "c:\\src"
  {
    var r := ForceWindowsDriveLetterToUppercase("c:\\src", true, isAbsolute);
    assert r == [Ascii.ToUpper('c')] + "c:\\src"[1..];
  }
}
