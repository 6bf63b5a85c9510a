/**
 * The path handling in `Results.compute`: the image file name and the folder
 * path reported for each test image. `os.path` is modelled with its POSIX
 * behaviour (`posixpath`), where only '/' separates path components.
 */
module Paths {

  predicate NoBackslash(s: string) {
    forall j :: 0 <= j < |s| ==> s[j] != '\\'
  }

  /** The position of the last '/' among the first k characters of p, or -1. */
  function LastSlashBefore(p: string, k: nat): int
    requires k <= |p|
  {
    if k == 0 then -1
    else if p[k - 1] == '/' then k - 1
    else LastSlashBefore(p, k - 1)
  }

  lemma {:induction false} LastSlashBeforeShape(p: string, k: nat)
    requires k <= |p|
    ensures var r := LastSlashBefore(p, k);
            -1 <= r < k && (r >= 0 ==> p[r] == '/') && forall j :: r < j < k ==> p[j] != '/'
  {
    if k > 0 && p[k - 1] != '/' {
      LastSlashBeforeShape(p, k - 1);
    }
  }

  /** `p.rfind('/')`: the position of the last '/', or -1 when there is none. */
  function LastSlash(p: string): int {
    LastSlashBefore(p, |p|)
  }

  /** The last '/' of p is at the position found, and no '/' follows it. */
  lemma LastSlashShape(p: string)
    ensures var r := LastSlash(p);
            -1 <= r < |p| && (r >= 0 ==> p[r] == '/') && forall j :: r < j < |p| ==> p[j] != '/'
  {
    LastSlashBeforeShape(p, |p|);
  }

  /** `os.path.join(a, b)`: an absolute `b` replaces `a`; otherwise one '/' separates them. */
  function Join(a: string, b: string): string {
    if |b| > 0 && b[0] == '/' then b
    else if a == [] || a[|a| - 1] == '/' then a + b
    else a + "/" + b
  }

  /**
   * An absolute b is the result. Otherwise the result is a followed by b,
   * with one '/' inserted exactly when a is non-empty and does not already
   * end with one; so b is preceded by a '/' whenever a is non-empty.
   */
  lemma JoinShape(a: string, b: string)
    ensures var r := Join(a, b);
            (|b| > 0 && b[0] == '/' ==> r == b) &&
            (!(|b| > 0 && b[0] == '/') ==>
               |r| == |a| + |b| + (if a != [] && a[|a| - 1] != '/' then 1 else 0) &&
               r[..|a|] == a && r[|r| - |b|..] == b &&
               (a != [] ==> r[|r| - |b| - 1] == '/'))
  {
  }

  /** `os.path.basename(p)`: the characters after the last '/' (all of p when there is none). */
  function Basename(p: string): string {
    LastSlashShape(p);
    var start := LastSlash(p) + 1;
    seq(|p| - start, j requires 0 <= j < |p| - start => p[start + j])
  }

  /** The base name holds no '/', ends p, and is all of p or preceded by a '/'. */
  lemma BasenameShape(p: string)
    ensures var r := Basename(p);
            '/' !in r && |r| <= |p| && p[|p| - |r|..] == r &&
            (|r| < |p| ==> p[|p| - |r| - 1] == '/')
  {
    LastSlashShape(p);
    var r := Basename(p);
    assert forall j :: 0 <= j < |r| ==> r[j] == p[LastSlash(p) + 1 + j];
  }

  /** The length of s[..k] once its trailing '/' characters are removed (`rstrip('/')`). */
  function StrippedLength(s: string, k: nat): nat
    requires k <= |s|
  {
    if k > 0 && s[k - 1] == '/' then StrippedLength(s, k - 1) else k
  }

  lemma {:induction false} StrippedLengthShape(s: string, k: nat)
    requires k <= |s|
    ensures var n := StrippedLength(s, k);
            n <= k && (n == 0 || s[n - 1] != '/') && forall j :: n <= j < k ==> s[j] == '/'
  {
    if k > 0 && s[k - 1] == '/' {
      StrippedLengthShape(s, k - 1);
    }
  }

  /**
   * `os.path.dirname(p)`: everything up to the last '/', without its trailing
   * slashes unless that head consists of slashes only (the root).
   */
  function Dirname(p: string): string {
    LastSlashShape(p);
    var head := LastSlash(p) + 1;
    StrippedLengthShape(p, head);
    var stripped := StrippedLength(p, head);
    p[..if stripped == 0 then head else stripped]
  }

  /**
   * The directory is a prefix of p; between it and the base name stand only
   * '/' characters; it is empty exactly when p holds no '/'; and it ends with
   * a '/' only when it is the root, made of '/' characters alone and reaching
   * up to the base name.
   */
  lemma DirnameShape(p: string)
    ensures var r, base := Dirname(p), Basename(p);
            |r| + |base| <= |p| && r == p[..|r|] &&
            (forall j :: |r| <= j < |p| - |base| ==> p[j] == '/') &&
            (r == [] <==> '/' !in p) &&
            (r != [] && r[|r| - 1] == '/' ==>
               |r| + |base| == |p| && forall j :: 0 <= j < |r| ==> r[j] == '/')
  {
    LastSlashShape(p);
    var head := LastSlash(p) + 1;
    StrippedLengthShape(p, head);
    var r := Dirname(p);
    assert |Basename(p)| == |p| - head;
    if '/' in p {
      var j :| 0 <= j < |p| && p[j] == '/';
      assert head > 0;
    }
  }

  /** `s.replace("\\", "/")` */
  function ReplaceBackslashes(s: string): string {
    if s == [] then []
    else ReplaceBackslashes(s[..|s| - 1]) + [if s[|s| - 1] == '\\' then '/' else s[|s| - 1]]
  }

  /**
   * Replacing keeps the length, turns every backslash into '/', keeps every
   * other character, and so leaves no backslash.
   */
  lemma {:induction false} ReplaceBackslashesShape(s: string)
    ensures var r := ReplaceBackslashes(s);
            |r| == |s| && NoBackslash(r) &&
            (forall j :: 0 <= j < |s| && s[j] == '\\' ==> r[j] == '/') &&
            (forall j :: 0 <= j < |s| && s[j] != '\\' ==> r[j] == s[j])
  {
    if s != [] {
      ReplaceBackslashesShape(s[..|s| - 1]);
    }
  }

  /**
   * The folder path recorded for an image (results.py:46-47): the directory of
   * `testDir` joined with the image path, with '/' for every backslash and a
   * trailing '/'.
   */
  function FolderPath(testDir: string, image: string): string {
    ReplaceBackslashes(Dirname(Join(testDir, image))) + "/"
  }

  /** Every folder path ends with '/' and holds no backslash. */
  lemma FolderPathShape(testDir: string, image: string)
    ensures var r := FolderPath(testDir, image);
            |r| > 0 && r[|r| - 1] == '/' && NoBackslash(r)
  {
    ReplaceBackslashesShape(Dirname(Join(testDir, image)));
  }

  lemma LastSlashOfSplit(a: string, b: string)
    requires '/' !in b
    ensures LastSlash(a + "/" + b) == |a|
  {
    var p := a + "/" + b;
    LastSlashShape(p);
    assert p[|a|] == '/';
    assert forall j :: |a| < j < |p| ==> p[j] == b[j - |a| - 1];
  }

  /** The base name of `a/b` is b when b holds no '/'. */
  lemma BasenameOfSplit(a: string, b: string)
    requires '/' !in b
    ensures Basename(a + "/" + b) == b
  {
    LastSlashOfSplit(a, b);
    assert (a + "/" + b)[|a| + 1..] == b;
  }

  /** The directory of `a/b` is a when b holds no '/' and a does not end with one. */
  lemma DirnameOfSplit(a: string, b: string)
    requires a != [] && a[|a| - 1] != '/'
    requires '/' !in b
    ensures Dirname(a + "/" + b) == a
  {
    var p := a + "/" + b;
    LastSlashOfSplit(a, b);
    assert p[|a|] == '/' && p[|a| - 1] != '/';
    assert StrippedLength(p, |a| + 1) == |a|;
    assert p[..|a|] == a;
  }

  /**
   * For the file names Keras lists for a test directory, `category/file`, the
   * record holds `file` and the folder `testDir/category/`.
   */
  lemma FolderOfClassFile(testDir: string, category: string, file: string)
    requires testDir != [] && testDir[|testDir| - 1] != '/' && NoBackslash(testDir)
    requires category != [] && '/' !in category && NoBackslash(category)
    requires '/' !in file
    ensures Basename(category + "/" + file) == file
    ensures FolderPath(testDir, category + "/" + file) == testDir + "/" + category + "/"
  {
    BasenameOfSplit(category, file);
    var dir := testDir + "/" + category;
    assert Join(testDir, category + "/" + file) == dir + "/" + file;
    assert dir[|dir| - 1] == category[|category| - 1];
    DirnameOfSplit(dir, file);
    assert NoBackslash(dir);
    ReplaceBackslashesShape(dir);
    assert ReplaceBackslashes(dir) == dir;
  }
}
