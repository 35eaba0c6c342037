/**
 * The output path of `transcribe_file`: the output folder joined with the
 * input file's base name, its last extension removed, plus `.` and the
 * format. The path functions follow POSIX `os.path` (the application runs
 * on macOS): `basename`, `splitext` and `join`.
 */
module Paths {

  /** Python's `str.rfind(c)`: the index of the last `c` in `s`, or -1. */
  function LastIndexOf(s: string, c: char): (k: int)
    ensures -1 <= k < |s|
    ensures k >= 0 ==> s[k] == c
    ensures forall i :: k < i < |s| ==> s[i] != c
    ensures k == -1 <==> c !in s
  {
    if s == [] then -1
    else if s[|s| - 1] == c then |s| - 1
    else LastIndexOf(s[..|s| - 1], c)
  }

  /** `os.path.basename(p)`: what follows the last `/`. */
  function Basename(p: string): (b: string)
    ensures '/' !in b
    ensures |b| <= |p| && b == p[|p| - |b|..]
    ensures |b| < |p| ==> p[|p| - |b| - 1] == '/'
  {
    p[LastIndexOf(p, '/') + 1..]
  }

  /** Some character of `p[lo..hi]` is not a dot. */
  predicate HasNonDot(p: string, lo: int, hi: int)
    requires 0 <= lo <= hi <= |p|
  {
    exists i :: lo <= i < hi && p[i] != '.'
  }

  /**
   * `os.path.splitext(p)`: the extension is the part from the last `.` that
   * follows the last `/`, provided the name before that dot is not only dots
   * (so `.bashrc` has no extension); otherwise it is empty.
   */
  function SplitExt(p: string): (r: (string, string))
    ensures r.0 + r.1 == p
    ensures r.1 == [] || (r.1[0] == '.' && '.' !in r.1[1..])
  {
    var sep := LastIndexOf(p, '/');
    var dot := LastIndexOf(p, '.');
    if dot > sep && HasNonDot(p, sep + 1, dot) then (p[..dot], p[dot..]) else (p, "")
  }

  /** `os.path.join(a, b)` for two components: a `/` between them unless `a` is empty or already ends with one; an absolute `b` replaces `a`. */
  function Join(a: string, b: string): string {
    if b != [] && b[0] == '/' then b
    else if a == [] || a[|a| - 1] == '/' then a + b
    else a + "/" + b
  }

  /** The input's base name without its last extension: `os.path.splitext(os.path.basename(file_path))[0]`. */
  function Stem(filePath: string): string {
    SplitExt(Basename(filePath)).0
  }

  /** `os.path.join(output_folder, filename + f".{output_format}")`. */
  function OutputPath(outputFolder: string, filePath: string, outputFormat: string): string {
    Join(outputFolder, Stem(filePath) + "." + outputFormat)
  }

  /** The separator `Join` puts after `a`. */
  function JoinSeparator(a: string): string {
    if a == [] || a[|a| - 1] == '/' then "" else "/"
  }

  lemma JoinRelative(a: string, b: string)
    requires b == [] || b[0] != '/'
    ensures Join(a, b) == a + JoinSeparator(a) + b
  {
  }

  lemma StemHasNoSlash(filePath: string)
    ensures '/' !in Stem(filePath)
  {
    var parts := SplitExt(Basename(filePath));
    NotInPrefix(parts.0, parts.1, '/');
  }

  lemma NotInPrefix(x: string, y: string, c: char)
    requires c !in x + y
    ensures c !in x
  {
  }

  lemma DottedSuffix(stem: string, fmt: string)
    requires '/' !in stem
    ensures var t := stem + "." + fmt; t != [] && t[0] != '/'
  {
    if stem != [] {
      assert stem[0] in stem;
    }
  }

  /**
   * The output path is the folder, then a `/` unless the folder is empty or
   * already ends with one, then the stem, a dot and the format.
   */
  lemma OutputPathShape(outputFolder: string, filePath: string, outputFormat: string)
    ensures OutputPath(outputFolder, filePath, outputFormat)
      == outputFolder + JoinSeparator(outputFolder) + (Stem(filePath) + "." + outputFormat)
  {
    StemHasNoSlash(filePath);
    DottedSuffix(Stem(filePath), outputFormat);
    JoinRelative(outputFolder, Stem(filePath) + "." + outputFormat);
  }

  lemma CharAfter(x: string, c: char, y: string, i: int)
    requires |x| < i < |x| + 1 + |y|
    ensures (x + [c] + y)[i] in y
  {
    assert (x + [c] + y)[i] == y[i - |x| - 1];
  }

  lemma CharBefore(x: string, c: char, y: string, i: int)
    requires 0 <= i < |x|
    ensures (x + [c] + y)[i] == x[i]
  {
  }

  lemma PrefixBefore(x: string, c: char, y: string)
    ensures (x + [c] + y)[..|x|] == x && (x + [c] + y)[|x|] == c
  {
  }

  /**
   * The stem is the base name with its last extension removed: when the base
   * name is `name.ext` with no dot in `ext` and `name` not made of dots only,
   * the stem is `name`.
   */
  lemma StemDropsLastExtension(filePath: string, name: string, ext: string, k: nat)
    requires Basename(filePath) == name + "." + ext
    requires '.' !in ext
    requires k < |name| && name[k] != '.'
    ensures Stem(filePath) == name
  {
    var b := Basename(filePath);
    assert b == name + ['.'] + ext;
    PrefixBefore(name, '.', ext);
    var dot := LastIndexOf(b, '.');
    assert dot == |name| by {
      if dot > |name| {
        CharAfter(name, '.', ext, dot);
      }
    }
    assert LastIndexOf(b, '/') == -1;
    CharBefore(name, '.', ext, k);
    assert HasNonDot(b, 0, dot);
  }

  /** Every dot of `b` has only dots before it. */
  predicate OnlyLeadingDots(b: string) {
    forall i, j :: 0 <= j < i < |b| && b[i] == '.' ==> b[j] == '.'
  }

  lemma SplitExtUndotted(b: string)
    requires '/' !in b
    requires OnlyLeadingDots(b)
    ensures SplitExt(b) == (b, "")
  {
    var dot := LastIndexOf(b, '.');
    if dot > -1 {
      assert !HasNonDot(b, 0, dot);
    }
  }

  /**
   * A base name with no dot, or whose only dots lead it (`.bashrc`), is its
   * own stem.
   */
  lemma StemKeepsUndottedName(filePath: string)
    requires OnlyLeadingDots(Basename(filePath))
    ensures Stem(filePath) == Basename(filePath)
  {
    SplitExtUndotted(Basename(filePath));
  }
}
