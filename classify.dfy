/** Package-or-script classification of distribution-point files
    (jss/distribution_points.py, used by both distribution-point layers). */
module Classify {
  import opened Text
  import Paths

  /** Extensions that mark a package, upper-case with the dot. */
  const PKG_TYPES: seq<string> := [".PKG", ".DMG", ".ZIP"]

  /** FILE_TYPE codes sent to upload servers. */
  const PKG_FILE_TYPE: nat := 0
  const SCRIPT_FILE_TYPE: nat := 3

  /** `is_package`: the `splitext` extension, upper-cased, is a package type. */
  predicate IsPackage(filename: string) {
    Upper(Paths.Ext(filename)) in PKG_TYPES
  }

  /** `is_script`: anything that is not a package. */
  predicate IsScript(filename: string) {
    !IsPackage(filename)
  }

  /** The file type code an upload uses for `filename`. */
  function FileType(filename: string): (t: nat)
    ensures t == PKG_FILE_TYPE <==> IsPackage(filename)
    ensures t == SCRIPT_FILE_TYPE <==> IsScript(filename)
  {
    if IsPackage(filename) then PKG_FILE_TYPE else SCRIPT_FILE_TYPE
  }

  /** Does an upper-cased four-character suffix name a package type? */
  predicate PackageSuffix(f: string) {
    |f| >= 4 && Upper(f[|f| - 4..]) in PKG_TYPES
  }

  lemma UpperCharDot(c: char)
    ensures UpperChar(c) == '.' <==> c == '.'
    ensures UpperChar(c) == '/' <==> c == '/'
  {
  }

  /** A four-character name of a package type, in any case, is a dot
      followed by three characters that are neither '.' nor '/'. */
  lemma PackageTypeChars(x: string)
    requires |x| == 4 && Upper(x) in PKG_TYPES
    ensures x[0] == '.'
    ensures forall k :: 1 <= k < 4 ==> x[k] != '.' && x[k] != '/'
  {
    var u := Upper(x);
    assert u[0] == '.' && u[1] != '.' && u[2] != '.' && u[3] != '.';
    assert u[1] != '/' && u[2] != '/' && u[3] != '/';
    UpperCharDot(x[0]);
    UpperCharDot(x[1]);
    UpperCharDot(x[2]);
    UpperCharDot(x[3]);
  }

  lemma PackageHasSuffix(f: string)
    requires IsPackage(f)
    ensures PackageSuffix(f) && Paths.HasStem(f, Paths.RFind(f, '/'), |f| - 4)
  {
    var sep := Paths.RFind(f, '/');
    var dot := Paths.RFind(f, '.');
    var ext := Paths.Ext(f);
    assert |Upper(ext)| == 4;
    Paths.ExtIs(f);
    assert ext == f[dot..];
  }

  lemma SuffixIsPackage(f: string)
    requires PackageSuffix(f) && Paths.HasStem(f, Paths.RFind(f, '/'), |f| - 4)
    ensures IsPackage(f)
  {
    var n := |f| - 4;
    PackageTypeChars(f[n..]);
    Paths.LastDotAt(f, n);
    Paths.ExtAtLastDot(f, n);
  }

  /** `filename` is a package exactly when its last four characters are
      ".pkg", ".dmg" or ".zip" in any case, and its last path component has a
      character other than '.' before them; a script is exactly the opposite. */
  lemma IsPackageIff(f: string)
    ensures IsPackage(f) <==>
      PackageSuffix(f) && Paths.HasStem(f, Paths.RFind(f, '/'), |f| - 4)
    ensures IsScript(f) <==>
      !(PackageSuffix(f) && Paths.HasStem(f, Paths.RFind(f, '/'), |f| - 4))
  {
    if IsPackage(f) {
      PackageHasSuffix(f);
    }
    if PackageSuffix(f) && Paths.HasStem(f, Paths.RFind(f, '/'), |f| - 4) {
      SuffixIsPackage(f);
    }
  }

  lemma {:induction false} RFindUpper(s: string, c: char)
    requires c == '.' || c == '/'
    ensures Paths.RFind(Upper(s), c) == Paths.RFind(s, c)
  {
    if s != [] {
      assert Upper(s)[..|s| - 1] == Upper(s[..|s| - 1]);
      UpperCharDot(s[|s| - 1]);
      RFindUpper(s[..|s| - 1], c);
    }
  }

  lemma SuffixUpper(f: string)
    ensures PackageSuffix(Upper(f)) == PackageSuffix(f)
  {
    if |f| >= 4 {
      assert Upper(f)[|f| - 4..] == Upper(f[|f| - 4..]);
      UpperIdempotent(f[|f| - 4..]);
    }
  }

  lemma StemUpper(f: string, from: int, to: int)
    requires -1 <= from && to <= |f|
    ensures Paths.HasStem(Upper(f), from, to) == Paths.HasStem(f, from, to)
  {
    forall j | from < j < to ensures (Upper(f)[j] != '.') == (f[j] != '.') {
      UpperCharDot(f[j]);
    }
  }

  /** Classification ignores case: upper-casing a name never changes it. */
  lemma IsPackageCaseInsensitive(f: string)
    ensures IsPackage(Upper(f)) == IsPackage(f)
    ensures IsScript(Upper(f)) == IsScript(f)
  {
    IsPackageIff(f);
    IsPackageIff(Upper(f));
    RFindUpper(f, '/');
    SuffixUpper(f);
    StemUpper(f, Paths.RFind(f, '/'), |f| - 4);
  }

  /** Any plain name followed by ".pkg", ".dmg" or ".zip", in any mix of
      cases, is a package ("App.DMG", "archive.zip"). */
  lemma PackageExtensions(stem: string, ext: string)
    requires stem != [] && stem[0] != '.' && '/' !in stem
    requires |ext| == 4 && Upper(ext) in PKG_TYPES
    ensures IsPackage(stem + ext)
  {
    var f := stem + ext;
    assert f[|f| - 4..] == ext;
    PackageTypeChars(ext);
    forall k | 0 <= k < |f| ensures f[k] != '/' {
      if k >= |stem| { assert f[k] == ext[k - |stem|]; }
    }
    assert Paths.RFind(f, '/') == -1;
    assert Paths.HasStem(f, -1, |f| - 4) by { assert f[0] == stem[0]; }
    SuffixIsPackage(f);
  }

  /** Shell scripts, names without an extension and a bare ".pkg" (a hidden
      file, whose leading dot is not an extension) are scripts. */
  lemma ScriptExamples()
    ensures IsScript("postinstall.sh") && IsScript("README") && IsScript(".pkg")
  {
    assert Upper("l.sh") == "L.SH";
    PackageNeedsSuffix("postinstall.sh");
    assert Upper("ADME") == "ADME";
    PackageNeedsSuffix("README");
    PackageNeedsStem(".pkg");
  }

  lemma PackageNeedsSuffix(f: string)
    requires !PackageSuffix(f)
    ensures IsScript(f)
  {
    if IsPackage(f) { PackageHasSuffix(f); }
  }

  lemma PackageNeedsStem(f: string)
    requires |f| >= 4 && !Paths.HasStem(f, Paths.RFind(f, '/'), |f| - 4)
    ensures IsScript(f)
  {
    if IsPackage(f) { PackageHasSuffix(f); }
  }

  /** Classification only looks at the last path component, so a file and
      its basename are classified alike. */
  lemma IsPackageOfBasename(f: string)
    ensures IsPackage(Paths.Basename(f)) == IsPackage(f)
  {
    Paths.ExtOfBasename(f);
  }
}
