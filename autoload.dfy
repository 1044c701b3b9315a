/**
 * The PSR-4 autoloader registered when Composer is not available: a class
 * in the plugin's namespace is looked up under `src/`, one directory per
 * namespace segment. Whether a file exists is a parameter; the `require`
 * itself is not modelled.
 */
module Autoload {
  import opened Php

  /** The namespace prefix with its trailing separator, `FortaleceePSE\Core\`. */
  const Prefix: string := "FortaleceePSE\\Core\\"

  /**
   * The class name without the namespace prefix, for a class in the
   * plugin's namespace (`strncmp` against the prefix, then `substr`).
   */
  function RelativeClass(className: string): (r: Option<string>)
    ensures r.Some? <==> StartsWith(className, Prefix)
    ensures r.Some? ==> Prefix + r.value == className
  {
    if StartsWith(className, Prefix) then
      var rel := className[|Prefix|..];
      assert Prefix + rel == className[..|Prefix|] + className[|Prefix|..];
      Some(rel)
    else None
  }

  /** The file a relative class maps to: `base/src/` + the class with `\` turned into `/` + `.php`. */
  function ClassFile(basePath: string, relative: string): (path: string)
    ensures |path| == |basePath| + 5 + |relative| + 4
    ensures path[..|basePath| + 5] == basePath + "/src/"
    ensures path[|path| - 4..] == ".php"
  {
    basePath + "/src/" + ReplaceChar(relative, '\\', '/') + ".php"
  }

  /** The file the autoloader would look for, if the class is in the plugin's namespace. */
  function MappedFile(basePath: string, className: string): (path: Option<string>)
    ensures path.Some? <==> StartsWith(className, Prefix)
  {
    match RelativeClass(className)
    case None => None
    case Some(rel) => Some(ClassFile(basePath, rel))
  }

  /** The autoloader's answer: true exactly when the class maps to a file that exists. */
  function Load(basePath: string, className: string, fileExists: string -> bool): (loaded: bool)
    ensures loaded <==> MappedFile(basePath, className).Some? && fileExists(MappedFile(basePath, className).value)
    ensures !StartsWith(className, Prefix) ==> !loaded
  {
    match MappedFile(basePath, className)
    case None => false
    case Some(file) => fileExists(file)
  }

  /** The part of the path between `/src/` and `.php`. */
  function PathSegment(basePath: string, path: string): string
    requires |path| >= |basePath| + 9
  {
    path[|basePath| + 5..|path| - 4]
  }

  /**
   * The part of the mapped path after `/src/` is the relative class with
   * every namespace separator turned into a directory separator: it holds
   * no backslash and has the same length as the relative class.
   */
  lemma MappedSegment(basePath: string, className: string)
    requires StartsWith(className, Prefix)
    ensures var path := MappedFile(basePath, className).value;
      var seg := PathSegment(basePath, path);
      var rel := className[|Prefix|..];
      '\\' !in seg && |seg| == |rel|
      && (forall i :: 0 <= i < |rel| ==> seg[i] == if rel[i] == '\\' then '/' else rel[i])
  {
    var rel := className[|Prefix|..];
    var path := MappedFile(basePath, className).value;
    assert path == basePath + "/src/" + ReplaceChar(rel, '\\', '/') + ".php";
    assert PathSegment(basePath, path) == ReplaceChar(rel, '\\', '/');
  }

  /** Turning `/` back into `\` recovers a relative class that had no `/` of its own. */
  lemma ReplaceCharBack(relative: string)
    requires '/' !in relative
    ensures ReplaceChar(ReplaceChar(relative, '\\', '/'), '/', '\\') == relative
  {
  }

  /**
   * Two classes of the plugin's namespace whose names hold no `/` map to
   * the same file only if they are the same class.
   */
  lemma MappedFileInjective(basePath: string, c1: string, c2: string)
    requires StartsWith(c1, Prefix) && StartsWith(c2, Prefix)
    requires '/' !in c1 && '/' !in c2
    requires MappedFile(basePath, c1) == MappedFile(basePath, c2)
    ensures c1 == c2
  {
    var r1 := RelativeClass(c1).value;
    var r2 := RelativeClass(c2).value;
    var p := MappedFile(basePath, c1).value;
    assert PathSegment(basePath, p) == ReplaceChar(r1, '\\', '/');
    assert PathSegment(basePath, p) == ReplaceChar(r2, '\\', '/');
    assert forall c :: c in r1 ==> c in c1 by {
      assert c1 == Prefix + r1;
    }
    assert forall c :: c in r2 ==> c in c2 by {
      assert c2 == Prefix + r2;
    }
    ReplaceCharBack(r1);
    ReplaceCharBack(r2);
  }

  /** The plugin's own service class maps to its file under `src/Services/`. */
  lemma ServiceClassFile(basePath: string)
    ensures MappedFile(basePath, Prefix + "Services\\UserService")
      == Some(basePath + "/src/" + "Services/UserService" + ".php")
  {
    var rel := "Services\\UserService";
    assert (Prefix + rel)[..|Prefix|] == Prefix;
    assert (Prefix + rel)[|Prefix|..] == rel;
    assert rel == "Services" + "\\" + "UserService";
    ReplaceSeparator("Services", "UserService");
    assert "Services" + "/" + "UserService" == "Services/UserService";
  }

  /** Turning the one `\` of a two-segment relative class into `/`. */
  lemma ReplaceSeparator(a: string, b: string)
    requires '\\' !in a && '\\' !in b
    ensures ReplaceChar(a + "\\" + b, '\\', '/') == a + "/" + b
  {
    var s := a + "\\" + b;
    var r := ReplaceChar(s, '\\', '/');
    forall i | 0 <= i < |s|
      ensures r[i] == (a + "/" + b)[i]
    {
      if i < |a| {
        assert s[i] == a[i];
      } else if i > |a| {
        assert s[i] == b[i - |a| - 1];
      }
    }
  }
}
