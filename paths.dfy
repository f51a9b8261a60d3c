/**
 * The part of `std::path::Path` the language detection relies on:
 * `file_name` and `extension` on a Unix path.
 */
module Paths {
  import opened Wrappers

  /** The index of the last occurrence of `c` in `s`. */
  function LastIndexOf(s: string, c: char): (r: Option<nat>)
    ensures r.Some? ==> r.value < |s| && s[r.value] == c && c !in s[r.value + 1..]
    ensures r.None? ==> c !in s
  {
    if s == [] then None
    else if s[|s| - 1] == c then Some(|s| - 1)
    else
      var r := LastIndexOf(s[..|s| - 1], c);
      assert s == s[..|s| - 1] + [s[|s| - 1]];
      if r.Some? then
        assert s[r.value + 1..] == s[..|s| - 1][r.value + 1..] + [s[|s| - 1]];
        r
      else r
  }

  /** The path without its trailing separators. */
  function TrimTrailingSlashes(path: string): (r: string)
    ensures |r| <= |path| && r == path[..|r|]
    ensures r == [] || r[|r| - 1] != '/'
  {
    if path != [] && path[|path| - 1] == '/' then TrimTrailingSlashes(path[..|path| - 1]) else path
  }

  /** `Path::file_name`: the last component, none for a root, an empty path or `..`. */
  function FileName(path: string): (r: Option<string>)
    ensures r.Some? ==> r.value != [] && '/' !in r.value && r.value != ".."
  {
    var p := TrimTrailingSlashes(path);
    var name := match LastIndexOf(p, '/')
      case Some(i) => p[i + 1..]
      case None => p;
    if name == [] || name == "." || name == ".." then None else Some(name)
  }

  /** `Path::extension`: what follows the last dot of the file name, unless
      that dot starts the name (a hidden file such as `.bashrc`). */
  function Extension(path: string): (r: Option<string>)
    ensures r.Some? ==> FileName(path).Some? && '.' !in r.value && '/' !in r.value
    ensures r.Some? ==> exists stem :: stem != [] && FileName(path).value == stem + "." + r.value
    ensures FileName(path).Some? && '.' !in FileName(path).value ==> r.None?
  {
    match FileName(path)
    case None => None
    case Some(name) =>
      match LastIndexOf(name, '.')
      case None => None
      case Some(i) =>
        if i == 0 then None
        else
          assert name == name[..i] + "." + name[i + 1..];
          Some(name[i + 1..])
  }

  /** The last occurrence is where the character occurs with none after it. */
  lemma {:induction false} LastIndexOfAt(s: string, c: char, i: nat)
    requires i < |s| && s[i] == c && c !in s[i + 1..]
    ensures LastIndexOf(s, c) == Some(i)
  {
    if i < |s| - 1 {
      assert s[|s| - 1] in s[i + 1..];
      assert s[..|s| - 1][i + 1..] == s[i + 1..|s| - 1];
      LastIndexOfAt(s[..|s| - 1], c, i);
    }
  }

  /** The file name is what follows the last separator. */
  lemma FileNameAfterLastSeparator(dir: string, name: string)
    requires name != [] && '/' !in name && name != "." && name != ".."
    ensures FileName(dir + "/" + name) == Some(name)
  {
    var p := dir + "/" + name;
    assert p[|p| - 1] == name[|name| - 1];
    assert TrimTrailingSlashes(p) == p;
    assert p[|dir|] == '/';
    assert p[|dir| + 1..] == name;
    LastIndexOfAt(p, '/', |dir|);
  }

  /** The extension is what follows the last dot of the file name, however
      many dots come before it. */
  lemma ExtensionIsAfterLastDot(dir: string, stem: string, ext: string)
    requires stem != [] && ext != [] && '/' !in stem && '/' !in ext && '.' !in ext
    ensures Extension(dir + "/" + (stem + "." + ext)) == Some(ext)
  {
    var name := stem + "." + ext;
    assert forall k :: 0 <= k < |name| ==> name[k] == (if k < |stem| then stem[k] else if k == |stem| then '.' else ext[k - |stem| - 1]);
    assert '/' !in name;
    FileNameAfterLastSeparator(dir, name);
    assert name[|stem| + 1..] == ext;
    LastIndexOfAt(name, '.', |stem|);
  }

  /** A path without a separator is its own file name, and its extension
      follows its last dot. */
  lemma ExtensionOfBareName(stem: string, ext: string)
    requires stem != [] && ext != [] && '/' !in stem && '/' !in ext && '.' !in ext
    ensures FileName(stem + "." + ext) == Some(stem + "." + ext)
    ensures Extension(stem + "." + ext) == Some(ext)
  {
    var name := stem + "." + ext;
    assert forall k :: 0 <= k < |name| ==> name[k] == (if k < |stem| then stem[k] else if k == |stem| then '.' else ext[k - |stem| - 1]);
    assert '/' !in name;
    assert name[|name| - 1] != '/';
    assert TrimTrailingSlashes(name) == name;
    assert name[|stem| + 1..] == ext;
    LastIndexOfAt(name, '.', |stem|);
  }

  /** A file name whose only dot is its first character has no extension. */
  lemma HiddenFileHasNoExtension(dir: string, rest: string)
    requires rest != [] && '/' !in rest && '.' !in rest
    ensures Extension(dir + "/" + ("." + rest)) == None
  {
    var name := "." + rest;
    assert name[1..] == rest;
    assert '/' !in name;
    assert name != ".." by {
      assert name[1] == rest[0];
    }
    FileNameAfterLastSeparator(dir, name);
    LastIndexOfAt(name, '.', 0);
  }

  /** A trailing separator changes neither the file name nor the extension. */
  lemma TrailingSeparatorIgnored(path: string)
    ensures FileName(path + "/") == FileName(path)
    ensures Extension(path + "/") == Extension(path)
  {
    var p := path + "/";
    assert p[..|p| - 1] == path;
    assert TrimTrailingSlashes(p) == TrimTrailingSlashes(path);
    assert FileName(p) == FileName(path);
  }
}
