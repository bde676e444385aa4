/**
 * The part of Rust's `std::path` that `cargo verify-pallet` relies on:
 * `Path::file_name` on command-line arguments, and `PathBuf::with_file_name`
 * and `PathBuf::set_extension` on the path of the running executable.
 *
 * Only `/` is a separator. A path string splits into `/`-separated segments;
 * empty segments (repeated or trailing separators) and `.` segments are not
 * components, as in `Path::components` away from the start of a path.
 */
module Paths {
  import opened Wrappers

  const Separator: char := '/'

  /** The `/`-separated segments of `s`, separators removed. */
  function Split(s: string): (parts: seq<string>)
    ensures |parts| >= 1
    ensures forall i :: 0 <= i < |parts| ==> Separator !in parts[i]
    decreases |s|
  {
    if |s| == 0 then [""]
    else
      var rest := Split(s[1..]);
      if s[0] == Separator then [""] + rest
      else [[s[0]] + rest[0]] + rest[1..]
  }

  /** The segments joined with `/`; the inverse of `Split`. */
  function Join(parts: seq<string>): (s: string)
    requires |parts| >= 1
    decreases |parts|
  {
    if |parts| == 1 then parts[0] else parts[0] + [Separator] + Join(parts[1..])
  }

  lemma {:induction false} JoinSplit(s: string)
    ensures Join(Split(s)) == s
    decreases |s|
  {
    if |s| > 0 {
      JoinSplit(s[1..]);
      var rest := Split(s[1..]);
      if s[0] == Separator {
        assert s == [s[0]] + s[1..];
      } else if |rest| == 1 {
        assert s == [s[0]] + s[1..];
      } else {
        assert rest == [rest[0]] + rest[1..];
        assert s == [s[0]] + s[1..];
        assert Join(rest) == rest[0] + [Separator] + Join(rest[1..]);
      }
    }
  }

  /** Splitting at a separator splits the segment lists apart. */
  lemma {:induction false} SplitAtSeparator(a: string, b: string)
    ensures Split(a + [Separator] + b) == Split(a) + Split(b)
    decreases |a|
  {
    var s := a + [Separator] + b;
    if |a| == 0 {
      assert s == [Separator] + b;
      assert s[1..] == b;
    } else {
      var tail := Split(a[1..]);
      assert s[0] == a[0];
      assert s[1..] == a[1..] + [Separator] + b;
      SplitAtSeparator(a[1..], b);
      var rest := Split(s[1..]);
      assert rest == tail + Split(b);
      if a[0] != Separator {
        assert rest[0] == tail[0];
        assert rest[1..] == tail[1..] + Split(b);
      }
    }
  }

  /** A string without separators is a single segment. */
  lemma {:induction false} SplitSegment(s: string)
    requires Separator !in s
    ensures Split(s) == [s]
    decreases |s|
  {
    if |s| > 0 {
      assert Separator !in s[1..] by {
        forall i | 0 <= i < |s[1..]| ensures s[1..][i] != Separator {
          assert s[1..][i] == s[i + 1];
        }
      }
      SplitSegment(s[1..]);
      assert s == [s[0]] + s[1..];
    }
  }

  lemma {:induction false} SplitJoin(parts: seq<string>)
    requires |parts| >= 1
    requires forall i :: 0 <= i < |parts| ==> Separator !in parts[i]
    ensures Split(Join(parts)) == parts
    decreases |parts|
  {
    SplitSegment(parts[0]);
    if |parts| > 1 {
      SplitJoin(parts[1..]);
      SplitAtSeparator(parts[0], Join(parts[1..]));
      assert parts == [parts[0]] + parts[1..];
    }
  }

  /** A segment that names something (a normal component of `Path::components`). */
  predicate IsComponent(seg: string) {
    seg != "" && seg != "."
  }

  /** The segments that are components, in order. */
  function Components(segs: seq<string>): (cs: seq<string>)
    ensures |cs| <= |segs|
    ensures forall i :: 0 <= i < |cs| ==> IsComponent(cs[i]) && cs[i] in segs
  {
    if segs == [] then []
    else if IsComponent(segs[0]) then [segs[0]] + Components(segs[1..])
    else Components(segs[1..])
  }

  lemma {:induction false} ComponentsAppend(s1: seq<string>, s2: seq<string>)
    ensures Components(s1 + s2) == Components(s1) + Components(s2)
    decreases |s1|
  {
    if s1 != [] {
      assert (s1 + s2)[0] == s1[0];
      assert (s1 + s2)[1..] == s1[1..] + s2;
      ComponentsAppend(s1[1..], s2);
      if IsComponent(s1[0]) {
        assert Components(s1 + s2) == [s1[0]] + Components(s1[1..] + s2);
      } else {
        assert Components(s1 + s2) == Components(s1[1..] + s2);
      }
    } else {
      assert s1 + s2 == s2;
    }
  }

  lemma {:induction false} ComponentsOfComponents(segs: seq<string>)
    requires forall i :: 0 <= i < |segs| ==> IsComponent(segs[i])
    ensures Components(segs) == segs
    decreases |segs|
  {
    if segs != [] {
      ComponentsOfComponents(segs[1..]);
    }
  }

  /**
   * `Path::file_name`: the last component of the path, or `None` when the
   * path has no component or ends in `..`.
   */
  function FileName(path: string): (r: Option<string>)
    ensures r.Some? ==> r.value != "" && r.value != "." && r.value != ".." && Separator !in r.value
  {
    var cs := Components(Split(path));
    if cs == [] || cs[|cs| - 1] == ".." then None else Some(cs[|cs| - 1])
  }

  /** The file name of `dir/name` is `name`, whatever `dir` is. */
  lemma FileNameAfterSeparator(dir: string, name: string)
    requires name != "" && name != "." && name != ".." && Separator !in name
    ensures FileName(dir + [Separator] + name) == Some(name)
  {
    SplitAtSeparator(dir, name);
    SplitSegment(name);
    ComponentsAppend(Split(dir), [name]);
  }

  /** A bare file name is its own file name. */
  lemma FileNameOfSegment(name: string)
    requires name != "" && name != "." && name != ".." && Separator !in name
    ensures FileName(name) == Some(name)
  {
    SplitSegment(name);
  }

  /** A component that can stand in an executable's path (not `..`, no separator). */
  predicate IsNormal(c: string) {
    IsComponent(c) && c != ".." && Separator !in c
  }

  /**
   * An executable's path, as `env::current_exe` returns it: absolute, given
   * by its normal components from the root.
   */
  type ExePath = cs: seq<string> | forall i :: 0 <= i < |cs| ==> IsNormal(cs[i])

  /** The text of an executable path: `/` followed by its components joined with `/`. */
  function Render(path: ExePath): (text: string) {
    if path == [] then [Separator] else Join([""] + path)
  }

  /** Reading the components back out of a rendered path gives the path. */
  lemma RenderComponents(path: ExePath)
    ensures Components(Split(Render(path))) == path
  {
    if path == [] {
      assert Split([Separator]) == ["", ""];
    } else {
      SplitJoin([""] + path);
      assert [""] + path == [""] + path[..];
      ComponentsOfComponents(path);
    }
  }

  /** The file name of a rendered path is its last component. */
  lemma FileNameOfRender(path: ExePath)
    ensures FileName(Render(path)) == if path == [] then None else Some(path[|path| - 1])
  {
    RenderComponents(path);
  }

  /** The directory a path's file name sits in; the root is its own parent here. */
  function Parent(path: ExePath): (dir: ExePath)
    ensures dir <= path
    ensures path != [] ==> |dir| == |path| - 1
  {
    if path == [] then [] else path[..|path| - 1]
  }

  /**
   * `PathBuf::with_file_name`: the last component is replaced by `name`; a
   * path with no file name (the root) gets `name` appended.
   */
  function WithFileName(path: ExePath, name: string): (r: ExePath)
    requires IsNormal(name)
    ensures |r| >= 1 && r[|r| - 1] == name
    ensures r[..|r| - 1] == Parent(path)
  {
    if path == [] then [name] else path[..|path| - 1] + [name]
  }

  /** Index of the last `.` in `s`, if any. */
  function LastDot(s: string): (r: Option<nat>)
    ensures r.Some? ==> r.value < |s| && s[r.value] == '.' && '.' !in s[r.value + 1..]
    ensures r.None? ==> '.' !in s
  {
    if s == [] then None
    else if s[|s| - 1] == '.' then Some(|s| - 1)
    else
      var r := LastDot(s[..|s| - 1]);
      assert s == s[..|s| - 1] + [s[|s| - 1]];
      r
  }

  /**
   * `Path::file_stem` of a normal component: the name without its last
   * `.extension`, except that a name whose only dot is its first character
   * (`.bashrc`) is its own stem.
   */
  function FileStem(name: string): (stem: string)
    ensures stem <= name
    ensures (match LastDot(name)
             case Some(k) => k > 0 ==> stem == name[..k]
             case None => true)
    ensures stem == name <==> LastDot(name).None? || LastDot(name) == Some(0)
    ensures stem != name ==> |stem| > 0 && name[|stem|] == '.' && '.' !in name[|stem| + 1..]
  {
    match LastDot(name)
    case None => name
    case Some(k) => if k == 0 then name else name[..k]
  }

  /**
   * `PathBuf::set_extension`: the file stem keeps its place and is followed by
   * `.extension`. The root, which has no file name, is left unchanged.
   */
  function SetExtension(path: ExePath, extension: string): (r: ExePath)
    requires extension != "" && Separator !in extension
    ensures |r| == |path|
    ensures path != [] ==> r[..|r| - 1] == path[..|path| - 1]
    ensures path != [] ==> r[|r| - 1] == FileStem(path[|path| - 1]) + "." + extension
  {
    if path == [] then path
    else
      var name := path[|path| - 1];
      var stem := FileStem(name);
      var newName := stem + "." + extension;
      assert IsNormal(newName) by {
        assert stem != "" by { assert name != ""; }
        assert |newName| >= 3;
        forall i | 0 <= i < |newName| ensures newName[i] != Separator {
          if i < |stem| {
            assert newName[i] == name[i];
          } else if i > |stem| {
            assert newName[i] == extension[i - |stem| - 1];
          }
        }
      }
      path[..|path| - 1] + [newName]
  }

  /** Giving a dot-free file name the extension `ext` appends `.ext`. */
  lemma SetExtensionOfPlainName(path: ExePath, extension: string)
    requires path != [] && '.' !in path[|path| - 1]
    requires extension != "" && Separator !in extension
    ensures SetExtension(path, extension)[|path| - 1] == path[|path| - 1] + "." + extension
  {
  }
}
