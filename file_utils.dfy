/**
 * backend/utils/file_utils.py: which files count as analysable source code.
 * The two file-system questions of `is_valid_code_file` (is the path a regular
 * file, what are its first bytes) are inputs.
 */
module FileUtils {
  import opened Base
  import opened Text

  type byte = b: int | 0 <= b < 256

  const ALLOWED_EXTENSIONS: set<string> := {
    ".py", ".java", ".js", ".ts", ".cpp", ".c", ".cs", ".go", ".rb",
    ".kt", ".rs", ".php", ".html", ".css", ".sh", ".bash"
  }

  const EXCLUDED_DIRS: set<string> := {
    "node_modules", "venv", "build", "dist", "out", "__pycache__", ".git",
    ".idea", ".vscode", ".mvn", "test", "tests", "coverage", "target", ".gradle"
  }

  // ---------------------------------------------------------------------------
  // pathlib views of a POSIX path

  /** Drops the empty and "." pieces, as pathlib does when it parses a path. */
  function Components(pieces: seq<string>): seq<string>
  {
    if pieces == [] then []
    else (if pieces[0] == "" || pieces[0] == "." then [] else [pieces[0]]) + Components(pieces[1..])
  }

  /** `Path(path).parts` (the root "/" of an absolute path is left out: it is never excluded). */
  function Parts(path: string): seq<string>
  {
    Components(Split(path, '/'))
  }

  /** `Path(path).name`: the last component, or "" for a path without one. */
  function Name(path: string): string
  {
    var ps := Parts(path);
    if ps == [] then "" else ps[|ps| - 1]
  }

  /** Index of the last occurrence of c in s, or -1. */
  function LastIndexOf(s: string, c: char): (i: int)
    ensures -1 <= i < |s|
    ensures i >= 0 ==> s[i] == c
    ensures forall j :: i < j < |s| ==> s[j] != c
  {
    if s == [] then -1
    else if s[|s| - 1] == c then |s| - 1
    else LastIndexOf(s[..|s| - 1], c)
  }

  /** `Path(path).suffix`: from the last dot of the name, unless the dot leads or ends it. */
  function Suffix(path: string): string
  {
    var name := Name(path);
    var i := LastIndexOf(name, '.');
    if 0 < i < |name| - 1 then name[i..] else ""
  }

  /** A suffix is empty, or a dot followed by at least one character and no other dot. */
  lemma SuffixShape(path: string)
    ensures var x := Suffix(path);
      x == [] || (|x| >= 2 && x[0] == '.' && '.' !in x[1..])
  {
    var name := Name(path);
    var i := LastIndexOf(name, '.');
    if 0 < i < |name| - 1 {
      var x := name[i..];
      forall j | 1 <= j < |x| ensures x[j] != '.' {
        assert x[j] == name[i + j];
      }
    }
  }

  lemma {:induction false} ComponentsConcat(a: seq<string>, b: seq<string>)
    ensures Components(a + b) == Components(a) + Components(b)
  {
    if a != [] {
      assert (a + b)[1..] == a[1..] + b;
      ComponentsConcat(a[1..], b);
    } else {
      assert a + b == b;
    }
  }

  /** The parts of `dir / rel` are the parts of dir followed by the parts of rel. */
  lemma PartsOfJoin(dir: string, rel: string)
    ensures Parts(dir + "/" + rel) == Parts(dir) + Parts(rel)
  {
    SplitConcat(dir, rel, '/');
    ComponentsConcat(Split(dir, '/'), Split(rel, '/'));
  }

  /** Joining a directory in front of a path with a name keeps its suffix. */
  lemma SuffixOfJoin(dir: string, rel: string)
    requires Parts(rel) != []
    ensures Suffix(dir + "/" + rel) == Suffix(rel)
  {
    PartsOfJoin(dir, rel);
    assert Name(dir + "/" + rel) == Name(rel);
  }

  lemma {:induction false} ComponentsLower(ps: seq<string>)
    ensures Components(LowerAll(ps)) == LowerAll(Components(ps))
  {
    if ps != [] {
      ComponentsLower(ps[1..]);
      assert LowerAll(ps)[1..] == LowerAll(ps[1..]);
      var x := ps[0];
      assert Lower(x) == "" <==> x == "";
      if |x| == 1 {
        assert Lower(x) == [LowerChar(x[0])];
      }
      assert Lower(x) == "." <==> x == ".";
      if x == "" || x == "." {
        assert Components(ps) == Components(ps[1..]);
      } else {
        assert Components(ps) == [x] + Components(ps[1..]);
        assert LowerAll([x] + Components(ps[1..])) == [Lower(x)] + LowerAll(Components(ps[1..]));
      }
    }
  }

  /** The parts of a lowered path are the lowered parts. */
  lemma PartsLower(path: string)
    ensures Parts(Lower(path)) == LowerAll(Parts(path))
  {
    SplitLower(path, '/');
    ComponentsLower(Split(path, '/'));
  }

  // ---------------------------------------------------------------------------
  // is_valid_code_file

  /** `any(part.lower() in EXCLUDED_DIRS for part in parts)` */
  function AnyExcluded(parts: seq<string>): (r: bool)
  {
    if parts == [] then false else Lower(parts[0]) in EXCLUDED_DIRS || AnyExcluded(parts[1..])
  }

  lemma {:induction false} AnyExcludedMeans(parts: seq<string>)
    ensures AnyExcluded(parts) <==> exists i :: 0 <= i < |parts| && Lower(parts[i]) in EXCLUDED_DIRS
  {
    if parts != [] {
      AnyExcludedMeans(parts[1..]);
      if AnyExcluded(parts[1..]) {
        var i :| 0 <= i < |parts[1..]| && Lower(parts[1..][i]) in EXCLUDED_DIRS;
        assert Lower(parts[i + 1]) in EXCLUDED_DIRS;
      }
      if exists i :: 0 <= i < |parts| && Lower(parts[i]) in EXCLUDED_DIRS {
        var i :| 0 <= i < |parts| && Lower(parts[i]) in EXCLUDED_DIRS;
        if i > 0 {
          assert Lower(parts[1..][i - 1]) in EXCLUDED_DIRS;
        }
      }
    }
  }

  lemma {:induction false} AnyExcludedConcat(a: seq<string>, b: seq<string>)
    ensures AnyExcluded(a + b) == (AnyExcluded(a) || AnyExcluded(b))
  {
    if a != [] {
      assert (a + b)[1..] == a[1..] + b;
      AnyExcludedConcat(a[1..], b);
    } else {
      assert a + b == b;
    }
  }

  /** `bytes.isascii()` */
  predicate IsAscii(bytes: seq<byte>) { forall i :: 0 <= i < |bytes| ==> bytes[i] < 128 }

  /** `f.read(1024)`: at most the first 1024 bytes. */
  function Head(bytes: seq<byte>): (h: seq<byte>)
    ensures |h| <= 1024 && |h| <= |bytes| && h == bytes[..|h|]
    ensures |bytes| <= 1024 ==> h == bytes
    ensures |h| == if |bytes| <= 1024 then |bytes| else 1024
  {
    if |bytes| <= 1024 then bytes else bytes[..1024]
  }

  /**
   * `is_valid_code_file(path)`. `isFile` is `path.is_file()`; `content` is
   * what opening and reading the file gives, None when that raises.
   */
  function IsValidCodeFile(path: string, isFile: bool, content: Option<seq<byte>>): (valid: bool)
  {
    if !isFile then false
    else if AnyExcluded(Parts(path)) then false
    else if Lower(Suffix(path)) !in ALLOWED_EXTENSIONS then false
    else match content
      case None => false
      case Some(bytes) => IsAscii(Head(bytes))
  }

  /**
   * The file is accepted exactly when it is a regular file, no component of
   * its path names an excluded directory, its lower-cased suffix is allowed,
   * it can be read, and its first 1024 bytes are ASCII.
   */
  lemma ValidCodeFileMeans(path: string, isFile: bool, content: Option<seq<byte>>)
    ensures IsValidCodeFile(path, isFile, content) <==>
      isFile
      && (forall i :: 0 <= i < |Parts(path)| ==> Lower(Parts(path)[i]) !in EXCLUDED_DIRS)
      && Lower(Suffix(path)) in ALLOWED_EXTENSIONS
      && content.Some?
      && (forall i :: 0 <= i < |content.value| && i < 1024 ==> content.value[i] < 128)
  {
    AnyExcludedMeans(Parts(path));
    if content.Some? {
      HeadAscii(content.value);
    }
  }

  lemma HeadAscii(bytes: seq<byte>)
    ensures IsAscii(Head(bytes)) <==> forall i :: 0 <= i < |bytes| && i < 1024 ==> bytes[i] < 128
  {
    var h := Head(bytes);
    assert |h| == if |bytes| <= 1024 then |bytes| else 1024;
    assert forall i :: 0 <= i < |h| ==> h[i] == bytes[i];
  }

  /**
   * Every component counts, also those of the directory the file sits in:
   * a file below an excluded directory is never valid, whatever its name.
   */
  lemma ExcludedDirectoryAbove(dir: string, rel: string, isFile: bool, content: Option<seq<byte>>)
    requires exists i :: 0 <= i < |Parts(dir)| && Lower(Parts(dir)[i]) in EXCLUDED_DIRS
    ensures !IsValidCodeFile(dir + "/" + rel, isFile, content)
  {
    PartsOfJoin(dir, rel);
    AnyExcludedMeans(Parts(dir));
    AnyExcludedConcat(Parts(dir), Parts(rel));
  }
}
