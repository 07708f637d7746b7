/**
 * `validateFilePath`, the guard in front of the configuration-file readers:
 * a path is refused if it contains a traversal pattern, does not exist, is
 * not a regular file, or has an extension outside the allowed list. Path
 * resolution and the file system are inputs: `resolved` is what the platform
 * makes of the path, `fs` what lies at each resolved path.
 */
module FilePath {
  import opened Wrappers
  import opened JsStrings

  datatype FsEntry = RegularFile | Directory

  datatype PathError =
    | SuspiciousPattern
    | DoesNotExist
    | NotAFile
    | ExtensionNotAllowed(allowed: seq<string>)

  /** The `error` text of a refused path. */
  function Message(e: PathError): string
  {
    match e
    case SuspiciousPattern => "Path contains suspicious patterns"
    case DoesNotExist => "File does not exist"
    case NotAFile => "Path is not a file"
    case ExtensionNotAllowed(allowed) => "File extension must be one of: " + Join(allowed, ", ")
  }

  /** The patterns checked, in order, before the path is resolved. */
  const SuspiciousPatterns: seq<string> := ["..", "~", "%00", "\0"]

  /** Some suspicious pattern occurs in `filePath`. */
  predicate HasSuspiciousPattern(filePath: string)
  {
    exists k :: 0 <= k < |SuspiciousPatterns| && Includes(filePath, SuspiciousPatterns[k])
  }

  /** `p` with its trailing `/` characters removed. */
  function StripTrailingSlashes(p: string): (r: string)
    ensures r <= p
    ensures r == [] || r[|r| - 1] != '/'
    ensures forall k :: |r| <= k < |p| ==> p[k] == '/'
  {
    if |p| > 0 && p[|p| - 1] == '/' then StripTrailingSlashes(p[..|p| - 1]) else p
  }

  /** The part of `p` after its last `/`, or all of `p` when it has none. */
  function AfterLastSlash(p: string): (r: string)
    ensures |r| <= |p| && r == p[|p| - |r|..]
    ensures '/' !in r
    ensures |r| < |p| ==> p[|p| - |r| - 1] == '/'
  {
    if |p| == 0 then []
    else if p[|p| - 1] == '/' then []
    else AfterLastSlash(p[..|p| - 1]) + [p[|p| - 1]]
  }

  /** `path.basename(p)` on POSIX: the last segment, trailing slashes ignored. */
  function Basename(p: string): (r: string)
    ensures '/' !in r
  {
    AfterLastSlash(StripTrailingSlashes(p))
  }

  /** The position of the last `.` in `b`, if any. */
  function LastDot(b: string): (r: Option<nat>)
    ensures r.Some? ==> r.value < |b| && b[r.value] == '.' && '.' !in b[r.value + 1..]
    ensures r.None? <==> '.' !in b
  {
    if |b| == 0 then None
    else if b[|b| - 1] == '.' then Some(|b| - 1)
    else
      var r := LastDot(b[..|b| - 1]);
      assert b == b[..|b| - 1] + [b[|b| - 1]];
      r
  }

  /**
   * `path.extname(p)` on POSIX: from the last `.` of the basename to its end;
   * empty when there is no `.`, when the only leading part is the dot itself
   * (a name such as `.bashrc`), and for the name `..`. A non-empty extension
   * starts with its one and only `.`, lies within the last segment of the
   * path, and ends where that segment ends.
   */
  function Extname(p: string): (r: string)
    ensures var b := Basename(p);
      r == [] || (r[0] == '.' && '.' !in r[1..] && '/' !in r && |r| < |b| && r == b[|b| - |r|..])
  {
    var b := Basename(p);
    match LastDot(b)
    case None => ""
    case Some(i) =>
      if i == 0 || b == ".." then ""
      else
        LastDotSuffix(b, i);
        b[i..]
  }

  /** The text from the last `.` of a slash-free name on, when the dot is not its first character. */
  lemma LastDotSuffix(b: string, i: nat)
    requires 0 < i < |b| && b[i] == '.' && '.' !in b[i + 1..] && '/' !in b
    ensures var e := b[i..];
      e[0] == '.' && '.' !in e[1..] && '/' !in e && |e| < |b| && e == b[|b| - |e|..]
  {
    var e := b[i..];
    assert e[1..] == b[i + 1..];
    assert forall c :: c in e ==> c in b;
  }

  /** `validateFilePath(filePath, allowedExtensions)`, with the resolved path and the file system as inputs. */
  function ValidateFilePath(filePath: string, allowed: seq<string>, resolved: string, fs: map<string, FsEntry>)
    : (r: Result<string, PathError>)
    ensures r.Ok? ==> r.value == resolved && resolved in fs && fs[resolved] == RegularFile
  {
    if HasSuspiciousPattern(filePath) then Err(SuspiciousPattern)
    else if resolved !in fs then Err(DoesNotExist)
    else if fs[resolved] != RegularFile then Err(NotAFile)
    else if |allowed| > 0 && ToLowerAscii(Extname(resolved)) !in allowed then Err(ExtensionNotAllowed(allowed))
    else Ok(resolved)
  }

  /**
   * A path is accepted exactly when none of `..`, `~`, `%00` or the NUL
   * character occurs in it, it resolves to a regular file, and, when a list of
   * extensions is given, the lower-cased extension is on it; the path handed
   * back is the resolved one.
   */
  lemma AcceptsIff(filePath: string, allowed: seq<string>, resolved: string, fs: map<string, FsEntry>)
    ensures ValidateFilePath(filePath, allowed, resolved, fs).Ok? <==>
      (forall k :: 0 <= k < |SuspiciousPatterns| ==>
         forall i: nat :: !OccursAt(filePath, SuspiciousPatterns[k], i))
      && resolved in fs && fs[resolved] == RegularFile
      && (|allowed| > 0 ==> ToLowerAscii(Extname(resolved)) in allowed)
    ensures ValidateFilePath(filePath, allowed, resolved, fs).Ok? ==>
      ValidateFilePath(filePath, allowed, resolved, fs).value == resolved
  {
    forall k | 0 <= k < |SuspiciousPatterns| {
      IncludesIff(filePath, SuspiciousPatterns[k]);
    }
  }

  /**
   * A path holding a suspicious pattern is refused before resolution: the
   * answer does not depend on what the path resolves to or on the file system.
   */
  lemma SuspiciousRefusedFirst(filePath: string, allowed: seq<string>, resolved: string, fs: map<string, FsEntry>, k: nat, i: nat)
    requires k < |SuspiciousPatterns| && OccursAt(filePath, SuspiciousPatterns[k], i)
    ensures ValidateFilePath(filePath, allowed, resolved, fs) == Err(SuspiciousPattern)
  {
    IncludesIff(filePath, SuspiciousPatterns[k]);
  }

  /** The checks run in order: existence, then kind, then extension. */
  lemma RefusalOrder(filePath: string, allowed: seq<string>, resolved: string, fs: map<string, FsEntry>)
    requires !HasSuspiciousPattern(filePath)
    ensures resolved !in fs ==> ValidateFilePath(filePath, allowed, resolved, fs) == Err(DoesNotExist)
    ensures resolved in fs && fs[resolved] == Directory ==>
      ValidateFilePath(filePath, allowed, resolved, fs) == Err(NotAFile)
    ensures ValidateFilePath(filePath, allowed, resolved, fs).Err? ==>
      ValidateFilePath(filePath, allowed, resolved, fs).error != SuspiciousPattern
  {
  }

  /** Without an extension list any regular file passes the extension check. */
  lemma EmptyListAllowsAnyExtension(filePath: string, resolved: string, fs: map<string, FsEntry>)
    requires !HasSuspiciousPattern(filePath) && resolved in fs && fs[resolved] == RegularFile
    ensures ValidateFilePath(filePath, [], resolved, fs) == Ok(resolved)
  {
  }

  /** A file `name.yaml` in any directory has the extension `.yaml`. */
  lemma YamlExtension(dir: string, name: string)
    requires |name| > 0 && '/' !in name && '.' !in name
    ensures Extname(dir + "/" + name + ".yaml") == ".yaml"
  {
    var q := name + ".yaml";
    assert dir + "/" + name + ".yaml" == dir + "/" + q;
    YamlName(name);
    BasenameOfJoin(dir, q);
  }

  lemma YamlName(name: string)
    requires |name| > 0 && '/' !in name && '.' !in name
    ensures var q := name + ".yaml";
      '/' !in q && LastDot(q) == Some(|name|) && q[|name|..] == ".yaml" && q != ".."
  {
    var sfx := ".yaml";
    var q := name + sfx;
    assert '/' !in sfx;
    assert q[|name|..] == sfx;
    assert '.' in sfx by { assert sfx[0] == '.'; }
    assert LastDot(sfx).value == 0;
    LastDotOfJoin(name, sfx);
  }

  /** The basename of `dir/name` is `name`. */
  lemma BasenameOfJoin(dir: string, name: string)
    requires |name| > 0 && '/' !in name
    ensures Basename(dir + "/" + name) == name
  {
    var p := dir + "/" + name;
    assert StripTrailingSlashes(p) == p;
    AfterLastSlashOfJoin(dir + "/", name);
  }

  lemma {:induction false} AfterLastSlashOfJoin(front: string, name: string)
    requires |front| > 0 && front[|front| - 1] == '/' && '/' !in name
    ensures AfterLastSlash(front + name) == name
    decreases |name|
  {
    if |name| == 0 {
      assert front + name == front;
    } else {
      var n := |name| - 1;
      assert (front + name)[..|front| + n] == front + name[..n];
      AfterLastSlashOfJoin(front, name[..n]);
      assert name == name[..n] + [name[n]];
    }
  }

  /** The last dot of `a + b` is the last dot of `b` when `a` has none before it to matter. */
  lemma {:induction false} LastDotOfJoin(a: string, b: string)
    requires '.' !in a && LastDot(b).Some?
    ensures LastDot(a + b) == Some(|a| + LastDot(b).value)
    decreases |b|
  {
    var n := |b| - 1;
    var ab := a + b;
    assert |ab| - 1 == |a| + n && ab[|a| + n] == b[n];
    if b[n] != '.' {
      assert ab[..|a| + n] == a + b[..n];
      assert LastDot(ab) == LastDot(a + b[..n]);
      assert LastDot(b) == LastDot(b[..n]);
      LastDotOfJoin(a, b[..n]);
    }
  }
}
