/**
 * The POSIX path helpers the modelled code calls: `os.path.join`, `os.path.basename`,
 * `os.path.dirname`, and the `stem` of a `pathlib` path component.
 */
module PosixPath {
  import opened Text

  /** A name as `os.listdir` reports it: not empty and without a separator. */
  predicate IsEntryName(n: string) {
    n != [] && '/' !in n
  }

  predicate AllSlashes(s: string) {
    forall i :: 0 <= i < |s| ==> s[i] == '/'
  }

  /** `os.path.join(a, b)` */
  function Join(a: string, b: string): (r: string)
    ensures EndsWith(r, b)
  {
    if StartsWith(b, "/") then b
    else if a == [] || EndsWith(a, "/") then a + b
    else a + "/" + b
  }

  /** `os.path.basename(p)`: everything after the last separator. */
  function Basename(p: string): string {
    p[RFind(p, '/') + 1..]
  }

  /** The basename holds no separator, ends the path, and follows a separator unless it is
      the whole path. */
  lemma BasenameSpec(p: string)
    ensures var r := Basename(p);
      && '/' !in r
      && EndsWith(p, r)
      && (|r| < |p| ==> p[|p| - |r| - 1] == '/')
  {
    RFindLast(p, '/');
    var r := Basename(p);
    forall k | 0 <= k < |r| ensures r[k] != '/' {
      assert r[k] == p[RFind(p, '/') + 1 + k];
    }
  }

  /** `head.rstrip('/')` */
  function RStripSlashes(s: string): string {
    if s != [] && s[|s| - 1] == '/' then RStripSlashes(s[..|s| - 1]) else s
  }

  /** `os.path.dirname(p)`: everything before the last separator, trailing separators
      removed unless nothing but separators is left. */
  function Dirname(p: string): string {
    var head := p[..RFind(p, '/') + 1];
    if head != [] && !AllSlashes(head) then RStripSlashes(head) else head
  }

  /** The name of the directory immediately holding `p`:
      `os.path.basename(os.path.dirname(p))`. */
  function ParentName(p: string): string {
    Basename(Dirname(p))
  }

  /** `pathlib.PurePath.stem` of a single component: the name without its last suffix,
      where a suffix is a final "." that neither starts nor ends the name. */
  function Stem(name: string): string {
    var i := RFind(name, '.');
    if 0 < i < |name| - 1 then name[..i] else name
  }

  /** `Path(p).parent.stem` */
  function ParentStem(p: string): string {
    Stem(ParentName(p))
  }

  /** Stripping removes only trailing separators, and all of them. */
  lemma {:induction false} RStripSlashesSpec(s: string)
    ensures var r := RStripSlashes(s);
      && StartsWith(s, r)
      && (r == [] || r[|r| - 1] != '/')
      && AllSlashes(s[|r|..])
  {
    if s != [] && s[|s| - 1] == '/' {
      var s' := s[..|s| - 1];
      RStripSlashesSpec(s');
      var r := RStripSlashes(s');
      assert s[..|r|] == s'[..|r|];
      forall k | |r| <= k < |s| ensures s[k] == '/' {
        if k < |s'| { assert s'[|r|..][k - |r|] == s'[k]; }
      }
    }
  }

  /** The directory part is a prefix of the path that only separators divide from the
      basename; a path without a separator has the empty directory part. */
  lemma DirnameSpec(p: string)
    ensures StartsWith(p, Dirname(p))
    ensures |Dirname(p)| + |Basename(p)| <= |p|
    ensures AllSlashes(p[|Dirname(p)|..|p| - |Basename(p)|])
    ensures '/' !in p ==> Dirname(p) == ""
  {
    var head := p[..RFind(p, '/') + 1];
    RStripSlashesSpec(head);
    RFindLast(p, '/');
    var d := Dirname(p);
    assert |p| - |Basename(p)| == |head|;
    if head != [] && !AllSlashes(head) {
      assert p[|d|..|head|] == head[|d|..];
    }
  }

  /** The stem is a prefix of the name, and a name without a dot is its own stem. */
  lemma StemSpec(name: string)
    ensures StartsWith(name, Stem(name))
    ensures '.' !in name ==> Stem(name) == name
  {
    RFindLast(name, '.');
  }

  /** Joining an entry name to a directory path and taking the basename gives the name back. */
  lemma BasenameOfJoin(dir: string, name: string)
    requires IsEntryName(name)
    ensures Basename(Join(dir, name)) == name
  {
    var j := Join(dir, name);
    var pre := j[..|j| - |name|];
    assert j == pre + name;
    assert pre == [] || pre[|pre| - 1] == '/';
    RFindAppend(pre, name, '/');
  }

  /** The path a join produces from an entry name does not end in a separator. */
  lemma JoinEndsInName(dir: string, name: string)
    requires IsEntryName(name)
    ensures var x := Join(dir, name); x != [] && x[|x| - 1] == name[|name| - 1] != '/'
  {
    var x := Join(dir, name);
    assert x[|x| - |name|..][|name| - 1] == x[|x| - 1];
  }

  /** The directory part of `x + "/" + name` is `x` when `x` does not end in a separator. */
  lemma DirnameOfChild(x: string, name: string)
    requires x != [] && x[|x| - 1] != '/' && IsEntryName(name)
    ensures Dirname(x + "/" + name) == x
  {
    var p := x + "/" + name;
    assert p == (x + "/") + name;
    RFindAppend(x + "/", name, '/');
    var head := p[..|x| + 1];
    assert head == x + "/";
    assert head[|x| - 1] != '/';
    assert head[..|head| - 1] == x;
    assert RStripSlashes(x) == x;
    assert RStripSlashes(head) == RStripSlashes(x);
  }

  /** A name joined under a path that ends in an entry name gets a separator of its own. */
  lemma JoinUnderEntry(root: string, dir: string, name: string)
    requires IsEntryName(dir) && IsEntryName(name)
    ensures Join(Join(root, dir), name) == Join(root, dir) + "/" + name
  {
    JoinEndsInName(root, dir);
    assert name[0] != '/';
  }

  /** A file joined under a directory joined under any path has that directory as parent. */
  lemma ParentNameOfJoin(root: string, dir: string, name: string)
    requires IsEntryName(dir) && IsEntryName(name)
    ensures ParentName(Join(Join(root, dir), name)) == dir
  {
    var x := Join(root, dir);
    JoinEndsInName(root, dir);
    JoinUnderEntry(root, dir, name);
    DirnameOfChild(x, name);
    BasenameOfJoin(root, dir);
  }
}
