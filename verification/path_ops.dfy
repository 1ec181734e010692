/** Python's POSIX path helpers (os.path.splitext, os.path.basename,
    os.path.join with two arguments), on strings. */
module PathOps {

  const Sep: char := '/'
  const ExtSep: char := '.'

  /** Index of the last occurrence of `c` in `s`, or -1 when there is none
      (Python's str.rfind). */
  function RFind(s: string, c: char): (i: int)
    ensures -1 <= i < |s|
    ensures 0 <= i ==> s[i] == c
    ensures forall k :: i < k < |s| ==> s[k] != c
  {
    if s == [] then -1
    else if s[|s| - 1] == c then |s| - 1
    else RFind(s[..|s| - 1], c)
  }

  /** The three properties of RFind's contract pin its value down. */
  lemma RFindUnique(s: string, c: char, i: int)
    requires -1 <= i < |s|
    requires 0 <= i ==> s[i] == c
    requires forall k :: i < k < |s| ==> s[k] != c
    ensures RFind(s, c) == i
  {
  }

  /** RFind finds something exactly when the character occurs. */
  lemma RFindFound(s: string, c: char)
    ensures RFind(s, c) >= 0 <==> c in s
  {
    if c in s {
      var w :| 0 <= w < |s| && s[w] == c;
      assert RFind(s, c) >= w;
    }
  }

  /** The last `c` of `x + y` is the last one of `y` if `y` has one, else the last one of `x`. */
  lemma RFindConcat(x: string, y: string, c: char)
    ensures RFind(x + y, c) == if RFind(y, c) >= 0 then |x| + RFind(y, c) else RFind(x, c)
  {
    var s := x + y;
    var j := RFind(y, c);
    if j >= 0 {
      forall k | |x| + j < k < |s| ensures s[k] != c {
        assert s[k] == y[k - |x|];
      }
      RFindUnique(s, c, |x| + j);
    } else {
      var i := RFind(x, c);
      forall k | i < k < |s| ensures s[k] != c {
        if k >= |x| { assert s[k] == y[k - |x|]; }
      }
      RFindUnique(s, c, i);
    }
  }

  /** The last path component: everything after the last separator. */
  function Basename(p: string): (b: string)
    ensures Sep !in b
  {
    p[RFind(p, Sep) + 1..]
  }

  /** The basename is the longest suffix without a separator: it is a
      suffix, and either all of `p` or preceded by a separator. */
  lemma BasenameIsLastComponent(p: string)
    ensures var b := Basename(p);
      |b| <= |p| && p[|p| - |b|..] == b && (|b| < |p| ==> p[|p| - |b| - 1] == Sep)
  {
  }

  lemma BasenameConcat(x: string, y: string)
    ensures Basename(x + y) == if Sep in y then Basename(y) else Basename(x) + y
  {
    RFindConcat(x, y, Sep);
    RFindFound(y, Sep);
    var j := RFind(y, Sep);
    if Sep in y {
      assert (x + y)[|x| + j + 1..] == y[j + 1..];
    } else {
      var i := RFind(x, Sep);
      assert (x + y)[i + 1..] == x[i + 1..] + y;
    }
  }

  lemma BasenameOfName(s: string)
    requires Sep !in s
    ensures Basename(s) == s
  {
    RFindFound(s, Sep);
  }

  lemma ConcatNoSep(x: string, y: string)
    requires Sep !in x && Sep !in y
    ensures Sep !in x + y
  {
    assert forall k :: 0 <= k < |x + y| ==> (x + y)[k] == if k < |x| then x[k] else y[k - |x|];
  }

  lemma PrefixNoSep(s: string, prefix: string)
    requires Sep !in s && |prefix| <= |s| && s[..|prefix|] == prefix
    ensures Sep !in prefix
  {
    assert forall k :: 0 <= k < |prefix| ==> prefix[k] == s[k];
  }

  /** A path that is empty or ends with a separator has an empty last component. */
  lemma BasenameOfDirectory(s: string)
    requires s == [] || s[|s| - 1] == Sep
    ensures Basename(s) == []
  {
  }

  /** A non-dot character somewhere before a dot: exactly the file names
      that splitext gives an extension (leading dots do not count). */
  predicate HasExtension(name: string)
  {
    exists j, i :: 0 <= j < i < |name| && name[j] != ExtSep && name[i] == ExtSep
  }

  /** A string with at least one character that is not a dot. */
  predicate HasNonDot(s: string)
  {
    exists k :: 0 <= k < |s| && s[k] != ExtSep
  }

  datatype Split = Split(root: string, ext: string)

  /** An extension as splitext returns it: empty, or a dot followed by
      characters that are neither dots nor separators. */
  predicate IsExtension(ext: string)
  {
    ext != [] ==> ext[0] == ExtSep && forall k :: 0 < k < |ext| ==> ext[k] != ExtSep && ext[k] != Sep
  }

  /** os.path.splitext: the extension starts at the last dot of the last
      component, provided some non-dot character precedes that dot within
      the component; otherwise the extension is empty. */
  function SplitExt(p: string): (r: Split)
    ensures r.root + r.ext == p
    ensures IsExtension(r.ext)
  {
    var sepIndex := RFind(p, Sep);
    var dotIndex := RFind(p, ExtSep);
    if dotIndex > sepIndex && HasNonDot(p[sepIndex + 1..dotIndex]) then
      assert forall k :: dotIndex < k < |p| ==> p[k] != ExtSep && p[k] != Sep;
      Split(p[..dotIndex], p[dotIndex..])
    else
      Split(p, [])
  }

  /** A name has an extension exactly when something other than a dot
      precedes its last dot. */
  lemma HasExtensionAtLastDot(name: string)
    ensures HasExtension(name) <==> RFind(name, ExtSep) >= 0 && HasNonDot(name[..RFind(name, ExtSep)])
  {
    var x := RFind(name, ExtSep);
    if HasExtension(name) {
      var j, y :| 0 <= j < y < |name| && name[j] != ExtSep && name[y] == ExtSep;
      assert x >= y;
      assert name[..x][j] == name[j];
    }
    if x >= 0 && HasNonDot(name[..x]) {
      var j :| 0 <= j < x && name[..x][j] != ExtSep;
      assert name[j] != ExtSep && name[x] == ExtSep;
    }
  }

  /** splitext finds an extension exactly when the last component has one. */
  lemma SplitExtHasExtension(p: string)
    ensures SplitExt(p).ext != [] <==> HasExtension(Basename(p))
  {
    SplitExtCondition(p);
    ComponentHasExtension(p);
  }

  /** When splitext's body takes the extension off. */
  lemma SplitExtCondition(p: string)
    ensures SplitExt(p).ext != []
        <==> RFind(p, ExtSep) > RFind(p, Sep) && HasNonDot(p[RFind(p, Sep) + 1..RFind(p, ExtSep)])
  {
  }

  /** The last component has an extension exactly when the last dot of the
      path lies in it, after some non-dot character of it. */
  lemma ComponentHasExtension(p: string)
    ensures HasExtension(Basename(p))
        <==> RFind(p, ExtSep) > RFind(p, Sep) && HasNonDot(p[RFind(p, Sep) + 1..RFind(p, ExtSep)])
  {
    LastDotAfter(p, RFind(p, Sep) + 1);
  }

  /** The suffix of `p` from `n` on has an extension exactly when the last
      dot of `p` lies in that suffix, after some non-dot character of it. */
  lemma LastDotAfter(p: string, n: nat)
    requires n <= |p|
    ensures var d := RFind(p, ExtSep);
      HasExtension(p[n..]) <==> d >= n && HasNonDot(p[n..d])
  {
    var b := p[n..];
    var x := RFind(b, ExtSep);
    assert RFind(p, ExtSep) == if x >= 0 then n + x else RFind(p[..n], ExtSep) by {
      assert p[..n] + b == p;
      RFindConcat(p[..n], b, ExtSep);
    }
    HasExtensionAtLastDot(b);
    if x >= 0 {
      assert p[n..n + x] == b[..x];
    }
  }

  /** A non-empty extension that ends `p` begins at the last dot of `p`. */
  lemma ExtensionStartsAtLastDot(p: string, root: string, ext: string)
    requires root + ext == p
    requires ext != [] && IsExtension(ext)
    ensures RFind(p, ExtSep) == |root|
  {
    forall k | |root| < k < |p| ensures p[k] != ExtSep {
      assert p[k] == ext[k - |root|];
    }
    RFindUnique(p, ExtSep, |root|);
  }

  /** Any split of `p` with the properties of splitext is the one splitext returns. */
  lemma SplitExtUnique(p: string, root: string, ext: string)
    requires root + ext == p
    requires ext != [] <==> HasExtension(Basename(p))
    requires IsExtension(ext)
    ensures SplitExt(p) == Split(root, ext)
  {
    var s := SplitExt(p);
    SplitExtHasExtension(p);
    if ext != [] {
      ExtensionStartsAtLastDot(p, root, ext);
      ExtensionStartsAtLastDot(p, s.root, s.ext);
      assert s.ext == p[|p| - |ext|..] == ext;
      assert s.root == p[..|p| - |ext|] == root;
    }
  }

  /** splitext and basename commute: the extension is found in the last
      component only, and the root keeps every directory of the path. */
  lemma BasenameOfSplit(p: string)
    ensures SplitExt(Basename(p)) == Split(Basename(SplitExt(p).root), SplitExt(p).ext)
  {
    var s := SplitExt(p);
    var b := Basename(p);
    ExtensionHasNoSep(s.ext);
    BasenameConcat(s.root, s.ext);
    BasenameOfName(b);
    SplitExtHasExtension(p);
    SplitExtUnique(b, Basename(s.root), s.ext);
  }

  /** os.path.join(a, b): an absolute `b` replaces `a`; otherwise `b` is
      appended with a separator, unless `a` is empty or already ends with one. */
  function Join(a: string, b: string): string
  {
    if b != [] && b[0] == Sep then b
    else if a == [] || a[|a| - 1] == Sep then a + b
    else a + [Sep] + b
  }

  /** An absolute second argument is the result; a relative one follows the
      first argument, separated by exactly one separator unless the first
      argument is empty or already ends with one. */
  lemma JoinShape(a: string, b: string)
    ensures var r := Join(a, b);
      (b != [] && b[0] == Sep ==> r == b) &&
      (!(b != [] && b[0] == Sep) ==>
        |a| + |b| <= |r| <= |a| + |b| + 1 && r[..|a|] == a && r[|r| - |b|..] == b &&
        (|r| == |a| + |b| + 1 ==> a != [] && r[|a|] == Sep) &&
        (|r| == |a| + |b| <==> a == [] || a[|a| - 1] == Sep))
  {
  }

  /** The last component of a join is the last component of its second argument. */
  lemma JoinBasename(a: string, b: string)
    ensures Basename(Join(a, b)) == Basename(b)
  {
    if !(b != [] && b[0] == Sep) {
      var head := if a == [] || a[|a| - 1] == Sep then a else a + [Sep];
      assert head == [] || head[|head| - 1] == Sep;
      assert Join(a, b) == head + b;
      BasenameAfterDirectory(head, b);
    }
  }

  /** Whatever precedes a separator does not change the last component. */
  lemma BasenameAfterDirectory(head: string, b: string)
    requires head == [] || head[|head| - 1] == Sep
    ensures Basename(head + b) == Basename(b)
  {
    if Sep in b {
      BasenameConcat(head, b);
    } else {
      var h := Basename(head);
      assert h == [] by { BasenameOfDirectory(head); }
      assert Basename(b) == b by { BasenameOfName(b); }
      assert Basename(head + b) == h + b by { BasenameConcat(head, b); }
      assert h + b == b;
    }
  }

  /** Joining a directory with a plain file name. */
  lemma JoinName(a: string, name: string)
    requires Sep !in name
    ensures Join(a, name) == if a == [] || a[|a| - 1] == Sep then a + name else a + [Sep] + name
  {
    if name != [] {
      assert name[0] in name;
    }
  }

  /** Appending an extension to a root whose last component is not all
      dots: splitext takes that extension off again. */
  lemma SplitExtAppend(root: string, ext: string)
    requires ext != [] && IsExtension(ext)
    requires HasNonDot(Basename(root))
    ensures SplitExt(root + ext) == Split(root, ext)
  {
    var b := Basename(root);
    ExtensionHasNoSep(ext);
    BasenameConcat(root, ext);
    HasExtensionAppend(b, ext);
    SplitExtUnique(root + ext, root, ext);
  }

  lemma ExtensionHasNoSep(ext: string)
    requires IsExtension(ext)
    ensures Sep !in ext
  {
    assert forall k :: 0 <= k < |ext| ==> ext[k] != Sep;
  }

  lemma HasExtensionAppend(name: string, ext: string)
    requires HasNonDot(name) && ext != [] && IsExtension(ext)
    ensures HasExtension(name + ext)
  {
    var k :| 0 <= k < |name| && name[k] != ExtSep;
    assert (name + ext)[k] != ExtSep && (name + ext)[|name|] == ExtSep;
  }

  /** str.endswith. */
  predicate EndsWith(s: string, suffix: string)
  {
    |suffix| <= |s| && s[|s| - |suffix|..] == suffix
  }
}
