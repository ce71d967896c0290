/** File paths as `path/filepath` computes them on a Unix system.

    A cleaned path is the sequence of its components. Absolute paths are the keys of the modelled file
    system; a relative path may still start with ".." components. */
module Paths {

  type Path = seq<string>

  /** Components of a slash-separated string, as strings.Split(s, "/") returns them. */
  function Split(s: string): (parts: seq<string>)
    ensures |parts| > 0
  {
    if s == "" then [""]
    else
      var rest := Split(s[1..]);
      if s[0] == '/' then [""] + rest else [[s[0]] + rest[0]] + rest[1..]
  }

  /** A component that lexical cleaning keeps as it is. */
  predicate Plain(c: string) {
    c != "" && c != "." && c != ".." && '/' !in c
  }

  predicate Rooted(s: string) {
    |s| > 0 && s[0] == '/'
  }

  /** One step of lexical cleaning: `rooted` paths have nothing above their first component. */
  function Push(rooted: bool, p: Path, c: string): Path {
    if c == "" || c == "." then p
    else if c != ".." then p + [c]
    else if |p| > 0 && p[|p| - 1] != ".." then p[..|p| - 1]
    else if rooted then p
    else p + [c]
  }

  /** Lexical cleaning of `cs` after the already clean `p`. */
  function Descend(rooted: bool, p: Path, cs: seq<string>): Path {
    if |cs| == 0 then p else Push(rooted, Descend(rooted, p, cs[..|cs| - 1]), cs[|cs| - 1])
  }

  /** The absolute path of `rel` seen from the absolute directory `base`. */
  function Full(base: Path, rel: Path): Path {
    Descend(true, base, rel)
  }

  /** First component that a hash puts under its namespace. */
  function Prefix(hash: string): string {
    if |hash| >= 2 then hash[..2] else "xx"
  }

  /** resolveRelativePath: [<namespace>/]<prefix>/<hash><ext>, joined and cleaned. */
  function RelativePath(namespace: string, hash: string, ext: string): Path {
    var tail := Split(Prefix(hash)) + Split(hash + ext);
    if namespace != "" then Descend(Rooted(namespace), [], Split(namespace) + tail)
    else Descend(Rooted(Prefix(hash)), [], tail)
  }

  lemma {:induction false} SplitPlain(s: string)
    requires '/' !in s
    ensures Split(s) == [s]
  {
    if s != "" {
      assert s == [s[0]] + s[1..];
      SplitPlain(s[1..]);
    }
  }

  lemma DescendLast(rooted: bool, p: Path, cs: seq<string>, c: string)
    requires Plain(c)
    ensures Descend(rooted, p, cs + [c]) == Descend(rooted, p, cs) + [c]
  {
    assert (cs + [c])[..|cs|] == cs;
  }

  /** The last component of a cassette path is its file name, so the file name carries the hash. */
  lemma FileName(base: Path, namespace: string, hash: string, ext: string) returns (dir: Path)
    requires '/' !in hash && Plain(hash + ext)
    ensures Full(base, RelativePath(namespace, hash, ext)) == dir + [hash + ext]
  {
    var name := hash + ext;
    SplitPlain(name);
    var lead := if namespace != "" then Split(namespace) + Split(Prefix(hash)) else Split(Prefix(hash));
    var rooted := if namespace != "" then Rooted(namespace) else Rooted(Prefix(hash));
    if namespace != "" {
      assert Split(namespace) + (Split(Prefix(hash)) + [name]) == lead + [name];
    }
    DescendLast(rooted, [], lead, name);
    dir := Descend(true, base, Descend(rooted, [], lead));
    DescendLast(true, base, Descend(rooted, [], lead), name);
  }

  function WithLast(parts: seq<string>, ext: string): seq<string>
    requires |parts| > 0
  {
    parts[..|parts| - 1] + [parts[|parts| - 1] + ext]
  }

  lemma {:induction false} SplitLast(s: string, ext: string)
    requires '/' !in ext
    ensures Split(s + ext) == WithLast(Split(s), ext)
  {
    if s == "" {
      SplitPlain(ext);
      assert s + ext == ext;
    } else {
      SplitLast(s[1..], ext);
      assert (s + ext)[1..] == s[1..] + ext && (s + ext)[0] == s[0];
      LastOfLonger(s[0], Split(s[1..]), ext);
    }
  }

  lemma LastOfLonger(c: char, rest: seq<string>, ext: string)
    requires |rest| > 0
    ensures WithLast([""] + rest, ext) == [""] + WithLast(rest, ext)
    ensures var more := WithLast(rest, ext);
            WithLast([[c] + rest[0]] + rest[1..], ext) == [[c] + more[0]] + more[1..]
  {
    if |rest| == 1 { assert [c] + rest[0] + ext == [c] + (rest[0] + ext); }
  }

  /** The file name of a cassette ends in the extension, whatever hash and namespace look like. */
  lemma FileNameEnds(base: Path, namespace: string, hash: string, ext: string) returns (dir: Path, name: string)
    requires '/' !in ext && |ext| > 2
    ensures Full(base, RelativePath(namespace, hash, ext)) == dir + [name + ext]
  {
    SplitLast(hash, ext);
    var parts, n := Split(hash), |Split(hash)| - 1;
    name := parts[n];
    SplitHasNoSeparator(hash + ext, n);
    assert Split(hash + ext) == parts[..n] + [name + ext];
    var before := Split(Prefix(hash)) + parts[..n];
    assert Split(Prefix(hash)) + Split(hash + ext) == before + [name + ext];
    var lead := if namespace != "" then Split(namespace) + before else before;
    var rooted := if namespace != "" then Rooted(namespace) else Rooted(Prefix(hash));
    if namespace != "" { assert Split(namespace) + (before + [name + ext]) == lead + [name + ext]; }
    DescendLast(rooted, [], lead, name + ext);
    dir := Descend(true, base, Descend(rooted, [], lead));
    DescendLast(true, base, Descend(rooted, [], lead), name + ext);
  }

  lemma {:induction false} SplitHasNoSeparator(s: string, i: nat)
    requires i < |Split(s)|
    ensures '/' !in Split(s)[i]
  {
    if s != "" {
      var rest := Split(s[1..]);
      if s[0] == '/' {
        if i > 0 { SplitHasNoSeparator(s[1..], i - 1); }
      } else {
        SplitHasNoSeparator(s[1..], i);
      }
    }
  }

  // Cleaning, rule by rule.

  /** What each kind of component does to a cleaned path. */
  lemma CleaningRules(rooted: bool, p: Path, cs: seq<string>, c: string)
    requires Plain(c)
    ensures Descend(rooted, p, cs + [""]) == Descend(rooted, p, cs) == Descend(rooted, p, cs + ["."])
    ensures Descend(rooted, p, cs + [c]) == Descend(rooted, p, cs) + [c]
    ensures Descend(rooted, p, cs + [c] + [".."]) == Descend(rooted, p, cs)
  {
    var q := Descend(rooted, p, cs);
    DescendSnoc(rooted, p, cs, "");
    DescendSnoc(rooted, p, cs, ".");
    DescendSnoc(rooted, p, cs, c);
    DescendSnoc(rooted, p, cs + [c], "..");
    assert (q + [c])[..|q|] == q;
  }

  lemma DescendSnoc(rooted: bool, p: Path, cs: seq<string>, c: string)
    ensures Descend(rooted, p, cs + [c]) == Push(rooted, Descend(rooted, p, cs), c)
  {
    assert (cs + [c])[..|cs|] == cs;
  }

  /** Above the root there is only the root; relative paths keep what leads out of them. */
  lemma UpRules(cs: seq<string>)
    ensures Descend(true, [], cs) == [] ==> Descend(true, [], cs + [".."]) == []
    ensures (forall i | 0 <= i < |Descend(false, [], cs)| :: Descend(false, [], cs)[i] == "..") ==>
              Descend(false, [], cs + [".."]) == Descend(false, [], cs) + [".."]
  {
    DescendSnoc(true, [], cs, "..");
    DescendSnoc(false, [], cs, "..");
  }

  /** Joining a cleaned relative path to a directory is the same as joining it uncleaned. */
  lemma {:induction false} JoinOfCleaned(base: Path, cs: seq<string>)
    requires ".." !in base
    ensures Full(base, Descend(false, [], cs)) == Full(base, cs)
  {
    if |cs| > 0 {
      var n := |cs| - 1;
      JoinOfCleaned(base, cs[..n]);
      DescendCleans(false, cs[..n]);
      JoinOfPushed(base, Descend(false, [], cs[..n]), cs[n]);
    }
  }

  lemma {:induction false} FullHasNoDots(base: Path, cs: seq<string>)
    requires ".." !in base
    ensures ".." !in Full(base, cs)
  {
    if |cs| > 0 { FullHasNoDots(base, cs[..|cs| - 1]); }
  }

  lemma JoinOfPushed(base: Path, q: Path, c: string)
    requires ".." !in base && Cleaned(q)
    ensures Full(base, Push(false, q, c)) == Push(true, Full(base, q), c)
  {
    if c == "" || c == "." {
    } else if c == ".." && |q| > 0 && q[|q| - 1] != ".." {
      var k := |q| - 1;
      FullHasNoDots(base, q[..k]);
      var above := Full(base, q[..k]);
      assert Full(base, q) == above + [q[k]];
      assert (above + [q[k]])[..|above|] == above;
    } else {
      assert (q + [c])[..|q|] == q;
    }
  }

  lemma TailOfLayout(hash: string, ext: string)
    requires |hash| >= 2 && '/' !in hash && Plain(hash[..2]) && Plain(hash + ext)
    ensures Split(Prefix(hash)) + Split(hash + ext) == [hash[..2], hash + ext]
  {
    SplitPlain(hash[..2]);
    SplitPlain(hash + ext);
  }

  predicate AllPlain(cs: seq<string>) {
    forall i | 0 <= i < |cs| :: Plain(cs[i])
  }

  /** The documented layout: [<namespace>/]<first two characters of the hash>/<hash><extension>. */
  lemma Layout(namespace: string, hash: string, ext: string)
    requires namespace == "" || AllPlain(Split(namespace))
    requires |hash| >= 2 && '/' !in hash && Plain(hash[..2]) && Plain(hash + ext)
    ensures RelativePath(namespace, hash, ext) ==
            (if namespace == "" then [] else Split(namespace)) + [hash[..2], hash + ext]
  {
    var tail := [hash[..2], hash + ext];
    TailOfLayout(hash, ext);
    if namespace == "" {
      DescendAllPlain(Rooted(Prefix(hash)), tail);
    } else {
      DescendAllPlain(Rooted(namespace), Split(namespace) + tail);
    }
  }

  /** Hashes of fewer than two characters go to the directory "xx". */
  lemma ShortHashLayout(hash: string, ext: string)
    requires |hash| < 2 && Plain(hash + ext)
    ensures RelativePath("", hash, ext) == ["xx", hash + ext]
  {
    SplitPlain("xx");
    SplitPlain(hash + ext);
    assert Split("xx") + Split(hash + ext) == ["xx", hash + ext];
    DescendAllPlain(false, ["xx", hash + ext]);
  }

  lemma {:induction false} DescendAllPlain(rooted: bool, cs: seq<string>)
    requires AllPlain(cs)
    ensures Descend(rooted, [], cs) == cs
  {
    if |cs| > 0 { DescendAllPlain(rooted, cs[..|cs| - 1]); }
  }

  lemma SameNames(dir1: Path, h1: string, dir2: Path, h2: string, ext: string)
    requires dir1 + [h1 + ext] == dir2 + [h2 + ext]
    ensures h1 == h2
  {
    var p1, p2 := dir1 + [h1 + ext], dir2 + [h2 + ext];
    assert p1[|p1| - 1] == h1 + ext && p2[|p2| - 1] == h2 + ext;
    assert h1 == (h1 + ext)[..|h1 + ext| - |ext|] && h2 == (h2 + ext)[..|h2 + ext| - |ext|];
  }

  /** Whatever their namespaces, two different hashes without a separator never share a file. */
  lemma DistinctHashesDistinctPaths(base: Path, ns1: string, h1: string, ns2: string, h2: string, ext: string)
    requires '/' !in h1 && '/' !in h2 && Plain(h1 + ext) && Plain(h2 + ext)
    requires Full(base, RelativePath(ns1, h1, ext)) == Full(base, RelativePath(ns2, h2, ext))
    ensures h1 == h2
  {
    var dir1 := FileName(base, ns1, h1, ext);
    var dir2 := FileName(base, ns2, h2, ext);
    SameNames(dir1, h1, dir2, h2, ext);
  }

  /** A cleaned relative path that does not start with ".." has no ".." at all. */
  predicate Climbs(rel: Path) {
    |rel| > 0 && rel[0] == ".."
  }

  ghost predicate Cleaned(p: Path) {
    && (forall i | 0 <= i < |p| :: p[i] != "" && p[i] != ".")
    && (forall i | 0 < i < |p| :: p[i] == ".." ==> p[i - 1] == "..")
  }

  lemma {:induction false} DescendCleans(rooted: bool, cs: seq<string>)
    ensures Cleaned(Descend(rooted, [], cs))
  {
    if |cs| > 0 { DescendCleans(rooted, cs[..|cs| - 1]); }
  }

  lemma {:induction false} NoClimbing(p: Path, i: nat)
    requires Cleaned(p) && !Climbs(p) && i < |p|
    ensures p[i] != ".."
  {
    if i > 0 { NoClimbing(p, i - 1); }
  }

  lemma {:induction false} DescendPlain(base: Path, p: Path)
    requires forall i | 0 <= i < |p| :: p[i] != "" && p[i] != "." && p[i] != ".."
    ensures Full(base, p) == base + p
  {
    if |p| > 0 {
      DescendPlain(base, p[..|p| - 1]);
      assert base + p == base + p[..|p| - 1] + [p[|p| - 1]];
    }
  }

  /** A cassette path that does not start with ".." is found below the base directory by a walk, and
      what the walk takes off its front is the base directory again. */
  lemma StaysInside(base: Path, namespace: string, hash: string, ext: string)
    requires !Climbs(RelativePath(namespace, hash, ext))
    ensures Full(base, RelativePath(namespace, hash, ext)) == base + RelativePath(namespace, hash, ext)
  {
    var rel := RelativePath(namespace, hash, ext);
    var tail := Split(Prefix(hash)) + Split(hash + ext);
    if namespace != "" { DescendCleans(Rooted(namespace), Split(namespace) + tail); }
    else { DescendCleans(Rooted(Prefix(hash)), tail); }
    forall i | 0 <= i < |rel| ensures rel[i] != ".." { NoClimbing(rel, i); }
    DescendPlain(base, rel);
  }

  lemma {:induction false} DescendWithoutDots(rooted: bool, cs: seq<string>)
    requires forall i | 0 <= i < |cs| :: cs[i] != ".."
    ensures forall i | 0 <= i < |Descend(rooted, [], cs)| :: Descend(rooted, [], cs)[i] != ".."
  {
    if |cs| > 0 { DescendWithoutDots(rooted, cs[..|cs| - 1]); }
  }

  /** What keeps a cassette under the base directory: no ".." in its namespace and no dot or separator in
      its hash, as in a hex digest. */
  lemma PlainNamesDoNotClimb(namespace: string, hash: string, ext: string)
    requires forall i | 0 <= i < |Split(namespace)| :: Split(namespace)[i] != ".."
    requires '.' !in hash && '/' !in hash && '/' !in ext && |hash + ext| > 2
    ensures !Climbs(RelativePath(namespace, hash, ext))
  {
    assert '.' !in Prefix(hash) && '/' !in Prefix(hash);
    SplitPlain(Prefix(hash));
    SplitPlain(hash + ext);
    assert Prefix(hash) != ".." by { if |Prefix(hash)| > 0 { assert Prefix(hash)[0] in Prefix(hash); } }
    var tail := Split(Prefix(hash)) + Split(hash + ext);
    assert tail == [Prefix(hash), hash + ext];
    if namespace != "" {
      var cs := Split(namespace) + tail;
      assert forall i | 0 <= i < |cs| :: cs[i] != "..";
      DescendWithoutDots(Rooted(namespace), cs);
    } else {
      DescendWithoutDots(Rooted(Prefix(hash)), tail);
    }
  }

  lemma {:induction false} SplitAtSeparator(a: string, b: string)
    requires '/' !in a
    ensures Split(a + "/" + b) == [a] + Split(b)
  {
    if a == "" { assert a + "/" + b == "/" + b; assert ("/" + b)[1..] == b; }
    else {
      SplitAtSeparator(a[1..], b);
      assert (a + "/" + b)[1..] == a[1..] + "/" + b;
      assert a == [a[0]] + a[1..];
    }
  }

  /** With a separator in a hash the law of distinct paths fails: whenever the first of two hashes is the
      other one behind its own two-character prefix and a separator, they share one file. */
  lemma SeparatorSharesPath(ns: string, hash: string, ext: string)
    requires |ns| == 2 && '/' !in ns && Prefix(hash) == ns
    ensures RelativePath("", ns + "/" + hash, ext) == RelativePath(ns, hash, ext)
  {
    var long := ns + "/" + hash;
    assert long + ext == ns + "/" + (hash + ext) && long[..2] == ns;
    SplitAtSeparator(ns, hash + ext);
    SplitPlain(ns);
  }

  lemma SeparatorBreaksDistinctness()
    ensures RelativePath("", "xx/c", ".yaml") == RelativePath("xx", "c", ".yaml")
  {
    SeparatorSharesPath("xx", "c", ".yaml");
    assert "xx" + "/" + "c" == "xx/c";
  }

  /** filepath.Ext of a file name: from its last dot, or empty. */
  function Ext(name: string): string {
    if name == "" then ""
    else
      var rest := Ext(name[1..]);
      if rest != "" then rest else if name[0] == '.' then name else ""
  }

  lemma {:induction false} ExtOfSuffix(name: string, suffix: string)
    requires |suffix| > 0 && suffix[0] == '.' && '.' !in suffix[1..]
    ensures Ext(name + suffix) == suffix
  {
    if name == "" {
      NoDotNoExt(suffix[1..]);
      assert name + suffix == suffix;
    } else {
      ExtOfSuffix(name[1..], suffix);
      assert (name + suffix)[1..] == name[1..] + suffix;
    }
  }

  lemma {:induction false} NoDotNoExt(name: string)
    requires '.' !in name
    ensures Ext(name) == ""
  {
    if name != "" { NoDotNoExt(name[1..]); }
  }

  function LowerChar(c: char): char {
    if 'A' <= c <= 'Z' then c + 32 as char else c
  }

  /** strings.ToLower on the letters that matter to file extensions. */
  function Lower(s: string): string {
    seq(|s|, i requires 0 <= i < |s| => LowerChar(s[i]))
  }

  /** Capital letters become small ones, one by one, and everything else stays. */
  lemma LowerIs(s: string, i: nat, k: nat)
    requires i < |s| && k < 26
    ensures |Lower(s)| == |s|
    ensures s[i] == "ABCDEFGHIJKLMNOPQRSTUVWXYZ"[k] ==> Lower(s)[i] == "abcdefghijklmnopqrstuvwxyz"[k]
    ensures !('A' <= s[i] <= 'Z') ==> Lower(s)[i] == s[i]
  {
    LetterAt(k);
  }

  lemma LetterAt(k: nat)
    requires k < 26
    ensures "ABCDEFGHIJKLMNOPQRSTUVWXYZ"[k] as int == 'A' as int + k
    ensures "abcdefghijklmnopqrstuvwxyz"[k] as int == 'a' as int + k
  {
    assert k == 0 || k == 1 || k == 2 || k == 3 || k == 4 || k == 5 || k == 6 || k == 7 || k == 8 || k == 9
        || k == 10 || k == 11 || k == 12 || k == 13 || k == 14 || k == 15 || k == 16 || k == 17 || k == 18
        || k == 19 || k == 20 || k == 21 || k == 22 || k == 23 || k == 24 || k == 25;
  }

  /** The files that the walks of List and RebuildIndex look into. */
  predicate IsCassetteName(name: string) {
    var ext := Lower(Ext(name));
    ext == ".yaml" || ext == ".yml" || ext == ".json"
  }

  /** `name` ends in the extension, in letters of either case. */
  predicate EndsIn(name: string, ext: string) {
    |ext| <= |name| && Lower(name[|name| - |ext|..]) == ext
  }

  lemma {:induction false} ExtIsSuffix(name: string) returns (stem: string)
    ensures name == stem + Ext(name)
    ensures Ext(name) != "" ==> Ext(name)[0] == '.' && '.' !in Ext(name)[1..]
  {
    stem := name;
    if name != "" {
      var front := ExtIsSuffix(name[1..]);
      if Ext(name[1..]) != "" { stem := [name[0]] + front; }
      else if name[0] == '.' {
        stem := "";
        if '.' in name[1..] { DotHasExt(name[1..]); }
      }
    }
  }

  lemma {:induction false} DotHasExt(name: string)
    requires '.' in name
    ensures Ext(name) != ""
  {
    if name[0] != '.' { DotHasExt(name[1..]); }
  }

  lemma LowerKeepsDots(s: string)
    ensures |Lower(s)| == |s| && forall i | 0 <= i < |s| :: Lower(s)[i] == '.' <==> s[i] == '.'
  {
  }

  /** An extension of a name is found exactly when the name ends in it. */
  lemma EndsInIffExt(name: string, ext: string)
    requires |ext| > 0 && ext[0] == '.' && '.' !in ext[1..]
    ensures EndsIn(name, ext) <==> Lower(Ext(name)) == ext
  {
    if EndsIn(name, ext) {
      var suffix := name[|name| - |ext|..];
      LowerKeepsDots(suffix);
      assert suffix[0] == '.' && '.' !in suffix[1..] by {
        forall i | 0 < i < |suffix| ensures suffix[i] != '.' { assert ext[1..][i - 1] == Lower(suffix)[i]; }
      }
      ExtOfSuffix(name[..|name| - |ext|], suffix);
      assert name == name[..|name| - |ext|] + suffix;
    }
    if Lower(Ext(name)) == ext {
      var stem := ExtIsSuffix(name);
      assert name[|name| - |ext|..] == Ext(name);
    }
  }

  /** Cassette files are those whose names end in .yaml, .yml or .json, in letters of either case. */
  lemma CassetteNamesAre(name: string)
    ensures IsCassetteName(name) <==> EndsIn(name, ".yaml") || EndsIn(name, ".yml") || EndsIn(name, ".json")
  {
    EndsInIffExt(name, ".yaml");
    EndsInIffExt(name, ".yml");
    EndsInIffExt(name, ".json");
  }

  /** The temporary file Save writes next to its target; `stamp` is the decimal clock reading. */
  function TempName(name: string, stamp: string): string {
    name + ".tmp-" + stamp
  }

  lemma TempIsIgnored(name: string, stamp: string)
    requires '.' !in stamp
    ensures !IsCassetteName(TempName(name, stamp))
  {
    var suffix := ".tmp-" + stamp;
    assert name + ".tmp-" + stamp == name + suffix;
    ExtOfSuffix(name, suffix);
    assert Lower(suffix)[1] == 't';
  }
}
