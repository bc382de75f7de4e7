/** Remote paths and how the client extends them. */
module Connection {

  datatype S3Path = S3Path(zone: string, bucket: string, path: string)

  /** Appends a name, with exactly one slash in between unless the caller brings one. The source
      looks at the last character of the path, so the path must not be empty. */
  function Derive(left: S3Path, right: string): S3Path
    requires left.path != ""
  {
    if right == "" then left
    else if left.path[|left.path| - 1] != '/' && right[0] != '/' then left.(path := left.path + "/" + right)
    else left.(path := left.path + right)
  }

  predicate NameOk(n: string) { n != "" && '/' !in n }

  predicate NamesOk(ns: seq<string>) { forall i :: 0 <= i < |ns| ==> NameOk(ns[i]) }

  /** A path with a slash at its end, written or not. */
  function Slashed(path: string): string
    requires path != ""
  {
    if path[|path| - 1] == '/' then path else path + "/"
  }

  function Join(ns: seq<string>): string
    requires ns != []
  {
    if |ns| == 1 then ns[0] else ns[0] + "/" + Join(ns[1..])
  }

  /** The key of the file reached from `root` through the names `ns`. */
  function Key(root: S3Path, ns: seq<string>): S3Path
    requires root.path != "" && ns != []
  {
    root.(path := Slashed(root.path) + Join(ns))
  }

  lemma DeriveFile(root: S3Path, n: string)
    requires root.path != "" && NameOk(n)
    ensures Derive(root, n) == Key(root, [n])
    ensures Derive(root, n).path == if root.path[|root.path| - 1] == '/' then root.path + n else root.path + "/" + n
    ensures Derive(root, n).path != ""
  {
    assert root.path + "/" + n == (root.path + "/") + n;
  }

  /** Going down through a directory gives the same keys whether the directory was derived with a
      trailing slash, as the listing does, or without one, as the upload does. */
  lemma DeriveDirectory(root: S3Path, n: string, ns: seq<string>)
    requires root.path != "" && NameOk(n) && ns != []
    ensures Derive(root, n).path != "" && Derive(root, n + "/").path != ""
    ensures Key(Derive(root, n), ns) == Key(root, [n] + ns)
    ensures Key(Derive(root, n + "/"), ns) == Key(root, [n] + ns)
  {
    DeriveFile(root, n);
    var base := Slashed(root.path);
    assert Derive(root, n).path == base + n;
    assert Derive(root, n + "/").path == base + (n + "/");
    LastOfName(base, n);
    assert ([n] + ns)[1..] == ns;
    assert base + n + "/" + Join(ns) == base + (n + "/" + Join(ns));
    assert base + (n + "/") + Join(ns) == base + (n + "/" + Join(ns));
  }

  lemma LastOfName(base: string, n: string)
    requires NameOk(n) && base != "" && base[|base| - 1] == '/'
    ensures Slashed(base + n) == base + n + "/"
    ensures Slashed(base + (n + "/")) == base + (n + "/")
  {
    assert n[|n| - 1] in n;
  }

  lemma JoinHasSlash(ns: seq<string>)
    requires |ns| > 1
    ensures '/' in Join(ns)
  {
    assert Join(ns)[|ns[0]|] == '/';
  }

  /** Cutting two equal strings at their first slash. */
  lemma FirstSlash(a: string, x: string, b: string, y: string)
    requires '/' !in a && '/' !in b && a + "/" + x == b + "/" + y
    ensures a == b && x == y
  {
    var s := a + "/" + x;
    assert s[|a|] == '/' && s[|b|] == '/';
    assert |a| == |b|;
    assert s[..|a|] == a && s[..|b|] == b;
    assert s[|a| + 1..] == x && s[|b| + 1..] == y;
  }

  lemma {:induction false} JoinInjective(xs: seq<string>, ys: seq<string>)
    requires xs != [] && ys != [] && NamesOk(xs) && NamesOk(ys) && Join(xs) == Join(ys)
    ensures xs == ys
  {
    if |xs| == 1 && |ys| == 1 {
    } else if |xs| == 1 {
      JoinHasSlash(ys);
    } else if |ys| == 1 {
      JoinHasSlash(xs);
    } else {
      FirstSlash(xs[0], Join(xs[1..]), ys[0], Join(ys[1..]));
      JoinInjective(xs[1..], ys[1..]);
      assert xs == [xs[0]] + xs[1..] && ys == [ys[0]] + ys[1..];
    }
  }

  /** Different files never share a key. */
  lemma KeyInjective(root: S3Path, xs: seq<string>, ys: seq<string>)
    requires root.path != "" && xs != [] && ys != [] && NamesOk(xs) && NamesOk(ys)
    requires Key(root, xs) == Key(root, ys)
    ensures xs == ys
  {
    var base := Slashed(root.path);
    assert (base + Join(xs))[|base|..] == Join(xs) && (base + Join(ys))[|base|..] == Join(ys);
    JoinInjective(xs, ys);
  }
}
