/** Directory trees, local and remote alike: what the synchroniser merges and compares. */
module Trees {
  import opened Connection
  import opened Wrappers

  /** The names that lead from a root to a file or directory below it. */
  type Path = p: seq<string> | p != [] witness [""]

  datatype Dir<F> = Dir(files: map<string, F>, dirs: map<string, Dir<F>>)

  predicate Has<F>(d: Dir<F>, p: Path) {
    if |p| == 1 then p[0] in d.files else p[0] in d.dirs && Has(d.dirs[p[0]], p[1..])
  }

  function Get<F>(d: Dir<F>, p: Path): F
    requires Has(d, p)
  {
    if |p| == 1 then d.files[p[0]] else Get(d.dirs[p[0]], p[1..])
  }

  predicate HasDir<F>(d: Dir<F>, p: Path) {
    p[0] in d.dirs && (|p| == 1 || HasDir(d.dirs[p[0]], p[1..]))
  }

  /** No level has a file and a directory of the same name. */
  ghost predicate Tidy<F>(d: Dir<F>) {
    d.files.Keys !! d.dirs.Keys && forall n :: n in d.dirs ==> Tidy(d.dirs[n])
  }

  /** Every name is a name: not empty, no slash. */
  ghost predicate Clean<F>(d: Dir<F>) {
    && (forall n :: n in d.files ==> NameOk(n))
    && (forall n :: n in d.dirs ==> NameOk(n) && Clean(d.dirs[n]))
  }

  function Sub<F>(d: Option<Dir<F>>, n: string): Option<Dir<F>> {
    if d.Some? && n in d.value.dirs then Some(d.value.dirs[n]) else None
  }

  lemma {:induction false} CleanNames<F>(d: Dir<F>, p: Path)
    requires Clean(d) && (Has(d, p) || HasDir(d, p))
    ensures NamesOk(p)
  {
    if |p| > 1 {
      CleanNames(d.dirs[p[0]], p[1..]);
      assert p == [p[0]] + p[1..];
    }
  }

  /** A tidy tree has nothing below a file, and no path leads to both a file and a directory. */
  lemma {:induction false} NothingBelowFile<F>(d: Dir<F>, p: Path, q: Path)
    requires Tidy(d) && Has(d, p) && p <= q && (Has(d, q) || HasDir(d, q))
    ensures p == q && Has(d, q) && !HasDir(d, q)
  {
    if |p| > 1 {
      assert p[0] == q[0];
      NothingBelowFile(d.dirs[p[0]], p[1..], q[1..]);
      assert p == [p[0]] + p[1..] && q == [q[0]] + q[1..];
    }
  }

  lemma {:induction false} DirsAbove<F>(d: Dir<F>, p: Path, q: Path)
    requires p <= q && (Has(d, q) || HasDir(d, q))
    ensures p != q ==> HasDir(d, p)
  {
    if |p| > 1 {
      DirsAbove(d.dirs[p[0]], p[1..], q[1..]);
      assert p == [p[0]] + p[1..] && q == [q[0]] + q[1..];
    }
  }

  /** The first `k` names of a path. */
  function Up(p: Path, k: nat): Path
    requires 0 < k <= |p|
  {
    p[..k]
  }

  lemma UpBelow<F>(d: Dir<F>, p: Path, k: nat)
    requires 1 < k <= |p|
    ensures Up(p, k)[1..] == Up(p[1..], k - 1)
    ensures HasDir(d, Up(p, k)) <==> p[0] in d.dirs && HasDir(d.dirs[p[0]], Up(p[1..], k - 1))
    ensures Has(d, Up(p, k)) <==> p[0] in d.dirs && Has(d.dirs[p[0]], Up(p[1..], k - 1))
    ensures Has(d, Up(p, k)) ==> Get(d, Up(p, k)) == Get(d.dirs[p[0]], Up(p[1..], k - 1))
  {
    assert Up(p, k)[1..] == Up(p[1..], k - 1);
  }
}
