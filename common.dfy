/** Types and constants shared by every part of the preloader model. */
module Common {

  datatype Option<+T> = None | Some(value: T)

  /** The JVM exceptions the modelled code can raise. */
  datatype Error = NoSuchElementException | NullPointerException

  datatype Result<+T> = Ok(value: T) | Fail(error: Error)

  /** Separator between a folder path and a file name. */
  const DIVIDER: string := "/"

  /** Load immediately: the user is about to see it. */
  const PRIORITY_NOW: int := 0

  /** Probably needed soon. */
  const PRIORITY_FUTURE: int := 1

  /**
   * The file system as the library sees it. Every path is absolute and
   * normalised, so `File(p).path` and `File(p).absolutePath` are `p` itself.
   *  - list(p): `File(p).list()`, the names in directory p, or None for null;
   *  - listDirectories(p): what `KFile(p).listDirectoriesToList()` returns,
   *    or None. That wrapper tests each listed name as a path of its own,
   *    relative to the working directory, so its answer is left open here;
   *  - parent(p): `File(p).parent`, or None for null.
   */
  datatype FileSystem = FileSystem(
    list: string -> Option<seq<string>>,
    listDirectories: string -> Option<seq<string>>,
    parent: string -> Option<string>)

  /** Kotlin's `list() ?: arrayOf()`: a null listing counts as an empty one. */
  function OrEmpty(names: Option<seq<string>>): (r: seq<string>)
    ensures names.None? ==> r == []
    ensures names.Some? ==> r == names.value
  {
    match names
    case None => []
    case Some(ns) => ns
  }

  /** `folder + DIVIDER + name` */
  function Child(folder: string, name: string): (r: string)
    ensures |r| == |folder| + 1 + |name|
    ensures r[..|folder|] == folder && r[|folder|] == '/' && r[|folder| + 1..] == name
  {
    folder + DIVIDER + name
  }

  /**
   * A child path names one entry of its folder: it is never the folder
   * itself, and two names give the same child exactly when they are equal.
   */
  lemma ChildInjective(folder: string, a: string, b: string)
    ensures Child(folder, a) != folder
    ensures Child(folder, a) == Child(folder, b) <==> a == b
  {
    if Child(folder, a) == Child(folder, b) {
      assert a == Child(folder, a)[|folder| + 1..];
    }
  }

  predicate NoDuplicates<T(==)>(s: seq<T>)
  {
    forall i, j :: 0 <= i < j < |s| ==> s[i] != s[j]
  }

  /** `s` with every occurrence of `x` dropped, the rest in order. */
  function Without<T(==)>(s: seq<T>, x: T): (r: seq<T>)
  {
    if s == [] then []
    else if s[0] == x then Without(s[1..], x)
    else [s[0]] + Without(s[1..], x)
  }

  /** In a sequence without duplicates, dropping `s[k]` by value is dropping index k. */
  lemma {:induction false} WithoutAt<T>(s: seq<T>, k: nat)
    requires NoDuplicates(s) && k < |s|
    ensures Without(s, s[k]) == s[..k] + s[k + 1..]
  {
    var x, t := s[k], s[1..];
    if k == 0 {
      assert x !in t by {
        forall i | 0 <= i < |t|
          ensures t[i] != x
        {
          assert t[i] == s[i + 1];
        }
      }
      WithoutAbsent(t, x);
    } else {
      assert NoDuplicates(t) by {
        forall i, j | 0 <= i < j < |t|
          ensures t[i] != t[j]
        {
          assert t[i] == s[i + 1] && t[j] == s[j + 1];
        }
      }
      assert t[k - 1] == x && s[0] != x;
      WithoutAt(t, k - 1);
      assert Without(s, x) == [s[0]] + (t[..k - 1] + t[k..]);
      assert s[..k] == [s[0]] + t[..k - 1] && s[k + 1..] == t[k..];
    }
  }

  lemma {:induction false} WithoutAbsent<T>(s: seq<T>, x: T)
    requires x !in s
    ensures Without(s, x) == s
  {
    if s != [] {
      WithoutAbsent(s[1..], x);
    }
  }

  /** `Without(s, x)` keeps exactly the elements of `s` other than `x`. */
  lemma {:induction false} WithoutMembers<T>(s: seq<T>, x: T, y: T)
    ensures y in Without(s, x) <==> y in s && y != x
  {
    if s != [] {
      WithoutMembers(s[1..], x, y);
      assert s == [s[0]] + s[1..];
    }
  }

  /** The sum of the multisets `m[k]` over the keys `ks`. */
  ghost function Sum<T, T2>(m: map<T, multiset<T2>>, ks: set<T>): multiset<T2>
    requires ks <= m.Keys
    decreases ks
  {
    if ks == {} then multiset{} else var k :| k in ks; m[k] + Sum(m, ks - {k})
  }

  /** The sum does not depend on which key is taken first. */
  lemma {:induction false} SumPick<T, T2>(m: map<T, multiset<T2>>, ks: set<T>, k: T)
    requires ks <= m.Keys && k in ks
    ensures Sum(m, ks) == m[k] + Sum(m, ks - {k})
    decreases ks
  {
    var j :| j in ks && Sum(m, ks) == m[j] + Sum(m, ks - {j});
    if j != k {
      SumPick(m, ks - {j}, k);
      SumPick(m, ks - {k}, j);
      assert ks - {j} - {k} == ks - {k} - {j};
    }
  }

  /** Appends the elements of `s`, in some order, to `r`. */
  method AppendAll<D>(r: seq<D>, s: set<D>) returns (r': seq<D>)
    ensures multiset(r') == multiset(r) + multiset(s)
    ensures |r'| == |r| + |s|
  {
    r' := r;
    var rest := s;
    while rest != {}
      invariant rest <= s
      invariant multiset(r') + multiset(rest) == multiset(r) + multiset(s)
      invariant |r'| + |rest| == |r| + |s|
      decreases rest
    {
      var x :| x in rest;
      r' := r' + [x];
      rest := rest - {x};
    }
  }

}
