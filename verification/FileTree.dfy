/** A file system as a map from paths to entries, and the operations that change it one entry, or
    one moved tree, at a time. */
module FileTree {
  import opened Wrappers

  type User = string
  type Name = string
  type Path = seq<Name>

  datatype Cookie = Cookie(owner: User, identity: bool)

  /** What a path holds; the contents of ordinary files are opaque. */
  datatype Data =
    | Folder
    | File(owner: User, size: nat, content: string)
    | CookieDb(size: nat, cookies: seq<Cookie>)
    | Marker(user: User)

  type Fs = map<Path, Data>

  // ---- lookups -------------------------------------------------------------

  function Get(fs: Fs, p: Path): Option<Data>
  {
    if p in fs then Some(fs[p]) else None
  }

  predicate IsFolder(fs: Fs, p: Path)
  {
    Get(fs, p) == Some(Folder)
  }

  predicate IsFile(fs: Fs, p: Path)
  {
    p in fs && fs[p] != Folder
  }

  ghost predicate SameUnder(a: Fs, b: Fs, root: Path)
  {
    forall q: Path :: Get(a, root + q) == Get(b, root + q)
  }

  // ---- file operations -----------------------------------------------------

  datatype Op = Put(path: Path, data: Data) | Del(path: Path) | Rename(from: Path, to: Path)

  /** Moving a tree to a place where nothing is. */
  function Move(fs: Fs, from: Path, to: Path): Fs
  {
    (map p | p in fs && !(from <= p) :: fs[p]) + Grafted(fs, from, to)
  }

  function Grafted(fs: Fs, from: Path, to: Path): Fs
  {
    var moved := set p | p in fs && from <= p :: to + p[|from|..];
    map q | q in moved && to <= q && from + q[|to|..] in fs :: fs[from + q[|to|..]]
  }

  function Exec(fs: Fs, op: Op): Fs
  {
    match op
    case Put(p, d) => fs[p := d]
    case Del(p) => fs - {p}
    case Rename(from, to) => Move(fs, from, to)
  }

  function Run(fs: Fs, ops: seq<Op>): Fs
  {
    if |ops| == 0 then fs else Exec(Run(fs, ops[..|ops| - 1]), ops[|ops| - 1])
  }

  lemma {:induction false} RunConcat(fs: Fs, a: seq<Op>, b: seq<Op>)
    ensures Run(fs, a + b) == Run(Run(fs, a), b)
    decreases |b|
  {
    if |b| == 0 {
      assert a + b == a;
    } else {
      assert (a + b)[..|a + b| - 1] == a + b[..|b| - 1];
      RunConcat(fs, a, b[..|b| - 1]);
    }
  }

  lemma GraftedAt(fs: Fs, from: Path, to: Path, q: Path)
    ensures Get(Grafted(fs, from, to), to + q) == Get(fs, from + q)
  {
    assert (to + q)[|to|..] == q;
    if from + q in fs {
      assert (from + q)[|from|..] == q;
    }
  }

  lemma GraftedOnly(fs: Fs, from: Path, to: Path, p: Path)
    requires p in Grafted(fs, from, to)
    ensures to <= p
  {
  }

  lemma MoveAt(fs: Fs, from: Path, to: Path, q: Path)
    requires forall p :: p in fs ==> !(to <= p)
    ensures Get(Move(fs, from, to), to + q) == Get(fs, from + q)
  {
    GraftedAt(fs, from, to, q);
    assert to <= to + q;
  }

  lemma MoveElsewhere(fs: Fs, from: Path, to: Path, p: Path)
    requires !(from <= p) && !(to <= p)
    ensures Get(Move(fs, from, to), p) == Get(fs, p)
  {
  }

  lemma RunOne(fs: Fs, op: Op)
    ensures Run(fs, [op]) == Exec(fs, op)
  {
    assert [op][..0] == [];
  }

  lemma RunNext(fs: Fs, ops: seq<Op>, op: Op)
    ensures Run(fs, ops + [op]) == Exec(Run(fs, ops), op)
  {
    assert (ops + [op])[..|ops|] == ops;
  }

  // ---- copying and deleting trees ------------------------------------------

  /** The entries below root, itself included, as a directory walk lists them. */
  ghost predicate Lists(fs: Fs, root: Path, list: seq<Path>)
  {
    forall q: Path :: q in list <==> root + q in fs
  }

  function CopyOps(fs: Fs, src: Path, dst: Path, list: seq<Path>): seq<Op>
  {
    if |list| == 0 then []
    else
      var q := list[|list| - 1];
      CopyOps(fs, src, dst, list[..|list| - 1]) + if src + q in fs then [Put(dst + q, fs[src + q])] else []
  }

  lemma CopyNext(fs: Fs, now: Fs, src: Path, dst: Path, list: seq<Path>)
    requires |list| > 0
    ensures var q, t := list[|list| - 1], Run(now, CopyOps(fs, src, dst, list[..|list| - 1]));
            Run(now, CopyOps(fs, src, dst, list)) == if src + q in fs then t[dst + q := fs[src + q]] else t
  {
    var front, q := CopyOps(fs, src, dst, list[..|list| - 1]), list[|list| - 1];
    if src + q in fs {
      RunNext(now, front, Put(dst + q, fs[src + q]));
    } else {
      assert front + [] == front;
    }
  }

  lemma SamePath(root: Path, p: Path, q: Path)
    ensures root + p == root + q <==> p == q
  {
    assert (root + p)[|root|..] == p && (root + q)[|root|..] == q;
  }

  lemma {:induction false} CopyAt(fs: Fs, now: Fs, src: Path, dst: Path, list: seq<Path>, q: Path)
    ensures Get(Run(now, CopyOps(fs, src, dst, list)), dst + q)
         == if q in list && src + q in fs then Get(fs, src + q) else Get(now, dst + q)
    decreases |list|
  {
    if |list| > 0 {
      var front, last := list[..|list| - 1], list[|list| - 1];
      CopyAt(fs, now, src, dst, front, q);
      assert q in list <==> q in front || q == last;
      SamePath(dst, q, last);
      CopyNext(fs, now, src, dst, list);
    }
  }

  function DelOps(root: Path, list: seq<Path>): seq<Op>
  {
    if |list| == 0 then [] else DelOps(root, list[..|list| - 1]) + [Del(root + list[|list| - 1])]
  }

  lemma {:induction false} DelAt(now: Fs, root: Path, list: seq<Path>, q: Path)
    ensures Get(Run(now, DelOps(root, list)), root + q) == if q in list then None else Get(now, root + q)
    decreases |list|
  {
    if |list| > 0 {
      var front, last := list[..|list| - 1], list[|list| - 1];
      DelAt(now, root, front, q);
      assert q in list <==> q in front || q == last;
      SamePath(root, q, last);
      RunNext(now, DelOps(root, front), Del(root + last));
    }
  }

  lemma {:induction false} DelPrefix(root: Path, list: seq<Path>, n: nat)
    requires n <= |list|
    ensures |DelOps(root, list)| == |list| && DelOps(root, list)[..n] == DelOps(root, list[..n])
    decreases |list|
  {
    if |list| > 0 {
      var front := list[..|list| - 1];
      DelPrefix(root, front, if n < |list| then n else n - 1);
      if n < |list| {
        assert list[..n] == front[..n];
      } else {
        assert list[..n] == list && DelOps(root, list)[..n] == DelOps(root, list);
      }
    }
  }

  /** Operations that write below root only. */
  ghost predicate Stays(ops: seq<Op>, root: Path)
  {
    forall i :: 0 <= i < |ops| ==> !ops[i].Rename? && root <= ops[i].path
  }

  lemma {:induction false} StaysElsewhere(fs: Fs, ops: seq<Op>, root: Path, p: Path)
    requires Stays(ops, root) && !(root <= p)
    ensures Get(Run(fs, ops), p) == Get(fs, p)
    decreases |ops|
  {
    if |ops| > 0 {
      StaysElsewhere(fs, ops[..|ops| - 1], root, p);
      assert root <= ops[|ops| - 1].path;
    }
  }

  lemma StaysConcat(a: seq<Op>, b: seq<Op>, root: Path)
    requires Stays(a, root) && Stays(b, root)
    ensures Stays(a + b, root)
  {
  }

  lemma {:induction false} CopyStays(fs: Fs, src: Path, dst: Path, list: seq<Path>, root: Path)
    requires root <= dst
    ensures Stays(CopyOps(fs, src, dst, list), root)
    decreases |list|
  {
    if |list| > 0 {
      CopyStays(fs, src, dst, list[..|list| - 1], root);
      assert root <= dst + list[|list| - 1];
    }
  }

  lemma {:induction false} DelStays(dst: Path, list: seq<Path>, root: Path)
    requires root <= dst
    ensures Stays(DelOps(dst, list), root)
    decreases |list|
  {
    if |list| > 0 {
      DelStays(dst, list[..|list| - 1], root);
      assert root <= dst + list[|list| - 1];
    }
  }

  /** A copy reads the same from two states that agree on the source. */
  lemma {:induction false} CopySame(a: Fs, b: Fs, src: Path, dst: Path, list: seq<Path>)
    requires forall q: Path :: Get(a, src + q) == Get(b, src + q)
    ensures CopyOps(a, src, dst, list) == CopyOps(b, src, dst, list)
    decreases |list|
  {
    if |list| > 0 {
      CopySame(a, b, src, dst, list[..|list| - 1]);
      assert Get(a, src + list[|list| - 1]) == Get(b, src + list[|list| - 1]);
    }
  }
}
