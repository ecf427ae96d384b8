/**
 The in-use block counter of the log block manager and the directory scan that restores it
 (src/logservice/ob_server_log_block_mgr.cpp, palf/log_block_pool_interface.cpp, palf/log_io_utils.cpp).

 The log disk is a set of paths below its root. What readdir lists, and in which order, is a parameter:
 any enumeration of the children will do.
 */
module LogBlockMgr {

  type Name = string
  type Path = seq<Name>

  datatype Node = File(size: int) | Directory

  type Disk = map<Path, Node>

  /** PALF_PHY_BLOCK_SIZE */
  const BLOCK_SIZE: int := 0x400_0000

  const SYS: Path := ["sys"]
  const LOG_STREAM: Path := ["sys", "log_stream"]

  predicate Dot(n: Name) {
    n == "." || n == ".."
  }

  /** is_number of palf: true of the empty string too. */
  predicate IsNumber(n: Name) {
    forall i :: 0 <= i < |n| ==> '0' <= n[i] <= '9'
  }

  /** Entries of the block directories of the log stream. */
  predicate IsBlock(q: Path) {
    |q| == 4 && q[0] == "sys" && q[1] == "log_stream" && (q[2] == "log" || q[2] == "meta")
  }

  ghost function Blocks(disk: Disk): set<Path> {
    set q | q in disk && IsBlock(q)
  }

  /** Everything but a top-level entry lies in a directory. */
  ghost predicate Tree(disk: Disk) {
    forall q :: q in disk ==> q != [] && (|q| > 1 ==> q[..|q| - 1] in disk && disk[q[..|q| - 1]].Directory?)
  }

  /** `list[p]` is what readdir yields for directory `p`, in any order, with or without the dot entries. */
  type Listing = map<Path, seq<Name>>

  ghost predicate Lists(disk: Disk, list: Listing, p: Path) {
    && p in list
    && (forall i, j :: 0 <= i < j < |list[p]| ==> list[p][i] != list[p][j])
    && (forall n :: n in list[p] && !Dot(n) <==> p + [n] in disk)
  }

  ghost predicate ListsAll(disk: Disk, list: Listing) {
    Lists(disk, list, []) && forall p :: p in disk && disk[p].Directory? ==> Lists(disk, list, p)
  }

  // ---------------------------------------------------------------- what the scan accepts

  ghost predicate BlockDirOk(disk: Disk, p: Path) {
    forall n :: p + [n] in disk ==> IsNumber(n)
  }

  ghost predicate StreamEntryOk(disk: Disk, n: Name)
    requires LOG_STREAM + [n] in disk
  {
    && disk[LOG_STREAM + [n]].Directory?
    && (n == "log" || n == "meta")
    && BlockDirOk(disk, LOG_STREAM + [n])
  }

  ghost predicate StreamOk(disk: Disk) {
    forall n :: LOG_STREAM + [n] in disk ==> StreamEntryOk(disk, n)
  }

  ghost predicate RuntimeEntryOk(disk: Disk, n: Name)
    requires SYS + [n] in disk
  {
    && disk[SYS + [n]].Directory?
    && (n == "tmp_dir" || (n == "log_stream" && StreamOk(disk)))
  }

  ghost predicate RuntimeOk(disk: Disk) {
    forall n :: SYS + [n] in disk ==> RuntimeEntryOk(disk, n)
  }

  ghost predicate DiskEntryOk(disk: Disk, n: Name)
    requires [] + [n] in disk
  {
    && disk[[] + [n]].Directory?
    && (n == "log_pool" || (n == "sys" && RuntimeOk(disk)))
  }

  /** Nothing on the log disk but what the manager recognises. */
  ghost predicate DiskOk(disk: Disk) {
    forall n :: [] + [n] in disk ==> DiskEntryOk(disk, n)
  }

  /** A log disk with one block, as the manager lays it out. */
  function SmallDisk(n: Name): Disk {
    map[["sys"] := Directory, ["log_pool"] := Directory, ["sys", "tmp_dir"] := Directory,
        ["sys", "log_stream"] := Directory, ["sys", "log_stream", "log"] := Directory,
        ["sys", "log_stream", "meta"] := Directory, ["sys", "log_stream", "log", n] := File(0x400_0000)]
  }

  /** It is recognised, and its block is counted. */
  lemma SmallDiskIsRecognised(n: Name)
    requires IsNumber(n)
    ensures Tree(SmallDisk(n)) && DiskOk(SmallDisk(n)) && Blocks(SmallDisk(n)) == {["sys", "log_stream", "log", n]}
  {
    hide IsNumber, SmallDisk, Tree, StreamOk, IsBlock;
    var d := SmallDisk(n);
    SmallTree(n);
    SmallStream(n);
    SmallRuntime(n);
    SmallBlocks(n);
  }

  lemma SmallStream(n: Name)
    requires IsNumber(n)
    ensures StreamOk(SmallDisk(n))
  {
    hide IsNumber;
    var d := SmallDisk(n);
    forall m | LOG_STREAM + [m] in d ensures StreamEntryOk(d, m) {
      assert |LOG_STREAM + [m]| == 3 && (LOG_STREAM + [m])[2] == m;
      forall k | LOG_STREAM + [m] + [k] in d ensures IsNumber(k) {
        assert |LOG_STREAM + [m] + [k]| == 4 && (LOG_STREAM + [m] + [k])[3] == k;
      }
    }
  }

  lemma SmallRuntime(n: Name)
    requires StreamOk(SmallDisk(n))
    ensures DiskOk(SmallDisk(n))
  {
    hide StreamOk;
    var d := SmallDisk(n);
    forall m | SYS + [m] in d ensures RuntimeEntryOk(d, m) { assert |SYS + [m]| == 2 && (SYS + [m])[1] == m; }
    forall m | [] + [m] in d ensures DiskEntryOk(d, m) { assert |[] + [m]| == 1 && ([] + [m])[0] == m; }
  }

  lemma SmallBlocks(n: Name)
    ensures Blocks(SmallDisk(n)) == {["sys", "log_stream", "log", n]}
  {
    var d, b := SmallDisk(n), ["sys", "log_stream", "log", n];
    assert |b| == 4 && IsBlock(b);
    forall q | q in d && IsBlock(q) ensures q == b { assert |q| == 4; }
  }

  lemma SmallTree(n: Name)
    ensures Tree(SmallDisk(n))
  {
    var d := SmallDisk(n);
    forall q | q in d ensures q != [] && (|q| > 1 ==> q[..|q| - 1] in d && d[q[..|q| - 1]].Directory?) {
      if |q| == 2 { assert q[..1] == ["sys"]; }
      if |q| == 3 { assert q[..2] == ["sys", "log_stream"]; }
      if |q| == 4 { assert q[..3] == ["sys", "log_stream", "log"]; }
    }
  }

  /** Whatever lies on a recognised disk, down to the blocks, bears one of the known names. */
  lemma OnlyKnownNames(disk: Disk, q: Path)
    requires Tree(disk) && DiskOk(disk) && q in disk && (q[0] == "sys" ==> |q| < 3 || q[1] == "log_stream")
    ensures q[0] == "sys" || q[0] == "log_pool"
    ensures q[0] == "sys" && |q| > 1 ==> q[1] == "log_stream" || q[1] == "tmp_dir"
    ensures q[0] == "sys" && |q| > 2 ==> q[2] == "log" || q[2] == "meta"
    ensures q[0] == "sys" && |q| > 3 ==> IsNumber(q[3])
  {
    Ancestor(disk, q, 1);
    assert q[..1] == [] + [q[0]] && DiskEntryOk(disk, q[0]);
    if q[0] == "sys" && |q| > 1 {
      Ancestor(disk, q, 2);
      assert q[..2] == SYS + [q[1]] && RuntimeEntryOk(disk, q[1]);
      if |q| > 2 {
        Ancestor(disk, q, 3);
        assert q[..3] == LOG_STREAM + [q[2]] && StreamEntryOk(disk, q[2]);
        if |q| > 3 {
          Ancestor(disk, q, 4);
          assert q[..4] == LOG_STREAM + [q[2]] + [q[3]];
        }
      }
    }
  }

  // ---------------------------------------------------------------- counting

  ghost function Under(disk: Disk, p: Path): set<Path> {
    set q | q in disk && IsBlock(q) && p <= q
  }

  /** The blocks below the first `k` listed children of `p`. */
  ghost function Passed(disk: Disk, p: Path, names: seq<Name>, k: nat): set<Path>
    requires k <= |names|
  {
    set q | q in Under(disk, p) && |q| > |p| && q[|p|] in names[..k]
  }

  lemma PassedNext(disk: Disk, p: Path, names: seq<Name>, k: nat)
    requires k < |names| && |p| < 4 && forall i, j :: 0 <= i < j < |names| ==> names[i] != names[j]
    ensures |Passed(disk, p, names, k + 1)| == |Passed(disk, p, names, k)| + |Under(disk, p + [names[k]])|
  {
    var n := names[k];
    assert names[..k + 1] == names[..k] + [n];
    assert n !in names[..k];
    forall q ensures q in Under(disk, p + [n]) <==> q in Under(disk, p) && |q| > |p| && q[|p|] == n {
      if p <= q && |q| > |p| { assert q[..|p| + 1] == p + [q[|p|]]; }
      if p + [n] <= q { assert p <= q && q[|p|] == (p + [n])[|p|]; }
    }
    assert Passed(disk, p, names, k + 1) == Passed(disk, p, names, k) + Under(disk, p + [n]);
    assert Passed(disk, p, names, k) !! Under(disk, p + [n]);
  }

  lemma PassedNone(disk: Disk, p: Path, names: seq<Name>)
    ensures Passed(disk, p, names, 0) == {}
  {
  }

  lemma {:induction false} Ancestor(disk: Disk, q: Path, m: nat)
    requires Tree(disk) && q in disk && 0 < m <= |q|
    ensures q[..m] in disk && (m < |q| ==> disk[q[..m]].Directory?)
    decreases |q|
  {
    if m == |q| {
      assert q[..m] == q;
    } else if m < |q| - 1 {
      Ancestor(disk, q[..|q| - 1], m);
      assert q[..|q| - 1][..m] == q[..m];
    }
  }

  lemma PassedAll(disk: Disk, list: Listing, p: Path)
    requires Tree(disk) && Lists(disk, list, p) && |p| < 4
    ensures Passed(disk, p, list[p], |list[p]|) == Under(disk, p)
  {
    var names := list[p];
    assert names[..|names|] == names;
    forall q | q in Under(disk, p) ensures |q| > |p| && q[|p|] in names {
      Ancestor(disk, q, |p| + 1);
      assert q[..|p| + 1] == p + [q[|p|]];
    }
  }

  /** A child that is not on disk, such as a dot entry, holds no blocks. */
  lemma NothingUnder(disk: Disk, p: Path)
    requires Tree(disk) && p !in disk && p != []
    ensures Under(disk, p) == {}
  {
    forall q | q in disk && |p| <= |q| ensures !(p <= q) {
      Ancestor(disk, q, |p|);
      assert q[..|p|] != p;
    }
  }

  lemma EverythingUnderRoot(disk: Disk)
    ensures Under(disk, []) == Blocks(disk)
  {
  }

  /** A single block entry. */
  lemma OneUnder(disk: Disk, p: Path)
    requires p in disk && IsBlock(p)
    ensures Under(disk, p) == {p}
  {
    forall q | q in Under(disk, p) ensures q == p { assert q == p; }
  }

  /** No blocks outside the block directories. */
  lemma NoneUnder(disk: Disk, p: Path)
    requires |p| > 0 && (p[0] != "sys" || (|p| > 1 && p[1] != "log_stream"))
    ensures Under(disk, p) == {}
  {
  }

  // ---------------------------------------------------------------- the scan

  /** Counts the entries of one block directory; any entry whose name is not a number is an error. */
  method ScanBlockDir(disk: Disk, list: Listing, p: Path) returns (ok: bool, count: nat)
    requires Tree(disk) && Lists(disk, list, p)
    requires |p| == 3 && p[..2] == LOG_STREAM && (p[2] == "log" || p[2] == "meta")
    ensures ok <==> BlockDirOk(disk, p)
    ensures ok ==> count == |Under(disk, p)|
  {
    hide Tree, Passed, Under;
    var names := list[p];
    PassedNone(disk, p, names);
    ok, count := true, 0;
    var k := 0;
    while k < |names| && ok
      invariant k <= |names|
      invariant ok ==> forall i :: 0 <= i < k ==> Dot(names[i]) || IsNumber(names[i])
      invariant !ok ==> exists n :: p + [n] in disk && !IsNumber(n)
      invariant ok ==> count == |Passed(disk, p, names, k)|
    {
      var n := names[k];
      assert n in names;
      PassedNext(disk, p, names, k);
      if Dot(n) {
        NothingUnder(disk, p + [n]);
      } else if IsNumber(n) {
        assert (p + [n])[..2] == LOG_STREAM;
        OneUnder(disk, p + [n]);
        count := count + 1;
      } else {
        ok := false;
      }
      k := k + 1;
    }
    PassedAll(disk, list, p);
  }

  /** The log stream directory holds `log` and `meta` and nothing else. */
  method ScanStream(disk: Disk, list: Listing, before: nat) returns (ok: bool, count: nat)
    requires Tree(disk) && ListsAll(disk, list) && LOG_STREAM in disk && disk[LOG_STREAM].Directory?
    ensures ok <==> StreamOk(disk)
    ensures ok ==> count == before + |Under(disk, LOG_STREAM)|
  {
    hide Tree, Passed, Under;
    var names := list[LOG_STREAM];
    PassedNone(disk, LOG_STREAM, names);
    ok, count := true, before;
    var k := 0;
    while k < |names| && ok
      invariant k <= |names|
      invariant ok ==> forall i :: 0 <= i < k ==> LOG_STREAM + [names[i]] in disk ==> StreamEntryOk(disk, names[i])
      invariant !ok ==> exists n :: LOG_STREAM + [n] in disk && !StreamEntryOk(disk, n)
      invariant ok ==> count == before + |Passed(disk, LOG_STREAM, names, k)|
    {
      var n := names[k];
      assert n in names;
      var q := LOG_STREAM + [n];
      PassedNext(disk, LOG_STREAM, names, k);
      if Dot(n) {
        NothingUnder(disk, q);
      } else if disk[q].File? || (n != "log" && n != "meta") {
        ok := false;
      } else {
        assert q[..2] == LOG_STREAM;
        var found;
        ok, found := ScanBlockDir(disk, list, q);
        count := count + found;
      }
      k := k + 1;
    }
    PassedAll(disk, list, LOG_STREAM);
  }

  /** The runtime directory holds `log_stream` and `tmp_dir` and nothing else. */
  method ScanRuntime(disk: Disk, list: Listing, before: nat) returns (ok: bool, count: nat)
    requires Tree(disk) && ListsAll(disk, list) && SYS in disk && disk[SYS].Directory?
    ensures ok <==> RuntimeOk(disk)
    ensures ok ==> count == before + |Under(disk, SYS)|
  {
    hide Tree, Passed, Under;
    var names := list[SYS];
    PassedNone(disk, SYS, names);
    ok, count := true, before;
    var k := 0;
    while k < |names| && ok
      invariant k <= |names|
      invariant ok ==> forall i :: 0 <= i < k ==> SYS + [names[i]] in disk ==> RuntimeEntryOk(disk, names[i])
      invariant !ok ==> exists n :: SYS + [n] in disk && !RuntimeEntryOk(disk, n)
      invariant ok ==> count == before + |Passed(disk, SYS, names, k)|
    {
      var n := names[k];
      assert n in names;
      PassedNext(disk, SYS, names, k);
      if Dot(n) {
        NothingUnder(disk, SYS + [n]);
      } else if disk[SYS + [n]].File? {
        ok := false;
      } else if n == "log_stream" {
        assert SYS + [n] == LOG_STREAM;
        ok, count := ScanStream(disk, list, count);
      } else {
        ok := n == "tmp_dir";
        NoneUnder(disk, SYS + [n]);
      }
      k := k + 1;
    }
    PassedAll(disk, list, SYS);
  }

  /** The log disk directory holds `sys` and `log_pool` and nothing else. */
  method ScanDisk(disk: Disk, list: Listing) returns (ok: bool, count: nat)
    requires Tree(disk) && ListsAll(disk, list)
    ensures ok <==> DiskOk(disk)
    ensures ok ==> count == |Blocks(disk)|
  {
    hide Tree, Passed, Under;
    var names := list[[]];
    PassedNone(disk, [], names);
    ok, count := true, 0;
    var k := 0;
    while k < |names| && ok
      invariant k <= |names|
      invariant ok ==> forall i :: 0 <= i < k ==> [] + [names[i]] in disk ==> DiskEntryOk(disk, names[i])
      invariant !ok ==> exists n :: [] + [n] in disk && !DiskEntryOk(disk, n)
      invariant ok ==> count == |Passed(disk, [], names, k)|
    {
      var n := names[k];
      assert n in names;
      PassedNext(disk, [], names, k);
      if Dot(n) {
        NothingUnder(disk, [] + [n]);
      } else if disk[[] + [n]].File? {
        ok := false;
      } else if n == "sys" {
        assert [] + [n] == SYS;
        ok, count := ScanRuntime(disk, list, count);
      } else {
        ok := n == "log_pool";
        NoneUnder(disk, [] + [n]);
      }
      k := k + 1;
    }
    PassedAll(disk, list, []);
    EverythingUnderRoot(disk);
  }

  // ---------------------------------------------------------------- temporary files

  /** strstr(s, ".tmp") */
  predicate HasTmp(s: string) {
    exists i :: 0 <= i < |s| && TmpAt(s, i)
  }

  predicate TmpAt(s: string, i: nat) {
    i + 4 <= |s| && s[i..i + 4] == ".tmp"
  }

  /** The path as the walk spells it out, below the log disk path `base`. */
  function FullPath(base: string, q: Path): string {
    if q == [] then base else FullPath(base, q[..|q| - 1]) + "/" + q[|q| - 1]
  }

  /** The walk looks for ".tmp" in the whole path, not in the last name. */
  predicate Tmp(base: string, q: Path) {
    HasTmp(FullPath(base, q))
  }

  lemma {:induction false} TmpBelow(base: string, p: Path, q: Path)
    requires p <= q && Tmp(base, p)
    ensures Tmp(base, q)
    decreases |q|
  {
    if |p| == |q| {
      assert p == q;
    } else {
      var r := q[..|q| - 1];
      assert p <= r;
      TmpBelow(base, p, r);
      var s := FullPath(base, r);
      var i :| 0 <= i < |s| && TmpAt(s, i);
      assert FullPath(base, q)[i..i + 4] == s[i..i + 4];
      assert TmpAt(FullPath(base, q), i);
    }
  }

  /** ".tmp" in two strings joined by a slash is in one of them. */
  lemma TmpInOne(a: string, b: string)
    ensures HasTmp(a + "/" + b) <==> HasTmp(a) || HasTmp(b)
  {
    var s, n := a + "/" + b, |a| + 1;
    if HasTmp(a) {
      var i :| 0 <= i < |a| && TmpAt(a, i);
      assert s[i..i + 4] == a[i..i + 4];
      assert TmpAt(s, i);
    }
    if HasTmp(b) {
      var i :| 0 <= i < |b| && TmpAt(b, i);
      assert s[n + i..n + i + 4] == b[i..i + 4];
      assert TmpAt(s, n + i);
    }
    if HasTmp(s) {
      var i :| 0 <= i < |s| && TmpAt(s, i);
      SlashOutside(s, |a|, i);
      if i < |a| {
        assert a[i..i + 4] == s[i..i + 4];
        assert TmpAt(a, i);
      } else {
        assert b[i - n..i - n + 4] == s[i..i + 4];
        assert TmpAt(b, i - n);
      }
    }
  }

  lemma SlashOutside(s: string, k: nat, i: nat)
    requires k < |s| && s[k] == '/' && TmpAt(s, i)
    ensures k < i || i + 4 <= k
  {
    var t := s[i..i + 4];
    assert forall j :: i <= j < i + 4 ==> s[j] == t[j - i] && t[j - i] != '/';
  }

  /** A path is temporary if and only if the log disk's own path or one of the names on it has ".tmp" in it. */
  lemma {:induction false} TmpIff(base: string, q: Path)
    ensures Tmp(base, q) <==> HasTmp(base) || exists i :: 0 <= i < |q| && HasTmp(q[i])
    decreases |q|
  {
    hide HasTmp;
    if q != [] {
      var front, last := q[..|q| - 1], q[|q| - 1];
      TmpIff(base, front);
      TmpInOne(FullPath(base, front), last);
      assert forall i :: 0 <= i < |front| ==> front[i] == q[i];
      if i :| 0 <= i < |front| && HasTmp(front[i]) { assert HasTmp(q[i]); }
    }
  }

  ghost predicate FullBlock(disk: Disk, q: Path) {
    q in disk && disk[q] == File(BLOCK_SIZE)
  }

  /** `p` and all it holds. */
  ghost function Subtree(disk: Disk, p: Path): set<Path> {
    set q | q in disk && p <= q
  }

  /** What the start-up walk is to remove: everything on a temporary path below `p`. */
  ghost function Doomed(disk: Disk, base: string, p: Path): set<Path> {
    set q | q in disk && p < q && Tmp(base, q)
  }

  ghost function Cleaned(disk: Disk, base: string): Disk {
    disk - Doomed(disk, base, SYS)
  }

  /** One of `paths` is a block of full size. The walk runs before the manager counts as initialised, and
      an uninitialised manager refuses to remove such a block. */
  ghost predicate Stuck(disk: Disk, paths: set<Path>) {
    exists q :: q in paths && FullBlock(disk, q)
  }

  /** Start-up succeeds exactly on these disks. */
  ghost predicate Loadable(disk: Disk, base: string) {
    !Stuck(disk, Doomed(disk, base, SYS)) && DiskOk(Cleaned(disk, base))
  }

  /** `small` is `big` with at most the entries in `gone` missing. */
  ghost predicate Lost(small: Disk, big: Disk, gone: set<Path>) {
    && (forall q :: q in small ==> q in big && small[q] == big[q])
    && (forall q :: q in big && q !in gone ==> q in small)
  }

  ghost predicate ListsBelow(disk: Disk, list: Listing, p: Path) {
    forall d :: d in disk && disk[d].Directory? && p <= d ==> Lists(disk, list, d)
  }

  /** What lies in the first `k` listed children of `p`. */
  ghost function Visited(disk: Disk, p: Path, names: seq<Name>, k: nat): set<Path>
    requires k <= |names|
  {
    set q | q in disk && p < q && q[|p|] in names[..k]
  }

  lemma VisitedNext(disk: Disk, p: Path, names: seq<Name>, k: nat)
    requires k < |names| && forall i, j :: 0 <= i < j < |names| ==> names[i] != names[j]
    ensures Visited(disk, p, names, k + 1) == Visited(disk, p, names, k) + Subtree(disk, p + [names[k]])
    ensures Visited(disk, p, names, k) !! Subtree(disk, p + [names[k]])
  {
    var n := names[k];
    assert names[..k + 1] == names[..k] + [n];
    assert n !in names[..k];
    forall q ensures p + [n] <= q <==> p < q && q[|p|] == n {
      if p < q { assert q[..|p| + 1] == p + [q[|p|]]; }
      if p + [n] <= q { assert p < q && q[|p|] == (p + [n])[|p|]; }
    }
  }

  lemma VisitedAll(disk: Disk, list: Listing, p: Path)
    requires Tree(disk) && Lists(disk, list, p)
    ensures Visited(disk, p, list[p], |list[p]|) == Subtree(disk, p) - {p}
  {
    assert list[p][..|list[p]|] == list[p];
    forall q | q in Subtree(disk, p) && q != p ensures p < q && q[|p|] in list[p] {
      Ancestor(disk, q, |p| + 1);
      assert q[..|p| + 1] == p + [q[|p|]];
    }
  }

  lemma VisitedBelow(disk: Disk, p: Path, names: seq<Name>, k: nat)
    requires k <= |names|
    ensures Visited(disk, p, names, k) <= Subtree(disk, p)
  {
  }

  lemma SubtreeSmaller(disk: Disk, p: Path, n: Name)
    requires p in disk
    ensures Subtree(disk, p + [n]) < Subtree(disk, p)
  {
    assert p in Subtree(disk, p) && p !in Subtree(disk, p + [n]);
    assert p <= p + [n];
  }

  /** A path that is not on disk has nothing below it, and a file has only itself. */
  lemma SubtreeOfLeaf(disk: Disk, p: Path)
    requires Tree(disk) && p != [] && (p in disk ==> disk[p].File?)
    ensures Subtree(disk, p) == if p in disk then {p} else {}
  {
    forall q | q in disk && |p| < |q| ensures !(p <= q) {
      Ancestor(disk, q, |p|);
      assert q[..|p|] != p;
    }
    forall q | q in disk && |p| == |q| ensures p <= q <==> q == p {
      if p <= q { assert q == p; }
    }
  }

  /** Taking whole subtrees away leaves a tree. */
  ghost predicate Downward(disk: Disk, gone: set<Path>) {
    forall q :: q in disk && |q| > 1 && q[..|q| - 1] in gone ==> q in gone
  }

  lemma TreeMinus(disk: Disk, gone: set<Path>)
    requires Tree(disk) && Downward(disk, gone)
    ensures Tree(disk - gone)
  {
  }

  lemma SubtreeIsDownward(disk: Disk, p: Path)
    ensures Downward(disk, Subtree(disk, p))
  {
    forall q | q in disk && |q| > 1 && q[..|q| - 1] in Subtree(disk, p) ensures q in Subtree(disk, p) {
      assert p <= q[..|q| - 1] <= q;
    }
  }

  lemma DoomedIsDownward(disk: Disk, base: string, p: Path)
    ensures Downward(disk, Doomed(disk, base, p))
  {
    forall q | q in disk && |q| > 1 && q[..|q| - 1] in Doomed(disk, base, p) ensures q in Doomed(disk, base, p) {
      assert p < q[..|q| - 1] <= q;
      TmpBelow(base, q[..|q| - 1], q);
    }
  }

  /** An untouched subtree is still listed right. */
  lemma ListsKept(big: Disk, small: Disk, list: Listing, p: Path, q: Path, gone: set<Path>)
    requires ListsBelow(big, list, p) && p <= q && small == big - gone && gone !! Subtree(big, q)
    ensures ListsBelow(small, list, q) && Subtree(small, q) == Subtree(big, q)
    ensures q in big ==> q in small && small[q] == big[q]
  {
    forall d | d in small && small[d].Directory? && q <= d ensures Lists(small, list, d) {
      assert p <= d;
      assert Lists(big, list, d);
      forall n ensures d + [n] in big <==> d + [n] in small {
        assert q <= d + [n];
        if d + [n] in big { assert d + [n] in Subtree(big, q); }
      }
    }
  }

  // What a removal that was to take `gone` away has done, and whether it reports success.
  ghost predicate Removed(big: Disk, small: Disk, gone: set<Path>, ok: bool) {
    && Tree(small)
    && Lost(small, big, gone)
    && (ok <==> !Stuck(big, gone))
    && (ok ==> small == big - gone)
  }

  lemma RemovedNothing(disk: Disk)
    requires Tree(disk)
    ensures Removed(disk, disk, {}, true)
  {
  }

  lemma RemovedMore(a: Disk, b: Disk, c: Disk, first: set<Path>, then_: set<Path>, ok: bool)
    requires Removed(a, b, first, true) && Removed(b, c, then_, ok) && first !! then_
    ensures Removed(a, c, first + then_, ok)
  {
    if Stuck(b, then_) {
      var q :| q in then_ && FullBlock(b, q);
      assert q in first + then_ && FullBlock(a, q);
    }
    if Stuck(a, first + then_) {
      var q :| q in first + then_ && FullBlock(a, q);
      assert q in then_ && FullBlock(b, q);
    }
  }

  lemma FailedWithin(a: Disk, c: Disk, gone: set<Path>, more: set<Path>)
    requires Removed(a, c, gone, false) && gone <= more
    ensures Removed(a, c, more, false)
  {
  }

  lemma RemovedFile(a: Disk, c: Disk, q: Path)
    requires Tree(a) && q in a && a[q].File?
    requires c == if FullBlock(a, q) then a else a - {q}
    ensures Removed(a, c, {q}, !FullBlock(a, q))
  {
    if FullBlock(a, q) {
      assert q in {q};
    } else {
      forall r | r in a && |r| > 1 ensures r[..|r| - 1] != q { }
      TreeMinus(a, {q});
    }
  }

  lemma RemovedDirectory(a: Disk, b: Disk, p: Path)
    requires Tree(a) && p in a && a[p].Directory? && Removed(a, b, Subtree(a, p) - {p}, true)
    ensures Removed(a, b - {p}, Subtree(a, p), true)
  {
    SubtreeIsDownward(a, p);
    TreeMinus(a, Subtree(a, p));
    assert b - {p} == a - Subtree(a, p);
    assert forall q :: q in Subtree(a, p) && FullBlock(a, q) ==> q in Subtree(a, p) - {p};
  }

  /** What is to go below the child `q` of a directory that stays. */
  ghost function DoomedAt(disk: Disk, base: string, q: Path): set<Path> {
    if Tmp(base, q) then Subtree(disk, q) else Doomed(disk, base, q)
  }

  ghost function DoomedIn(disk: Disk, base: string, p: Path, names: seq<Name>, k: nat): set<Path>
    requires k <= |names|
  {
    set q | q in Visited(disk, p, names, k) && Tmp(base, q)
  }

  lemma DoomedVisited(disk: Disk, base: string, p: Path, names: seq<Name>, k: nat)
    requires k <= |names|
    ensures DoomedIn(disk, base, p, names, k) <= Visited(disk, p, names, k)
  {
  }

  lemma DoomedNext(disk: Disk, base: string, p: Path, names: seq<Name>, k: nat)
    requires k < |names| && forall i, j :: 0 <= i < j < |names| ==> names[i] != names[j]
    ensures DoomedIn(disk, base, p, names, k + 1)
         == DoomedIn(disk, base, p, names, k) + DoomedAt(disk, base, p + [names[k]])
    ensures DoomedIn(disk, base, p, names, k) !! Subtree(disk, p + [names[k]])
    ensures DoomedAt(disk, base, p + [names[k]]) <= Subtree(disk, p + [names[k]])
  {
    var c := p + [names[k]];
    VisitedNext(disk, p, names, k);
    forall q | q in Subtree(disk, c) ensures Tmp(base, q) <==> q in DoomedAt(disk, base, c) {
      if Tmp(base, c) {
        TmpBelow(base, c, q);
      } else {
        assert q == c || c < q;
      }
    }
  }

  lemma DoomedAll(disk: Disk, base: string, list: Listing, p: Path, k: nat)
    requires Tree(disk) && Lists(disk, list, p) && k <= |list[p]|
    ensures DoomedIn(disk, base, p, list[p], k) <= Doomed(disk, base, p)
    ensures DoomedIn(disk, base, p, list[p], |list[p]|) == Doomed(disk, base, p)
  {
    VisitedAll(disk, list, p);
  }

  lemma DoomedAtKept(big: Disk, small: Disk, base: string, q: Path)
    requires Subtree(small, q) == Subtree(big, q)
    ensures DoomedAt(small, base, q) == DoomedAt(big, base, q)
  {
    forall r ensures r in Doomed(small, base, q) <==> r in Doomed(big, base, q) {
      assert q < r ==> (r in small <==> r in Subtree(small, q)) && (r in big <==> r in Subtree(big, q));
    }
  }

  /** Nothing to be removed below a file, or a path that is not there. */
  lemma DoomedLeaf(disk: Disk, base: string, q: Path)
    requires Tree(disk) && q != [] && (q in disk ==> disk[q].File?)
    ensures DoomedAt(disk, base, q) == if q in disk && Tmp(base, q) then {q} else {}
    ensures Doomed(disk, base, q) == {}
  {
    SubtreeOfLeaf(disk, q);
    forall r | r in Doomed(disk, base, q) ensures r in Subtree(disk, q) && r != q { }
  }

  lemma NotYetVisited(disk: Disk, base: string, list: Listing, p: Path)
    requires Tree(disk) && p in disk && disk[p].Directory? && ListsBelow(disk, list, p)
    ensures p in list && Lists(disk, list, p)
    ensures Removed(disk, disk, Visited(disk, p, list[p], 0), true)
    ensures Removed(disk, disk, DoomedIn(disk, base, p, list[p], 0), true)
  {
    RemovedNothing(disk);
    assert Visited(disk, p, list[p], 0) == {};
    assert DoomedIn(disk, base, p, list[p], 0) == {};
  }

  /** Child `k` of `p` before its turn: untouched, listed right, and smaller than `p`. */
  lemma ChildReady(was: Disk, now: Disk, list: Listing, p: Path, k: nat, gone: set<Path>)
    requires Tree(was) && p in was && Lists(was, list, p) && ListsBelow(was, list, p) && k < |list[p]|
    requires Removed(was, now, gone, true) && gone <= Visited(was, p, list[p], k)
    requires !Dot(list[p][k])
    ensures var q := p + [list[p][k]];
            && Tree(now) && q in now && ListsBelow(now, list, q)
            && Subtree(now, q) == Subtree(was, q) && Subtree(now, q) < Subtree(was, p)
  {
    var n := list[p][k];
    assert n in list[p];
    VisitedNext(was, p, list[p], k);
    ListsKept(was, now, list, p, p + [n], gone);
    SubtreeSmaller(was, p, n);
  }

  lemma ChildEmptied(was: Disk, now: Disk, then_: Disk, list: Listing, p: Path, k: nat, ok: bool)
    requires Tree(was) && Lists(was, list, p) && k < |list[p]|
    requires Removed(was, now, Visited(was, p, list[p], k), true)
    requires if Dot(list[p][k]) then then_ == now && ok
             else Removed(now, then_, Subtree(was, p + [list[p][k]]), ok)
    ensures Removed(was, then_, if ok then Visited(was, p, list[p], k + 1) else Subtree(was, p), ok)
  {
    hide Removed, Tree, Subtree, Visited;
    var q := p + [list[p][k]];
    var gone := Visited(was, p, list[p], k);
    VisitedNext(was, p, list[p], k);
    VisitedBelow(was, p, list[p], k + 1);
    if Dot(list[p][k]) {
      SubtreeOfLeaf(was, q);
      assert gone + {} == gone;
    } else {
      RemovedMore(was, now, then_, gone, Subtree(was, q), ok);
      if !ok { FailedWithin(was, then_, gone + Subtree(was, q), Subtree(was, p)); }
    }
  }

  lemma ChildCleaned(was: Disk, now: Disk, then_: Disk, base: string, list: Listing, p: Path, k: nat, ok: bool)
    requires Tree(was) && Lists(was, list, p) && k < |list[p]|
    requires Removed(was, now, DoomedIn(was, base, p, list[p], k), true)
    requires if Dot(list[p][k]) then then_ == now && ok
             else Removed(now, then_, DoomedAt(was, base, p + [list[p][k]]), ok)
    ensures Removed(was, then_, if ok then DoomedIn(was, base, p, list[p], k + 1) else Doomed(was, base, p), ok)
  {
    hide Removed, Tree, Subtree, DoomedIn, DoomedAt, Doomed;
    var q := p + [list[p][k]];
    var gone := DoomedIn(was, base, p, list[p], k);
    DoomedNext(was, base, p, list[p], k);
    DoomedAll(was, base, list, p, k + 1);
    if Dot(list[p][k]) {
      DoomedLeaf(was, base, q);
      assert gone + {} == gone;
    } else {
      RemovedMore(was, now, then_, gone, DoomedAt(was, base, q), ok);
      if !ok { FailedWithin(was, then_, gone + DoomedAt(was, base, q), Doomed(was, base, p)); }
    }
  }

  // ---------------------------------------------------------------- the manager

  datatype Ret = Success | NotInit | InitTwice | InvalidArgument | NoSuchFile | Unexpected | Spinning

  /** How one attempt to create the file goes: the open fails, or the file is there and filling it up or closing it
      fails, or all is well. */
  datatype Attempt = OpenFails | FillFails(left: int) | CloseFails | Done

  /** allocate_block_at_ once: the open is exclusive, so it fails on a file that is there. */
  function TryAllocate(disk: Disk, p: Path, a: Attempt): (Disk, bool) {
    if p in disk then (disk, false)
    else
      match a
      case OpenFails => (disk, false)
      case FillFails(left) => (disk[p := File(left)], false)
      case CloseFails => (disk[p := File(BLOCK_SIZE)], false)
      case Done => (disk[p := File(BLOCK_SIZE)], true)
  }

  /** Attempts up to the first that succeeds. */
  function Allocated(disk: Disk, p: Path, attempts: seq<Attempt>): (Disk, bool)
    decreases |attempts|
  {
    if attempts == [] then (disk, false)
    else
      var (d, ok) := TryAllocate(disk, p, attempts[0]);
      if ok then (d, true) else Allocated(d, p, attempts[1..])
  }

  /** All the attempts before number `k` fail to open. */
  predicate OnlyOpensFail(attempts: seq<Attempt>, k: nat) {
    k <= |attempts| && forall j :: 0 <= j < k ==> attempts[j] == OpenFails
  }

  /** The creation of a block comes back if and only if the path is new and some attempt goes well before any that
      leaves a file behind; after such a one it never does, however often it tries. */
  lemma {:induction false} CreationReturnsIff(disk: Disk, p: Path, attempts: seq<Attempt>)
    ensures Allocated(disk, p, attempts).1
        <==> p !in disk && exists k :: 0 <= k < |attempts| && attempts[k] == Done && OnlyOpensFail(attempts, k)
    ensures Allocated(disk, p, attempts).1 ==> Allocated(disk, p, attempts).0 == disk[p := File(BLOCK_SIZE)]
    decreases |attempts|
  {
    if attempts != [] {
      var rest := attempts[1..];
      CreationReturnsIff(TryAllocate(disk, p, attempts[0]).0, p, rest);
      if p !in disk && attempts[0] == OpenFails {
        if k :| 0 <= k < |attempts| && attempts[k] == Done && OnlyOpensFail(attempts, k) {
          assert rest[k - 1] == Done && OnlyOpensFail(rest, k - 1);
        }
        if k :| 0 <= k < |rest| && rest[k] == Done && OnlyOpensFail(rest, k) {
          assert attempts[k + 1] == Done && OnlyOpensFail(attempts, k + 1);
        }
      } else if p !in disk && attempts[0] == Done {
        assert OnlyOpensFail(attempts, 0);
      }
    }
  }

  /** A file that was created and could not be filled up has its creator try for ever. */
  lemma UnfinishedSpins(disk: Disk, p: Path, left: int, more: seq<Attempt>)
    ensures !Allocated(disk, p, [FillFails(left)] + more).1
  {
    var attempts := [FillFails(left)] + more;
    CreationReturnsIff(disk, p, attempts);
    assert attempts[0] == FillFails(left);
  }

  class BlockMgr {
    var disk: Disk
    var inUse: int
    var inited: bool

    constructor (disk: Disk)
      ensures this.disk == disk && inUse == 0 && !inited
    {
      this.disk, inUse, inited := disk, 0, false;
    }

    /** The loop around the exclusive creation of the file; `Spinning` stands for still being in it when the
        `attempts` are used up. */
    method CreateBlockAt(p: Path, size: int, attempts: seq<Attempt>) returns (ret: Ret)
      modifies this`disk, this`inUse
      ensures ret == if !inited then NotInit else if size != BLOCK_SIZE then InvalidArgument
                     else if Allocated(old(disk), p, attempts).1 then Success else Spinning
      ensures disk == if !inited || size != BLOCK_SIZE then old(disk) else Allocated(old(disk), p, attempts).0
      ensures inUse == old(inUse) + if ret == Success then 1 else 0
    {
      if !inited {
        return NotInit;
      }
      if size != BLOCK_SIZE {
        return InvalidArgument;
      }
      ret := Spinning;
      var k := 0;
      while k < |attempts| && ret != Success
        invariant k <= |attempts| && inUse == old(inUse) && (ret == Success || ret == Spinning)
        invariant ret == Spinning ==> Allocated(old(disk), p, attempts) == Allocated(disk, p, attempts[k..])
        invariant ret == Success ==> Allocated(old(disk), p, attempts) == (disk, true)
      {
        assert attempts[k..][0] == attempts[k] && attempts[k..][1..] == attempts[k + 1..];
        if p !in disk {
          match attempts[k] {
            case OpenFails =>
            case FillFails(left) => disk := disk[p := File(left)];
            case CloseFails => disk := disk[p := File(size)];
            case Done =>
              disk := disk[p := File(size)];
              ret := Success;
          }
        }
        k := k + 1;
      }
      if ret == Success {
        inUse := inUse + 1;
      }
    }

    /** A file of any other size is unlinked without a check of the state and without touching the count;
        a directory survives the unlink, whose outcome nobody looks at. */
    method RemoveBlockAt(p: Path) returns (ret: Ret)
      modifies this`disk, this`inUse
      ensures ret == if p !in old(disk) then NoSuchFile
                     else if FullBlock(old(disk), p) && !inited then NotInit else Success
      ensures ret == Success && old(disk)[p].File? ==> disk == old(disk) - {p}
      ensures !(ret == Success && old(disk)[p].File?) ==> disk == old(disk)
      ensures inUse == old(inUse) - (if ret == Success && FullBlock(old(disk), p) then 1 else 0)
    {
      if p !in disk {
        return NoSuchFile;
      }
      if disk[p] != File(BLOCK_SIZE) {
        if disk[p].File? {
          disk := disk - {p};
        }
        return Success;
      }
      if !inited {
        return NotInit;
      }
      disk := disk - {p};
      inUse := inUse - 1;
      ret := Success;
    }

    /** Empties a directory and removes it, children first, up to the first that cannot go. */
    method RemoveDirectoryRec(list: Listing, p: Path) returns (ok: bool)
      requires !inited && Tree(disk) && p in disk && disk[p].Directory? && ListsBelow(disk, list, p)
      modifies this`disk, this`inUse
      ensures inUse == old(inUse) && Removed(old(disk), disk, Subtree(old(disk), p), ok)
      decreases Subtree(disk, p), 0
    {
      hide Tree, Removed, Subtree, Visited, ListsBelow, Lists;
      ghost var was := disk;
      NotYetVisited(disk, "", list, p);
      var names := list[p];
      ok := true;
      var k := 0;
      while k < |names| && ok
        invariant k <= |names| && inUse == old(inUse)
        invariant Removed(was, disk, if ok then Visited(was, p, names, k) else Subtree(was, p), ok)
      {
        ghost var now := disk;
        if !Dot(names[k]) {
          ChildReady(was, disk, list, p, k, Visited(was, p, names, k));
          ok := RemoveEntry(list, p + [names[k]]);
        }
        ChildEmptied(was, now, disk, list, p, k, ok);
        k := k + 1;
      }
      if ok {
        VisitedAll(was, list, p);
        RemovedDirectory(was, disk, p);
        disk := disk - {p};
      }
    }

    method RemoveEntry(list: Listing, q: Path) returns (ok: bool)
      requires !inited && Tree(disk) && q in disk && q != [] && ListsBelow(disk, list, q)
      modifies this`disk, this`inUse
      ensures inUse == old(inUse) && Removed(old(disk), disk, Subtree(old(disk), q), ok)
      decreases Subtree(disk, q), 1
    {
      hide Tree, Removed, Subtree, ListsBelow;
      if disk[q].Directory? {
        ok := RemoveDirectoryRec(list, q);
      } else {
        SubtreeOfLeaf(disk, q);
        var ret := RemoveBlockAt(q);
        ok := ret == Success;
        RemovedFile(old(disk), disk, q);
      }
    }

    /** Removes everything on a temporary path below `p`, up to the first that cannot go. */
    method RemoveTmpAt(list: Listing, base: string, p: Path) returns (ok: bool)
      requires !inited && Tree(disk) && p in disk && disk[p].Directory? && ListsBelow(disk, list, p)
      modifies this`disk, this`inUse
      ensures inUse == old(inUse) && Removed(old(disk), disk, Doomed(old(disk), base, p), ok)
      decreases Subtree(disk, p), 0
    {
      hide Tree, Removed, Subtree, Visited, Doomed, DoomedIn, DoomedAt, ListsBelow, Lists;
      ghost var was := disk;
      NotYetVisited(disk, base, list, p);
      var names := list[p];
      ok := true;
      var k := 0;
      while k < |names| && ok
        invariant k <= |names| && inUse == old(inUse)
        invariant Removed(was, disk, if ok then DoomedIn(was, base, p, names, k) else Doomed(was, base, p), ok)
      {
        ghost var now := disk;
        if !Dot(names[k]) {
          DoomedVisited(was, base, p, names, k);
          ChildReady(was, disk, list, p, k, DoomedIn(was, base, p, names, k));
          DoomedAtKept(was, disk, base, p + [names[k]]);
          ok := RemoveTmpEntry(list, base, p + [names[k]]);
        }
        ChildCleaned(was, now, disk, base, list, p, k, ok);
        k := k + 1;
      }
      if ok {
        DoomedAll(was, base, list, p, k);
      }
    }

    /** One entry of the walk. */
    method RemoveTmpEntry(list: Listing, base: string, q: Path) returns (ok: bool)
      requires !inited && Tree(disk) && q in disk && q != [] && ListsBelow(disk, list, q)
      modifies this`disk, this`inUse
      ensures inUse == old(inUse) && Removed(old(disk), disk, DoomedAt(old(disk), base, q), ok)
      decreases Subtree(disk, q), 1
    {
      hide Tree, Removed, Subtree, Doomed, ListsBelow, FullBlock, Tmp;
      if disk[q].Directory? {
        if Tmp(base, q) {
          ok := RemoveDirectoryRec(list, q);
        } else {
          ok := RemoveTmpAt(list, base, q);
        }
      } else {
        ok := true;
        DoomedLeaf(disk, base, q);
        RemovedNothing(disk);
        if Tmp(base, q) {
          var ret := RemoveBlockAt(q);
          ok := ret == Success;
          RemovedFile(old(disk), disk, q);
        }
      }
    }

    /** The clean-up before the scan; entries of the log disk other than `sys` are left alone. */
    method RemoveTmpForRuntime(list: Listing, base: string) returns (ok: bool)
      requires !inited && Tree(disk) && ListsAll(disk, list)
      modifies this`disk, this`inUse
      ensures inUse == old(inUse) && Removed(old(disk), disk, Doomed(old(disk), base, SYS), ok)
    {
      ghost var was := disk;
      var names := list[[]];
      ok := true;
      var k := 0;
      RemovedNothing(disk);
      while k < |names| && ok
        invariant k <= |names| && inUse == old(inUse)
        invariant "sys" !in names[..k] ==> ok && disk == was
        invariant "sys" in names[..k] ==> Removed(was, disk, Doomed(was, base, SYS), ok)
        invariant ok ==> forall n :: [] + [n] in was ==> [] + [n] in disk && disk[[] + [n]] == was[[] + [n]]
      {
        var n := names[k];
        assert names[..k + 1] == names[..k] + [n];
        assert n in names;
        if !Dot(n) && n == "sys" {
          assert [] + [n] == SYS;
          if disk[SYS].Directory? {
            ok := RemoveTmpAt(list, base, SYS);
          } else {
            DoomedLeaf(was, base, SYS);
          }
        }
        k := k + 1;
      }
      if "sys" !in names {
        assert SYS == [] + ["sys"];
        DoomedLeaf(was, base, SYS);
      }
    }
  
    /** do_load_: clean up, then count. */
    method Load(base: string, before: Listing, after: Listing) returns (ok: bool)
      requires !inited && Tree(disk) && ListsAll(disk, before) && ListsAll(Cleaned(disk, base), after)
      modifies this`disk, this`inUse
      ensures Tree(disk) && Lost(disk, old(disk), Doomed(old(disk), base, SYS))
      ensures ok <==> Loadable(old(disk), base)
      ensures ok ==> disk == Cleaned(old(disk), base) && inUse == |Blocks(disk)|
      ensures !ok ==> inUse == old(inUse)
    {
      ok := RemoveTmpForRuntime(before, base);
      if ok {
        var count;
        ok, count := ScanDisk(disk, after);
        if ok {
          inUse := count;
        }
      }
    }

    method Destroy()
      modifies this`inUse, this`inited
      ensures !inited && inUse == 0
    {
      inited, inUse := false, 0;
    }

    /** Any failure tears the manager down, a second call on a live one included. */
    method Init(base: string, before: Listing, after: Listing) returns (ret: Ret)
      requires Tree(disk) && ListsAll(disk, before) && ListsAll(Cleaned(disk, base), after)
      modifies this
      ensures inited <==> !old(inited) && Loadable(old(disk), base)
      ensures ret == Success <==> inited
      ensures ret == InitTwice <==> old(inited)
      ensures inited ==> disk == Cleaned(old(disk), base) && inUse == |Blocks(disk)|
      ensures !inited ==> inUse == 0
      ensures Tree(disk) && Lost(disk, old(disk), Doomed(old(disk), base, SYS))
      ensures old(inited) ==> disk == old(disk)
    {
      if inited {
        Destroy();
        return InitTwice;
      }
      var ok := Load(base, before, after);
      if ok {
        inited := true;
        ret := Success;
      } else {
        Destroy();
        ret := Unexpected;
      }
    }
  }

  // ---------------------------------------------------------------- runs

  /** `ups` and `downs`: files created and files unlinked whose effect on the count is still to come, those included
      whose creator cannot get on because the file was left unfinished.
      `odd`: files unlinked without ever leaving the count. */
  datatype State = State(disk: Disk, inUse: int, inited: bool, ups: nat, downs: nat, odd: nat)

  /** The steps of any number of callers: a block is created under a temporary name and then renamed to its
      number, and renamed to a temporary name before it is removed. The file is changed first and the
      counter afterwards. `Resize` is the world outside. */
  datatype Step =
    | Allocate(p: Path, size: int)
    | CountUp
    | Rename(p: Path, q: Path)
    | Unlink(p: Path)
    | CountDown
    | Resize(p: Path, size: int)
    | Stop
    | Start(disk: Disk)

  ghost predicate Legal(base: string, s: State, e: Step) {
    match e
    case Allocate(p, size) =>
      && s.inited && IsBlock(p) && Tmp(base, p) && p !in s.disk
      && p[..3] in s.disk && s.disk[p[..3]].Directory?
    case CountUp => s.inited && s.ups > 0
    case Rename(p, q) =>
      && s.inited && IsBlock(p) && IsBlock(q) && p[..3] == q[..3]
      && p in s.disk && s.disk[p].File? && q !in s.disk
      && ((Tmp(base, p) && IsNumber(q[3])) || (IsNumber(p[3]) && Tmp(base, q)))
    case Unlink(p) => s.inited && IsBlock(p) && Tmp(base, p) && p in s.disk && s.disk[p].File?
    case CountDown => s.inited && s.downs > 0
    case Resize(p, size) => IsBlock(p) && p in s.disk && s.disk[p].File?
    case Stop => true
    case Start(disk) =>
      && !s.inited && Tree(disk)
      && Lost(disk, s.disk, Doomed(s.disk, base, SYS))
      && (Loadable(s.disk, base) ==> disk == Cleaned(s.disk, base))
  }

  ghost function Next(base: string, s: State, e: Step): State
    requires Legal(base, s, e)
  {
    match e
    case Allocate(p, size) => s.(disk := s.disk[p := File(size)], ups := s.ups + 1)
    case CountUp => s.(inUse := s.inUse + 1, ups := s.ups - 1)
    case Rename(p, q) => s.(disk := (s.disk - {p})[q := s.disk[p]])
    case Unlink(p) =>
      if FullBlock(s.disk, p) then s.(disk := s.disk - {p}, downs := s.downs + 1)
      else s.(disk := s.disk - {p}, odd := s.odd + 1)
    case CountDown => s.(inUse := s.inUse - 1, downs := s.downs - 1)
    case Resize(p, size) => s.(disk := s.disk[p := File(size)])
    case Stop => State(s.disk, 0, false, 0, 0, 0)
    case Start(disk) =>
      if Loadable(s.disk, base) then State(disk, |Blocks(disk)|, true, 0, 0, 0)
      else State(disk, 0, false, 0, 0, 0)
  }

  ghost predicate Inv(base: string, s: State) {
    && Tree(s.disk)
    && (s.inited ==> s.inUse + s.ups - s.downs == |Blocks(s.disk)| + s.odd)
    && (s.inited ==> DiskOk(Cleaned(s.disk, base)))
  }

  lemma CleanedTree(disk: Disk, base: string)
    requires Tree(disk)
    ensures Tree(Cleaned(disk, base))
  {
    DoomedIsDownward(disk, base, SYS);
    TreeMinus(disk, Doomed(disk, base, SYS));
  }

  lemma BlocksAreNumbered(disk: Disk, q: Path)
    requires Tree(disk) && DiskOk(disk) && q in disk && IsBlock(q)
    ensures IsNumber(q[3])
  {
    Ancestor(disk, q, 1);
    Ancestor(disk, q, 2);
    Ancestor(disk, q, 3);
    assert q[..1] == [] + [q[0]] == SYS;
    assert q[..2] == SYS + [q[1]] == LOG_STREAM;
    assert q[..3] == LOG_STREAM + [q[2]];
    assert q == q[..3] + [q[3]];
    assert DiskEntryOk(disk, "sys");
    assert RuntimeEntryOk(disk, "log_stream");
    assert StreamEntryOk(disk, q[2]);
  }

  /** Changes among the blocks leave the disk recognisable as long as every block bears a number. */
  lemma OnlyBlocksDiffer(a: Disk, b: Disk)
    requires DiskOk(a)
    requires forall q :: !IsBlock(q) ==> (q in a <==> q in b) && (q in a ==> a[q] == b[q])
    requires forall q :: q in b && IsBlock(q) ==> IsNumber(q[3])
    ensures DiskOk(b)
  {
    if SYS in a {
      assert SYS == [] + ["sys"];
      assert DiskEntryOk(a, "sys");
      if LOG_STREAM in a {
        assert LOG_STREAM == SYS + ["log_stream"];
        assert RuntimeEntryOk(a, "log_stream");
        StreamsOk(a, b);
      }
    }
  }

  lemma StreamsOk(a: Disk, b: Disk)
    requires StreamOk(a)
    requires forall q :: !IsBlock(q) ==> (q in a <==> q in b) && (q in a ==> a[q] == b[q])
    requires forall q :: q in b && IsBlock(q) ==> IsNumber(q[3])
    ensures StreamOk(b)
  {
    forall n | LOG_STREAM + [n] in b ensures StreamEntryOk(b, n) {
      assert StreamEntryOk(a, n);
      forall m | LOG_STREAM + [n] + [m] in b ensures IsNumber(m) {
        assert IsBlock(LOG_STREAM + [n] + [m]);
      }
    }
  }

  lemma TreePlus(disk: Disk, p: Path, node: Node)
    requires Tree(disk) && IsBlock(p) && p[..3] in disk && disk[p[..3]].Directory? && p !in disk
    ensures Tree(disk[p := node])
  {
    assert p[..|p| - 1] == p[..3];
  }

  lemma CleanedIgnores(base: string, a: Disk, b: Disk, p: Path)
    requires IsBlock(p) && Tmp(base, p) && a - {p} == b - {p}
    ensures Cleaned(a, base) == Cleaned(b, base)
  {
    hide Tmp;
    assert p[..1] == SYS && SYS < p;
    forall q | q != p ensures q in a <==> q in b {
      assert q in a - {p} <==> q in b - {p};
    }
    forall q | q in a && q in b && q != p ensures a[q] == b[q] {
      assert a[q] == (a - {p})[q] && b[q] == (b - {p})[q];
    }
  }

  lemma AllocateKeepsInv(base: string, s: State, p: Path, size: int)
    requires Inv(base, s) && Legal(base, s, Allocate(p, size))
    ensures Inv(base, Next(base, s, Allocate(p, size)))
  {
    hide DiskOk, Tmp, Tree, Cleaned;
    var d := s.disk[p := File(size)];
    assert Blocks(d) == Blocks(s.disk) + {p};
    TreePlus(s.disk, p, File(size));
    CleanedIgnores(base, s.disk, d, p);
  }

  lemma UnlinkKeepsInv(base: string, s: State, p: Path)
    requires Inv(base, s) && Legal(base, s, Unlink(p))
    ensures Inv(base, Next(base, s, Unlink(p)))
  {
    hide DiskOk, Tmp, Cleaned;
    var d := s.disk - {p};
    assert Blocks(d) == Blocks(s.disk) - {p};
    TreeMinus(s.disk, {p});
    CleanedIgnores(base, s.disk, d, p);
  }

  lemma RenameKeepsInv(base: string, s: State, p: Path, q: Path)
    requires Inv(base, s) && Legal(base, s, Rename(p, q))
    ensures Inv(base, Next(base, s, Rename(p, q)))
  {
    hide DiskOk, Tmp, Cleaned;
    var d := (s.disk - {p})[q := s.disk[p]];
    assert Blocks(d) == Blocks(s.disk) - {p} + {q};
    TreeMinus(s.disk, {p});
    assert p[..|p| - 1] == q[..3];
    TreePlus(s.disk - {p}, q, s.disk[p]);
    NumberedStays(base, s.disk, d, q);
  }

  lemma ResizeKeepsInv(base: string, s: State, p: Path, size: int)
    requires Inv(base, s) && Legal(base, s, Resize(p, size))
    ensures Inv(base, Next(base, s, Resize(p, size)))
  {
    hide DiskOk, Tmp, Cleaned;
    var d := s.disk[p := File(size)];
    assert Blocks(d) == Blocks(s.disk);
    assert Tree(d);
    if s.inited { NumberedStays(base, s.disk, d, p); }
  }

  /** A change at block `q`, which is either temporary or numbered. */
  lemma NumberedStays(base: string, a: Disk, b: Disk, q: Path)
    requires Tree(a) && DiskOk(Cleaned(a, base)) && IsBlock(q)
    requires forall r :: !IsBlock(r) ==> (r in a <==> r in b) && (r in a ==> a[r] == b[r])
    requires forall r :: r in b && r != q ==> r in a
    requires q in a || Tmp(base, q) || IsNumber(q[3])
    ensures DiskOk(Cleaned(b, base))
  {
    hide DiskOk, Tmp, Tree;
    var ca, cb := Cleaned(a, base), Cleaned(b, base);
    CleanedTree(a, base);
    forall r | r in cb && IsBlock(r) ensures IsNumber(r[3]) {
      assert r[..1] == SYS && SYS < r;
      if r in ca { BlocksAreNumbered(ca, r); }
    }
    OnlyBlocksDiffer(ca, cb);
  }

  lemma StartKeepsInv(base: string, s: State, disk: Disk)
    requires Inv(base, s) && Legal(base, s, Start(disk))
    ensures Inv(base, Next(base, s, Start(disk)))
  {
    if Loadable(s.disk, base) {
      assert Cleaned(disk, base) == disk;
    }
  }

  lemma NextKeepsInv(base: string, s: State, e: Step)
    requires Inv(base, s) && Legal(base, s, e)
    ensures Inv(base, Next(base, s, e))
  {
    match e {
      case Allocate(p, size) => AllocateKeepsInv(base, s, p, size);
      case CountUp =>
      case Rename(p, q) => RenameKeepsInv(base, s, p, q);
      case Unlink(p) => UnlinkKeepsInv(base, s, p);
      case CountDown =>
      case Resize(p, size) => ResizeKeepsInv(base, s, p, size);
      case Stop =>
      case Start(disk) => StartKeepsInv(base, s, disk);
    }
  }

  /** `states` is a run of `steps`. */
  ghost predicate IsRun(base: string, states: seq<State>, steps: seq<Step>) {
    && |states| == |steps| + 1
    && (forall i :: 0 <= i < |steps| ==> Legal(base, states[i], steps[i]) && states[i + 1] == Next(base, states[i], steps[i]))
  }

  lemma {:induction false} RunKeepsInv(base: string, states: seq<State>, steps: seq<Step>, i: nat)
    requires IsRun(base, states, steps) && i <= |steps| && Inv(base, states[0])
    ensures Inv(base, states[i])
  {
    if i > 0 {
      RunKeepsInv(base, states, steps, i - 1);
      NextKeepsInv(base, states[i - 1], steps[i - 1]);
    }
  }

  /** Over every run of a manager that starts on some tree of files: whenever no caller is between its file
      and the counter, the counter is the number of blocks on disk plus the files that were unlinked at an
      odd size since the last start. */
  lemma CounterLaw(base: string, states: seq<State>, steps: seq<Step>, i: nat)
    requires IsRun(base, states, steps) && i <= |steps|
    requires Tree(states[0].disk) && !states[0].inited
    requires states[i].inited && states[i].ups == states[i].downs == 0
    ensures states[i].inUse == |Blocks(states[i].disk)| + states[i].odd
    ensures states[i].inUse == |Blocks(states[i].disk)| <==> states[i].odd == 0
  {
    RunKeepsInv(base, states, steps, i);
  }

  /** The unlinks from step `j` on that meet a file which is not a block of full size. */
  ghost predicate OddUnlink(states: seq<State>, steps: seq<Step>, k: nat)
    requires |states| == |steps| + 1 && k < |steps|
  {
    steps[k].Unlink? && !(steps[k].p in states[k].disk && states[k].disk[steps[k].p] == File(0x400_0000))
  }

  lemma {:induction false} OddIsUnlinked(base: string, states: seq<State>, steps: seq<Step>, j: nat, i: nat)
    requires IsRun(base, states, steps) && j < i <= |steps| && steps[j].Start?
    requires forall k :: j < k < i ==> !steps[k].Start? && !steps[k].Stop?
    ensures states[i].odd == 0 <==> forall k :: j < k < i ==> !OddUnlink(states, steps, k)
    decreases i
  {
    hide Next, Legal;
    assert Legal(base, states[i - 1], steps[i - 1]) && states[i] == Next(base, states[i - 1], steps[i - 1]);
    OddStep(base, states[i - 1], steps[i - 1]);
    if i > j + 1 {
      OddIsUnlinked(base, states, steps, j, i - 1);
      assert OddUnlink(states, steps, i - 1) <==> states[i].odd != states[i - 1].odd;
    }
  }

  lemma OddStep(base: string, s: State, e: Step)
    requires Legal(base, s, e)
    ensures e.Unlink? ==> e.p in s.disk
    ensures Next(base, s, e).odd
         == if e.Start? || e.Stop? then 0 else if e.Unlink? && s.disk[e.p] != File(0x400_0000) then s.odd + 1 else s.odd
  {
    hide Tree, DiskOk, Tmp, Cleaned, Doomed;
  }

  /** Since the start at step `j` the counter has stayed the number of blocks on disk, as seen whenever no caller is
      between its file and the counter, if and only if every file that was unlinked was a block of full size. */
  lemma CounterRightIff(base: string, states: seq<State>, steps: seq<Step>, j: nat, i: nat)
    requires IsRun(base, states, steps) && Tree(states[0].disk) && !states[0].inited
    requires j < i <= |steps| && steps[j].Start? && forall k :: j < k < i ==> !steps[k].Start? && !steps[k].Stop?
    requires states[i].inited && states[i].ups == states[i].downs == 0
    ensures states[i].inUse == |Blocks(states[i].disk)| <==> forall k :: j < k < i ==> !OddUnlink(states, steps, k)
  {
    hide Next, Legal, OddUnlink, Tree;
    CounterLaw(base, states, steps, i);
    OddIsUnlinked(base, states, steps, j, i);
  }

  /** Creating and removing a block, as the code does it, are two steps each. */
  lemma CodeIsSteps(base: string, s: State, p: Path)
    requires s.inited && Legal(base, s, Allocate(p, BLOCK_SIZE)) && s.ups == s.downs == 0
    ensures var c := Next(base, Next(base, s, Allocate(p, BLOCK_SIZE)), CountUp);
            && c.disk == Allocated(s.disk, p, [Done]).0 && c.inUse == s.inUse + 1 && c.ups == 0
            && var r := Next(base, Next(base, c, Unlink(p)), CountDown);
               r == s
  {
    hide Tmp, Tree, DiskOk;
    assert Allocated(s.disk, p, [Done]) == TryAllocate(s.disk, p, Done);
    var d := s.disk[p := File(BLOCK_SIZE)];
    assert d - {p} == s.disk;
  }

  /** Over every run, whatever a stop interrupts: the next start goes through exactly if no block of full size
      was left under a temporary name, and the count it restores is then the number of blocks on disk. */
  lemma RestartIff(base: string, states: seq<State>, steps: seq<Step>, i: nat, disk: Disk)
    requires IsRun(base, states, steps) && i + 2 <= |steps|
    requires Tree(states[0].disk) && !states[0].inited
    requires states[i].inited && steps[i] == Stop && steps[i + 1] == Start(disk)
    ensures states[i + 2].inited <==> !Stuck(states[i].disk, Doomed(states[i].disk, base, SYS))
    ensures states[i + 2].inited ==> states[i + 2].inUse == |Blocks(states[i + 2].disk)|
  {
    RunKeepsInv(base, states, steps, i);
    assert states[i + 1] == Next(base, states[i], steps[i]);
    assert states[i + 2] == Next(base, states[i + 1], steps[i + 1]);
  }

  /** So a stop between the creation of a block and its renaming keeps the manager from starting. */
  lemma StopBeforeRename(base: string, s: State, p: Path)
    requires Inv(base, s) && Legal(base, s, Allocate(p, BLOCK_SIZE))
    ensures !Loadable(Next(base, Next(base, s, Allocate(p, BLOCK_SIZE)), Stop).disk, base)
  {
    var d := s.disk[p := File(BLOCK_SIZE)];
    assert p[..1] == SYS && SYS < p;
    assert p in Doomed(d, base, SYS) && FullBlock(d, p);
  }

  /** A block of odd size leaves the disk and stays in the count. */
  lemma OddSizeStaysCounted(base: string, s: State, p: Path, size: int)
    requires Inv(base, s) && s.inited && s.ups == s.downs == s.odd == 0
    requires Legal(base, s, Unlink(p)) && size != BLOCK_SIZE
    ensures var t := Next(base, s, Resize(p, size));
            Legal(base, t, Unlink(p)) && Next(base, t, Unlink(p)).inUse == |Blocks(Next(base, t, Unlink(p)).disk)| + 1
  {
    var t := Next(base, s, Resize(p, size));
    NextKeepsInv(base, s, Resize(p, size));
    NextKeepsInv(base, t, Unlink(p));
  }
}
