/** The reference semantics of a snapshot difference: the flat comparison of two file maps. */
module FlatDiff {
  import opened Outcomes
  import opened Sorting
  import opened StringOrder
  import opened DisjointMaps

  datatype DeltaOp = Add | Modify | Delete

  /** diff.FileDelta */
  datatype FileDelta = FileDelta(
    op: DeltaOp,
    path: string,
    previousNodeHash: string,
    currentNodeHash: string,
    previousContentHash: string,
    currentContentHash: string)

  /** What a file map records about one file. */
  datatype FileInfo = FileInfo(nodeHash: string, contentHash: string)

  type FileMap = map<string, FileInfo>

  function Get(m: FileMap, p: string): Option<FileInfo>
  {
    if p in m then Some(m[p]) else None
  }

  function Added(p: string, b: FileInfo): FileDelta
  {
    FileDelta(Add, p, "", b.nodeHash, "", b.contentHash)
  }

  function Deleted(p: string, a: FileInfo): FileDelta
  {
    FileDelta(Delete, p, a.nodeHash, "", a.contentHash, "")
  }

  function Modified(p: string, a: FileInfo, b: FileInfo): FileDelta
  {
    FileDelta(Modify, p, a.nodeHash, b.nodeHash, a.contentHash, b.contentHash)
  }

  /** The change of one path between two file maps, if any. */
  function Change(p: string, a: Option<FileInfo>, b: Option<FileInfo>): Option<FileDelta>
  {
    match (a, b)
    case (None, None) => None
    case (None, Some(y)) => Some(Added(p, y))
    case (Some(x), None) => Some(Deleted(p, x))
    case (Some(x), Some(y)) => if x.nodeHash == y.nodeHash then None else Some(Modified(p, x, y))
  }

  function ChangeAt(fa: FileMap, fb: FileMap, p: string): Option<FileDelta>
  {
    Change(p, Get(fa, p), Get(fb, p))
  }

  /** s lists exactly the changes between two file maps, each path once. */
  ghost predicate Exact(s: seq<FileDelta>, fa: FileMap, fb: FileMap)
  {
    && (forall d :: d in s ==> ChangeAt(fa, fb, d.path) == Some(d))
    && (forall p :: ChangeAt(fa, fb, p).Some? ==> ChangeAt(fa, fb, p).value in s)
    && (forall i, j :: 0 <= i < j < |s| ==> s[i].path != s[j].path)
  }

  /** The naive difference: walk all paths of both maps in order and compare. */
  ghost function Flat(fa: FileMap, fb: FileMap): seq<FileDelta>
  {
    FlatOver(SortedKeys(fa.Keys + fb.Keys), fa, fb)
  }

  ghost function FlatOver(ps: seq<string>, fa: FileMap, fb: FileMap): seq<FileDelta>
  {
    if ps == [] then []
    else
      var rest := FlatOver(ps[1..], fa, fb);
      if ChangeAt(fa, fb, ps[0]).Some? then [ChangeAt(fa, fb, ps[0]).value] + rest else rest
  }

  // ---- the order of SyncDeltaSet.sort ----

  /** delta.compareDeltaOp's ranking */
  function OpRank(op: DeltaOp): int
  {
    match op
    case Add => 0
    case Modify => 1
    case Delete => 2
  }

  predicate DeltaLe(a: FileDelta, b: FileDelta)
  {
    if a.path != b.path then LexLe(a.path, b.path) else OpRank(a.op) <= OpRank(b.op)
  }

  lemma DeltaPreorder()
    ensures TotalPreorder(DeltaLe)
  {
    forall a, b
      ensures DeltaLe(a, b) || DeltaLe(b, a)
    {
      LexTotal(a.path, b.path);
    }
    forall a, b, c | DeltaLe(a, b) && DeltaLe(b, c)
      ensures DeltaLe(a, c)
    {
      LexTotal(a.path, a.path);
      LexTotal(b.path, b.path);
      LexTransitive(a.path, b.path, c.path);
      if a.path == c.path && a.path != b.path {
        LexAntisymmetric(a.path, b.path);
      }
    }
  }

  lemma DistinctPathsSort(s: seq<FileDelta>)
    requires forall i, j :: 0 <= i < j < |s| ==> s[i].path != s[j].path
    ensures DistinctKeys(DeltaLe, s)
  {
    forall i, j | 0 <= i < j < |s|
      ensures !(DeltaLe(s[i], s[j]) && DeltaLe(s[j], s[i]))
    {
      if LexLe(s[i].path, s[j].path) && LexLe(s[j].path, s[i].path) {
        LexAntisymmetric(s[i].path, s[j].path);
      }
    }
  }

  lemma {:induction false} FlatOverElements(ps: seq<string>, fa: FileMap, fb: FileMap)
    ensures forall d :: d in FlatOver(ps, fa, fb) <==> d.path in ps && ChangeAt(fa, fb, d.path) == Some(d)
  {
    if ps != [] {
      FlatOverElements(ps[1..], fa, fb);
      forall d
        ensures d in FlatOver(ps, fa, fb) <==> d.path in ps && ChangeAt(fa, fb, d.path) == Some(d)
      {
        assert d.path in ps <==> d.path == ps[0] || d.path in ps[1..];
      }
    }
  }

  lemma {:induction false} FlatOverStrict(ps: seq<string>, fa: FileMap, fb: FileMap)
    requires Strict(LexLe, ps)
    ensures Strict(DeltaLe, FlatOver(ps, fa, fb))
  {
    if ps != [] {
      var rest := FlatOver(ps[1..], fa, fb);
      FlatOverStrict(ps[1..], fa, fb);
      FlatOverElements(ps[1..], fa, fb);
      forall i | 0 <= i < |rest|
        ensures LexLe(ps[0], rest[i].path) && !LexLe(rest[i].path, ps[0])
      {
        assert rest[i] in rest;
        var k :| 0 <= k < |ps[1..]| && ps[1..][k] == rest[i].path;
        assert ps[k + 1] == rest[i].path;
      }
      LexTotal(ps[0], ps[0]);
    }
  }

  /** The naive difference is exact and strictly ordered. */
  lemma FlatIsExact(fa: FileMap, fb: FileMap)
    ensures Exact(Flat(fa, fb), fa, fb)
    ensures Strict(DeltaLe, Flat(fa, fb))
  {
    SortedKeysStrict(fa.Keys + fb.Keys);
    FlatOverExact(SortedKeys(fa.Keys + fb.Keys), fa, fb);
  }

  lemma {:induction false} FlatOverExact(ps: seq<string>, fa: FileMap, fb: FileMap)
    requires Strict(LexLe, ps)
    requires forall p :: p in ps <==> p in fa.Keys + fb.Keys
    ensures Exact(FlatOver(ps, fa, fb), fa, fb)
    ensures Strict(DeltaLe, FlatOver(ps, fa, fb))
  {
    FlatOverElements(ps, fa, fb);
    FlatOverStrict(ps, fa, fb);
    var s := FlatOver(ps, fa, fb);
    forall p | ChangeAt(fa, fb, p).Some?
      ensures ChangeAt(fa, fb, p).value in s
    {
      assert p in fa.Keys + fb.Keys;
      assert ChangeAt(fa, fb, p).value.path == p;
    }
    StrictPathsDiffer(s, fa, fb);
  }

  lemma StrictPathsDiffer(s: seq<FileDelta>, fa: FileMap, fb: FileMap)
    requires Strict(DeltaLe, s)
    requires forall d :: d in s ==> ChangeAt(fa, fb, d.path) == Some(d)
    ensures forall i, j :: 0 <= i < j < |s| ==> s[i].path != s[j].path
  {
    forall i, j | 0 <= i < j < |s|
      ensures s[i].path != s[j].path
    {
      assert s[i] in s && s[j] in s;
      assert !DeltaLe(s[j], s[i]);
      assert DeltaLe(s[i], s[i]);
    }
  }

  /** Sorting any exact list gives the naive difference. */
  lemma {:induction false} SortedExactIsFlat(s: seq<FileDelta>, fa: FileMap, fb: FileMap)
    requires Exact(s, fa, fb)
    ensures Sort(DeltaLe, s) == Flat(fa, fb)
  {
    DeltaPreorder();
    DistinctPathsSort(s);
    SortStrict(DeltaLe, s);
    SortPermutes(DeltaLe, s);
    FlatIsExact(fa, fb);
    forall d
      ensures d in Sort(DeltaLe, s) <==> d in Flat(fa, fb)
    {
      if ChangeAt(fa, fb, d.path) == Some(d) {
        assert d in s && d in Flat(fa, fb);
      }
    }
    StrictUnique(DeltaLe, Sort(DeltaLe, s), Flat(fa, fb));
  }

  /** A deletion list and an addition list over disjoint paths combine. */
  lemma ExactConcat(s: seq<FileDelta>, fa: FileMap, t: seq<FileDelta>, fb: FileMap)
    requires Exact(s, fa, map[]) && Exact(t, map[], fb) && fa.Keys !! fb.Keys
    ensures Exact(s + t, fa, fb)
  {
    forall d | d in s
      ensures ChangeAt(fa, fb, d.path) == Some(d)
    {
      assert ChangeAt(fa, map[], d.path) == Some(d);
    }
    forall d | d in t
      ensures ChangeAt(fa, fb, d.path) == Some(d)
    {
      assert ChangeAt(map[], fb, d.path) == Some(d);
    }
    forall p | ChangeAt(fa, fb, p).Some?
      ensures ChangeAt(fa, fb, p).value in s + t
    {
      if p in fa {
        assert ChangeAt(fa, map[], p).Some?;
      } else {
        assert ChangeAt(map[], fb, p).Some?;
      }
    }
    forall i, j | 0 <= i < j < |s + t|
      ensures (s + t)[i].path != (s + t)[j].path
    {
      if i < |s| <= j {
        assert s[i] in s && t[j - |s|] in t;
      }
    }
  }

  // ---- putting lists over disjoint file maps together ----

  /** The file maps before and after files appear or disappear. */
  function Before(op: DeltaOp, files: FileMap): FileMap
  {
    if op == Delete then files else map[]
  }

  function After(op: DeltaOp, files: FileMap): FileMap
  {
    if op == Delete then map[] else files
  }

  ghost predicate OneSidedExact(op: DeltaOp, s: seq<FileDelta>, files: FileMap)
  {
    Exact(s, Before(op, files), After(op, files))
  }

  lemma {:induction false} FlattenExact(op: DeltaOp, ss: seq<seq<FileDelta>>, ms: seq<FileMap>)
    requires op != Modify && |ss| == |ms| && Disjoint(ms)
    requires forall i :: 0 <= i < |ss| ==> OneSidedExact(op, ss[i], ms[i])
    ensures OneSidedExact(op, Flatten(ss), MergeMaps(ms))
  {
    if ss != [] {
      var n := |ss| - 1;
      FrontIsDisjoint(ms);
      FlattenExact(op, ss[..n], ms[..n]);
      OneSidedConcat(op, Flatten(ss[..n]), MergeMaps(ms[..n]), ss[n], ms[n]);
    }
  }

  /** One-sided lists over disjoint file maps combine. */
  lemma OneSidedConcat(op: DeltaOp, s: seq<FileDelta>, fs: FileMap, t: seq<FileDelta>, ft: FileMap)
    requires op != Modify && fs.Keys !! ft.Keys
    requires OneSidedExact(op, s, fs) && OneSidedExact(op, t, ft)
    ensures OneSidedExact(op, s + t, fs + ft)
  {
    var all := fs + ft;
    forall d | d in s
      ensures ChangeAt(Before(op, all), After(op, all), d.path) == Some(d)
    {
      assert ChangeAt(Before(op, fs), After(op, fs), d.path) == Some(d);
    }
    forall d | d in t
      ensures ChangeAt(Before(op, all), After(op, all), d.path) == Some(d)
    {
      assert ChangeAt(Before(op, ft), After(op, ft), d.path) == Some(d);
    }
    forall p | ChangeAt(Before(op, all), After(op, all), p).Some?
      ensures ChangeAt(Before(op, all), After(op, all), p).value in s + t
    {
      if p in fs {
        assert ChangeAt(Before(op, fs), After(op, fs), p).Some?;
      } else {
        assert ChangeAt(Before(op, ft), After(op, ft), p).Some?;
      }
    }
    forall i, j | 0 <= i < j < |s + t|
      ensures (s + t)[i].path != (s + t)[j].path
    {
      if i < |s| <= j {
        assert s[i] in s && t[j - |s|] in t;
      }
    }
  }

  // ---- patching ----

  function PatchOne(m: FileMap, d: FileDelta): FileMap
  {
    if d.op == Delete then m - {d.path} else m[d.path := FileInfo(d.currentNodeHash, d.currentContentHash)]
  }

  function Patch(m: FileMap, s: seq<FileDelta>): FileMap
    decreases |s|
  {
    if s == [] then m else Patch(PatchOne(m, s[0]), s[1..])
  }

  lemma {:induction false} PatchUntouched(m: FileMap, s: seq<FileDelta>, p: string)
    requires forall d :: d in s ==> d.path != p
    ensures Get(Patch(m, s), p) == Get(m, p)
    decreases |s|
  {
    if s != [] {
      assert s[0] in s;
      PatchUntouched(PatchOne(m, s[0]), s[1..], p);
    }
  }

  lemma {:induction false} PatchTouched(m: FileMap, s: seq<FileDelta>, k: nat)
    requires k < |s|
    requires forall i, j :: 0 <= i < j < |s| ==> s[i].path != s[j].path
    ensures Get(Patch(m, s), s[k].path) == Get(PatchOne(map[], s[k]), s[k].path)
    decreases |s|
  {
    if k == 0 {
      forall d | d in s[1..]
        ensures d.path != s[0].path
      {
        var i :| 0 <= i < |s[1..]| && s[1..][i] == d;
        assert s[i + 1] == d;
      }
      PatchUntouched(PatchOne(m, s[0]), s[1..], s[0].path);
    } else {
      PatchTouched(PatchOne(m, s[0]), s[1..], k - 1);
    }
  }

  /** Equal node hashes at one path mean equal file records. */
  ghost predicate HashesDecide(fa: FileMap, fb: FileMap)
  {
    forall p :: p in fa && p in fb && fa[p].nodeHash == fb[p].nodeHash ==> fa[p] == fb[p]
  }

  /** Patching the old map with an exact list gives the new map. */
  lemma {:induction false} PatchExact(s: seq<FileDelta>, fa: FileMap, fb: FileMap)
    requires Exact(s, fa, fb) && HashesDecide(fa, fb)
    ensures Patch(fa, s) == fb
  {
    forall p
      ensures Get(Patch(fa, s), p) == Get(fb, p)
    {
      if k :| 0 <= k < |s| && s[k].path == p {
        assert s[k] in s;
        PatchTouched(fa, s, k);
      } else {
        assert ChangeAt(fa, fb, p).None?;
        PatchUntouched(fa, s, p);
      }
    }
    MapsEqual(Patch(fa, s), fb);
  }

  lemma MapsEqual(m: FileMap, n: FileMap)
    requires forall p :: Get(m, p) == Get(n, p)
    ensures m == n
  {
    assert forall p :: p in m <==> Get(m, p).Some?;
    assert forall p :: p in n <==> Get(n, p).Some?;
    assert forall p :: p in m ==> Get(m, p) == Some(m[p]);
    assert forall p :: p in n ==> Get(n, p) == Some(n[p]);
    assert m.Keys == n.Keys;
  }
}
