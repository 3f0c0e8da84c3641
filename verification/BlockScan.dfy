/** Block keys, prefix scans and paging: crates/ozone-fjall-store/src/lib.rs. */
module BlockScan {
  import opened Wrappers
  import opened MetaStore

  // ---- key order ----

  function BigEndian(n: nat, width: nat): (s: seq<nat>)
    ensures |s| == width
  {
    if width == 0 then [] else BigEndian(n / 256, width - 1) + [n % 256]
  }

  function Pow256(w: nat): nat {
    if w == 0 then 1 else 256 * Pow256(w - 1)
  }

  /** Bytewise order of keys. */
  predicate LexLess(a: seq<nat>, b: seq<nat>) {
    if a == [] then b != []
    else b != [] && (a[0] < b[0] || (a[0] == b[0] && LexLess(a[1..], b[1..])))
  }

  function ContainerKey(c: nat): seq<nat> {
    BigEndian(c, 8)
  }

  function BlockKey(id: BlockId): seq<nat> {
    BigEndian(id.container, 8) + BigEndian(id.local, 8) + [id.slot]
  }

  /** u64 container and local ids, u8 slots. */
  predicate Sized(id: BlockId) {
    id.container < Pow256(8) && id.local < Pow256(8) && id.slot < 256
  }

  predicate IdLess(a: BlockId, b: BlockId) {
    || a.container < b.container
    || (a.container == b.container && a.local < b.local)
    || (a.container == b.container && a.local == b.local && a.slot < b.slot)
  }

  /** a and b agree up to n, where a ends first or has the smaller byte. */
  predicate LessAt(a: seq<nat>, b: seq<nat>, n: nat) {
    n <= |a| && n < |b| && a[..n] == b[..n] && (n == |a| || a[n] < b[n])
  }

  lemma {:induction false} LexIs(a: seq<nat>, b: seq<nat>)
    ensures LexLess(a, b) <==> exists n: nat :: LessAt(a, b, n)
  {
    forall n: nat | LessAt(a, b, n) ensures a == [] || a[0] <= b[0] {
      assert n > 0 ==> a[..n][0] == a[0] && b[..n][0] == b[0];
    }
    if b != [] && (a == [] || a[0] < b[0]) {
      assert LessAt(a, b, 0);
    } else if a != [] && b != [] && a[0] == b[0] {
      LexIs(a[1..], b[1..]);
      assert a == [a[0]] + a[1..] && b == [b[0]] + b[1..];
      if LexLess(a[1..], b[1..]) {
        var n: nat :| LessAt(a[1..], b[1..], n);
        assert a[..n + 1] == [a[0]] + a[1..][..n] && b[..n + 1] == [b[0]] + b[1..][..n];
        assert LessAt(a, b, n + 1);
      }
      if n: nat :| LessAt(a, b, n) {
        assert a[1..][..n - 1] == a[..n][1..] && b[1..][..n - 1] == b[..n][1..];
        assert LessAt(a[1..], b[1..], n - 1);
      }
    }
  }

  /** The number whose digits to the base 256 these bytes are, most significant first. */
  function Number(s: seq<nat>): nat {
    if s == [] then 0 else 256 * Number(s[..|s| - 1]) + s[|s| - 1]
  }

  lemma {:induction false} BigEndianIs(n: nat, width: nat)
    requires n < Pow256(width)
    ensures Number(BigEndian(n, width)) == n && forall i :: 0 <= i < width ==> BigEndian(n, width)[i] < 256
  {
    if width > 0 {
      BigEndianIs(n / 256, width - 1);
      assert BigEndian(n, width)[..width - 1] == BigEndian(n / 256, width - 1);
    }
  }

  lemma {:induction false} LexAppend(a: seq<nat>, b: seq<nat>, c: seq<nat>, d: seq<nat>)
    requires |a| == |b|
    ensures LexLess(a + c, b + d) <==> LexLess(a, b) || (a == b && LexLess(c, d))
    decreases |a|
  {
    if a == [] {
      assert a + c == c && b + d == d;
    } else {
      LexAppend(a[1..], b[1..], c, d);
      assert (a + c)[1..] == a[1..] + c && (b + d)[1..] == b[1..] + d;
      assert a == [a[0]] + a[1..] && b == [b[0]] + b[1..];
    }
  }

  lemma {:induction false} BigEndianOrder(n: nat, m: nat, w: nat)
    requires n < Pow256(w) && m < Pow256(w)
    ensures LexLess(BigEndian(n, w), BigEndian(m, w)) <==> n < m
    ensures BigEndian(n, w) == BigEndian(m, w) <==> n == m
  {
    if w > 0 {
      BigEndianOrder(n / 256, m / 256, w - 1);
      var a, b := BigEndian(n / 256, w - 1), BigEndian(m / 256, w - 1);
      LexAppend(a, b, [n % 256], [m % 256]);
      assert BigEndian(n, w)[..w - 1] == a && BigEndian(m, w)[..w - 1] == b;
    }
  }

  /** Keys sort as (container, local id, slot). */
  lemma KeyOrder(a: BlockId, b: BlockId)
    requires Sized(a) && Sized(b)
    ensures LexLess(BlockKey(a), BlockKey(b)) <==> IdLess(a, b)
  {
    hide Pow256, BigEndian;
    var ca, cb, la, lb := BigEndian(a.container, 8), BigEndian(b.container, 8),
      BigEndian(a.local, 8), BigEndian(b.local, 8);
    assert BlockKey(a) == ca + (la + [a.slot]) && BlockKey(b) == cb + (lb + [b.slot]);
    LexAppend(ca, cb, la + [a.slot], lb + [b.slot]);
    LexAppend(la, lb, [a.slot], [b.slot]);
    BigEndianOrder(a.container, b.container, 8);
    BigEndianOrder(a.local, b.local, 8);
  }

  /** A container's key prefix selects exactly its blocks. */
  lemma PrefixSelects(c: nat, id: BlockId)
    requires c < Pow256(8) && Sized(id)
    ensures ContainerKey(c) <= BlockKey(id) <==> id.container == c
  {
    hide Pow256, BigEndian;
    BigEndianOrder(c, id.container, 8);
    assert BlockKey(id)[..8] == BigEndian(id.container, 8);
  }

  // ---- scans ----

  /** scan is what iterating the prefix of container c yields: its blocks, in key order. */
  ghost predicate IsScan(m: Meta, c: nat, scan: seq<BlockData>) {
    && (forall i, j :: 0 <= i < j < |scan| ==> LexLess(BlockKey(scan[i].id), BlockKey(scan[j].id)))
    && (forall i :: 0 <= i < |scan| ==>
      scan[i].id in m.blocks && m.blocks[scan[i].id] == scan[i] && ContainerKey(c) <= BlockKey(scan[i].id))
    && (forall id :: id in m.blocks && ContainerKey(c) <= BlockKey(id) ==> m.blocks[id] in scan)
  }

  /** Ascending by (local id, slot), with u8 slots. */
  ghost predicate Ordered(scan: seq<BlockData>) {
    && (forall i :: 0 <= i < |scan| ==> scan[i].id.slot < 256)
    && (forall i, j :: 0 <= i < j < |scan| ==>
          scan[i].id.local < scan[j].id.local || (scan[i].id.local ==
            scan[j].id.local && scan[i].id.slot < scan[j].id.slot))
  }

  /** A prefix scan lists exactly the container's blocks, ordered by (local id, slot). */
  lemma ScanIsOrdered(m: Meta, c: nat, scan: seq<BlockData>)
    requires IsScan(m, c, scan) && c < Pow256(8) && Keyed(m)
    requires forall id :: id in m.blocks ==> Sized(id)
    ensures Ordered(scan)
    ensures forall bd :: bd in scan <==> bd.id in m.blocks && m.blocks[bd.id] == bd && bd.id.container == c
  {
    hide Pow256, BigEndian, BlockKey, ContainerKey, LexLess;
    forall id | id in m.blocks
      ensures ContainerKey(c) <= BlockKey(id) <==> id.container == c
    {
      PrefixSelects(c, id);
    }
    forall i, j | 0 <= i < j < |scan|
      ensures IdLess(scan[i].id, scan[j].id)
    {
      KeyOrder(scan[i].id, scan[j].id);
    }
  }

  /** Every id is as wide as its key field. */
  ghost predicate AllSized(m: Meta) {
    (forall id :: id in m.blocks ==> Sized(id)) && (forall c :: c in m.containers ==> c < Pow256(8))
  }

  method FirstId(ids: set<BlockId>) returns (first: BlockId)
    requires ids != {}
    ensures first in ids && forall id :: id in ids && id != first ==> IdLess(first, id)
  {
    first :| first in ids;
    var rest := ids - {first};
    while rest != {}
      invariant first in ids && rest <= ids && forall id :: id in ids && id !in rest && id != first ==>
        IdLess(first, id)
      decreases |rest|
    {
      var id :| id in rest;
      if IdLess(id, first) {
        first := id;
      }
      rest := rest - {id};
    }
  }

  /** Iterate a container's blocks in key order. */
  method ScanBlocks(m: Meta, c: nat) returns (scan: seq<BlockData>)
    requires Keyed(m) && AllSized(m) && c < Pow256(8)
    ensures IsScan(m, c, scan)
  {
    hide Pow256, BigEndian, BlockKey, ContainerKey, LexLess, IdLess, IsScan;
    var todo := set id | id in m.blocks && id.container == c;
    scan := [];
    ghost var all := todo;
    while todo != {}
      invariant todo <= all
      invariant forall i, j :: 0 <= i < j < |scan| ==> IdLess(scan[i].id, scan[j].id)
      invariant forall i, id :: 0 <= i < |scan| && id in todo ==> IdLess(scan[i].id, id)
      invariant forall i :: 0 <= i < |scan| ==> scan[i].id in all && m.blocks[scan[i].id] == scan[i]
      invariant forall id :: id in all && id !in todo ==> m.blocks[id] in scan
      decreases |todo|
    {
      var id := FirstId(todo);
      todo := todo - {id};
      scan := scan + [m.blocks[id]];
    }
    OrderedIsScan(m, c, scan);
  }

  lemma OrderedIsScan(m: Meta, c: nat, scan: seq<BlockData>)
    requires Keyed(m) && AllSized(m) && c < Pow256(8)
    requires forall i, j :: 0 <= i < j < |scan| ==> IdLess(scan[i].id, scan[j].id)
    requires forall i :: 0 <= i < |scan| ==>
      scan[i].id in m.blocks && m.blocks[scan[i].id] == scan[i] && scan[i].id.container == c
    requires forall id :: id in m.blocks && id.container == c ==> m.blocks[id] in scan
    ensures IsScan(m, c, scan)
  {
    hide Pow256, BigEndian, BlockKey, ContainerKey, LexLess, IdLess;
    forall i, j | 0 <= i < j < |scan| ensures LexLess(BlockKey(scan[i].id), BlockKey(scan[j].id)) {
      KeyOrder(scan[i].id, scan[j].id);
    }
    forall id | id in m.blocks ensures ContainerKey(c) <= BlockKey(id) <==> id.container == c {
      PrefixSelects(c, id);
    }
  }

  // ---- pages ----

  datatype BlockPage = BlockPage(blocks: seq<BlockData>, next: Option<nat>)

  /** How many leading blocks have a local id below start. */
  function From(scan: seq<BlockData>, start: nat): (n: nat)
    ensures n <= |scan|
  {
    if scan == [] || scan[0].id.local >= start then 0 else 1 + From(scan[1..], start)
  }

  lemma {:induction false} FromIs(scan: seq<BlockData>, start: nat)
    ensures forall i :: 0 <= i < From(scan, start) ==> scan[i].id.local < start
    ensures From(scan, start) < |scan| ==> scan[From(scan, start)].id.local >= start
  {
    if scan != [] && scan[0].id.local < start {
      var rest := scan[1..];
      FromIs(rest, start);
      assert forall i :: 1 <= i < |scan| ==> scan[i] == rest[i - 1];
    }
  }

  /** In an ordered scan the blocks below start are exactly the leading ones. */
  lemma FromCuts(scan: seq<BlockData>, start: nat)
    requires Ordered(scan)
    ensures forall i :: 0 <= i < |scan| ==> (scan[i].id.local < start <==> i < From(scan, start))
  {
    FromIs(scan, start);
    hide From;
  }

  function Page(scan: seq<BlockData>, start: nat, limit: nat): BlockPage {
    var from := From(scan, start);
    if from + limit < |scan| then BlockPage(scan[from..from + limit], Some(scan[from + limit].id.local))
    else BlockPage(scan[from..], None)
  }

  /** The blocks from the start id on begin at f; the page holds the first `limit` of them, and its cursor names the
      local id of the next one, if there is one. */
  ghost predicate IsPage(scan: seq<BlockData>, start: nat, limit: nat, f: nat, page: BlockPage) {
    && f <= |scan|
    && (forall i :: 0 <= i < f ==> scan[i].id.local < start)
    && (forall i :: f <= i < |scan| ==> scan[i].id.local >= start)
    && (f + limit < |scan| ==> page.blocks == scan[f..f + limit] && page.next == Some(scan[f + limit].id.local))
    && (f + limit >= |scan| ==> page.blocks == scan[f..] && page.next == None)
  }

  lemma PageIs(scan: seq<BlockData>, start: nat, limit: nat)
    requires Ordered(scan)
    ensures IsPage(scan, start, limit, From(scan, start), Page(scan, start, limit))
  {
    FromCuts(scan, start);
    hide From;
  }

  method ListBlocks(scan: seq<BlockData>, start: nat, limit: nat) returns (page: BlockPage)
    requires Ordered(scan)
    ensures page == Page(scan, start, limit)
    ensures exists f :: IsPage(scan, start, limit, f, page)
  {
    hide Ordered, From, IsPage;
    PageIs(scan, start, limit);
    FromCuts(scan, start);
    var out: seq<BlockData> := [];
    ghost var from := From(scan, start);
    for i := 0 to |scan|
      invariant i <= from ==> out == []
      invariant i > from ==> out == scan[from..i] && |out| <= limit
    {
      var bd := scan[i];
      if bd.id.local < start {
        continue;
      }
      if |out| >= limit {
        return BlockPage(out, Some(bd.id.local));
      }
      out := out + [bd];
    }
    return BlockPage(out, None);
  }

  /** Blocks sharing the local id start. */
  function SharingLocal(scan: seq<BlockData>, start: nat): int {
    From(scan, start + 1) - From(scan, start)
  }

  /** Following a page's cursor moves forward iff the page could hold every slot of its first local id. */
  lemma PagingProgress(scan: seq<BlockData>, start: nat, limit: nat)
    requires Ordered(scan) && Page(scan, start, limit).next.Some?
    ensures Page(scan, start, limit).next.value >= start
    ensures Page(scan, start, limit).next.value > start <==> SharingLocal(scan, start) <= limit
  {
    var f, g := From(scan, start), From(scan, start + 1);
    FromIs(scan, start);
    FromIs(scan, start + 1);
    assert f <= g;
    var n := f + limit;
    assert scan[n].id.local >= start by { if n > f { assert scan[f].id.local >= start; } }
    assert scan[n].id.local > start <==> n >= g by {
      if n < g { assert scan[n].id.local < start + 1; }
      if n >= g && n > g { assert scan[g].id.local >= start + 1; }
    }
  }

  /** A page too short for the slots of one local id never gets past it: two slots, one block a page. */
  lemma StuckPage(a: BlockData, b: BlockData)
    requires a.id.local == b.id.local && a.id.slot < b.id.slot < 256
    ensures Ordered([a, b]) && Page([a, b], a.id.local, 1) == BlockPage([a], Some(a.id.local))
  {
    assert [a, b][0..1] == [a];
  }

  /** In a run of one local id the i-th block has slot at least i. */
  lemma {:induction false} SlotsClimb(scan: seq<BlockData>, from: nat, i: nat)
    requires Ordered(scan) && from + i < |scan| && scan[from].id.local == scan[from + i].id.local
    ensures scan[from + i].id.slot >= i
  {
    if i > 0 {
      assert scan[from + i - 1].id.local == scan[from].id.local by {
        if i > 1 { assert scan[from].id.local <= scan[from + i - 1].id.local <= scan[from + i].id.local; }
      }
      SlotsClimb(scan, from, i - 1);
    }
  }

  /** A page of 256 blocks always ends past its first local id. */
  lemma FullPageAdvances(scan: seq<BlockData>, start: nat)
    requires Ordered(scan) && Page(scan, start, 256).next.Some?
    ensures From(scan, Page(scan, start, 256).next.value) > From(scan, start)
    ensures From(scan, Page(scan, start, 256).next.value) <= From(scan, start) + 256
  {
    var f := From(scan, start);
    var next := scan[f + 256].id.local;
    FromIs(scan, start);
    FromIs(scan, next);
    if next == scan[f].id.local {
      SlotsClimb(scan, f, 256);
    }
    assert scan[f].id.local < next;
    var g := From(scan, next);
    assert f < g <= f + 256;
  }
}
