/** Pages packed into remote chunk objects: where a page lies, coalesced writes, and the
    migration of the older single-object layout. */
module ChunkLayout {
  import opened Keys

  const INVALID_PAGE: nat := 0xFFFF_FFFF_FFFF_FFFF
  const FIRST_FILE_PAGE: nat := 0x1_0000_0000      // ids from here on name read-only file pages

  datatype Layout = Layout(pageSize: nat, perChunk: nat)

  predicate LayoutOk(l: Layout) { l.pageSize > 0 && l.perChunk > 0 }

  type Store = map<nat, seq<Byte>>                 // chunk number to object

  datatype Write = Write(page: nat, data: seq<Byte>)

  // ---------------------------------------------------------------- where a page lies

  function ChunkOf(l: Layout, p: nat): nat
    requires LayoutOk(l)
  {
    p / l.perChunk
  }

  function SlotOf(l: Layout, p: nat): nat
    requires LayoutOk(l)
  {
    p % l.perChunk
  }

  function OffsetOf(l: Layout, p: nat): nat
    requires LayoutOk(l)
  {
    SlotOf(l, p) * l.pageSize
  }

  /** Pages and (chunk, slot) pairs correspond one to one. */
  lemma PlaceIsUnique(l: Layout, c: nat, slot: nat, p: nat)
    requires LayoutOk(l) && slot < l.perChunk
    ensures ChunkOf(l, p) == c && SlotOf(l, p) == slot <==> p == c * l.perChunk + slot
    ensures SlotOf(l, p) < l.perChunk && p == ChunkOf(l, p) * l.perChunk + SlotOf(l, p)
  {
    if p == c * l.perChunk + slot { DivMod(c, slot, l.perChunk); }
  }

  lemma DivMod(c: nat, r: nat, m: nat)
    requires r < m
    ensures (c * m + r) / m == c && (c * m + r) % m == r
  {
    var x := c * m + r;
    var q, t := x / m, x % m;
    assert x == q * m + t;
    assert (q - c) * m == r - t;
    if q > c { Multiple(q - c, m); } else if q < c { Multiple(c - q, m); }
  }

  lemma Multiple(d: nat, m: nat)
    requires d >= 1
    ensures d * m >= m
  {
    assert d * m == m + (d - 1) * m && (d - 1) * m >= 0;
  }

  /** Two pages of one chunk do not touch. */
  lemma SlotsApart(l: Layout, a: nat, b: nat)
    requires LayoutOk(l) && a < b
    ensures a * l.pageSize + l.pageSize <= b * l.pageSize
  {
    assert (b - a - 1) * l.pageSize >= 0;
    assert b * l.pageSize == a * l.pageSize + l.pageSize + (b - a - 1) * l.pageSize;
  }

  // ---------------------------------------------------------------- objects

  function Blob(st: Store, c: nat): seq<Byte> { if c in st then st[c] else [] }

  /** Beyond its end an object reads as zeros. */
  function ByteAt(blob: seq<Byte>, i: nat): Byte { if i < |blob| then blob[i] else 0 }

  /** Byte j of page p as a remote reader sees it. */
  function PageByte(l: Layout, st: Store, p: nat, j: nat): Byte
    requires LayoutOk(l)
  {
    ByteAt(Blob(st, ChunkOf(l, p)), OffsetOf(l, p) + j)
  }

  function Zeros(n: nat): (r: seq<Byte>)
    ensures |r| == n && forall i :: 0 <= i < n ==> r[i] == 0
  {
    seq(n, _ => 0)
  }

  /** Grows the blob with zeros where needed and copies the page in. */
  function Overlay(blob: seq<Byte>, offset: nat, data: seq<Byte>): (r: seq<Byte>)
    ensures forall i: nat :: ByteAt(r, i) == if offset <= i < offset + |data| then data[i - offset] else ByteAt(blob, i)
  {
    var need := offset + |data|;
    var b := if |blob| < need then blob + Zeros(need - |blob|) else blob;
    b[..offset] + data + b[need..]
  }

  // ---------------------------------------------------------------- writing one by one

  function WriteOne(l: Layout, st: Store, w: Write): Store
    requires LayoutOk(l)
  {
    var c := ChunkOf(l, w.page);
    st[c := Overlay(Blob(st, c), OffsetOf(l, w.page), w.data)]
  }

  function OneByOne(l: Layout, st: Store, ws: seq<Write>): Store
    requires LayoutOk(l)
  {
    if ws == [] then st else WriteOne(l, OneByOne(l, st, ws[..|ws| - 1]), ws[|ws| - 1])
  }

  /** A page write changes that page and no other byte of any page. */
  lemma WriteOneExact(l: Layout, st: Store, w: Write, p: nat, j: nat)
    requires LayoutOk(l) && |w.data| == l.pageSize && j < l.pageSize
    ensures PageByte(l, WriteOne(l, st, w), p, j) == if p == w.page then w.data[j] else PageByte(l, st, p, j)
  {
    if p != w.page && ChunkOf(l, p) == ChunkOf(l, w.page) {
      var a, b := SlotOf(l, p), SlotOf(l, w.page);
      PlaceIsUnique(l, ChunkOf(l, p), a, w.page);
      if a < b { SlotsApart(l, a, b); } else { SlotsApart(l, b, a); }
    }
  }

  // ---------------------------------------------------------------- writing chunk by chunk

  predicate Primary(p: nat) { p < FIRST_FILE_PAGE }

  function InChunk(l: Layout, ws: seq<Write>, c: nat): seq<Write>
    requires LayoutOk(l)
  {
    if ws == [] then []
    else InChunk(l, ws[..|ws| - 1], c) + if ChunkOf(l, ws[|ws| - 1].page) == c then [ws[|ws| - 1]] else []
  }

  function Chunks(l: Layout, ws: seq<Write>): set<nat>
    requires LayoutOk(l)
  {
    set w | w in ws :: ChunkOf(l, w.page)
  }

  function Overlaid(l: Layout, blob: seq<Byte>, ws: seq<Write>): seq<Byte>
    requires LayoutOk(l)
  {
    if ws == [] then blob
    else Overlay(Overlaid(l, blob, ws[..|ws| - 1]), OffsetOf(l, ws[|ws| - 1].page), ws[|ws| - 1].data)
  }

  lemma OverlaidSnoc(l: Layout, blob: seq<Byte>, ws: seq<Write>, w: Write)
    requires LayoutOk(l)
    ensures Overlaid(l, blob, ws + [w]) == Overlay(Overlaid(l, blob, ws), OffsetOf(l, w.page), w.data)
  {
    assert (ws + [w])[..|ws|] == ws;
  }

  lemma ChunksSnoc(l: Layout, ws: seq<Write>, w: Write)
    requires LayoutOk(l)
    ensures Chunks(l, ws + [w]) == Chunks(l, ws) + {ChunkOf(l, w.page)}
  {
    forall c ensures c in Chunks(l, ws + [w]) <==> c in Chunks(l, ws) + {ChunkOf(l, w.page)} {
      if c in Chunks(l, ws) {
        var v :| v in ws && ChunkOf(l, v.page) == c;
        assert v in ws + [w];
      }
      assert w in ws + [w];
    }
  }

  lemma {:induction false} OneByOneKeys(l: Layout, st: Store, ws: seq<Write>)
    requires LayoutOk(l)
    ensures OneByOne(l, st, ws).Keys == st.Keys + Chunks(l, ws)
    decreases |ws|
  {
    if ws != [] {
      var front, w := ws[..|ws| - 1], ws[|ws| - 1];
      OneByOneKeys(l, st, front);
      ChunksSnoc(l, front, w);
      assert ws == front + [w];
    }
  }

  /** Writing one by one treats each chunk on its own. */
  lemma {:induction false} OneByOneByChunk(l: Layout, st: Store, ws: seq<Write>, c: nat)
    requires LayoutOk(l)
    ensures Blob(OneByOne(l, st, ws), c) == Overlaid(l, Blob(st, c), InChunk(l, ws, c))
    decreases |ws|
  {
    if ws != [] {
      var front, w := ws[..|ws| - 1], ws[|ws| - 1];
      OneByOneByChunk(l, st, front, c);
      if ChunkOf(l, w.page) == c { OverlaidSnoc(l, Blob(st, c), InChunk(l, front, c), w); }
      else { assert InChunk(l, ws, c) == InChunk(l, front, c); }
    }
  }

  lemma SameStore(a: Store, b: Store)
    requires a.Keys == b.Keys && forall c :: Blob(a, c) == Blob(b, c)
    ensures a == b
  {
    forall c | c in a ensures a[c] == b[c] { assert Blob(a, c) == Blob(b, c); }
  }

  // ---------------------------------------------------------------- the coalesced write

  datatype Outcome = Done | InvalidPage | SizeMismatch

  /** File-cache pages are skipped before their size is looked at. */
  function Check(l: Layout, w: Write): Outcome {
    if w.page == INVALID_PAGE then InvalidPage
    else if Primary(w.page) && |w.data| != l.pageSize then SizeMismatch
    else Done
  }

  function FirstError(l: Layout, ws: seq<Write>): Outcome {
    if ws == [] then Done else if Check(l, ws[0]) != Done then Check(l, ws[0]) else FirstError(l, ws[1..])
  }

  function PrimaryOf(ws: seq<Write>): seq<Write> {
    if ws == [] then [] else PrimaryOf(ws[..|ws| - 1]) + if Primary(ws[|ws| - 1].page) then [ws[|ws| - 1]] else []
  }

  ghost predicate Grouped(l: Layout, ws: seq<Write>, byChunk: map<nat, seq<Write>>)
    requires LayoutOk(l)
  {
    byChunk.Keys == Chunks(l, ws) && forall c :: c in byChunk ==> byChunk[c] == InChunk(l, ws, c)
  }

  lemma {:induction false} NotInChunk(l: Layout, ws: seq<Write>, c: nat)
    requires LayoutOk(l) && c !in Chunks(l, ws)
    ensures InChunk(l, ws, c) == []
    decreases |ws|
  {
    if ws != [] {
      var front, w := ws[..|ws| - 1], ws[|ws| - 1];
      assert ws == front + [w];
      ChunksSnoc(l, front, w);
      NotInChunk(l, front, c);
    }
  }

  function AddTo(byChunk: map<nat, seq<Write>>, c: nat, w: Write): map<nat, seq<Write>> {
    byChunk[c := (if c in byChunk then byChunk[c] else []) + [w]]
  }

  lemma GroupedSnoc(l: Layout, ws: seq<Write>, byChunk: map<nat, seq<Write>>, w: Write)
    requires LayoutOk(l) && Grouped(l, ws, byChunk)
    ensures Grouped(l, ws + [w], AddTo(byChunk, ChunkOf(l, w.page), w))
  {
    var c := ChunkOf(l, w.page);
    assert (ws + [w])[..|ws|] == ws;
    ChunksSnoc(l, ws, w);
    if c !in byChunk { NotInChunk(l, ws, c); }
  }

  lemma PrimarySnoc(ws: seq<Write>, i: nat)
    requires i < |ws|
    ensures PrimaryOf(ws[..i + 1]) == PrimaryOf(ws[..i]) + if Primary(ws[i].page) then [ws[i]] else []
  {
    assert ws[..i + 1][..i] == ws[..i];
  }

  lemma {:induction false} FirstErrorSplit(l: Layout, ws: seq<Write>, i: nat)
    requires i <= |ws| && forall j :: 0 <= j < i ==> Check(l, ws[j]) == Done
    ensures FirstError(l, ws) ==
      if i == |ws| then Done
      else if Check(l, ws[i]) != Done then Check(l, ws[i]) else FirstError(l, ws[i + 1..])
    decreases i
  {
    if i > 0 {
      FirstErrorSplit(l, ws[1..], i - 1);
      if i < |ws| { assert ws[1..][i - 1] == ws[i] && ws[1..][i..] == ws[i + 1..]; }
    } else if ws != [] {
      assert ws[0 + 1..] == ws[1..];
    }
  }

  /** The loop that checks the pages and collects them by chunk. */
  method Collect(l: Layout, ws: seq<Write>) returns (r: Outcome, byChunk: map<nat, seq<Write>>)
    requires LayoutOk(l)
    ensures r == FirstError(l, ws) && (r == Done ==> Grouped(l, PrimaryOf(ws), byChunk))
  {
    byChunk := map[];
    ghost var taken: seq<Write> := [];
    for i := 0 to |ws|
      invariant forall j :: 0 <= j < i ==> Check(l, ws[j]) == Done
      invariant taken == PrimaryOf(ws[..i]) && Grouped(l, taken, byChunk)
    {
      var w := ws[i];
      PrimarySnoc(ws, i);
      if w.page == INVALID_PAGE || (Primary(w.page) && |w.data| != l.pageSize) {
        FirstErrorSplit(l, ws, i);
        return if w.page == INVALID_PAGE then InvalidPage else SizeMismatch, byChunk;
      }
      if Primary(w.page) {
        GroupedSnoc(l, taken, byChunk, w);
        taken, byChunk := taken + [w], AddTo(byChunk, ChunkOf(l, w.page), w);
      }
    }
    FirstErrorSplit(l, ws, |ws|);
    assert ws[..|ws|] == ws;
    r := Done;
  }

  /** The objects once all chunks but those in `todo` are uploaded. */
  function Uploaded(l: Layout, st: Store, byChunk: map<nat, seq<Write>>, todo: set<nat>): Store
    requires LayoutOk(l)
  {
    map c | c in st.Keys + (byChunk.Keys - todo) ::
      if c in byChunk && c !in todo then Overlaid(l, Blob(st, c), byChunk[c]) else st[c]
  }

  lemma UploadedMore(l: Layout, st: Store, byChunk: map<nat, seq<Write>>, todo: set<nat>, c: nat)
    requires LayoutOk(l) && c in byChunk && c in todo
    ensures var now := Uploaded(l, st, byChunk, todo);
      Uploaded(l, st, byChunk, todo - {c}) == now[c := Overlaid(l, Blob(now, c), byChunk[c])]
  {
    var now, next := Uploaded(l, st, byChunk, todo), Uploaded(l, st, byChunk, todo - {c});
    assert Blob(now, c) == Blob(st, c);
    var blob := Overlaid(l, Blob(st, c), byChunk[c]);
    assert next.Keys == now.Keys + {c} == now[c := blob].Keys;
    forall d | d in next ensures next[d] == now[c := blob][d] {
      assert d != c ==> (d in todo - {c} <==> d in todo);
    }
  }

  lemma UploadedNone(l: Layout, st: Store, byChunk: map<nat, seq<Write>>)
    requires LayoutOk(l)
    ensures Uploaded(l, st, byChunk, byChunk.Keys) == st
  {
  }

  /** A write the call refuses: the invalid id, or a page of the table with the wrong size. */
  predicate Refusable(l: Layout, w: Write) {
    w.page == INVALID_PAGE || (Primary(w.page) && |w.data| != l.pageSize)
  }

  /** The call answers with what is wrong with the first write that is wrong. */
  lemma {:induction false} FirstErrorExactly(l: Layout, ws: seq<Write>)
    ensures FirstError(l, ws) == Done <==> forall i :: 0 <= i < |ws| ==> !Refusable(l, ws[i])
    ensures FirstError(l, ws) != Done ==> exists i ::
      && 0 <= i < |ws| && Refusable(l, ws[i]) && (forall h :: 0 <= h < i ==> !Refusable(l, ws[h]))
      && FirstError(l, ws) == if ws[i].page == INVALID_PAGE then InvalidPage else SizeMismatch
  {
    if ws != [] {
      FirstErrorExactly(l, ws[1..]);
      assert forall i :: 0 <= i < |ws[1..]| ==> ws[1..][i] == ws[i + 1];
      if !Refusable(l, ws[0]) && FirstError(l, ws) != Done {
        var i :| && 0 <= i < |ws[1..]| && Refusable(l, ws[1..][i])
          && (forall h :: 0 <= h < i ==> !Refusable(l, ws[1..][h]))
          && FirstError(l, ws) == if ws[1..][i].page == INVALID_PAGE then InvalidPage else SizeMismatch;
        assert forall h :: 0 < h < i + 1 ==> ws[h] == ws[1..][h - 1];
        assert ws[i + 1] == ws[1..][i];
      }
    }
  }

  /** No later write is of the same page. */
  predicate LastOf(ws: seq<Write>, i: nat)
    requires i < |ws|
  {
    forall h :: i < h < |ws| ==> ws[h].page != ws[i].page
  }

  /** The bytes of a page after the call, read off the writes asked for. */
  ghost predicate PageAfter(l: Layout, st: Store, ws: seq<Write>, st': Store, p: nat, j: nat)
    requires LayoutOk(l)
  {
    && (forall i :: 0 <= i < |ws| && ws[i].page == p && Primary(p) && LastOf(ws, i) && j < |ws[i].data| ==>
          PageByte(l, st', p, j) == ws[i].data[j])
    && (!Primary(p) || (forall i :: 0 <= i < |ws| ==> ws[i].page != p) ==>
          PageByte(l, st', p, j) == PageByte(l, st, p, j))
  }

  lemma {:induction false} PrimarySizes(l: Layout, ws: seq<Write>)
    requires forall i :: 0 <= i < |ws| ==> !Refusable(l, ws[i])
    ensures forall i :: 0 <= i < |PrimaryOf(ws)| ==> |PrimaryOf(ws)[i].data| == l.pageSize
  {
    if ws != [] { PrimarySizes(l, ws[..|ws| - 1]); }
  }

  lemma LastPrimarySnoc(l: Layout, ws: seq<Write>, w: Write, p: nat, j: nat, before: Byte)
    requires forall i :: 0 <= i < |PrimaryOf(ws + [w])| ==> |PrimaryOf(ws + [w])[i].data| > j
    ensures forall i :: 0 <= i < |PrimaryOf(ws)| ==> |PrimaryOf(ws)[i].data| > j
    ensures Primary(w.page) ==> |w.data| > j
    ensures LastWrite(l, PrimaryOf(ws + [w]), p, j, before) ==
      if Primary(p) && w.page == p then w.data[j] else LastWrite(l, PrimaryOf(ws), p, j, before)
  {
    assert (ws + [w])[..|ws|] == ws;
    var all := PrimaryOf(ws + [w]);
    if Primary(w.page) {
      assert all == PrimaryOf(ws) + [w] && all[..|all| - 1] == PrimaryOf(ws) && all[|all| - 1] == w;
      assert forall i :: 0 <= i < |PrimaryOf(ws)| ==> PrimaryOf(ws)[i] == all[i];
    } else {
      assert all == PrimaryOf(ws);
    }
  }

  lemma {:induction false} LastPrimary(l: Layout, ws: seq<Write>, p: nat, j: nat, before: Byte)
    requires forall i :: 0 <= i < |PrimaryOf(ws)| ==> |PrimaryOf(ws)[i].data| > j
    ensures var b := LastWrite(l, PrimaryOf(ws), p, j, before);
      && (forall i :: 0 <= i < |ws| && ws[i].page == p && Primary(p) && LastOf(ws, i) && j < |ws[i].data| ==>
            b == ws[i].data[j])
      && (!Primary(p) || (forall i :: 0 <= i < |ws| ==> ws[i].page != p) ==> b == before)
  {
    if ws != [] {
      var front, w := ws[..|ws| - 1], ws[|ws| - 1];
      assert front + [w] == ws;
      LastPrimarySnoc(l, front, w, p, j, before);
      LastPrimary(l, front, p, j, before);
      assert forall i :: 0 <= i < |front| ==> front[i] == ws[i];
      assert forall i :: 0 <= i < |front| && LastOf(ws, i) ==> LastOf(front, i) && w.page != ws[i].page;
    }
  }

  /** The pages after a call: the last write of each page of the table, and no other byte. */
  lemma PagesAfter(l: Layout, st: Store, ws: seq<Write>, p: nat, j: nat)
    requires LayoutOk(l) && FirstError(l, ws) == Done && j < l.pageSize
    ensures PageAfter(l, st, ws, OneByOne(l, st, PrimaryOf(ws)), p, j)
  {
    FirstErrorExactly(l, ws);
    PrimarySizes(l, ws);
    LastPrimary(l, ws, p, j, PageByte(l, st, p, j));
    OneByOneLastWins(l, st, PrimaryOf(ws), p, j);
  }

  class Remote {
    const layout: Layout
    var objects: Store
    var writes: nat                    // objects written so far

    constructor (layout: Layout, objects: Store)
      ensures this.layout == layout && this.objects == objects && writes == 0
    {
      this.layout, this.objects, writes := layout, objects, 0;
    }

    /** `upload_chunk_with_overlays`: one read, the overlays in order, one write. */
    method UploadChunk(c: nat, overlays: seq<Write>)
      requires LayoutOk(layout)
      modifies this
      ensures objects == old(objects)[c := Overlaid(layout, Blob(old(objects), c), overlays)] &&
              writes == old(writes) + 1
    {
      var blob := Blob(objects, c);
      for i := 0 to |overlays|
        invariant blob == Overlaid(layout, Blob(objects, c), overlays[..i]) && unchanged(this)
      {
        assert overlays[..i + 1] == overlays[..i] + [overlays[i]];
        OverlaidSnoc(layout, Blob(objects, c), overlays[..i], overlays[i]);
        blob := Overlay(blob, OffsetOf(layout, overlays[i].page), overlays[i].data);
      }
      assert overlays[..|overlays|] == overlays;
      objects := objects[c := blob];
      writes := writes + 1;
    }

    /** `write_page_snapshots_coalesced`, remote side: on an error nothing is written; else
        the objects are what writing page by page leaves, for one write per chunk. */
    method WriteCoalesced(ws: seq<Write>) returns (r: Outcome)
      requires LayoutOk(layout)
      modifies this
      ensures r == FirstError(layout, ws)
      ensures r != Done ==> unchanged(this)
      ensures r == Done ==>
        objects == OneByOne(layout, old(objects), PrimaryOf(ws)) &&
        writes == old(writes) + |Chunks(layout, PrimaryOf(ws))|
      ensures r == Done <==> forall i :: 0 <= i < |ws| ==> !Refusable(layout, ws[i])
      ensures r == Done ==> forall p: nat, j: nat :: j < layout.pageSize ==>
        PageAfter(layout, old(objects), ws, objects, p, j)
    {
      FirstErrorExactly(layout, ws);
      var byChunk;
      r, byChunk := Collect(layout, ws);
      if r == Done {
        UploadAll(byChunk);
        CoalescedIsOneByOne(layout, old(objects), PrimaryOf(ws), byChunk);
        forall p: nat, j: nat | j < layout.pageSize ensures PageAfter(layout, old(objects), ws, objects, p, j) {
          PagesAfter(layout, old(objects), ws, p, j);
        }
      }
    }

    /** `migrate_v1_blob_if_needed`: cuts the old single object into chunks, unless chunks
        exist already or there is nothing to migrate. */
    method MigrateV1(v1: Option<seq<Byte>>)
      requires LayoutOk(layout)
      modifies this
      ensures objects ==
        if old(objects) == map[] && v1.Some? && v1.value != [] then Migrated(layout, v1.value) else old(objects)
    {
      if objects != map[] || v1 == None || v1.value == [] { return; }
      var blob := v1.value;
      var total := |blob| / layout.pageSize;
      var c := 0;
      while c * layout.perChunk < total
        invariant objects == Cut(layout, blob, c)
        decreases total - c
      {
        Grows(c, layout.perChunk);
        objects := objects[c := Piece(layout, blob, c)];
        writes := writes + 1;
        c := c + 1;
      }
      CutAll(layout, blob, c);
    }

    method UploadAll(byChunk: map<nat, seq<Write>>)
      requires LayoutOk(layout)
      modifies this
      ensures objects == Uploaded(layout, old(objects), byChunk, {}) && writes == old(writes) + |byChunk.Keys|
    {
      var todo := byChunk.Keys;
      UploadedNone(layout, objects, byChunk);
      while todo != {}
        invariant todo <= byChunk.Keys && writes + |todo| == old(writes) + |byChunk.Keys|
        invariant objects == Uploaded(layout, old(objects), byChunk, todo)
        decreases |todo|
      {
        var c :| c in todo;
        UploadedMore(layout, old(objects), byChunk, todo, c);
        UploadChunk(c, byChunk[c]);
        todo := todo - {c};
      }
    }
  }

  lemma CoalescedIsOneByOne(l: Layout, st: Store, ws: seq<Write>, byChunk: map<nat, seq<Write>>)
    requires LayoutOk(l) && Grouped(l, ws, byChunk)
    ensures Uploaded(l, st, byChunk, {}) == OneByOne(l, st, ws)
  {
    var st' := Uploaded(l, st, byChunk, {});
    OneByOneKeys(l, st, ws);
    forall c ensures Blob(st', c) == Blob(OneByOne(l, st, ws), c) {
      OneByOneByChunk(l, st, ws, c);
      if c !in byChunk { NotInChunk(l, ws, c); }
    }
    SameStore(st', OneByOne(l, st, ws));
  }

  /** Seen page by page: the last write of a page wins, and siblings keep their bytes. */
  lemma {:induction false} OneByOneLastWins(l: Layout, st: Store, ws: seq<Write>, p: nat, j: nat)
    requires LayoutOk(l) && j < l.pageSize && forall i :: 0 <= i < |ws| ==> |ws[i].data| == l.pageSize
    ensures PageByte(l, OneByOne(l, st, ws), p, j) == LastWrite(l, ws, p, j, PageByte(l, st, p, j))
    decreases |ws|
  {
    if ws != [] {
      OneByOneLastWins(l, st, ws[..|ws| - 1], p, j);
      WriteOneExact(l, OneByOne(l, st, ws[..|ws| - 1]), ws[|ws| - 1], p, j);
    }
  }

  function LastWrite(l: Layout, ws: seq<Write>, p: nat, j: nat, before: Byte): Byte
    requires forall i :: 0 <= i < |ws| ==> |ws[i].data| > j
  {
    if ws == [] then before
    else if ws[|ws| - 1].page == p then ws[|ws| - 1].data[j]
    else LastWrite(l, ws[..|ws| - 1], p, j, before)
  }

  // ---------------------------------------------------------------- the older layout

  function Min(a: nat, b: nat): nat { if a < b then a else b }

  lemma Mono(a: nat, b: nat, m: nat)
    requires a <= b
    ensures a * m <= b * m && (b - a) * m == b * m - a * m
  {
  }

  lemma Grows(c: nat, m: nat)
    requires m > 0
    ensures c <= c * m
  {
    Mono(1, m, c);
  }

  function TotalPages(l: Layout, blob: seq<Byte>): nat
    requires LayoutOk(l)
  {
    |blob| / l.pageSize
  }

  /** The pages of the blob that belong to chunk c. */
  function Piece(l: Layout, blob: seq<Byte>, c: nat): seq<Byte>
    requires LayoutOk(l) && c * l.perChunk < TotalPages(l, blob)
  {
    var first, last := c * l.perChunk, Min(c * l.perChunk + l.perChunk, TotalPages(l, blob));
    PieceInside(l, blob, first, last);
    blob[first * l.pageSize..last * l.pageSize]
  }

  lemma PieceInside(l: Layout, blob: seq<Byte>, first: nat, last: nat)
    requires LayoutOk(l) && first <= last <= TotalPages(l, blob)
    ensures first * l.pageSize <= last * l.pageSize <= |blob|
  {
    Mono(first, last, l.pageSize);
    Mono(last, TotalPages(l, blob), l.pageSize);
    assert TotalPages(l, blob) * l.pageSize <= |blob|;
  }

  /** The first n chunks, those that exist. */
  function Cut(l: Layout, blob: seq<Byte>, n: nat): Store
    requires LayoutOk(l)
  {
    map c: nat | c < n && c * l.perChunk < TotalPages(l, blob) :: Piece(l, blob, c)
  }

  function Migrated(l: Layout, blob: seq<Byte>): Store
    requires LayoutOk(l)
  {
    Cut(l, blob, TotalPages(l, blob))
  }

  lemma CutAll(l: Layout, blob: seq<Byte>, n: nat)
    requires LayoutOk(l) && n * l.perChunk >= TotalPages(l, blob)
    ensures Cut(l, blob, n) == Migrated(l, blob)
  {
    forall c: nat | c * l.perChunk < TotalPages(l, blob) ensures c < n && c < TotalPages(l, blob) {
      if c >= n { Mono(n, c, l.perChunk); }
      Grows(c, l.perChunk);
    }
  }

  /** Whole pages of the old object keep every byte; whatever followed the last whole page
      reads as zeros. */
  lemma MigrationKeepsPages(l: Layout, blob: seq<Byte>, p: nat, j: nat)
    requires LayoutOk(l) && j < l.pageSize
    ensures PageByte(l, Migrated(l, blob), p, j) ==
      if p < TotalPages(l, blob) then ByteAt(blob, p * l.pageSize + j) else 0
  {
    var c, r, total, ps := ChunkOf(l, p), SlotOf(l, p), TotalPages(l, blob), l.pageSize;
    PlaceIsUnique(l, c, r, p);
    var first := c * l.perChunk;
    if first < total {
      Grows(c, l.perChunk);
      var last := Min(first + l.perChunk, total);
      PieceInside(l, blob, first, last);
      Mono(first, last, ps);
      assert p * ps == first * ps + r * ps;
      if p < total {
        Mono(p + 1, last, ps);
        assert (p + 1) * ps == p * ps + ps;
      } else {
        Mono(last, p, ps);
      }
    }
  }

  /** Byte j of page p in the old object. */
  function OldByte(l: Layout, blob: seq<Byte>, p: nat, j: nat): Byte { ByteAt(blob, p * l.pageSize + j) }

  ghost predicate PagesPreserved(l: Layout, blob: seq<Byte>)
    requires LayoutOk(l)
  {
    forall p: nat, j: nat {:trigger OldByte(l, blob, p, j)} ::
      j < l.pageSize ==> PageByte(l, Migrated(l, blob), p, j) == OldByte(l, blob, p, j)
  }

  ghost predicate ZeroTail(l: Layout, blob: seq<Byte>)
    requires LayoutOk(l)
  {
    forall i :: TotalPages(l, blob) * l.pageSize <= i < |blob| ==> blob[i] == 0
  }

  lemma ZeroTailPreserves(l: Layout, blob: seq<Byte>, p: nat, j: nat)
    requires LayoutOk(l) && ZeroTail(l, blob) && j < l.pageSize
    ensures PageByte(l, Migrated(l, blob), p, j) == OldByte(l, blob, p, j)
  {
    MigrationKeepsPages(l, blob, p, j);
    if p >= TotalPages(l, blob) { Mono(TotalPages(l, blob), p, l.pageSize); }
  }

  /** A byte behind the last whole page, if there is one, lies in the page after it. */
  lemma TailByte(l: Layout, blob: seq<Byte>, i: nat)
    requires LayoutOk(l) && TotalPages(l, blob) * l.pageSize <= i < |blob|
    ensures i - TotalPages(l, blob) * l.pageSize < l.pageSize && |blob| % l.pageSize != 0
  {
    var total, ps := TotalPages(l, blob), l.pageSize;
    assert |blob| == total * ps + |blob| % ps;
  }

  /** So migration preserves every page exactly when nothing but zeros follows the last
      whole page; in particular when the length is a multiple of the page size. */
  lemma MigrationExact(l: Layout, blob: seq<Byte>)
    requires LayoutOk(l)
    ensures PagesPreserved(l, blob) <==> ZeroTail(l, blob)
    ensures |blob| % l.pageSize == 0 ==> ZeroTail(l, blob)
  {
    if ZeroTail(l, blob) {
      forall p: nat, j: nat | j < l.pageSize ensures PageByte(l, Migrated(l, blob), p, j) == OldByte(l, blob, p, j) {
        ZeroTailPreserves(l, blob, p, j);
      }
    } else {
      var total := TotalPages(l, blob);
      var i: nat :| total * l.pageSize <= i < |blob| && blob[i] != 0;
      TailByte(l, blob, i);
      var j := i - total * l.pageSize;
      MigrationKeepsPages(l, blob, total, j);
      assert OldByte(l, blob, total, j) == blob[i];
    }
  }
}
