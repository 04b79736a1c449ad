/**
 The user-level allocator (user/umalloc.c).  Addresses count Headers (16 bytes); a
 block's first unit is its header.  The free list is a ring in address order that
 starts at `base`; every block obtained from sbrk is free or live.
 */
module Umalloc {
  import opened Sequences

  const UNIT: nat := 16               // sizeof(Header)
  const LIMIT: nat := 0x1_0000_0000   // sbrk fails beyond; sizes fit a uint

  type Fields = map<nat, nat>

  // ----- the free list -------------------------------------------------------------------------

  /** ptr leads through the ring and back to its start. */
  ghost predicate Linked(ring: seq<nat>, ptr: Fields) {
    && |ring| > 0
    && (forall i :: 0 <= i < |ring| ==> ring[i] in ptr)
    && (forall i :: 0 <= i < |ring| - 1 ==> ptr[ring[i]] == ring[i + 1])
    && ptr[ring[|ring| - 1]] == ring[0]
  }

  /** Addresses ascend, and no block overlaps or touches a later one; only pair k, k + 1 may touch. */
  ghost predicate Spaced(ring: seq<nat>, size: Fields, k: int) {
    && (forall i :: 0 <= i < |ring| ==> ring[i] in size)
    && (forall i, j :: 0 <= i < j < |ring| ==> ring[i] + size[ring[i]] <= ring[j] && ring[i] < ring[j])
    && (forall i, j :: 0 <= i < j < |ring| && !(i == k && j == k + 1) ==> ring[i] + size[ring[i]] < ring[j])
  }

  ghost predicate ListOk(ring: seq<nat>, size: Fields, ptr: Fields, base: nat) {
    Linked(ring, ptr) && Spaced(ring, size, -1) && ring[0] == base && size[base] == 0
  }

  // ----- tiling ---------------------------------------------------------------------------------

  /** `cover` gives for each unit obtained the one block it lies in. */
  ghost predicate Tiled(blocks: Fields, cover: Fields) {
    && (forall b :: b in blocks ==> blocks[b] > 0)
    && (forall u :: u in cover ==> cover[u] in blocks && cover[u] <= u < cover[u] + blocks[cover[u]])
    && (forall b, u :: b in blocks && Inside(blocks, b, u) ==> u in cover && cover[u] == b)
  }

  predicate Inside(blocks: Fields, b: nat, u: nat)
    requires b in blocks
  {
    b <= u < b + blocks[b]
  }

  /** Two blocks do not overlap. */
  lemma {:induction false} Apart(blocks: Fields, cover: Fields, a: nat, b: nat)
    requires Tiled(blocks, cover) && a in blocks && b in blocks && a < b
    ensures a + blocks[a] <= b
  {
    assert Inside(blocks, b, b);
    assert Inside(blocks, a, b) <==> b < a + blocks[a];
  }

  ghost function Join(blocks: Fields, a: nat, b: nat): (m: Fields)
    requires a in blocks && b in blocks
  {
    (blocks - {b})[a := blocks[a] + blocks[b]]
  }

  ghost function Recover(cover: Fields, b: nat, a: nat): (m: Fields) {
    map u | u in cover :: if cover[u] == b then a else cover[u]
  }

  /** Merging two adjacent blocks tiles the same units. */
  lemma {:induction false} JoinTiles(blocks: Fields, cover: Fields, a: nat, b: nat)
    requires Tiled(blocks, cover) && a in blocks && b in blocks && a + blocks[a] == b
    ensures a != b && Tiled(Join(blocks, a, b), Recover(cover, b, a)) && Recover(cover, b, a).Keys == cover.Keys
  {
    assert Inside(blocks, b, b) && Inside(blocks, a, a);
    var blocks', cover' := Join(blocks, a, b), Recover(cover, b, a);
    forall c, u | c in blocks' && Inside(blocks', c, u) ensures u in cover' && cover'[u] == c {
      if c == a {
        assert Inside(blocks, a, u) || Inside(blocks, b, u);
      } else {
        assert Inside(blocks, c, u);
      }
    }
  }

  ghost function Split(blocks: Fields, p: nat, n: nat): (m: Fields)
    requires p in blocks && n < blocks[p]
  {
    blocks[p := blocks[p] - n][p + (blocks[p] - n) := n]
  }

  ghost function SplitCover(cover: Fields, q: nat, n: nat): (m: Fields) {
    map u | u in cover :: if q <= u < q + n then q else cover[u]
  }

  /** Cutting n units off the end of a block tiles the same units. */
  lemma {:induction false} SplitTiles(blocks: Fields, cover: Fields, p: nat, n: nat)
    requires Tiled(blocks, cover) && p in blocks && 0 < n < blocks[p]
    ensures var q: nat := p + (blocks[p] - n);
            && q !in blocks && Tiled(Split(blocks, p, n), SplitCover(cover, q, n))
            && SplitCover(cover, q, n).Keys == cover.Keys
  {
    var q: nat := p + (blocks[p] - n);
    var blocks', cover' := Split(blocks, p, n), SplitCover(cover, q, n);
    assert Inside(blocks, p, q) && (q in blocks ==> Inside(blocks, q, q));
    forall u | u in cover' ensures cover'[u] in blocks' && cover'[u] <= u < cover'[u] + blocks'[cover'[u]] {
      SplitUnit(blocks, cover, p, n, u);
    }
    forall c: nat, u: nat | c in blocks' && Inside(blocks', c, u) ensures u in cover' && cover'[u] == c {
      if c == q || c == p {
        assert Inside(blocks, p, u);
      } else {
        assert Inside(blocks, c, u);
        assert q <= u < q + n ==> Inside(blocks, p, u);
      }
    }
  }

  lemma {:induction false} SplitUnit(blocks: Fields, cover: Fields, p: nat, n: nat, u: nat)
    requires Tiled(blocks, cover) && p in blocks && 0 < n < blocks[p] && u in cover
    ensures var q: nat := p + (blocks[p] - n);
            var c := if q <= u < q + n then q else cover[u];
            c in Split(blocks, p, n) && c <= u < c + Split(blocks, p, n)[c]
  {
    var q: nat := p + (blocks[p] - n);
    assert q in blocks ==> Inside(blocks, q, q);
    assert Inside(blocks, p, q);
  }

  ghost function Region(p: nat, n: nat): (m: Fields)
    ensures forall u :: u in m <==> p <= u < p + n
    ensures forall u :: u in m ==> m[u] == p
  {
    if n == 0 then map[] else Region(p, n - 1)[p + n - 1 := p]
  }

  lemma {:induction false} AddTiles(blocks: Fields, cover: Fields, p: nat, n: nat)
    requires Tiled(blocks, cover) && n > 0 && forall u :: u in cover ==> u < p
    ensures p !in blocks && Tiled(blocks[p := n], cover + Region(p, n))
  {
    assert p in blocks ==> Inside(blocks, p, p);
    var blocks', cover' := blocks[p := n], cover + Region(p, n);
    forall c, u | c in blocks' && Inside(blocks', c, u) ensures u in cover' && cover'[u] == c {
      assert c != p ==> Inside(blocks, c, u);
    }
  }

  // ----- putting a block into the ring, and merging ------------------------------------------------

  /** The ring with bp behind element t, in place of the next d elements. */
  ghost function Placed(ring: seq<nat>, t: nat, bp: nat, d: nat): (r: seq<nat>)
    requires t < |ring| && t + 1 + d <= |ring|
    ensures |r| == |ring| + 1 - d
    ensures forall i :: 0 <= i < |r| ==> r[i] == if i <= t then ring[i] else if i == t + 1 then bp else ring[i - 1 + d]
  {
    ring[..t + 1] + [bp] + ring[t + 1 + d..]
  }

  /** bp lies between element t and the next, touching neither or both, but overlapping none. */
  ghost predicate Between(ring: seq<nat>, size: Fields, t: nat, bp: nat) {
    && t < |ring| && bp !in ring && bp in size && size[bp] > 0 && (forall i :: 0 <= i < |ring| ==> ring[i] in size)
    && ring[t] < bp && ring[t] + size[ring[t]] <= bp
    && (t + 1 < |ring| ==> bp + size[bp] <= ring[t + 1])
  }

  /** Linking a new element in behind element t, in place of the next d. */
  lemma {:induction false} PlaceLinked(ring: seq<nat>, ptr: Fields, t: nat, bp: nat, d: nat, nx: nat)
    requires Linked(ring, ptr) && Distinct(ring) && t < |ring| && t + 1 + d <= |ring| && bp !in ring
    requires nx == if t + 1 + d < |ring| then ring[t + 1 + d] else ring[0]
    ensures Linked(Placed(ring, t, bp, d), ptr[bp := nx][ring[t] := bp])
  {
    var r, ptr' := Placed(ring, t, bp, d), ptr[bp := nx][ring[t] := bp];
    forall i | 0 <= i < |r| ensures r[i] in ptr' && ptr'[r[i]] == if i + 1 < |r| then r[i + 1] else r[0] {
      if i < t {
        assert ring[i] != ring[t];
      } else if i > t + 1 {
        assert ring[i - 1 + d] != ring[t];
      }
    }
  }

  /** In address order and apart, but for the pair k, k + 1, the new ring is too. */
  lemma {:induction false} PlaceSpaced(ring: seq<nat>, size: Fields, t: nat, bp: nat, d: nat, n: nat)
    requires Spaced(ring, size, -1) && Between(ring, size, t, bp) && d <= 1 && t + 1 + d <= |ring|
    requires t + 1 + d < |ring| ==> bp + n < ring[t + 1 + d]
    ensures Spaced(Placed(ring, t, bp, d), size[bp := n], t)
  {
    var r, size' := Placed(ring, t, bp, d), size[bp := n];
    forall i, j | 0 <= i < j < |r|
      ensures r[i] + size'[r[i]] <= r[j] && r[i] < r[j] && (!(i == t && j == t + 1) ==> r[i] + size'[r[i]] < r[j])
    {
      PlacePair(ring, size, t, bp, d, n, i, j);
    }
  }

  lemma {:induction false} PlacePair(ring: seq<nat>, size: Fields, t: nat, bp: nat, d: nat, n: nat, i: nat, j: nat)
    requires Spaced(ring, size, -1) && Between(ring, size, t, bp) && d <= 1 && t + 1 + d <= |ring|
    requires t + 1 + d < |ring| ==> bp + n < ring[t + 1 + d]
    requires i < j < |Placed(ring, t, bp, d)|
    ensures var r := Placed(ring, t, bp, d);
            && r[i] in size && r[i] + size[bp := n][r[i]] <= r[j] && r[i] < r[j]
            && (!(i == t && j == t + 1) ==> r[i] + size[bp := n][r[i]] < r[j])
  {
    if i == t + 1 {
      assert j - 1 + d > t + 1 + d ==> ring[t + 1 + d] < ring[j - 1 + d];
    } else if j == t + 1 {
      assert i < t ==> ring[i] + size[ring[i]] < ring[t];
    }
  }

  /** The ring without element t + 1. */
  ghost function Dropped(ring: seq<nat>, t: nat): (r: seq<nat>)
    requires t + 1 < |ring|
    ensures |r| == |ring| - 1 && forall i :: 0 <= i < |r| ==> r[i] == if i <= t then ring[i] else ring[i + 1]
  {
    ring[..t + 1] + ring[t + 2..]
  }

  /** Taking element t + 1 out of the ring. */
  lemma {:induction false} DropLinked(ring: seq<nat>, ptr: Fields, t: nat)
    requires Linked(ring, ptr) && Distinct(ring) && t + 1 < |ring|
    ensures Linked(Dropped(ring, t), ptr[ring[t] := ptr[ring[t + 1]]])
  {
    var r, ptr' := Dropped(ring, t), ptr[ring[t] := ptr[ring[t + 1]]];
    forall i | 0 <= i < |r| ensures r[i] in ptr' && ptr'[r[i]] == if i + 1 < |r| then r[i + 1] else r[0] {
      if i < t {
        assert ring[i] != ring[t];
      } else if i > t {
        assert ring[i + 1] != ring[t];
      }
    }
  }

  /** Element t may grow by element t + 1 when that is taken out and touched it. */
  lemma {:induction false} DropSpaced(ring: seq<nat>, size: Fields, t: nat, n: nat)
    requires Spaced(ring, size, t) && t + 1 < |ring|
    requires n == size[ring[t]] || ring[t] + n == ring[t + 1] + size[ring[t + 1]]
    ensures Spaced(Dropped(ring, t), size[ring[t] := n], -1)
  {
    var r, size' := Dropped(ring, t), size[ring[t] := n];
    forall i, j | 0 <= i < j < |r| ensures r[i] < r[j] && r[i] + size'[r[i]] < r[j] {
      DropPair(ring, size, t, n, i, j);
    }
  }

  lemma {:induction false} DropPair(ring: seq<nat>, size: Fields, t: nat, n: nat, i: nat, j: nat)
    requires Spaced(ring, size, t) && t + 1 < |ring| && i < j < |Dropped(ring, t)|
    requires n == size[ring[t]] || ring[t] + n == ring[t + 1] + size[ring[t + 1]]
    ensures var r := Dropped(ring, t); r[i] in size && r[i] < r[j] && r[i] + size[ring[t] := n][r[i]] < r[j]
  {
    var r := Dropped(ring, t);
    if i == t {
      assert ring[t + 1] + size[ring[t + 1]] < ring[j + 1];
    } else {
      assert r[i] != ring[t];
    }
  }

  lemma {:induction false} SpacedDistinct(ring: seq<nat>, size: Fields, k: int)
    requires Spaced(ring, size, k)
    ensures Distinct(ring)
  {
  }

  lemma {:induction false} PlacedMembers(ring: seq<nat>, t: nat, bp: nat, d: nat, b: nat)
    requires Distinct(ring) && t < |ring| && d <= 1 && t + 1 + d <= |ring| && bp !in ring
    ensures b in Placed(ring, t, bp, d) <==> b == bp || (b in ring && (d == 1 ==> b != ring[t + 1]))
  {
    var r := Placed(ring, t, bp, d);
    if b in ring && (d == 1 ==> b != ring[t + 1]) {
      var i :| 0 <= i < |ring| && ring[i] == b;
      assert r[if i <= t then i else i + 1 - d] == b;
    }
    assert r[t + 1] == bp;
  }

  lemma {:induction false} DroppedMembers(ring: seq<nat>, t: nat, b: nat)
    requires Distinct(ring) && t + 1 < |ring|
    ensures b in Dropped(ring, t) <==> b in ring && b != ring[t + 1]
  {
    var r := Dropped(ring, t);
    if b in ring && b != ring[t + 1] {
      var i :| 0 <= i < |ring| && ring[i] == b;
      assert r[if i <= t then i else i - 1] == b;
    }
  }

  /** Every block above base is either live or in the ring, and its header tells its size. */
  ghost predicate Owned(ring: seq<nat>, live: Fields, blocks: Fields, size: Fields, base: nat) {
    && (forall b :: b in blocks ==> b > base && (b in live <==> b !in ring) && b in size && size[b] == blocks[b])
    && (forall b :: b in live ==> b in blocks && live[b] == blocks[b])
    && (forall b :: b in ring ==> b == base || b in blocks)
  }

  /** The last element of the ring below bp. */
  lemma {:induction false} PlaceOf(ring: seq<nat>, size: Fields, bp: nat, n: nat) returns (t: nat)
    requires Spaced(ring, size, -1) && 0 < n <= |ring| && ring[0] < bp && bp !in ring
    requires forall i :: n <= i < |ring| ==> bp < ring[i]
    ensures t < n && ring[t] < bp && (t + 1 < |ring| ==> bp < ring[t + 1])
  {
    if ring[n - 1] < bp {
      t := n - 1;
    } else {
      t := PlaceOf(ring, size, bp, n - 1);
    }
  }

  // ----- free, in two halves ---------------------------------------------------------------------

  /** The state after free has dealt with the block above bp: bp stands behind p in the ring, and may touch it. */
  ghost predicate Half(ring: seq<nat>, size: Fields, ptr: Fields, base: nat, live: Fields, blocks: Fields,
                       cover: Fields, t: nat, bp: nat)
  {
    && t + 1 < |ring| && ring[t + 1] == bp && ring[0] == base && base in size && size[base] == 0
    && bp > base && bp in ptr
    && Linked(ring, ptr[ring[t] := bp]) && Spaced(ring, size, t)
    && Tiled(blocks, cover) && Owned(ring, live, blocks, size, base)
  }

  ghost predicate Whole(ring: seq<nat>, size: Fields, ptr: Fields, base: nat, live: Fields, blocks: Fields,
                        cover: Fields)
  {
    ListOk(ring, size, ptr, base) && Tiled(blocks, cover) && Owned(ring, live, blocks, size, base)
  }

  /** A live block lies between its neighbours in the ring. */
  lemma {:induction false} LiveBetween(ring: seq<nat>, size: Fields, ptr: Fields, base: nat, live: Fields,
                                       blocks: Fields, cover: Fields, t: nat, bp: nat)
    requires Whole(ring, size, ptr, base, live, blocks, cover) && bp in live
    requires t < |ring| && ring[t] < bp && (t + 1 < |ring| ==> bp < ring[t + 1])
    ensures Between(ring, size, t, bp) && bp > base && size[bp] == blocks[bp]
  {
    assert ring[t] in ring;
    if ring[t] != base {
      Apart(blocks, cover, ring[t], bp);
    }
    if t + 1 < |ring| {
      assert ring[t + 1] in ring && ring[0] < ring[t + 1];
      Apart(blocks, cover, bp, ring[t + 1]);
    }
  }

  /** Element t of the ring and the one after it. */
  lemma {:induction false} Neighbours(ring: seq<nat>, size: Fields, ptr: Fields, base: nat, t: nat)
    requires ListOk(ring, size, ptr, base) && t < |ring|
    ensures ring[t] in ptr && ring[t] in size && ptr[ring[t]] == if t + 1 < |ring| then ring[t + 1] else base
    ensures t + 1 < |ring| ==>
              && ring[t + 1] in ptr && ring[t + 1] in size && ring[t + 1] != base
              && ptr[ring[t + 1]] == if t + 2 < |ring| then ring[t + 2] else base
    ensures t + 2 < |ring| ==> ring[t + 1] + size[ring[t + 1]] < ring[t + 2]
    ensures Linked(ring, ptr) && Spaced(ring, size, -1) && Distinct(ring) && ring[0] == base && base in size
    ensures size[base] == 0
  {
    SpacedDistinct(ring, size, -1);
  }

  lemma {:induction false} OwnedPlaced(ring: seq<nat>, live: Fields, blocks: Fields, size: Fields, base: nat, t: nat,
                                       bp: nat)
    requires Owned(ring, live, blocks, size, base) && Distinct(ring) && t < |ring| && bp in live
    ensures bp !in ring && Owned(Placed(ring, t, bp, 0), live - {bp}, blocks, size, base)
  {
    forall b: nat ensures b in Placed(ring, t, bp, 0) <==> b == bp || b in ring {
      PlacedMembers(ring, t, bp, 0, b);
    }
  }

  lemma {:induction false} FreeAlone(ring: seq<nat>, size: Fields, ptr: Fields, base: nat, live: Fields, blocks: Fields,
                                     cover: Fields, t: nat, bp: nat)
    requires Whole(ring, size, ptr, base, live, blocks, cover) && bp in live
    requires t < |ring| && ring[t] < bp && (t + 1 < |ring| ==> bp < ring[t + 1]) && bp in size && ring[t] in ptr
    requires bp + size[bp] != ptr[ring[t]]
    ensures Half(Placed(ring, t, bp, 0), size, ptr[bp := ptr[ring[t]]], base, live - {bp}, blocks, cover, t, bp)
  {
    hide Tiled, Owned, Between, Spaced, Linked, Distinct, ListOk;
    LiveBetween(ring, size, ptr, base, live, blocks, cover, t, bp);
    Neighbours(ring, size, ptr, base, t);
    OwnedPlaced(ring, live, blocks, size, base, t, bp);
    PlaceLinked(ring, ptr, t, bp, 0, ptr[ring[t]]);
    BetweenNext(ring, size, t, bp);
    PlaceSpaced(ring, size, t, bp, 0, size[bp]);
    SameField(size, bp);
  }

  lemma {:induction false} TwiceSet(m: Fields, k: nat, v: nat, w: nat)
    ensures m[k := v][k := w] == m[k := w]
  {
  }

  lemma {:induction false} SameField(m: Fields, k: nat)
    requires k in m
    ensures m[k := m[k]] == m
  {
  }

  lemma {:induction false} BetweenNext(ring: seq<nat>, size: Fields, t: nat, bp: nat)
    requires Between(ring, size, t, bp)
    ensures bp in size && ring[t] < bp && (t + 1 < |ring| ==> bp + size[bp] <= ring[t + 1])
  {
  }

  lemma {:induction false} OwnedJoined(ring: seq<nat>, live: Fields, blocks: Fields, size: Fields, base: nat, t: nat,
                                       bp: nat)
    requires Owned(ring, live, blocks, size, base) && Distinct(ring) && t + 1 < |ring| && bp in live
    requires ring[t + 1] != base
    ensures bp !in ring && bp in blocks && ring[t + 1] in blocks && bp in size && ring[t + 1] in size
    ensures ring[t + 1] !in live
    ensures size[bp] == blocks[bp] && size[ring[t + 1]] == blocks[ring[t + 1]]
    ensures Owned(Placed(ring, t, bp, 1), live - {bp}, Join(blocks, bp, ring[t + 1]),
              size[bp := size[bp] + size[ring[t + 1]]], base)
  {
    assert ring[t + 1] in ring;
    forall b: nat ensures b in Placed(ring, t, bp, 1) <==> b == bp || (b in ring && b != ring[t + 1]) {
      PlacedMembers(ring, t, bp, 1, b);
    }
  }

  lemma {:induction false} FreeJoined(ring: seq<nat>, size: Fields, ptr: Fields, base: nat, live: Fields,
                                      blocks: Fields, cover: Fields, t: nat, bp: nat)
    requires Whole(ring, size, ptr, base, live, blocks, cover) && bp in live
    requires t < |ring| && ring[t] < bp && (t + 1 < |ring| ==> bp < ring[t + 1]) && bp in size && ring[t] in ptr
    requires bp + size[bp] == ptr[ring[t]]
    ensures t + 1 < |ring| && ptr[ring[t]] == ring[t + 1] && ring[t + 1] in blocks && bp in blocks
    ensures ring[t + 1] in size && ring[t + 1] in ptr
    ensures Half(Placed(ring, t, bp, 1), size[bp := size[bp] + size[ring[t + 1]]], ptr[bp := ptr[ring[t + 1]]], base,
              live - {bp},
                 Join(blocks, bp, ring[t + 1]), Recover(cover, ring[t + 1], bp), t, bp)
    ensures Recover(cover, ring[t + 1], bp).Keys == cover.Keys
  {
    hide Tiled, Owned, Between, Spaced, Linked, Distinct, ListOk;
    LiveBetween(ring, size, ptr, base, live, blocks, cover, t, bp);
    BetweenNext(ring, size, t, bp);
    Neighbours(ring, size, ptr, base, t);
    var n := ring[t + 1];
    OwnedJoined(ring, live, blocks, size, base, t, bp);
    JoinTiles(blocks, cover, bp, n);
    PlaceLinked(ring, ptr, t, bp, 1, ptr[n]);
    PlaceSpaced(ring, size, t, bp, 1, size[bp] + size[n]);
  }

  lemma {:induction false} DownAlone(ring: seq<nat>, size: Fields, ptr: Fields, base: nat, live: Fields, blocks: Fields,
                                     cover: Fields, t: nat, bp: nat)
    requires Half(ring, size, ptr, base, live, blocks, cover, t, bp) && ring[t] in size && ring[t] + size[ring[t]] != bp
    ensures Whole(ring, size, ptr[ring[t] := bp], base, live, blocks, cover)
  {
    hide Tiled, Owned, Linked;
  }

  lemma {:induction false} OwnedDropped(ring: seq<nat>, live: Fields, blocks: Fields, size: Fields, base: nat, t: nat)
    requires Owned(ring, live, blocks, size, base) && Distinct(ring) && t + 1 < |ring| && ring[t] != base
    requires ring[t + 1] != base
    ensures ring[t] in blocks && ring[t + 1] in blocks && ring[t] in size && ring[t + 1] in size
    ensures size[ring[t]] == blocks[ring[t]] && size[ring[t + 1]] == blocks[ring[t + 1]]
    ensures Owned(Dropped(ring, t), live, Join(blocks, ring[t], ring[t + 1]),
              size[ring[t] := size[ring[t]] + size[ring[t + 1]]], base)
  {
    assert ring[t] in ring && ring[t + 1] in ring && ring[t] != ring[t + 1];
    forall b: nat ensures b in Dropped(ring, t) <==> b in ring && b != ring[t + 1] {
      DroppedMembers(ring, t, b);
    }
  }

  lemma {:induction false} DownJoined(ring: seq<nat>, size: Fields, ptr: Fields, base: nat, live: Fields,
                                      blocks: Fields, cover: Fields, t: nat, bp: nat)
    requires Half(ring, size, ptr, base, live, blocks, cover, t, bp) && ring[t] in size && ring[t] + size[ring[t]] == bp
    ensures ring[t] in blocks && bp in blocks && bp in size && Recover(cover, bp, ring[t]).Keys == cover.Keys
    ensures Whole(Dropped(ring, t), size[ring[t] := size[ring[t]] + size[bp]], ptr[ring[t] := ptr[bp]], base, live,
                  Join(blocks, ring[t], bp), Recover(cover, bp, ring[t]))
  {
    hide Tiled, Owned, Linked, Spaced, Distinct;
    SpacedDistinct(ring, size, t);
    assert ring[t] != base;
    OwnedDropped(ring, live, blocks, size, base, t);
    JoinTiles(blocks, cover, ring[t], bp);
    DropLinked(ring, ptr[ring[t] := bp], t);
    TwiceSet(ptr, ring[t], bp, ptr[bp]);
    DropSpaced(ring, size, t, size[ring[t]] + size[bp]);
  }

  // ----- taking a block out -------------------------------------------------------------------------

  lemma {:induction false} OwnedTaken(ring: seq<nat>, live: Fields, blocks: Fields, size: Fields, base: nat, t: nat)
    requires Owned(ring, live, blocks, size, base) && Distinct(ring) && t + 1 < |ring| && ring[t + 1] != base
    ensures ring[t + 1] in size && ring[t + 1] !in live
    ensures Owned(Dropped(ring, t), live[ring[t + 1] := size[ring[t + 1]]], blocks, size, base)
  {
    assert ring[t + 1] in ring;
    forall b: nat ensures b in Dropped(ring, t) <==> b in ring && b != ring[t + 1] {
      DroppedMembers(ring, t, b);
    }
  }

  /** malloc takes a whole block. */
  lemma {:induction false} TakeWhole(ring: seq<nat>, size: Fields, ptr: Fields, base: nat, live: Fields, blocks: Fields,
                                     cover: Fields, t: nat)
    requires Whole(ring, size, ptr, base, live, blocks, cover) && t + 1 < |ring|
    ensures ring[t + 1] in ptr && ring[t + 1] in size && ring[t + 1] !in live && ring[t] in size
    ensures Whole(Dropped(ring, t), size, ptr[ring[t] := ptr[ring[t + 1]]], base,
              live[ring[t + 1] := size[ring[t + 1]]], blocks, cover)
  {
    hide Tiled, Owned, Spaced, Linked, Distinct;
    Neighbours(ring, size, ptr, base, t);
    OwnedTaken(ring, live, blocks, size, base, t);
    DropLinked(ring, ptr, t);
    Loosen(ring, size, t);
    DropSpaced(ring, size, t, size[ring[t]]);
    SameField(size, ring[t]);
  }

  lemma {:induction false} Loosen(ring: seq<nat>, size: Fields, t: nat)
    requires Spaced(ring, size, -1)
    ensures Spaced(ring, size, t)
  {
  }

  lemma {:induction false} OwnedCut(ring: seq<nat>, live: Fields, blocks: Fields, size: Fields, base: nat, t: nat,
                                    n: nat)
    requires Owned(ring, live, blocks, size, base) && t < |ring| && ring[t] != base && ring[t] in size
    requires 0 < n < size[ring[t]]
    requires ring[t] + (size[ring[t]] - n) !in blocks
    ensures ring[t] in blocks && size[ring[t]] == blocks[ring[t]]
    ensures var q: nat := ring[t] + (size[ring[t]] - n);
            && q !in ring && q !in live
            && Owned(ring, live[q := n], Split(blocks, ring[t], n), size[ring[t] := size[ring[t]] - n][q := n], base)
  {
    assert ring[t] in ring;
  }

  lemma {:induction false} Shrink(ring: seq<nat>, size: Fields, t: nat, m: nat, q: nat, n: nat)
    requires Spaced(ring, size, -1) && t < |ring| && m <= size[ring[t]] && q !in ring
    ensures Spaced(ring, size[ring[t] := m][q := n], -1)
  {
    assert forall i :: 0 <= i < |ring| ==> ring[i] in ring;
  }

  /** malloc cuts the block off the end of a larger one. */
  lemma {:induction false} TakeTail(ring: seq<nat>, size: Fields, ptr: Fields, base: nat, live: Fields, blocks: Fields,
                                    cover: Fields, t: nat, n: nat)
    requires Whole(ring, size, ptr, base, live, blocks, cover) && t < |ring| && ring[t] in size && 0 < n < size[ring[t]]
    ensures ring[t] in blocks && blocks[ring[t]] == size[ring[t]]
    ensures var q: nat := ring[t] + (size[ring[t]] - n);
            && q !in live && SplitCover(cover, q, n).Keys == cover.Keys
            && Whole(ring, size[ring[t] := size[ring[t]] - n][q := n], ptr, base, live[q := n],
                     Split(blocks, ring[t], n), SplitCover(cover, q, n))
  {
    hide Tiled, Owned, Spaced, Linked, Distinct;
    Neighbours(ring, size, ptr, base, t);
    var q: nat := ring[t] + (size[ring[t]] - n);
    BlockAt(ring, live, blocks, size, base, t);
    SplitTiles(blocks, cover, ring[t], n);
    OwnedCut(ring, live, blocks, size, base, t, n);
    Shrink(ring, size, t, size[ring[t]] - n, q, n);
    BaseIn(ring);
  }

  lemma {:induction false} BaseIn(ring: seq<nat>)
    requires |ring| > 0
    ensures ring[0] in ring
  {
  }

  lemma {:induction false} BlockAt(ring: seq<nat>, live: Fields, blocks: Fields, size: Fields, base: nat, t: nat)
    requires Owned(ring, live, blocks, size, base) && t < |ring| && ring[t] != base
    ensures ring[t] in blocks && ring[t] in size && size[ring[t]] == blocks[ring[t]]
  {
    assert ring[t] in ring;
  }

  lemma {:induction false} SpacedApart(ring: seq<nat>, size: Fields, p: nat, n: nat)
    requires Spaced(ring, size, -1) && p !in ring
    ensures Spaced(ring, size[p := n], -1)
  {
    forall i | 0 <= i < |ring| ensures ring[i] in size && size[p := n][ring[i]] == size[ring[i]] {
      assert ring[i] in ring;
    }
  }

  lemma {:induction false} OwnedMore(ring: seq<nat>, live: Fields, blocks: Fields, size: Fields, base: nat, p: nat,
                                     n: nat)
    requires Owned(ring, live, blocks, size, base) && p !in blocks && base < p
    ensures p !in live && p !in ring
    ensures Owned(ring, live[p := n], blocks[p := n], size[p := n], base)
  {
  }

  /** sbrk's new region joins as a live block, which morecore then frees. */
  lemma {:induction false} AddLive(ring: seq<nat>, size: Fields, ptr: Fields, base: nat, live: Fields, blocks: Fields,
                                   cover: Fields, p: nat, n: nat)
    requires Whole(ring, size, ptr, base, live, blocks, cover) && n > 0 && base < p && forall u :: u in cover ==> u < p
    ensures p !in blocks && p !in live
    ensures Whole(ring, size[p := n], ptr, base, live[p := n], blocks[p := n], cover + Region(p, n))
  {
    hide Linked, Spaced, Tiled, Owned;
    AddTiles(blocks, cover, p, n);
    OwnedMore(ring, live, blocks, size, base, p, n);
    SpacedApart(ring, size, p, n);
  }

  /** Steps along the ring from element i to element t. */
  function Steps(i: nat, t: nat, n: nat): (d: nat)
    requires i < n && t < n
  {
    if i <= t then t - i else n - i + t
  }

  lemma {:induction false} AddRemove(m: Fields, k: nat, v: nat)
    requires k !in m
    ensures m[k := v] - {k} == m
  {
  }

  lemma {:induction false} BaseAlone(size: Fields, ptr: Fields, base: nat)
    ensures Linked([base], ptr[base := base]) && Spaced([base], size[base := 0], -1)
  {
  }

  /** The n units from u on lie in one block of the free list. */
  ghost predicate Within(ring: seq<nat>, size: Fields, u: nat, n: nat) {
    exists b :: b in ring && b in size && b <= u && u + n <= b + size[b]
  }

  lemma {:induction false} WithinLess(ring: seq<nat>, size: Fields, u: nat, n: nat, m: nat)
    requires Within(ring, size, u, n) && m <= n
    ensures Within(ring, size, u, m)
  {
  }

  lemma {:induction false} HalfHas(
      ring: seq<nat>, size: Fields, ptr: Fields, base: nat, live: Fields, blocks: Fields, cover: Fields,
      t: nat, bp: nat)
    requires Half(ring, size, ptr, base, live, blocks, cover, t, bp)
    ensures bp in ring
  {
  }

  /** No free block has n units. */
  ghost predicate NoFit(ring: seq<nat>, size: Fields, n: nat) {
    forall b :: b in ring && b in size ==> size[b] < n
  }

  class Heap {
    const base: nat
    var freep: nat            // 0 before the first malloc
    var size: Fields
    var ptr: Fields
    var brk: nat              // the end of the memory obtained
    ghost var obtained: set<nat>   // the units that sbrk has given
    ghost var refused: nat         // how often it has failed
    ghost var ring: seq<nat>
    ghost var live: Fields
    ghost var blocks: Fields
    ghost var cover: Fields

    ghost predicate Valid()
      reads this
    {
      && 0 < base < brk <= LIMIT && Tiled(blocks, cover) && Owned(ring, live, blocks, size, base)
      && cover.Keys == obtained && (forall u :: u in obtained ==> u < brk)
      && (freep == 0 ==> ring == [] && blocks == map[])
      && (freep != 0 ==> ListOk(ring, size, ptr, base) && freep in ring)
    }

    constructor (b: nat, top: nat)
      requires 0 < b < top <= LIMIT
      ensures Valid() && live == map[] && obtained == {} && base == b && brk == top
    {
      base, freep, size, ptr, brk := b, 0, map[], map[], top;
      obtained, refused, ring, live, blocks, cover := {}, 0, [], map[], map[], map[];
    }

    /** free's search: the element of the ring after which bp belongs. */
    method FindPlace(bp: nat) returns (p: nat, ghost t: nat)
      requires ListOk(ring, size, ptr, base) && freep in ring && bp !in ring && bp > base
      ensures t < |ring| && p == ring[t] && p < bp && (t + 1 < |ring| ==> bp < ring[t + 1])
    {
      hide ListOk;
      p := freep;
      ghost var c := Start();
      t := PlaceIn(bp);
      AtPlace(bp, t, c);
      while !(bp > p && bp < ptr[p])
        invariant 0 <= c < |ring| && ring[c] == p && p in ptr
        invariant bp > p && bp < ptr[p] ==> c == t
        decreases Steps(c, t, |ring|)
      {
        AtPlace(bp, t, c);
        if p >= ptr[p] && (bp > p || bp < ptr[p]) {
          break;
        }
        Forward(c);
        p := ptr[p];
        c := if c + 1 < |ring| then c + 1 else 0;
        AtPlace(bp, t, c);
      }
    }

    lemma {:induction false} EmptyRing(n: nat)
      requires Valid() && freep == 0
      ensures NoFit(ring, size, n)
    {
    }

    /** The first malloc makes the ring: base alone. */
    method FirstTime()
      requires Valid() && freep == 0
      modifies this`freep, this`size, this`ptr, this`ring
      ensures Valid() && freep != 0 && forall n :: n > 0 ==> NoFit(ring, size, n)
    {
      hide Tiled, Linked, Spaced;
      BaseAlone(size, ptr, base);
      freep := base;
      ptr := ptr[base := base];
      size := size[base := 0];
      ring := [base];
    }

    /** malloc has found a block that is large enough, behind prevp: take it, or the end of it. */
    method Take(prevp: nat, p: nat, nunits: nat, ghost a: nat) returns (r: nat)
      requires Valid() && freep != 0 && a < |ring| && ring[a] == prevp && ring[Next(a, |ring|)] == p && p in size
      requires 0 < nunits <= size[p]
      modifies this`freep, this`size, this`ptr, this`ring, this`live, this`blocks, this`cover
      ensures Valid()
      ensures r != 0 && r - 1 !in old(live) && live == old(live)[(r - 1) as nat := nunits] && freep == prevp
    {
      hide ListOk, Owned, Tiled;
      Chosen(a);
      NextOf(a);
      NextOf(a + 1);
      if size[p] == nunits {
        TakeWhole(ring, size, ptr, base, live, blocks, cover, a);
        ptr := ptr[prevp := ptr[p]];
        ring, live := Dropped(ring, a), live[p := nunits];
        assert ring[a] == prevp;
        freep := prevp;
        r := p + 1;
      } else {
        TakeTail(ring, size, ptr, base, live, blocks, cover, a + 1, nunits);
        ghost var blocks', cover' := Split(blocks, p, nunits), SplitCover(cover, p + (size[p] - nunits), nunits);
        size := size[p := size[p] - nunits];
        var q := p + size[p];
        size := size[q := nunits];
        live, blocks, cover := live[q := nunits], blocks', cover';
        freep := prevp;
        assert ring[a] in ring;
        r := q + 1;
      }
    }

    /** Only base, with size 0, follows the last element; so a block that fits is not the first. */
    lemma {:induction false} Chosen(a: nat)
      requires ListOk(ring, size, ptr, base) && a < |ring| && ring[Next(a, |ring|)] in size
      requires size[ring[Next(a, |ring|)]] > 0
      ensures a + 1 < |ring| && ring[a + 1] == ring[Next(a, |ring|)]
    {
    }

    lemma {:induction false} FreepAt(b: nat, f: nat)
      requires ListOk(ring, size, ptr, base) && b < |ring| && f < |ring| && ring[b] == ring[f]
      ensures b == f
    {
      SpacedDistinct(ring, size, -1);
    }

    /** The blocks that the search has passed since freep are too small. */
    ghost predicate SmallBefore(b: nat, f: nat, n: nat)
      reads this
      requires b < |ring| && f < |ring|
    {
      forall i :: 0 <= i < |ring| && Steps(i, f, |ring|) > Steps(b, f, |ring|) ==> ring[i] in size && size[ring[i]] < n
    }

    lemma {:induction false} SmallStart(f: nat, n: nat)
      requires f < |ring|
      ensures SmallBefore(Next(f, |ring|), f, n)
    {
    }

    lemma {:induction false} SmallNext(b: nat, f: nat, n: nat)
      requires b < |ring| && f < |ring| && b != f && SmallBefore(b, f, n) && ring[b] in size && size[ring[b]] < n
      ensures SmallBefore(Next(b, |ring|), f, n) && Steps(Next(b, |ring|), f, |ring|) < Steps(b, f, |ring|)
    {
      forall i | 0 <= i < |ring| && Steps(i, f, |ring|) > Steps(Next(b, |ring|), f, |ring|)
        ensures ring[i] in size && size[ring[i]] < n
      {
        assert i != b ==> Steps(i, f, |ring|) != Steps(b, f, |ring|);
      }
    }

    lemma {:induction false} AllSmall(b: nat, f: nat, n: nat)
      requires b == f < |ring| && ring[b] in size && size[ring[b]] < n && SmallBefore(b, f, n)
      ensures NoFit(ring, size, n)
    {
      forall x | x in ring && x in size ensures size[x] < n {
        var i :| 0 <= i < |ring| && ring[i] == x;
        assert i != f ==> Steps(i, f, |ring|) > 0;
      }
    }

    lemma {:induction false} Start() returns (c: nat)
      requires ListOk(ring, size, ptr, base) && freep in ring
      ensures c < |ring| && ring[c] == freep && freep in ptr
    {
      c :| 0 <= c < |ring| && ring[c] == freep;
    }

    lemma {:induction false} PlaceIn(bp: nat) returns (t: nat)
      requires ListOk(ring, size, ptr, base) && bp !in ring && bp > base
      ensures t < |ring| && ring[t] < bp && (t + 1 < |ring| ==> bp < ring[t + 1])
    {
      t := PlaceOf(ring, size, bp, |ring|);
    }

    lemma {:induction false} Forward(c: nat)
      requires ListOk(ring, size, ptr, base) && c < |ring|
      ensures ring[c] in ptr && ptr[ring[c]] == ring[if c + 1 < |ring| then c + 1 else 0] && ptr[ring[c]] in ptr
    {
    }

    /** Both tests of the search loop single out the place t. */
    lemma {:induction false} AtPlace(bp: nat, t: nat, c: nat)
      requires ListOk(ring, size, ptr, base) && bp > base && t < |ring| && c < |ring|
      requires ring[t] < bp && (t + 1 < |ring| ==> bp < ring[t + 1])
      ensures ring[c] in ptr
      ensures c == t <==>
                || (bp > ring[c] && bp < ptr[ring[c]])
                || (ring[c] >= ptr[ring[c]] && (bp > ring[c] || bp < ptr[ring[c]]))
    {
      Forward(c);
      if c + 1 < |ring| {
        assert ring[c] < ring[c + 1];
        assert c < t ==> ring[c + 1] <= ring[t];
        assert t < c ==> ring[t + 1] <= ring[c];
      } else {
        assert t < c ==> ring[t + 1] <= ring[c];
        assert c > 0 ==> ring[0] < ring[c];
      }
    }

    /** free, of a block that malloc returned: merges with the free neighbours it touches. */
    method Free(ap: nat)
      requires Valid() && ap > 0 && ap - 1 in live && freep != 0
      modifies this`size, this`ptr, this`freep, this`ring, this`live, this`blocks, this`cover
      ensures Valid() && freep != 0 && live == old(live) - {ap - 1}
      ensures Within(ring, size, ap - 1, old(live)[ap - 1])
    {
      hide ListOk, Owned, Tiled, Half, Within;
      var bp: nat := ap - 1;
      LiveAt(bp);
      ghost var t;
      var p;
      p, t := FindPlace(bp);
      NextOf(t);
      if bp + size[bp] == ptr[p] {
        FreeJoined(ring, size, ptr, base, live, blocks, cover, t, bp);
        var n := ptr[p];
        size, ptr := size[bp := size[bp] + size[n]], ptr[bp := ptr[n]];
        ring, blocks, cover := Placed(ring, t, bp, 1), Join(blocks, bp, n), Recover(cover, n, bp);
      } else {
        FreeAlone(ring, size, ptr, base, live, blocks, cover, t, bp);
        ptr := ptr[bp := ptr[p]];
        ring := Placed(ring, t, bp, 0);
      }
      live := live - {bp};
      ghost var n := size[bp];
      FreeBelow(p, bp, t);
      WithinLess(ring, size, bp, n, old(size)[bp]);
    }

    /** The second half of free: merge with the block below, or link behind it. */
    method FreeBelow(p: nat, bp: nat, ghost t: nat)
      requires Half(ring, size, ptr, base, live, blocks, cover, t, bp) && t < |ring| && ring[t] == p && p in size
      requires bp in size && bp in ptr
      modifies this`size, this`ptr, this`freep, this`ring, this`blocks, this`cover
      ensures Whole(ring, size, ptr, base, live, blocks, cover) && freep == p && p in ring
      ensures cover.Keys == old(cover.Keys)
      ensures Within(ring, size, bp, old(size)[bp])
    {
      hide Half, Owned, Tiled, ListOk;
      HalfHas(ring, size, ptr, base, live, blocks, cover, t, bp);
      if p + size[p] == bp {
        DownJoined(ring, size, ptr, base, live, blocks, cover, t, bp);
        size, ptr := size[p := size[p] + size[bp]], ptr[p := ptr[bp]];
        ring, blocks, cover := Dropped(ring, t), Join(blocks, p, bp), Recover(cover, bp, p);
        assert ring[t] == p;
      } else {
        DownAlone(ring, size, ptr, base, live, blocks, cover, t, bp);
        ptr := ptr[p := bp];
      }
      freep := p;
    }

    lemma {:induction false} LiveAt(bp: nat)
      requires Valid() && bp in live && freep != 0
      ensures bp in blocks && bp !in ring && bp > base && bp in size && size[bp] == blocks[bp] == live[bp]
    {
    }

    lemma {:induction false} ListNow()
      requires Valid() && freep != 0
      ensures ListOk(ring, size, ptr, base) && freep in ring && brk <= LIMIT
    {
    }

    lemma {:induction false} NextOf(t: nat)
      requires ListOk(ring, size, ptr, base) && t < |ring|
      ensures ring[t] in ptr && ring[t] in size && ring[t] >= base
    {
    }

    /** sbrk, by the kernel: fails, or gives n fresh units above everything obtained so far. */
    method Sbrk(n: nat) returns (ok: bool, p: nat)
      requires brk <= LIMIT && n > 0
      modifies this`brk, this`obtained, this`refused
      ensures !ok ==> brk == old(brk) && obtained == old(obtained) && refused == old(refused) + 1
      ensures ok ==> refused == old(refused)
      ensures ok ==> old(brk) <= p && brk == p + n <= LIMIT && obtained == old(obtained) + Region(p, n).Keys
    {
      ok := *;
      p := *;
      if ok && brk <= p && p + n <= LIMIT {
        brk := p + n;
        obtained := obtained + Region(p, n).Keys;
      } else {
        ok := false;
        refused := refused + 1;
      }
    }

    /** morecore: a free block of at least nunits and 4096 units, or failure; returns freep. */
    method Morecore(nunits: nat) returns (p: nat)
      requires Valid() && freep != 0
      modifies this
      ensures Valid() && freep != 0 && live == old(live) && old(obtained) <= obtained
      ensures p == 0 ==> ring == old(ring) && size == old(size) && ptr == old(ptr) && freep == old(freep)
      ensures p == 0 ==> obtained == old(obtained) && refused == old(refused) + 1
      ensures p != 0 ==> refused == old(refused)
      ensures p != 0 ==> p == freep && brk >= old(brk) + nunits && brk >= old(brk) + 4096
      ensures p != 0 ==> exists b :: b in ring && b in size && size[b] >= nunits && size[b] >= 4096
    {
      hide ListOk, Owned, Tiled;
      var nu := if nunits < 4096 then 4096 else nunits;
      var ok, hp := Sbrk(nu);
      if !ok {
        return 0;
      }
      AddLive(ring, size, ptr, base, live, blocks, cover, hp, nu);
      size := size[hp := nu];
      live, blocks, cover := live[hp := nu], blocks[hp := nu], cover + Region(hp, nu);
      AddRemove(old(live), hp, nu);
      Free(hp + 1);
      p := freep;
    }

    /**
     malloc: a new live block with room for nbytes behind its header, or 0 when no free
     block is large enough and sbrk fails.  Other live blocks are not touched, and memory is
     asked for only when no free block is large enough.
     */
    method Malloc(nbytes: nat) returns (r: nat)
      requires Valid() && nbytes + 2 * UNIT <= 0x8000_0000
      modifies this
      ensures Valid() && old(obtained) <= obtained
      ensures r == 0 ==> live == old(live) && NoFit(ring, size, Units(nbytes)) && refused == old(refused) + 1
      ensures r != 0 ==> refused == old(refused)
      ensures obtained != old(obtained) ==> NoFit(old(ring), old(size), Units(nbytes))
      ensures r != 0 ==> r - 1 !in old(live) && live == old(live)[(r - 1) as nat := Units(nbytes)]
    {
      hide Valid, ListOk, SmallBefore, Steps, NoFit;
      var nunits := (nbytes + UNIT - 1) / UNIT + 1;
      if freep == 0 {
        EmptyRing(nunits);
        FirstTime();
        assert NoFit(old(ring), old(size), nunits);
      }
      ghost var ring0, size0, asked := ring, size, false;
      ListNow();
      var prevp := freep;
      ghost var f: nat := Start();
      ghost var a: nat := f;
      Forward(a);
      var p := ptr[prevp];
      ghost var b: nat := Next(a, |ring|);
      NextOf(b);
      SmallStart(f, nunits);
      while true
        invariant Valid() && freep != 0 && live == old(live) && old(obtained) <= obtained
        invariant a < |ring| && ring[a] == prevp && f < |ring| && ring[f] == freep
        invariant b == Next(a, |ring|) && ring[b] == p && p in size
        invariant SmallBefore(b, f, nunits) && refused == old(refused)
        invariant if asked then NoFit(ring0, size0, nunits)
                  else ring == ring0 && size == size0 && obtained == old(obtained)
        decreases LIMIT - brk, Steps(b, f, |ring|)
      {
        ListNow();
        if size[p] >= nunits {
          r := Take(prevp, p, nunits, a);
          return;
        }
        if p == freep {
          FreepAt(b, f);
          AllSmall(b, f, nunits);
          asked := true;
          p := Morecore(nunits);
          if p == 0 {
            return 0;
          }
          ListNow();
          f := Start();
          b := f;
        } else {
          SmallNext(b, f, nunits);
        }
        SmallStart(f, nunits);
        prevp := p;
        a := b;
        Forward(a);
        p := ptr[p];
        b := Next(a, |ring|);
        NextOf(b);
      }
    }
  }

  function Next(a: nat, n: nat): (b: nat)
    requires a < n
  {
    if a + 1 < n then a + 1 else 0
  }

  /** Units for nbytes: rounded up, and one for the header. */
  function Units(nbytes: nat): (n: nat)
    ensures n > 0 && (n - 1) * UNIT >= nbytes
  {
    (nbytes + UNIT - 1) / UNIT + 1
  }
}
