/**
 * IPv4 fragmentation and reassembly of packets with a 20-byte header. The header
 * checksum is a parameter, computed over the header with its checksum field zero.
 */
module IpFragment {

  type Byte = x: int | 0 <= x < 256

  const HEADER := 20
  const MAX_PACKET := 65535
  const WORD := 0x1_0000_0000_0000_0000

  datatype Header = Header(tos: nat, totalLength: nat, id: nat, df: bool, mf: bool, fragOffset: nat,
                           ttl: nat, protocol: nat, checksum: nat, src: nat, dst: nat)

  datatype Packet = Packet(header: Header, payload: seq<Byte>)

  datatype Fragment = Fragment(packet: Packet, length: nat, offset: nat, more: bool, id: nat)

  datatype Result<T> = Ok(value: T) | Err(code: int)

  type Checksum = Header -> nat

  // ---------- Fragmentation ----------

  // The room for payload, in size_t arithmetic, rounded down to eight bytes.
  function MaxPayload(mtu: nat): (r: nat)
    ensures r % 8 == 0
  {
    var room: nat := if mtu >= HEADER then mtu - HEADER else WORD + mtu - HEADER;
    room / 8 * 8
  }

  function Sealed(h: Header, sum: Checksum): Header { h.(checksum := sum(h.(checksum := 0))) }

  // The fragment that carries `chunk` bytes of the payload from `offset` on.
  function Piece(p: Packet, offset: nat, chunk: nat, sum: Checksum): Fragment
    requires offset + chunk <= |p.payload|
  {
    var more := offset + chunk < |p.payload|;
    var length := (HEADER + chunk) % 0x1_0000;
    var h := p.header.(totalLength := length, df := false, mf := more, fragOffset := offset / 8);
    Fragment(Packet(Sealed(h, sum), p.payload[offset..offset + chunk]), length, offset / 8, more, p.header.id)
  }

  function Chunk(p: Packet, max: nat, offset: nat): nat
    requires offset <= |p.payload|
  {
    if |p.payload| - offset > max then max else |p.payload| - offset
  }

  // The pieces from an offset on, as many as the fragment table still holds.
  function Pieces(p: Packet, max: nat, sum: Checksum, offset: nat, left: nat): seq<Fragment>
    requires offset <= |p.payload|
    decreases left
  {
    if offset == |p.payload| || left == 0 then [] else
    [Piece(p, offset, Chunk(p, max, offset), sum)] + Pieces(p, max, sum, offset + Chunk(p, max, offset), left - 1)
  }

  // Fragmentation into a table with the given number of slots, 64 in the source.
  function Split(p: Packet, mtu: nat, slots: nat, sum: Checksum): Result<seq<Fragment>> {
    if p.payload == [] then Ok([Fragment(p, HEADER, 0, false, p.header.id)])
    else if MaxPayload(mtu) == 0 then Err(-4)
    else Ok(Pieces(p, MaxPayload(mtu), sum, 0, slots))
  }

  // ---------- Reassembly ----------

  function Place(s: seq<Fragment>, f: Fragment): seq<Fragment> {
    if s == [] || s[|s| - 1].offset <= f.offset then s + [f] else Place(s[..|s| - 1], f) + [s[|s| - 1]]
  }

  // The order by offset in which the fragments are put before they are joined.
  function SortByOffset(s: seq<Fragment>): seq<Fragment> {
    if s == [] then [] else Place(SortByOffset(s[..|s| - 1]), s[|s| - 1])
  }

  // The bytes of one fragment that are copied: its length less the header.
  function Content(f: Fragment): seq<Byte> {
    if HEADER <= f.length <= HEADER + |f.packet.payload| then f.packet.payload[..f.length - HEADER]
    else f.packet.payload
  }

  // The joined payload of the first k fragments, unless it outgrows the buffer.
  function Join(s: seq<Fragment>, room: nat, k: nat): Result<seq<Byte>>
    requires k <= |s|
  {
    if k == 0 then Ok([]) else
    var r := Join(s, room, k - 1);
    if r.Err? then r
    else if |r.value| + |Content(s[k - 1])| > room then Err(-3)
    else Ok(r.value + Content(s[k - 1]))
  }

  function Rebuilt(h: Header, payload: seq<Byte>, sum: Checksum): Packet {
    var length := (HEADER + |payload|) % 0x1_0000;
    Packet(Sealed(h.(totalLength := length, df := false, mf := false, fragOffset := 0), sum), payload)
  }

  function Reassemble(frags: seq<Fragment>, room: nat, sum: Checksum): Result<Packet> {
    if frags == [] then Err(-2) else
    var s := SortByOffset(frags);
    SortKeeps(frags);
    var r := Join(s, room, |s|);
    if r.Err? then Err(r.code) else Ok(Rebuilt(s[0].packet.header, r.value, sum))
  }

  // ---------- Sorting ----------

  ghost predicate Ascending(s: seq<Fragment>) {
    forall i, j :: 0 <= i < j < |s| ==> s[i].offset <= s[j].offset
  }

  ghost predicate Strict(s: seq<Fragment>) {
    forall i, j :: 0 <= i < j < |s| ==> s[i].offset < s[j].offset
  }

  lemma {:induction false} PlaceCounts(s: seq<Fragment>, f: Fragment)
    ensures multiset(Place(s, f)) == multiset(s) + multiset{f}
  {
    if s != [] && s[|s| - 1].offset > f.offset {
      PlaceCounts(s[..|s| - 1], f);
      assert s == s[..|s| - 1] + [s[|s| - 1]];
    }
  }

  lemma {:induction false} PlaceAscends(s: seq<Fragment>, f: Fragment, bound: nat)
    requires Ascending(s) && f.offset <= bound && forall i :: 0 <= i < |s| ==> s[i].offset <= bound
    ensures Ascending(Place(s, f)) && forall i :: 0 <= i < |Place(s, f)| ==> Place(s, f)[i].offset <= bound
  {
    if s != [] && s[|s| - 1].offset > f.offset {
      PlaceAscends(s[..|s| - 1], f, s[|s| - 1].offset);
    }
  }

  lemma {:induction false} PlaceAnywhere(s: seq<Fragment>, f: Fragment)
    requires Ascending(s)
    ensures Ascending(Place(s, f))
  {
    PlaceAscends(s, f, if s == [] || s[|s| - 1].offset < f.offset then f.offset else s[|s| - 1].offset);
  }

  lemma {:induction false} SortKeeps(s: seq<Fragment>)
    ensures Ascending(SortByOffset(s)) && multiset(SortByOffset(s)) == multiset(s) && |SortByOffset(s)| == |s|
  {
    if s != [] {
      SortKeeps(s[..|s| - 1]);
      PlaceCounts(SortByOffset(s[..|s| - 1]), s[|s| - 1]);
      PlaceAnywhere(SortByOffset(s[..|s| - 1]), s[|s| - 1]);
      assert s == s[..|s| - 1] + [s[|s| - 1]];
    }
    assert |multiset(SortByOffset(s))| == |SortByOffset(s)| && |multiset(s)| == |s|;
  }

  // There is one way to sort fragments with distinct offsets.
  lemma {:induction false} SortedUnique(s: seq<Fragment>, t: seq<Fragment>)
    requires Ascending(s) && Strict(t) && multiset(s) == multiset(t)
    ensures s == t
  {
    assert |multiset(s)| == |s| && |multiset(t)| == |t|;
    if s != [] {
      SameHead(s, t);
      assert s == [s[0]] + s[1..] && t == [t[0]] + t[1..];
      assert multiset(s[1..]) == multiset(s) - multiset{s[0]};
      assert multiset(t[1..]) == multiset(t) - multiset{t[0]};
      SortedUnique(s[1..], t[1..]);
    }
  }

  lemma {:induction false} SameHead(s: seq<Fragment>, t: seq<Fragment>)
    requires Ascending(s) && Strict(t) && multiset(s) == multiset(t) && s != [] && t != []
    ensures s[0] == t[0]
  {
    assert s[0] in multiset(t) && t[0] in multiset(s);
    var k :| 0 <= k < |t| && t[k] == s[0];
    var m :| 0 <= m < |s| && s[m] == t[0];
    assert s[0].offset <= s[m].offset && t[0].offset <= t[k].offset;
  }

  // ---------- What the pieces are ----------

  predicate Fits(p: Packet) { HEADER + |p.payload| <= MAX_PACKET }

  // The pieces cover the payload from an offset up to an end, in order and
  // without gaps; each knows its place, and says whether payload follows it.
  ghost predicate Tiles(p: Packet, frags: seq<Fragment>, from: nat, end: nat) {
    if frags == [] then from == end else
    var f := frags[0];
    && from == 8 * f.offset && from + |f.packet.payload| <= |p.payload| && f.packet.payload != []
    && f.packet.payload == p.payload[from..from + |f.packet.payload|]
    && f.length == f.packet.header.totalLength == HEADER + |f.packet.payload|
    && f.packet.header.fragOffset == f.offset && f.packet.header.mf == f.more && f.id == p.header.id
    && f.more == (from + |f.packet.payload| < |p.payload|)
    && Tiles(p, frags[1..], from + |f.packet.payload|, end)
  }

  // Where the pieces end: at the payload's end or when the table is full.
  function End(p: Packet, max: nat, offset: nat, left: nat): nat
    requires offset <= |p.payload|
    decreases left
  {
    if offset == |p.payload| || left == 0 then offset else End(p, max, offset + Chunk(p, max, offset), left - 1)
  }

  lemma {:induction false} PieceIsRight(p: Packet, max: nat, sum: Checksum, offset: nat)
    requires Fits(p) && max > 0 && offset < |p.payload| && offset % 8 == 0
    ensures var f := Piece(p, offset, Chunk(p, max, offset), sum);
            && offset == 8 * f.offset && |f.packet.payload| == Chunk(p, max, offset) > 0
            && f.length == f.packet.header.totalLength == HEADER + |f.packet.payload|
  {
  }

  lemma {:induction false} PiecesTile(p: Packet, max: nat, sum: Checksum, offset: nat, left: nat)
    requires Fits(p) && max > 0 && max % 8 == 0 && offset <= |p.payload|
    requires offset % 8 == 0 || offset == |p.payload|
    ensures Tiles(p, Pieces(p, max, sum, offset, left), offset, End(p, max, offset, left))
    decreases left
  {
    if offset < |p.payload| && left > 0 {
      var next := offset + Chunk(p, max, offset);
      PieceIsRight(p, max, sum, offset);
      PiecesTile(p, max, sum, next, left - 1);
      var frags := Pieces(p, max, sum, offset, left);
      assert frags[1..] == Pieces(p, max, sum, next, left - 1);
    }
  }

  lemma {:induction false} PiecesBounded(p: Packet, max: nat, sum: Checksum, offset: nat, left: nat)
    requires offset <= |p.payload|
    ensures |Pieces(p, max, sum, offset, left)| <= left
    ensures forall f :: f in Pieces(p, max, sum, offset, left) ==> |f.packet.payload| <= max
    decreases left
  {
    if offset < |p.payload| && left > 0 {
      PiecesBounded(p, max, sum, offset + Chunk(p, max, offset), left - 1);
    }
  }

  // The table suffices exactly when it has room for the payload.
  lemma {:induction false} EndReached(p: Packet, max: nat, offset: nat, left: nat)
    requires offset <= |p.payload|
    ensures End(p, max, offset, left) == |p.payload| <==> |p.payload| - offset <= left * max
    decreases left
  {
    if offset < |p.payload| && left > 0 {
      EndReached(p, max, offset + Chunk(p, max, offset), left - 1);
      assert left * max == (left - 1) * max + max;
      assert (left - 1) * max >= 0;
    }
  }

  // Only the last piece of a whole packet has no successor.
  lemma {:induction false} OnlyLastEnds(p: Packet, frags: seq<Fragment>, from: nat, k: nat)
    requires Tiles(p, frags, from, |p.payload|) && k < |frags|
    ensures frags[k].more <==> k < |frags| - 1
  {
    if k > 0 {
      OnlyLastEnds(p, frags[1..], from + |frags[0].packet.payload|, k - 1);
    } else if |frags| > 1 {
      assert frags[1..][0] == frags[1];
    }
  }

  lemma {:induction false} TilesAscend(p: Packet, frags: seq<Fragment>, from: nat, end: nat)
    requires Tiles(p, frags, from, end)
    ensures Strict(frags) && forall k :: 0 <= k < |frags| ==> 8 * frags[k].offset >= from
  {
    if frags != [] {
      var rest := frags[1..];
      TilesAscend(p, rest, from + |frags[0].packet.payload|, end);
      assert forall k :: 1 <= k < |frags| ==> frags[k] == rest[k - 1];
    }
  }

  // Joining pieces that tile the payload gives it back.
  lemma {:induction false} JoinTiles(p: Packet, frags: seq<Fragment>, end: nat, room: nat)
    requires Tiles(p, frags, 0, end) && |p.payload| <= room
    ensures end <= |p.payload| && Join(frags, room, |frags|) == Ok(p.payload[..end])
  {
    var k, from: nat := 0, 0;
    assert frags[0..] == frags;
    while k < |frags|
      invariant 0 <= k <= |frags| && Joining(p, frags, k, from, end, room)
    {
      JoinNext(p, frags, k, from, end, room);
      k, from := k + 1, from + |frags[k].packet.payload|;
    }
  }

  // The first k fragments are joined and the others tile the rest.
  ghost predicate Joining(p: Packet, frags: seq<Fragment>, k: nat, from: nat, end: nat, room: nat)
    requires k <= |frags|
  {
    from <= |p.payload| && Tiles(p, frags[k..], from, end) && Join(frags, room, k) == Ok(p.payload[..from])
  }

  lemma {:induction false} JoinNext(p: Packet, frags: seq<Fragment>, k: nat, from: nat, end: nat, room: nat)
    requires k < |frags| && |p.payload| <= room && Joining(p, frags, k, from, end, room)
    ensures Joining(p, frags, k + 1, from + |frags[k].packet.payload|, end, room)
  {
    var f := frags[k];
    assert frags[k..][0] == f && frags[k..][1..] == frags[k + 1..];
    assert Content(f) == f.packet.payload;
    assert p.payload[..from] + f.packet.payload == p.payload[..from + |f.packet.payload|];
  }

  // ---------- Fragmentation and back ----------

  // Fragmentation is refused exactly when the MTU leaves room for the header but
  // not for eight bytes.
  lemma {:induction false} SplitRefused(p: Packet, mtu: nat, slots: nat, sum: Checksum)
    requires p.payload != []
    ensures Split(p, mtu, slots, sum).Err? <==> HEADER <= mtu < HEADER + 8
    ensures Split(p, mtu, slots, sum).Err? ==> Split(p, mtu, slots, sum) == Err(-4)
  {
  }

  // The fragments tile the payload, and reach its end exactly when the table holds them.
  lemma {:induction false} SplitTiles(p: Packet, mtu: nat, slots: nat, sum: Checksum)
    requires Fits(p) && p.payload != [] && Split(p, mtu, slots, sum).Ok?
    ensures var frags, max := Split(p, mtu, slots, sum).value, MaxPayload(mtu);
            && |frags| <= slots && (slots > 0 ==> frags != []) && Strict(frags)
            && Tiles(p, frags, 0, End(p, max, 0, slots))
            && (End(p, max, 0, slots) == |p.payload| <==> |p.payload| <= slots * max)
  {
    var max := MaxPayload(mtu);
    PiecesTile(p, max, sum, 0, slots);
    PiecesBounded(p, max, sum, 0, slots);
    EndReached(p, max, 0, slots);
    TilesAscend(p, Pieces(p, max, sum, 0, slots), 0, End(p, max, 0, slots));
  }

  // MF is clear on the last fragment of a whole packet and set on all others.
  lemma {:induction false} MoreFragments(p: Packet, mtu: nat, slots: nat, sum: Checksum, k: nat)
    requires Fits(p) && p.payload != [] && Split(p, mtu, slots, sum).Ok? && |p.payload| <= slots * MaxPayload(mtu)
    requires k < |Split(p, mtu, slots, sum).value|
    ensures var frags := Split(p, mtu, slots, sum).value;
            frags[k].packet.header.mf == frags[k].more == (k < |frags| - 1)
  {
    SplitTiles(p, mtu, slots, sum);
    OnlyLastEnds(p, Split(p, mtu, slots, sum).value, 0, k);
    TileFlags(p, Split(p, mtu, slots, sum).value, 0, |p.payload|, k);
  }

  lemma {:induction false} TileFlags(p: Packet, frags: seq<Fragment>, from: nat, end: nat, k: nat)
    requires Tiles(p, frags, from, end) && k < |frags|
    ensures frags[k].packet.header.mf == frags[k].more && frags[k].length == HEADER + |frags[k].packet.payload|
  {
    if k > 0 {
      TileFlags(p, frags[1..], from + |frags[0].packet.payload|, end, k - 1);
    }
  }

  // Every fragment fits the MTU exactly when the MTU is at least 28: below 20 the
  // room for payload wraps around and one oversized fragment carries everything.
  lemma {:induction false} FragmentsFit(p: Packet, mtu: nat, slots: nat, sum: Checksum)
    requires Fits(p) && p.payload != [] && slots > 0 && Split(p, mtu, slots, sum).Ok?
    ensures (forall f :: f in Split(p, mtu, slots, sum).value ==> f.length <= mtu) <==> mtu >= HEADER + 8
  {
    var frags, max := Split(p, mtu, slots, sum).value, MaxPayload(mtu);
    SplitTiles(p, mtu, slots, sum);
    PiecesBounded(p, max, sum, 0, slots);
    if mtu >= HEADER + 8 {
      forall f | f in frags ensures f.length <= mtu {
        var k :| 0 <= k < |frags| && frags[k] == f;
        TileFlags(p, frags, 0, End(p, max, 0, slots), k);
      }
    } else {
      PieceIsRight(p, max, sum, 0);
      assert frags[0] == Piece(p, 0, Chunk(p, max, 0), sum) && frags[0] in frags;
    }
  }

  // Fragments in any order sort back and join to what they cover.
  lemma {:induction false} ReassembleTiles(p: Packet, frags: seq<Fragment>, perm: seq<Fragment>, end: nat, room: nat,
                                           sum: Checksum)
    requires frags != [] && Strict(frags) && Tiles(p, frags, 0, end) && multiset(perm) == multiset(frags)
    requires |p.payload| <= room
    ensures end <= |p.payload|
    ensures Reassemble(perm, room, sum) == Ok(Rebuilt(frags[0].packet.header, p.payload[..end], sum))
  {
    assert |multiset(perm)| == |perm| && |multiset(frags)| == |frags|;
    SortKeeps(perm);
    SortedUnique(SortByOffset(perm), frags);
    JoinTiles(p, frags, end, room);
  }

  // The header of a fragment differs from the packet's only in fields that
  // reassembly sets.
  lemma {:induction false} RebuiltHeader(p: Packet, offset: nat, chunk: nat, payload: seq<Byte>, sum: Checksum)
    requires offset + chunk <= |p.payload|
    ensures Rebuilt(Piece(p, offset, chunk, sum).packet.header, payload, sum) == Rebuilt(p.header, payload, sum)
  {
  }

  // Round trip: the fragments of a packet, in any order, reassemble to the packet
  // with its flags cleared and its length and checksum set, exactly when the
  // fragment table was large enough for the payload.
  lemma {:induction false} RoundTrip(p: Packet, mtu: nat, slots: nat, sum: Checksum, perm: seq<Fragment>, room: nat)
    requires Fits(p) && slots > 0 && Split(p, mtu, slots, sum).Ok?
    requires multiset(perm) == multiset(Split(p, mtu, slots, sum).value) && |p.payload| <= room
    ensures Reassemble(perm, room, sum).Ok?
    ensures Reassemble(perm, room, sum) == Ok(Rebuilt(p.header, p.payload, sum)) <==>
            p.payload == [] || |p.payload| <= slots * MaxPayload(mtu)
  {
    var frags := Split(p, mtu, slots, sum).value;
    if p.payload == [] {
      RoundTripEmpty(p, perm, room, sum);
    } else {
      var max := MaxPayload(mtu);
      SplitTiles(p, mtu, slots, sum);
      var end := End(p, max, 0, slots);
      ReassembleTiles(p, frags, perm, end, room, sum);
      RebuiltHeader(p, 0, Chunk(p, max, 0), p.payload[..end], sum);
      assert end == |p.payload| ==> p.payload[..end] == p.payload;
      assert end < |p.payload| ==> |p.payload[..end]| < |p.payload|;
    }
  }

  lemma {:induction false} RoundTripEmpty(p: Packet, perm: seq<Fragment>, room: nat, sum: Checksum)
    requires p.payload == [] && multiset(perm) == multiset([Fragment(p, HEADER, 0, false, p.header.id)])
    ensures Reassemble(perm, room, sum) == Ok(Rebuilt(p.header, [], sum))
  {
    var f := Fragment(p, HEADER, 0, false, p.header.id);
    OneFragment(perm, f);
    SortOne(f);
    assert Content(f) == [];
    var none: seq<Byte> := [];
    assert none + none == none;
    assert Join([f], room, 1) == Ok(none) by { assert Join([f], room, 0) == Ok(none); }
  }

  lemma {:induction false} OneFragment(perm: seq<Fragment>, f: Fragment)
    requires multiset(perm) == multiset([f])
    ensures perm == [f]
  {
    assert |perm| == |multiset(perm)| == 1;
    assert perm[0] in multiset(perm);
  }

  lemma {:induction false} SortOne(f: Fragment)
    ensures SortByOffset([f]) == [f]
  {
    assert [f][..0] == [];
    assert SortByOffset([]) == [];
  }

  // A packet that was well formed and free of flags comes back unchanged.
  lemma {:induction false} RoundTripIdentity(p: Packet, mtu: nat, slots: nat, sum: Checksum, perm: seq<Fragment>,
                                             room: nat)
    requires Fits(p) && slots > 0 && Split(p, mtu, slots, sum).Ok?
    requires multiset(perm) == multiset(Split(p, mtu, slots, sum).value)
    requires |p.payload| <= room && |p.payload| <= slots * MaxPayload(mtu)
    requires p.header.totalLength == HEADER + |p.payload| && p.header == Sealed(p.header, sum)
    requires !p.header.df && !p.header.mf && p.header.fragOffset == 0
    ensures Reassemble(perm, room, sum) == Ok(p)
  {
    RoundTrip(p, mtu, slots, sum, perm, room);
    RebuiltSame(p, sum);
  }

  lemma {:induction false} RebuiltSame(p: Packet, sum: Checksum)
    requires Fits(p) && p.header.totalLength == HEADER + |p.payload| && p.header == Sealed(p.header, sum)
    requires !p.header.df && !p.header.mf && p.header.fragOffset == 0
    ensures Rebuilt(p.header, p.payload, sum) == p
  {
    var h := p.header;
    assert h.(totalLength := (HEADER + |p.payload|) % 0x1_0000, df := false, mf := false, fragOffset := 0) == h;
  }

  // ---------- The buffer ----------

  function TotalContent(s: seq<Fragment>, k: nat): nat
    requires k <= |s|
  {
    if k == 0 then 0 else TotalContent(s, k - 1) + |Content(s[k - 1])|
  }

  lemma {:induction false} JoinFits(s: seq<Fragment>, room: nat, k: nat)
    requires k <= |s|
    ensures Join(s, room, k).Ok? <==> TotalContent(s, k) <= room
    ensures Join(s, room, k).Ok? ==> |Join(s, room, k).value| == TotalContent(s, k)
    ensures Join(s, room, k).Err? ==> Join(s, room, k).code == -3
  {
    if k > 0 {
      JoinFits(s, room, k - 1);
    }
  }

  // The number of leading fragments that are copied before the buffer test stops.
  function CopiedCount(s: seq<Fragment>, room: nat, k: nat): (n: nat)
    requires k <= |s|
    ensures n <= k
  {
    if k == 0 then 0 else
    if Join(s, room, k).Ok? then k else CopiedCount(s, room, k - 1)
  }

  // How far into the buffer the bytes written reach: the contents go behind the
  // header, and the header is written at the end of an accepted list.
  function Reach(frags: seq<Fragment>, room: nat): nat {
    if frags == [] then 0 else
    var s := SortByOffset(frags);
    var n := CopiedCount(s, room, |s|);
    if n == |s| || TotalContent(s, n) > 0 then HEADER + TotalContent(s, n) else 0
  }

  // The copied fragments are the most that fit.
  lemma {:induction false} CopiedFits(s: seq<Fragment>, room: nat, k: nat, n: nat)
    requires k <= |s| && n == CopiedCount(s, room, k)
    ensures TotalContent(s, n) <= room && (n < k ==> TotalContent(s, n + 1) > room)
  {
    JoinFits(s, room, k);
    if n < k {
      CopiedFits(s, room, k - 1, n);
    }
  }

  // The buffer test looks at the contents only, while they are written behind the
  // header: with n the most fragments whose contents fit the buffer, the list is
  // accepted exactly when n is all of them, and something is written past the end
  // exactly when the contents of those n leave less than the 20 bytes of the header.
  lemma {:induction false} ReassemblyOverruns(frags: seq<Fragment>, room: nat, sum: Checksum) returns (n: nat)
    requires frags != []
    ensures var s := SortByOffset(frags);
            && n <= |s| == |frags| && TotalContent(s, n) <= room && (n < |s| ==> TotalContent(s, n + 1) > room)
            && (Reassemble(frags, room, sum).Ok? <==> n == |s|)
            && (Reassemble(frags, room, sum).Err? ==> Reassemble(frags, room, sum).code == -3)
            && (Reach(frags, room) > room <==>
                  (n == |s| || TotalContent(s, n) > 0) && TotalContent(s, n) > room - HEADER)
  {
    var s := SortByOffset(frags);
    SortKeeps(frags);
    n := CopiedCount(s, room, |s|);
    CopiedFits(s, room, |s|, n);
    JoinFits(s, room, |s|);
    JoinFits(s, room, n);
  }

  // Two fragments of 100 bytes and a buffer of 100: the list is refused after 20
  // bytes have been written past the end.
  lemma {:induction false} RefusedAfterOverrun(h: Header, sum: Checksum) returns (frags: seq<Fragment>)
    ensures |frags| == 2 && Reassemble(frags, 100, sum) == Err(-3) && Reach(frags, 100) == 120
  {
    var bytes: seq<Byte> := seq(100, _ => 0);
    var a, b := Fragment(Packet(h, bytes), 120, 0, true, 1), Fragment(Packet(h, bytes), 120, 13, false, 1);
    frags := [a, b];
    assert [a][..0] == [] && frags[..1] == [a];
    assert SortByOffset([]) == [] && SortByOffset([a]) == [a];
    assert SortByOffset(frags) == frags;
    assert |Content(a)| == 100 && |Content(b)| == 100;
    assert TotalContent(frags, 0) == 0 && TotalContent(frags, 1) == 100 && TotalContent(frags, 2) == 200;
    var n := ReassemblyOverruns(frags, 100, sum);
    CopiedFits(frags, 100, 2, CopiedCount(frags, 100, 2));
  }

  // ---------- The code ----------

  lemma {:induction false} PiecesNext(p: Packet, max: nat, sum: Checksum, offset: nat, left: nat, chunk: nat,
                                      frags: seq<Fragment>, rest: seq<Fragment>)
    requires offset < |p.payload| && left > 0 && chunk == Chunk(p, max, offset)
    requires rest == Pieces(p, max, sum, offset, left)
    ensures rest != [] && rest[1..] == Pieces(p, max, sum, offset + chunk, left - 1)
    ensures rest[0] == Piece(p, offset, chunk, sum) && frags + rest == (frags + [rest[0]]) + rest[1..]
  {
  }

  method FragmentPacket(p: Packet, mtu: nat, slots: nat, sum: Checksum) returns (r: Result<seq<Fragment>>)
    ensures r == Split(p, mtu, slots, sum)
  {
    if |p.payload| == 0 {
      return Ok([Fragment(p, HEADER, 0, false, p.header.id)]);
    }
    var max := MaxPayload(mtu);
    if max == 0 {
      return Err(-4);
    }
    var frags := CutPayload(p, max, slots, sum);
    r := Ok(frags);
  }

  // The loop over the payload.
  method CutPayload(p: Packet, max: nat, slots: nat, sum: Checksum) returns (frags: seq<Fragment>)
    requires max > 0
    ensures frags == Pieces(p, max, sum, 0, slots)
  {
    ghost var all, rest := Pieces(p, max, sum, 0, slots), Pieces(p, max, sum, 0, slots);
    var offset := 0;
    frags := [];
    while offset < |p.payload| && |frags| < slots
      invariant offset <= |p.payload| && |frags| <= slots
      invariant rest == Pieces(p, max, sum, offset, slots - |frags|) && frags + rest == all
      decreases |p.payload| - offset
    {
      var chunk := |p.payload| - offset;
      if chunk > max {
        chunk := max;
      }
      PiecesNext(p, max, sum, offset, slots - |frags|, chunk, frags, rest);
      frags := frags + [Piece(p, offset, chunk, sum)];
      offset := offset + chunk;
      rest := rest[1..];
    }
    assert rest == [] && frags + [] == frags;
  }

  // Also returns how far into the buffer it wrote.
  method ReassemblePacket(frags: seq<Fragment>, room: nat, sum: Checksum) returns (r: Result<Packet>, reach: nat)
    ensures r == Reassemble(frags, room, sum) && reach == Reach(frags, room)
  {
    reach := 0;
    if |frags| == 0 {
      return Err(-2), reach;
    }
    var s := SortByOffset(frags);
    SortKeeps(frags);
    var payload, i := [], 0;
    while i < |s|
      invariant 0 <= i <= |s| && Join(s, room, i) == Ok(payload) && |payload| == TotalContent(s, i)
      invariant reach == if |payload| > 0 then HEADER + |payload| else 0
    {
      var content := Content(s[i]);
      if |payload| + |content| > room {
        CopiedUntil(s, room, i, |s|);
        return Err(-3), reach;
      }
      payload := payload + content;
      reach := if |content| > 0 then HEADER + |payload| else reach;
      i := i + 1;
    }
    reach := HEADER + |payload|;
    r := Ok(Rebuilt(s[0].packet.header, payload, sum));
  }

  lemma {:induction false} CopiedUntil(s: seq<Fragment>, room: nat, i: nat, k: nat)
    requires i < k <= |s| && Join(s, room, i).Ok? && Join(s, room, i + 1).Err?
    ensures CopiedCount(s, room, k) == i && Join(s, room, k) == Join(s, room, i + 1)
  {
    JoinFails(s, room, i + 1, k);
    if i + 1 < k {
      CopiedUntil(s, room, i, k - 1);
    } else {
      assert CopiedCount(s, room, i) == i;
    }
  }

  lemma {:induction false} JoinFails(s: seq<Fragment>, room: nat, i: nat, k: nat)
    requires i <= k <= |s| && Join(s, room, i).Err?
    ensures Join(s, room, k) == Join(s, room, i)
  {
    if i < k {
      JoinFails(s, room, i, k - 1);
    }
  }
}
