/** The on-disk block store (libraries/chain/block_database.cpp) and its repair after a gap. */
module BlockFile {
  import opened Arithmetic
  import opened Wrappers

  type Byte = b: int | 0 <= b < 256

  /** An id as its 20 bytes; the first four hold the block number, high byte first. */
  type RawId = s: seq<Byte> | |s| == 20 witness seq(20, _ => 0)

  const ZERO_ID: RawId := seq(20, _ => 0)

  function NumFromId(id: RawId): nat {
    var a: int, b: int, c: int, d: int := id[0], id[1], id[2], id[3];
    0x100_0000 * a + 0x1_0000 * b + 0x100 * c + d
  }

  /** A number as four bytes, high byte first. */
  function Big(n: nat, width: nat): (r: seq<Byte>)
    ensures |r| == width
  {
    if width == 0 then [] else Big(n / 256, width - 1) + [n % 256]
  }

  /** An id that starts with a block number, high byte first, gives that number back, and only such an id does. */
  lemma {:induction false} NumberRoundTrip(n: nat, id: RawId)
    requires n < 0x1_0000_0000
    ensures id[..4] == Big(n, 4) <==> NumFromId(id) == n
  {
    var a, b, c := n / 256, n / 256 / 256, n / 256 / 256 / 256;
    assert Big(c / 256, 0) == [] && Big(c, 1) == [] + [c % 256] == [c];
    assert Big(b, 2) == [c, b % 256] && Big(a, 3) == [c, b % 256, a % 256];
    assert Big(n, 4) == [c, b % 256, a % 256, n % 256];
    assert id[..4] == [id[0], id[1], id[2], id[3]];
    if NumFromId(id) == n {
      var x: int, y: int, z: int, w: int := id[0], id[1], id[2], id[3];
      assert n == 256 * (0x1_0000 * x + 0x100 * y + z) + w;
      assert a == 256 * (0x100 * x + y) + z;
      assert b == 256 * x + y;
      assert c == x;
    }
  }

  /** The bytes of an index entry: position, size, id. */
  datatype Entry = Entry(pos: nat, size: nat, id: RawId)

  const STRIDE := 32

  /** Little-endian numbers, as the machine lays them out. */
  function Little(n: nat, width: nat): (r: seq<Byte>)
    ensures |r| == width
  {
    if width == 0 then [] else [n % 256] + Little(n / 256, width - 1)
  }

  function FromLittle(bytes: seq<Byte>): nat {
    if bytes == [] then 0 else bytes[0] + 256 * FromLittle(bytes[1..])
  }

  function Capacity(width: nat): (r: nat)
    ensures r > 0
  {
    if width == 0 then 1 else 256 * Capacity(width - 1)
  }

  lemma {:induction false} LittleRoundTrip(n: nat, width: nat)
    requires n < Capacity(width)
    ensures FromLittle(Little(n, width)) == n
  {
    if width > 0 {
      LittleRoundTrip(n / 256, width - 1);
      assert Little(n, width)[1..] == Little(n / 256, width - 1);
    }
  }

  function EncodeEntry(e: Entry): (r: seq<Byte>)
    ensures |r| == STRIDE
  {
    Little(e.pos, 8) + Little(e.size, 4) + e.id
  }

  function DecodeEntry(bytes: seq<Byte>): Entry
    requires |bytes| == STRIDE
  {
    Entry(FromLittle(bytes[..8]), FromLittle(bytes[8..12]), bytes[12..])
  }

  lemma {:induction false} EntryRoundTrip(e: Entry)
    requires e.pos < Capacity(8) && e.size < Capacity(4)
    ensures DecodeEntry(EncodeEntry(e)) == e
  {
    LittleRoundTrip(e.pos, 8);
    LittleRoundTrip(e.size, 4);
    var bytes := EncodeEntry(e);
    assert bytes[..8] == Little(e.pos, 8);
    assert bytes[8..12] == Little(e.size, 4);
    assert bytes[12..] == e.id;
  }

  /** Byte i of a number on the disk is the one of weight 256 to the power of i. */
  lemma {:induction false} LittleByte(n: nat, width: nat, i: nat)
    requires i < width
    ensures Little(n, width)[i] == n / Capacity(i) % 256
  {
    if i > 0 {
      LittleByte(n / 256, width - 1, i - 1);
      DivideTwice(n, Capacity(i - 1));
    }
  }

  lemma {:induction false} DivideTwice(n: nat, d: nat)
    requires d > 0
    ensures n / 256 / d == n / (256 * d)
  {
    var m := n / 256;
    var q := m / d;
    assert q * d <= m && m < q * d + d;
    assert q * (256 * d) == 256 * (q * d);
    DivUnique(n, q, 256 * d);
  }

  /** The layout of an entry: eight bytes of position, four of size, and the id. */
  lemma {:induction false} EntryLayout(e: Entry, i: nat)
    requires i < STRIDE
    ensures EncodeEntry(e)[i] == if i < 8 then e.pos / Capacity(i) % 256
                                 else if i < 12 then e.size / Capacity(i - 8) % 256
                                 else e.id[i - 12]
  {
    if i < 8 {
      LittleByte(e.pos, 8, i);
    } else if i < 12 {
      LittleByte(e.size, 4, i - 8);
    }
  }

  function Zeros(n: nat): (r: seq<Byte>)
    ensures |r| == n
  {
    seq(n, _ => 0)
  }

  lemma {:induction false} ZerosAreZero(n: nat)
    ensures FromLittle(Zeros(n)) == 0
  {
    if n > 0 {
      ZerosAreZero(n - 1);
      assert Zeros(n)[1..] == Zeros(n - 1);
    }
  }

  lemma {:induction false} ZeroEntry()
    ensures DecodeEntry(Zeros(STRIDE)) == Entry(0, 0, ZERO_ID)
  {
    ZerosAreZero(8);
    ZerosAreZero(4);
    assert Zeros(STRIDE)[..8] == Zeros(8);
    assert Zeros(STRIDE)[8..12] == Zeros(4);
    assert Zeros(STRIDE)[12..] == ZERO_ID;
  }

  /** Seek and write; a gap beyond the end of the file reads as zeros. */
  function WriteAt(file: seq<Byte>, pos: nat, data: seq<Byte>): seq<Byte> {
    var padded := if pos > |file| then file + Zeros(pos - |file|) else file;
    padded[..pos] + data + if pos + |data| < |padded| then padded[pos + |data|..] else []
  }

  predicate HasSlot(index: seq<Byte>, k: nat) {
    STRIDE * (k + 1) <= |index|
  }

  function SlotBytes(index: seq<Byte>, k: nat): (r: seq<Byte>)
    requires HasSlot(index, k)
    ensures |r| == STRIDE
  {
    index[STRIDE * k..STRIDE * (k + 1)]
  }

  function Slot(index: seq<Byte>, k: nat): Entry
    requires HasSlot(index, k)
  {
    DecodeEntry(SlotBytes(index, k))
  }

  /** Writing slot k leaves the other slots, and fills the ones skipped with empty entries. */
  lemma {:induction false} WriteSlot(index: seq<Byte>, k: nat, e: Entry, j: nat)
    requires |index| % STRIDE == 0 && e.pos < Capacity(8) && e.size < Capacity(4)
    ensures var index' := WriteAt(index, STRIDE * k, EncodeEntry(e));
            && |index'| % STRIDE == 0
            && (HasSlot(index', j) <==> HasSlot(index, j) || j <= k)
            && (HasSlot(index', j) ==>
                Slot(index', j)
                  == if j == k then e else if HasSlot(index, j) then Slot(index, j) else Entry(0, 0, ZERO_ID))
  {
    var index' := WriteAt(index, STRIDE * k, EncodeEntry(e));
    EntryRoundTrip(e);
    ZeroEntry();
    if HasSlot(index', j) {
      if j == k {
        assert SlotBytes(index', j) == EncodeEntry(e);
      } else if HasSlot(index, j) {
        var from := STRIDE * j;
        assert forall p | from <= p < from + STRIDE :: index'[p] == index[p];
        assert SlotBytes(index', j) == SlotBytes(index, j);
      } else {
        assert SlotBytes(index', j) == Zeros(STRIDE);
      }
    }
  }

  /** Packing, unpacking and hashing, which live outside the store. */
  datatype Codec<!B> = Codec(pack: B -> seq<Byte>, unpack: seq<Byte> -> Option<B>, id: B -> RawId)

  /** Packed blocks are never empty, fit the size field, and unpack to themselves. */
  ghost predicate Faithful<B(!new)>(c: Codec<B>) {
    && c.unpack([]) == None
    && forall b :: 0 < |c.pack(b)| < Capacity(4) && c.unpack(c.pack(b)) == Some(b)
  }

  /** What reading slot k gives, however the files came about; errors read as `None`. */
  function Fetch<B>(c: Codec<B>, index: seq<Byte>, blob: seq<Byte>, k: nat): Option<B> {
    if !HasSlot(index, k) then None else
      var e := Slot(index, k);
      if e.pos + e.size > |blob| then None else
        match c.unpack(blob[e.pos..e.pos + e.size])
        case None => None
        case Some(b) => if c.id(b) == e.id then Some(b) else None
  }

  /** A slot that the repair accepts: not empty, and it reads back as the block it names. */
  predicate Sound<B>(c: Codec<B>, index: seq<Byte>, blob: seq<Byte>, k: nat) {
    HasSlot(index, k) && Slot(index, k).size > 0 && Fetch(c, index, blob, k).Some?
  }

  /** The id and the block that a slot was last given. */
  type Contents<B> = map<nat, (RawId, B)>

  ghost predicate SlotHolds<B>(c: Codec<B>, index: seq<Byte>, blob: seq<Byte>, contents: Contents<B>, k: nat) {
    if k in contents then
      var (id, b) := contents[k];
      && NumFromId(id) == k && HasSlot(index, k)
      && var e := Slot(index, k);
         && e.id == id && e.size == |c.pack(b)| && e.pos + e.size <= |blob|
         && blob[e.pos..e.pos + e.size] == c.pack(b)
    else
      HasSlot(index, k) ==> Slot(index, k).size == 0 && Slot(index, k).pos <= |blob|
  }

  ghost predicate Holds<B>(c: Codec<B>, index: seq<Byte>, blob: seq<Byte>, contents: Contents<B>) {
    forall k: nat {:trigger SlotHolds(c, index, blob, contents, k)} :: SlotHolds(c, index, blob, contents, k)
  }

  /** The entry was stored under the id of its own block. */
  predicate Genuine<B>(c: Codec<B>, contents: Contents<B>, k: nat) {
    k in contents && c.id(contents[k].1) == contents[k].0
  }

  /** Files that hold `contents` read back as `contents` says. */
  lemma {:induction false} HoldsFetch<B(!new)>(c: Codec<B>, index: seq<Byte>, blob: seq<Byte>, contents: Contents<B>,
                                               k: nat)
    requires Faithful(c) && Holds(c, index, blob, contents)
    ensures Fetch(c, index, blob, k) == if Genuine(c, contents, k) then Some(contents[k].1) else None
    ensures Sound(c, index, blob, k) <==> Genuine(c, contents, k)
  {
    assert SlotHolds(c, index, blob, contents, k);
    if k in contents {
      assert c.unpack(c.pack(contents[k].1)) == Some(contents[k].1);
    } else if HasSlot(index, k) {
      var e := Slot(index, k);
      assert blob[e.pos..e.pos + e.size] == [];
    }
  }

  lemma {:induction false} StoreHoldsAt<B(!new)>(c: Codec<B>, index: seq<Byte>, blob: seq<Byte>, contents: Contents<B>,
                                                 id: RawId, b: B, k: nat)
    requires Faithful(c) && SlotHolds(c, index, blob, contents, k) && |index| % STRIDE == 0 && |blob| < Capacity(8)
    ensures var e := Entry(|blob|, |c.pack(b)|, id);
            var index' := WriteAt(index, STRIDE * NumFromId(id), EncodeEntry(e));
            |index'| % STRIDE == 0 && SlotHolds(c, index', blob + c.pack(b), contents[NumFromId(id) := (id, b)], k)
  {
    var n := NumFromId(id);
    var e := Entry(|blob|, |c.pack(b)|, id);
    var blob' := blob + c.pack(b);
    assert 0 < |c.pack(b)| < Capacity(4);
    WriteSlot(index, n, e, k);
    if k == n {
      assert blob'[e.pos..e.pos + e.size] == c.pack(b);
    } else if k in contents {
      var o := Slot(index, k);
      assert blob'[o.pos..o.pos + o.size] == blob[o.pos..o.pos + o.size];
    }
  }

  lemma {:induction false} StoreHolds<B(!new)>(c: Codec<B>, index: seq<Byte>, blob: seq<Byte>, contents: Contents<B>,
                                               id: RawId, b: B)
    requires Faithful(c) && Holds(c, index, blob, contents) && |index| % STRIDE == 0 && |blob| < Capacity(8)
    ensures var e := Entry(|blob|, |c.pack(b)|, id);
            var index' := WriteAt(index, STRIDE * NumFromId(id), EncodeEntry(e));
            |index'| % STRIDE == 0 && Holds(c, index', blob + c.pack(b), contents[NumFromId(id) := (id, b)])
  {
    var e := Entry(|blob|, |c.pack(b)|, id);
    var index' := WriteAt(index, STRIDE * NumFromId(id), EncodeEntry(e));
    var blob', contents' := blob + c.pack(b), contents[NumFromId(id) := (id, b)];
    assert SlotHolds(c, index, blob, contents, 0);
    StoreHoldsAt(c, index, blob, contents, id, b, 0);
    forall k: nat
      ensures SlotHolds(c, index', blob', contents', k)
    {
      assert SlotHolds(c, index, blob, contents, k);
      StoreHoldsAt(c, index, blob, contents, id, b, k);
    }
  }

  lemma {:induction false} RemoveHolds<B(!new)>(c: Codec<B>, index: seq<Byte>, blob: seq<Byte>, contents: Contents<B>,
                                                id: RawId)
    requires Faithful(c) && Holds(c, index, blob, contents) && |index| % STRIDE == 0 && |blob| < Capacity(8)
    requires HasSlot(index, NumFromId(id)) && Slot(index, NumFromId(id)).id == id
    ensures var n := NumFromId(id);
            var index' := WriteAt(index, STRIDE * n, EncodeEntry(Slot(index, n).(size := 0)));
            |index'| % STRIDE == 0 && Holds(c, index', blob, contents - {n})
  {
    var n := NumFromId(id);
    var e := Slot(index, n).(size := 0);
    assert SlotHolds(c, index, blob, contents, n);
    WriteSlot(index, n, e, n);
    forall k: nat
      ensures SlotHolds(c, WriteAt(index, STRIDE * n, EncodeEntry(e)), blob, contents - {n}, k)
    {
      WriteSlot(index, n, e, k);
      assert SlotHolds(c, index, blob, contents, k);
    }
  }

  lemma {:induction false} CutHolds<B>(c: Codec<B>, index: seq<Byte>, blob: seq<Byte>, contents: Contents<B>, n: nat)
    requires Holds(c, index, blob, contents) && STRIDE * n <= |index|
    ensures Holds(c, index[..STRIDE * n], blob, map k | k in contents && k < n :: contents[k])
  {
    var index' := index[..STRIDE * n];
    var contents' := map k | k in contents && k < n :: contents[k];
    forall k: nat
      ensures SlotHolds(c, index', blob, contents', k)
    {
      assert SlotHolds(c, index, blob, contents, k);
      if HasSlot(index', k) {
        assert SlotBytes(index', k) == SlotBytes(index, k);
      }
    }
  }

  /**
   The backward scan of `last_index_entry` over any files, damaged ones included: it finds the
   highest sound slot, and cuts the unsound slots after it, and nothing else, off the index.
   */
  method Scan<B>(c: Codec<B>, index: seq<Byte>, blob: seq<Byte>) returns (cut: seq<Byte>, r: Option<Entry>)
    ensures r.Some? ==>
      exists k: nat ::
        && Sound(c, index, blob, k) && (forall j: nat | j > k :: !Sound(c, index, blob, j))
        && r.value == Slot(index, k)
        && cut == if HasSlot(index, k + 1) then index[..STRIDE * (k + 1)] else index
    ensures r.None? ==>
      && (forall j: nat :: !Sound(c, index, blob, j))
      && cut == if |index| < STRIDE then index else []
  {
    cut := index;
    if |index| < STRIDE {
      return cut, None;
    }
    var k := |index| / STRIDE;
    while k > 0
      invariant 0 <= k <= |index| / STRIDE
      invariant forall j: nat | j >= k :: !Sound(c, index, blob, j)
      invariant cut == if k == |index| / STRIDE then index else index[..STRIDE * k]
    {
      k := k - 1;
      var e := Slot(index, k);
      if e.size > 0 && e.pos + e.size <= |blob| {
        var b := c.unpack(blob[e.pos..e.pos + e.size]);
        if b.Some? && c.id(b.value) == e.id {
          assert Sound(c, index, blob, k);
          return cut, Some(e);
        }
      }
      cut := index[..STRIDE * k];
    }
    return cut, None;
  }

  function UpTo<B>(contents: Contents<B>, n: nat): Contents<B> {
    map k | k in contents && k <= n :: contents[k]
  }

  /** The cut that `Scan` makes above slot n, on files that hold `contents`. */
  lemma {:induction false} ScanHolds<B(!new)>(c: Codec<B>, index: seq<Byte>, blob: seq<Byte>, contents: Contents<B>,
                                              n: nat)
    requires Faithful(c) && Holds(c, index, blob, contents) && |index| % STRIDE == 0 && Sound(c, index, blob, n)
    ensures Genuine(c, contents, n)
    ensures Slot(index, n).id == contents[n].0 && NumFromId(contents[n].0) == n
    ensures var cut := if HasSlot(index, n + 1) then index[..STRIDE * (n + 1)] else index;
            |cut| % STRIDE == 0 && Holds(c, cut, blob, UpTo(contents, n))
  {
    HoldsFetch(c, index, blob, contents, n);
    assert SlotHolds(c, index, blob, contents, n);
    CutHolds(c, index, blob, contents, n + 1);
    assert UpTo(contents, n) == map k | k in contents && k < n + 1 :: contents[k];
    if !HasSlot(index, n + 1) {
      assert index[..STRIDE * (n + 1)] == index;
    }
  }

  lemma {:induction false} ScanNothing<B(!new)>(c: Codec<B>, index: seq<Byte>, blob: seq<Byte>, contents: Contents<B>)
    requires Faithful(c) && Holds(c, index, blob, contents)
    ensures Holds(c, [], blob, map[])
    ensures forall k: nat :: Sound(c, index, blob, k) <==> Genuine(c, contents, k)
  {
    CutHolds(c, index, blob, contents, 0);
    assert index[..STRIDE * 0] == [];
    assert (map k | k in contents && k < 0 :: contents[k]) == map[];
    forall k: nat
      ensures Sound(c, index, blob, k) <==> Genuine(c, contents, k)
    {
      HoldsFetch(c, index, blob, contents, k);
    }
  }

  class BlockStore<!B(!new)> {
    const codec: Codec<B>
    var index: seq<Byte>
    var blob: seq<Byte>
    var maxBlockSize: nat
    ghost var contents: Contents<B>

    /** The files hold `contents`; the blob is short enough for the position field. */
    ghost predicate Valid()
      reads this
    {
      && Faithful(codec) && |index| % STRIDE == 0 && |blob| < Capacity(8)
      && Holds(codec, index, blob, contents)
    }

    constructor (codec: Codec<B>)
      requires Faithful(codec)
      ensures Valid() && contents == map[] && this.codec == codec && maxBlockSize == 0x7fff_ffff
    {
      this.codec, index, blob, contents, maxBlockSize := codec, [], [], map[], 0x7fff_ffff;
    }

    /** `store`; false stands for a block over the size limit. No file reaches 2^64 bytes. */
    method Store(givenId: RawId, b: B) returns (ok: bool)
      requires Valid() && |blob| + |codec.pack(b)| < Capacity(8)
      modifies this
      ensures Valid() && maxBlockSize == old(maxBlockSize)
      ensures ok <==> |codec.pack(b)| < maxBlockSize
      ensures var id := if givenId == ZERO_ID then codec.id(b) else givenId;
              contents == if ok then old(contents)[NumFromId(id) := (id, b)] else old(contents)
    {
      var id: RawId := if givenId == ZERO_ID then codec.id(b) else givenId;
      var data := codec.pack(b);
      if |data| >= maxBlockSize {
        return false;
      }
      StoreHolds(codec, index, blob, contents, id, b);
      var e := Entry(|blob|, |data|, id);
      blob := blob + data;
      index := WriteAt(index, STRIDE * NumFromId(id), EncodeEntry(e));
      contents := contents[NumFromId(id) := (id, b)];
      return true;
    }

    /** `remove`; false stands for the key-not-found exception. */
    method Remove(id: RawId) returns (ok: bool)
      requires Valid()
      modifies this
      ensures Valid() && maxBlockSize == old(maxBlockSize)
      ensures var n := NumFromId(id);
              contents == if n in old(contents) && old(contents)[n].0 == id then old(contents) - {n} else old(contents)
      ensures ok <==> |old(index)| > STRIDE * NumFromId(id)
      ensures NumFromId(id) in old(contents) ==> ok
    {
      var n := NumFromId(id);
      assert SlotHolds(codec, index, blob, contents, n);
      if |index| <= STRIDE * n {
        return false;
      }
      var e := Slot(index, n);
      if e.id == id {
        RemoveHolds(codec, index, blob, contents, id);
        index := WriteAt(index, STRIDE * n, EncodeEntry(e.(size := 0)));
        contents := contents - {n};
      }
      return true;
    }

    method Contains(id: RawId) returns (r: bool)
      requires Valid()
      ensures var n := NumFromId(id);
              r <==> id != ZERO_ID && n in contents && contents[n].0 == id
    {
      if id == ZERO_ID {
        return false;
      }
      var n := NumFromId(id);
      assert SlotHolds(codec, index, blob, contents, n);
      if |index| < STRIDE * (n + 1) {
        return false;
      }
      if n in contents {
        assert 0 < |codec.pack(contents[n].1)|;
      }
      var e := Slot(index, n);
      return e.id == id && e.size > 0;
    }

    method FetchByNumber(k: nat) returns (r: Option<B>)
      requires Valid()
      ensures r == if Genuine(codec, contents, k) then Some(contents[k].1) else None
    {
      HoldsFetch(codec, index, blob, contents, k);
      if |index| <= STRIDE * k {
        return None;
      }
      var e := Slot(index, k);
      if e.pos + e.size > |blob| {
        return None;
      }
      r := codec.unpack(blob[e.pos..e.pos + e.size]);
      if r.Some? && codec.id(r.value) != e.id {
        return None;
      }
    }

    method FetchOptional(id: RawId) returns (r: Option<B>)
      requires Valid()
      ensures var n := NumFromId(id);
              r == if Genuine(codec, contents, n) && contents[n].0 == id then Some(contents[n].1) else None
    {
      var n := NumFromId(id);
      HoldsFetch(codec, index, blob, contents, n);
      assert SlotHolds(codec, index, blob, contents, n);
      if |index| <= STRIDE * n {
        return None;
      }
      var e := Slot(index, n);
      if e.id != id || e.pos + e.size > |blob| {
        return None;
      }
      r := codec.unpack(blob[e.pos..e.pos + e.size]);
      if r.Some? && codec.id(r.value) != e.id {
        return None;
      }
    }

    /** `last_index_entry` on a store of our own: only entries above the highest genuine one go. */
    method LastId() returns (r: Option<RawId>)
      requires Valid()
      modifies this`index, this`contents
      ensures Valid()
      ensures r.Some? ==>
        var n := NumFromId(r.value);
        && Genuine(codec, old(contents), n) && old(contents)[n].0 == r.value
        && (forall k: nat | k > n :: !Genuine(codec, old(contents), k))
        && contents == UpTo(old(contents), n)
      ensures r.None? ==> contents == map[] && forall k: nat :: !Genuine(codec, old(contents), k)
    {
      var cut, e := Scan(codec, index, blob);
      ScanNothing(codec, index, blob, contents);
      if e.None? {
        index, contents := cut, map[];
        return None;
      }
      ghost var n: nat :| Sound(codec, index, blob, n) && (forall j: nat | j > n :: !Sound(codec, index, blob, j))
                          && e.value == Slot(index, n)
                          && cut == if HasSlot(index, n + 1) then index[..STRIDE * (n + 1)] else index;
      ScanHolds(codec, index, blob, contents, n);
      index, contents := cut, UpTo(contents, n);
      return Some(e.value.id);
    }

    /**
     The loop that trims the store after a gap at block i: it ends, no genuine entry above i is
     left, and the genuine entries up to i are what they were.
     */
    method TrimAbove(i: nat) returns (dropped: nat)
      requires Valid()
      modifies this
      ensures Valid()
      ensures forall k | k in contents :: k in old(contents) && contents[k] == old(contents)[k] && k <= i
      ensures forall k: nat :: Genuine(codec, contents, k) <==> Genuine(codec, old(contents), k) && k <= i
    {
      dropped := 0;
      ghost var was := contents;
      while true
        invariant Valid()
        invariant forall k | k in contents :: k in was && contents[k] == was[k]
        invariant forall k: nat | Genuine(codec, was, k) && k <= i :: Genuine(codec, contents, k)
        decreases |contents|
      {
        ghost var before := contents;
        var last := LastId();
        if last.None? {
          break;
        }
        if NumFromId(last.value) <= i {
          break;
        }
        ghost var n := NumFromId(last.value);
        var removed := Remove(last.value);
        assert contents.Keys <= before.Keys - {n};
        Shrinks(contents.Keys, before.Keys, n);
        dropped := dropped + 1;
      }
    }

    /**
     The replay loop of `reindex` from the block after `head` up to `last`: it hands out the
     longest run of stored blocks, and at a gap it trims the store above the gap.
     */
    method Replay(head: nat, last: nat) returns (replayed: seq<B>)
      requires Valid() && head <= last
      modifies this
      ensures Valid()
      ensures |replayed| <= last - head
      ensures forall n: nat | head < n <= head + |replayed| ::
                Genuine(codec, old(contents), n) && replayed[n - head - 1] == old(contents)[n].1
      ensures |replayed| == last - head ==> contents == old(contents)
      ensures |replayed| < last - head ==>
                var gap := head + 1 + |replayed|;
                && (forall k: nat | k >= gap :: !Genuine(codec, contents, k))
                && (forall k: nat | k < gap :: Genuine(codec, contents, k) <==> Genuine(codec, old(contents), k))
    {
      replayed := [];
      var i := head + 1;
      while i <= last
        invariant head < i <= last + 1 && |replayed| == i - head - 1
        invariant Valid() && contents == old(contents)
        invariant forall n: nat | head < n < i ::
                    Genuine(codec, contents, n) && replayed[n - head - 1] == contents[n].1
      {
        var b := FetchByNumber(i);
        if b.None? {
          var dropped := TrimAbove(i);
          return;
        }
        replayed := replayed + [b.value];
        i := i + 1;
      }
    }
  }

  lemma {:induction false} Shrinks<T>(a: set<T>, b: set<T>, x: T)
    requires x in b && a <= b - {x}
    ensures |a| < |b|
  {
    var rest := b - a - {x};
    assert b == a + rest + {x};
    assert |b| == |a + rest| + 1;
  }
}
