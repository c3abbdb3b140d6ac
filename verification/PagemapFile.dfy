/** pagemap_get_entry and virt_to_phys_user (lab_proc/main.c): reading one entry of
    /proc/pid/pagemap and turning it into a physical address. */
module PagemapFile {
  import opened MapLines
  import opened Options

  // ---- Entries ----

  const PFN_BITS: bv64 := 0x7F_FFFF_FFFF_FFFF       // the low 55 bits
  const USED_BITS: bv64 := 0xE0FF_FFFF_FFFF_FFFF    // all but bits 56 to 60

  /** pfn has 55 bits, every other field one. */
  datatype Entry = Entry(pfn: bv64, softDirty: bv64, filePage: bv64, swapped: bv64, present: bv64)

  function Unpack(data: bv64): Entry {
    Entry(data & PFN_BITS, (data >> 55) & 1, (data >> 61) & 1, (data >> 62) & 1, (data >> 63) & 1)
  }

  function Pack(entry: Entry): bv64 {
    entry.pfn | (entry.softDirty << 55) | (entry.filePage << 61) | (entry.swapped << 62) | (entry.present << 63)
  }

  /** No field of an entry disturbs another. */
  lemma UnpackPacked(entry: Entry)
    requires entry.pfn <= PFN_BITS && entry.softDirty <= 1 && entry.filePage <= 1
    requires entry.swapped <= 1 && entry.present <= 1
    ensures Unpack(Pack(entry)) == entry
  {
    FieldsApart(entry.pfn, entry.softDirty, entry.filePage, entry.swapped, entry.present);
  }

  lemma FieldsApart(pfn: bv64, a: bv64, b: bv64, c: bv64, d: bv64)
    requires pfn <= PFN_BITS && a <= 1 && b <= 1 && c <= 1 && d <= 1
    ensures var data := pfn | (a << 55) | (b << 61) | (c << 62) | (d << 63);
            && data & PFN_BITS == pfn && (data >> 55) & 1 == a && (data >> 61) & 1 == b
            && (data >> 62) & 1 == c && (data >> 63) & 1 == d
  {}

  /** The entry keeps all of the word but bits 56 to 60. */
  lemma PackUnpacked(data: bv64)
    ensures Pack(Unpack(data)) == data & USED_BITS
  {}

  /** Two words give the same entry exactly when they differ in bits 56 to 60 only. */
  lemma SameEntry(data: bv64, other: bv64)
    ensures Unpack(data) == Unpack(other) <==> data & USED_BITS == other & USED_BITS
  {
    PackUnpacked(data);
    PackUnpacked(other);
    UnusedBits(data);
    UnusedBits(other);
  }

  lemma UnusedBits(data: bv64)
    ensures Unpack(data & USED_BITS) == Unpack(data)
  {}

  // ---- Bytes ----

  /** The word that bytes in memory hold, the lowest one first. */
  function Word(bytes: seq<bv8>): bv64 {
    if bytes == [] then 0 else (bytes[0] as bv64) | (Word(bytes[1..]) << 8)
  }

  /** Byte k of the file is byte k of the word, counted from the low end. */
  lemma WordBytes(bytes: seq<bv8>, b0: bv64, b1: bv64, b2: bv64, b3: bv64, b4: bv64, b5: bv64, b6: bv64, b7: bv64)
    requires |bytes| == 8
    requires b0 == bytes[0] as bv64 && b1 == bytes[1] as bv64 && b2 == bytes[2] as bv64 && b3 == bytes[3] as bv64
    requires b4 == bytes[4] as bv64 && b5 == bytes[5] as bv64 && b6 == bytes[6] as bv64 && b7 == bytes[7] as bv64
    ensures var w := Word(bytes);
            && w & 0xFF == b0 && (w >> 8) & 0xFF == b1 && (w >> 16) & 0xFF == b2 && (w >> 24) & 0xFF == b3
            && (w >> 32) & 0xFF == b4 && (w >> 40) & 0xFF == b5 && (w >> 48) & 0xFF == b6 && w >> 56 == b7
  {
    var w1, w2, w3, w4, w5, w6, w7 := Nested(bytes, b0, b1, b2, b3, b4, b5, b6, b7);
    EightBytes(Word(bytes), w1, w2, w3, w4, w5, w6, w7, b0, b1, b2, b3, b4, b5, b6, b7);
  }

  lemma Nested(bytes: seq<bv8>, b0: bv64, b1: bv64, b2: bv64, b3: bv64, b4: bv64, b5: bv64, b6: bv64, b7: bv64)
    returns (w1: bv64, w2: bv64, w3: bv64, w4: bv64, w5: bv64, w6: bv64, w7: bv64)
    requires |bytes| == 8
    requires b0 == bytes[0] as bv64 && b1 == bytes[1] as bv64 && b2 == bytes[2] as bv64 && b3 == bytes[3] as bv64
    requires b4 == bytes[4] as bv64 && b5 == bytes[5] as bv64 && b6 == bytes[6] as bv64 && b7 == bytes[7] as bv64
    ensures Word(bytes) == b0 | (w1 << 8) && w1 == b1 | (w2 << 8) && w2 == b2 | (w3 << 8) && w3 == b3 | (w4 << 8)
    ensures w4 == b4 | (w5 << 8) && w5 == b5 | (w6 << 8) && w6 == b6 | (w7 << 8) && w7 == b7
    ensures b0 <= 0xFF && b1 <= 0xFF && b2 <= 0xFF && b3 <= 0xFF && b4 <= 0xFF && b5 <= 0xFF && b6 <= 0xFF
    ensures b7 <= 0xFF
  {
    w1 := FirstByte(bytes, b0);
    w2 := FirstByte(bytes[1..], b1);
    w3 := FirstByte(bytes[2..], b2);
    w4 := FirstByte(bytes[3..], b3);
    w5 := FirstByte(bytes[4..], b4);
    w6 := FirstByte(bytes[5..], b5);
    w7 := FirstByte(bytes[6..], b6);
    var w8 := FirstByte(bytes[7..], b7);
    assert forall k :: 0 <= k < 7 ==> bytes[k..][1..] == bytes[k + 1..];
  }

  lemma FirstByte(bytes: seq<bv8>, b: bv64) returns (w: bv64)
    requires bytes != [] && b == bytes[0] as bv64
    ensures b <= 0xFF && w == Word(bytes[1..])
    ensures Word(bytes) == b | (w << 8) && (|bytes| == 1 ==> Word(bytes) == b)
  {
    w := Word(bytes[1..]);
  }

  lemma EightBytes(w0: bv64, w1: bv64, w2: bv64, w3: bv64, w4: bv64, w5: bv64, w6: bv64, w7: bv64,
                   b0: bv64, b1: bv64, b2: bv64, b3: bv64, b4: bv64, b5: bv64, b6: bv64, b7: bv64)
    requires w0 == b0 | (w1 << 8) && w1 == b1 | (w2 << 8) && w2 == b2 | (w3 << 8) && w3 == b3 | (w4 << 8)
    requires w4 == b4 | (w5 << 8) && w5 == b5 | (w6 << 8) && w6 == b6 | (w7 << 8) && w7 == b7
    requires b0 <= 0xFF && b1 <= 0xFF && b2 <= 0xFF && b3 <= 0xFF && b4 <= 0xFF && b5 <= 0xFF && b6 <= 0xFF
    requires b7 <= 0xFF
    ensures w0 & 0xFF == b0 && (w0 >> 8) & 0xFF == b1 && (w0 >> 16) & 0xFF == b2 && (w0 >> 24) & 0xFF == b3
    ensures (w0 >> 32) & 0xFF == b4 && (w0 >> 40) & 0xFF == b5 && (w0 >> 48) & 0xFF == b6 && w0 >> 56 == b7
  {}

  /** What the bytes of an entry say about its fields. */
  lemma EntryFields(bytes: seq<bv8>, b0: bv64, b1: bv64, b2: bv64, b3: bv64, b4: bv64, b5: bv64, b6: bv64, b7: bv64)
    requires |bytes| == 8
    requires b0 == bytes[0] as bv64 && b1 == bytes[1] as bv64 && b2 == bytes[2] as bv64 && b3 == bytes[3] as bv64
    requires b4 == bytes[4] as bv64 && b5 == bytes[5] as bv64 && b6 == bytes[6] as bv64 && b7 == bytes[7] as bv64
    ensures var e := Unpack(Word(bytes));
            && e.present == b7 >> 7 && e.swapped == (b7 >> 6) & 1 && e.filePage == (b7 >> 5) & 1
            && e.softDirty == b6 >> 7
            && e.pfn == b0 | (b1 << 8) | (b2 << 16) | (b3 << 24) | (b4 << 32) | (b5 << 40) | ((b6 & 0x7F) << 48)
  {
    var w1, w2, w3, w4, w5, w6, w7 := Nested(bytes, b0, b1, b2, b3, b4, b5, b6, b7);
    EightFields(Word(bytes), w1, w2, w3, w4, w5, w6, w7, b0, b1, b2, b3, b4, b5, b6, b7);
  }

  lemma EightFields(w0: bv64, w1: bv64, w2: bv64, w3: bv64, w4: bv64, w5: bv64, w6: bv64, w7: bv64,
                    b0: bv64, b1: bv64, b2: bv64, b3: bv64, b4: bv64, b5: bv64, b6: bv64, b7: bv64)
    requires w0 == b0 | (w1 << 8) && w1 == b1 | (w2 << 8) && w2 == b2 | (w3 << 8) && w3 == b3 | (w4 << 8)
    requires w4 == b4 | (w5 << 8) && w5 == b5 | (w6 << 8) && w6 == b6 | (w7 << 8) && w7 == b7
    requires b0 <= 0xFF && b1 <= 0xFF && b2 <= 0xFF && b3 <= 0xFF && b4 <= 0xFF && b5 <= 0xFF && b6 <= 0xFF
    requires b7 <= 0xFF
    ensures (w0 >> 63) & 1 == b7 >> 7 && (w0 >> 62) & 1 == (b7 >> 6) & 1 && (w0 >> 61) & 1 == (b7 >> 5) & 1
    ensures (w0 >> 55) & 1 == b6 >> 7
    ensures w0 & PFN_BITS == b0 | (b1 << 8) | (b2 << 16) | (b3 << 24) | (b4 << 32) | (b5 << 40) | ((b6 & 0x7F) << 48)
  {}

  /** The file, and what each call of pread for an entry finds ready: avail(p)(k) is
      the number of bytes that the k-th call for page p could return, or the end of
      the file (zero) or an error (negative). */
  datatype Pagemap = Pagemap(bytes: nat -> bv8, avail: nat -> nat -> int) {

    /** Every call from the k-th on returns something, until eight bytes are read. */
    predicate Completes(p: nat, k: nat, nread: nat)
      requires nread <= 8
      decreases 8 - nread
    {
      nread == 8 || (avail(p)(k) > 0 && Completes(p, k + 1, nread + Min(avail(p)(k), 8 - nread)))
    }

    /** The bytes of the entry of page p in the file. */
    function EntryBytes(p: nat): (r: seq<bv8>)
      ensures |r| == 8
    {
      seq(8, k requires 0 <= k < 8 => bytes(p * 8 + k))
    }

    function Get(p: nat): Option<Entry> {
      if Completes(p, 0, 0) then Some(Unpack(Word(EntryBytes(p)))) else None
    }
  }

  function Min(a: int, b: int): int {
    if a < b then a else b
  }

  /** An entry is read as long as pread always returns at least one byte. */
  lemma {:induction false} PositiveReadsComplete(pagemap: Pagemap, p: nat, k: nat, nread: nat)
    requires nread <= 8 && forall j :: pagemap.avail(p)(j) > 0
    ensures pagemap.Completes(p, k, nread)
    decreases 8 - nread
  {
    if nread < 8 {
      PositiveReadsComplete(pagemap, p, k + 1, nread + Min(pagemap.avail(p)(k), 8 - nread));
    }
  }

  /** The bytes that n calls from the k-th on find ready. */
  function Ready(pagemap: Pagemap, p: nat, k: nat, n: nat): int
    decreases n
  {
    if n == 0 then 0 else pagemap.avail(p)(k) + Ready(pagemap, p, k + 1, n - 1)
  }

  /** n calls in a row each find something and together at least so many bytes. */
  ghost predicate Find(pagemap: Pagemap, p: nat, k: nat, n: nat, bytes: nat) {
    Ready(pagemap, p, k, n) >= bytes && forall j :: k <= j < k + n ==> pagemap.avail(p)(j) > 0
  }

  /** The calls from the k-th on find so many bytes before one of them finds nothing. */
  ghost predicate Suffice(pagemap: Pagemap, p: nat, k: nat, bytes: nat) {
    exists n: nat :: Find(pagemap, p, k, n, bytes)
  }

  /** The entry is read if and only if the calls of pread find eight bytes before one
      of them finds nothing. */
  lemma {:induction false} CompletesIff(pagemap: Pagemap, p: nat, k: nat, nread: nat)
    requires nread <= 8
    ensures pagemap.Completes(p, k, nread) <==> Suffice(pagemap, p, k, 8 - nread)
    decreases 8 - nread
  {
    var a, rest := pagemap.avail(p)(k), 8 - nread;
    if nread == 8 {
      assert Find(pagemap, p, k, 0, rest);
    } else if a > 0 {
      CompletesIff(pagemap, p, k + 1, nread + Min(a, rest));
      SufficeOn(pagemap, p, k, rest, rest - Min(a, rest));
    } else {
      forall n: nat
        ensures !Find(pagemap, p, k, n, rest)
      {
        assert n > 0 ==> k <= k < k + n && !(pagemap.avail(p)(k) > 0);
      }
    }
  }

  lemma SufficeOn(pagemap: Pagemap, p: nat, k: nat, bytes: nat, rest: nat)
    requires pagemap.avail(p)(k) > 0 && bytes > 0
    requires rest == bytes - Min(pagemap.avail(p)(k), bytes)
    ensures Suffice(pagemap, p, k, bytes) <==> Suffice(pagemap, p, k + 1, rest)
  {
    var next := k + 1;
    if n: nat :| Find(pagemap, p, k, n, bytes) {
      assert n > 0;
      if rest == 0 {
        assert Find(pagemap, p, next, 0, rest);
      } else {
        assert Find(pagemap, p, next, n - 1, rest);
      }
    }
    if n: nat :| Find(pagemap, p, next, n, rest) {
      ReadyPositive(pagemap, p, next, n);
      assert Find(pagemap, p, k, n + 1, bytes);
    }
  }

  lemma {:induction false} ReadyPositive(pagemap: Pagemap, p: nat, k: nat, n: nat)
    requires forall j :: k <= j < k + n ==> pagemap.avail(p)(j) > 0
    ensures Ready(pagemap, p, k, n) >= 0
    decreases n
  {
    if n > 0 {
      ReadyPositive(pagemap, p, k + 1, n - 1);
    }
  }

  /** What the model of the file gives for a page. */
  lemma GetIsEntry(pagemap: Pagemap, p: nat, at: nat)
    requires pagemap.Get(p).Some? && at == p * 8
    ensures var e := pagemap.Get(p).value;
            var b6, b7 := pagemap.bytes(at + 6) as bv64, pagemap.bytes(at + 7) as bv64;
            && e.present == b7 >> 7 && e.swapped == (b7 >> 6) & 1 && e.filePage == (b7 >> 5) & 1
            && e.softDirty == b6 >> 7
            && e.pfn == (pagemap.bytes(at) as bv64) | (pagemap.bytes(at + 1) as bv64 << 8)
                        | (pagemap.bytes(at + 2) as bv64 << 16) | (pagemap.bytes(at + 3) as bv64 << 24)
                        | (pagemap.bytes(at + 4) as bv64 << 32) | (pagemap.bytes(at + 5) as bv64 << 40)
                        | ((b6 & 0x7F) << 48)
  {
    var bytes := pagemap.EntryBytes(p);
    assert forall k :: 0 <= k < 8 ==> bytes[k] == pagemap.bytes(at + k);
    EntryFields(bytes, bytes[0] as bv64, bytes[1] as bv64, bytes[2] as bv64, bytes[3] as bv64,
                bytes[4] as bv64, bytes[5] as bv64, bytes[6] as bv64, bytes[7] as bv64);
  }

  /** pread: at most count bytes from the offset, to data from at on. */
  method Pread(pagemap: Pagemap, avail: int, data: array<bv8>, at: nat, count: nat, offset: nat) returns (ret: int)
    requires at + count <= data.Length
    modifies data
    ensures ret == Min(avail, count)
    ensures forall k :: 0 <= k < data.Length ==>
              data[k] == if at <= k < at + ret then pagemap.bytes(offset + (k - at)) else old(data[k])
  {
    ret := Min(avail, count);
    forall k | at <= k < at + ret {
      data[k] := pagemap.bytes(offset + (k - at));
    }
  }

  /** However the eight bytes are split over the calls of pread, the entry is the one
      of the page, and it is missing exactly when a call returns nothing first. */
  method PagemapGetEntry(pagemap: Pagemap, vaddr: nat) returns (entry: Option<Entry>)
    ensures entry == pagemap.Get(vaddr / PAGE_SIZE)
    ensures entry.Some? <==> Suffice(pagemap, vaddr / 4096, 0, 8)
    ensures entry.Some? ==>
              var at, e := vaddr / 4096 * 8, entry.value;
              var b6, b7 := pagemap.bytes(at + 6) as bv64, pagemap.bytes(at + 7) as bv64;
              && e.present == b7 >> 7 && e.swapped == (b7 >> 6) & 1 && e.filePage == (b7 >> 5) & 1
              && e.softDirty == b6 >> 7
              && e.pfn == (pagemap.bytes(at) as bv64) | (pagemap.bytes(at + 1) as bv64 << 8)
                          | (pagemap.bytes(at + 2) as bv64 << 16) | (pagemap.bytes(at + 3) as bv64 << 24)
                          | (pagemap.bytes(at + 4) as bv64 << 32) | (pagemap.bytes(at + 5) as bv64 << 40)
                          | ((b6 & 0x7F) << 48)
  {
    ghost var p := vaddr / PAGE_SIZE;
    CompletesIff(pagemap, p, 0, 0);
    var data := new bv8[8];
    var nread := 0;
    var call := 0;
    while nread < 8
      invariant 0 <= nread <= 8
      invariant forall k :: 0 <= k < nread ==> data[k] == pagemap.bytes(p * 8 + k)
      invariant pagemap.Completes(p, 0, 0) == pagemap.Completes(p, call, nread)
    {
      var ret := Pread(pagemap, pagemap.avail(vaddr / PAGE_SIZE)(call), data, nread, 8 - nread,
                       (vaddr / PAGE_SIZE) * 8 + nread);
      if ret <= 0 {
        return None;
      }
      nread := nread + ret;
      call := call + 1;
    }
    assert data[..] == pagemap.EntryBytes(p);
    GetIsEntry(pagemap, p, p * 8);
    return Some(Unpack(Word(data[..])));
  }

  // ---- Physical addresses ----

  const FRAMES := 0x10_0000_0000_0000   // 2^52: the frames that 64 bits can address

  /** What virt_to_phys_user stores, in 64-bit arithmetic. */
  function Physical(pfn: nat, vaddr: nat): nat {
    (pfn * PAGE_SIZE + vaddr % PAGE_SIZE) % WORD
  }

  /** The offset in the page is always kept; the frame number is kept exactly when
      it has at most 52 of the 55 bits that the entry has room for. */
  lemma PhysicalParts(pfn: nat, vaddr: nat)
    ensures Physical(pfn, vaddr) % PAGE_SIZE == vaddr % PAGE_SIZE
    ensures Physical(pfn, vaddr) / PAGE_SIZE == pfn % FRAMES
    ensures Physical(pfn, vaddr) / PAGE_SIZE == pfn <==> pfn < FRAMES
  {
    var q, frame, at := pfn / FRAMES, pfn % FRAMES, vaddr % PAGE_SIZE;
    assert WORD == FRAMES * PAGE_SIZE;
    assert pfn * PAGE_SIZE + at == q * WORD + (frame * PAGE_SIZE + at);
    Remainder(q, frame * PAGE_SIZE + at);
    assert frame * PAGE_SIZE + at < WORD;
  }

  lemma Remainder(q: nat, rest: nat)
    requires rest < WORD
    ensures (q * WORD + rest) % WORD == rest
  {}

  /** Two pages with different frames never share a physical address. */
  lemma FramesApart(pfn: nat, vaddr: nat, otherPfn: nat, other: nat)
    requires pfn < FRAMES && otherPfn < FRAMES
    ensures Physical(pfn, vaddr) == Physical(otherPfn, other)
       <==> pfn == otherPfn && vaddr % PAGE_SIZE == other % PAGE_SIZE
  {
    PhysicalParts(pfn, vaddr);
    PhysicalParts(otherPfn, other);
  }

  /** isOpen tells whether the file could be opened. */
  method VirtToPhysUser(isOpen: bool, pagemap: Pagemap, vaddr: nat) returns (paddr: Option<nat>)
    ensures paddr.Some? <==> isOpen && pagemap.Get(vaddr / PAGE_SIZE).Some?
    ensures paddr.Some? ==> paddr.value == Physical(pagemap.Get(vaddr / PAGE_SIZE).value.pfn as nat, vaddr)
  {
    if !isOpen {
      return None;
    }
    var entry := PagemapGetEntry(pagemap, vaddr);
    if entry.None? {
      return None;
    }
    return Some((entry.value.pfn as nat * PAGE_SIZE + vaddr % PAGE_SIZE) % WORD);
  }
}
