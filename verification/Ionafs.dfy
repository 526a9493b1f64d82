/** The on-disk format of an IONAFS image (scripts/install-to-ionafs.py): superblock, index of
    64-byte entries, and file data in whole sectors. Paths are their UTF-8 bytes. */
module Ionafs {
  import opened Common
  import opened Utf8

  type Path = seq<byte>

  const SECTOR: nat := 512
  const MAGIC: nat := 0x494F4E41
  const INDEX_START: nat := 512
  const INDEX_BYTES: nat := 7680
  const DATA_START_LBA: nat := 64
  const ENTRIES: nat := 120
  const ENTRY_SIZE: nat := 64
  const MAX_FILE_SIZE: nat := 1024 * 1024 * 1024

  // ---------------------------------------------------------------------------
  // The image file
  // ---------------------------------------------------------------------------

  /** Seek and write: a gap before the offset is filled with zeros, and the file grows. Writing nothing
      changes nothing. */
  function Put(img: seq<byte>, offset: nat, data: seq<byte>): (r: seq<byte>)
    ensures |r| == if data == [] then |img| else Max(|img|, offset + |data|)
  {
    if data == [] then img
    else
      var padded := if |img| < offset then img + Zeros(offset - |img|) else img;
      padded[..offset] + data + (if offset + |data| < |img| then img[offset + |data|..] else [])
  }

  lemma PutSame(img: seq<byte>, offset: nat, data: seq<byte>)
    requires data != []
    ensures Put(img, offset, data)[offset..offset + |data|] == data
  {
  }

  lemma PutOther(img: seq<byte>, offset: nat, data: seq<byte>, lo: nat, hi: nat)
    requires lo <= hi <= |img| && (hi <= offset || offset + |data| <= lo)
    ensures Put(img, offset, data)[lo..hi] == img[lo..hi]
  {
    var r := Put(img, offset, data);
    forall k | lo <= k < hi ensures r[k] == img[k] {
      PutKeeps(img, offset, data, k);
    }
  }

  lemma PutKeeps(img: seq<byte>, offset: nat, data: seq<byte>, k: nat)
    requires k < |img| && (k < offset || offset + |data| <= k)
    ensures Put(img, offset, data)[k] == img[k]
  {
  }

  // ---------------------------------------------------------------------------
  // Superblock
  // ---------------------------------------------------------------------------

  datatype Superblock = Superblock(magic: nat, numFiles: nat, journalHead: nat) {
    predicate Fits() { magic < U32_LIMIT && numFiles < U32_LIMIT && journalHead < U32_LIMIT }
  }

  function SuperblockBytes(s: Superblock): (r: seq<byte>)
    ensures |r| == SECTOR
  {
    ToLe(s.magic, 4) + ToLe(s.numFiles, 4) + ToLe(s.journalHead, 4) + Zeros(500)
  }

  function ParseSuperblock(raw: seq<byte>): (s: Superblock)
    requires |raw| >= 12
    ensures s.Fits()
  {
    WidthValues();
    Superblock(FromLe(raw[0..4]), FromLe(raw[4..8]), FromLe(raw[8..12]))
  }

  lemma SuperblockFields(s: Superblock)
    ensures var raw := SuperblockBytes(s);
            && raw[0..4] == ToLe(s.magic, 4) && raw[4..8] == ToLe(s.numFiles, 4)
            && raw[8..12] == ToLe(s.journalHead, 4)
  {
  }

  lemma FourByteField(n: nat)
    requires n < U32_LIMIT
    ensures FromLe(ToLe(n, 4)) == n
  {
    WidthValues();
    LeRoundTrip(n, 4);
  }

  lemma SuperblockRoundTrip(s: Superblock)
    requires s.Fits()
    ensures ParseSuperblock(SuperblockBytes(s)) == s
  {
    SuperblockFields(s);
    FourByteField(s.magic);
    FourByteField(s.numFiles);
    FourByteField(s.journalHead);
  }

  // ---------------------------------------------------------------------------
  // Index entries
  // ---------------------------------------------------------------------------

  datatype Entry = Entry(path: Path, lba: nat, size: nat, flags: nat) {
    predicate IsValid() { flags == 1 }
    predicate IsEmpty() { flags == 0 }

    /** `struct.pack('<QQQ')` accepts the numbers. */
    predicate Fits() { lba < U64_LIMIT && size < U64_LIMIT && flags < U64_LIMIT }
  }

  function CutAtNul(s: seq<byte>): (r: seq<byte>)
    ensures 0 !in r && |r| <= |s| && r <= s
    ensures |r| < |s| ==> s[|r|] == 0
  {
    if s == [] || s[0] == 0 then [] else [s[0]] + CutAtNul(s[1..])
  }

  function PathField(path: Path): (r: seq<byte>)
    ensures |r| == 32
  {
    var kept := if |path| <= 31 then path else path[..31];
    kept + Zeros(32 - |kept|)
  }

  function EntryBytes(e: Entry): (r: seq<byte>)
    ensures |r| == ENTRY_SIZE
  {
    PathField(e.path) + ToLe(e.lba, 8) + ToLe(e.size, 8) + ToLe(e.flags, 8) + Zeros(8)
  }

  function ParseEntry(raw: seq<byte>): (e: Entry)
    requires |raw| == ENTRY_SIZE
    ensures e.Fits()
  {
    WidthValues();
    Entry(Decoded(CutAtNul(raw[0..32])), FromLe(raw[32..40]), FromLe(raw[40..48]), FromLe(raw[48..56]))
  }

  lemma {:induction false} CutPadded(path: Path, n: nat)
    requires 0 !in path && n > 0
    ensures CutAtNul(path + Zeros(n)) == path
  {
    if path == [] {
      assert path + Zeros(n) == Zeros(n);
    } else {
      CutPadded(path[1..], n);
      assert (path + Zeros(n))[1..] == path[1..] + Zeros(n);
    }
  }

  /** What is read back of a path. */
  function KeptPath(path: Path): Path { Decoded(CutAtNul(PathField(path))) }

  /** A path that is read back as written. */
  predicate PathFits(path: Path) { KeptPath(path) == path }

  /** What is read back of an entry: the numbers, and what was kept of the path. */
  function Stored(e: Entry): Entry { e.(path := KeptPath(e.path)) }

  lemma EntryRoundTrip(e: Entry)
    requires e.Fits()
    ensures ParseEntry(EntryBytes(e)) == Stored(e)
  {
    WidthValues();
    var raw := EntryBytes(e);
    assert raw[0..32] == PathField(e.path);
    assert raw[32..40] == ToLe(e.lba, 8);
    assert raw[40..48] == ToLe(e.size, 8);
    assert raw[48..56] == ToLe(e.flags, 8);
    LeRoundTrip(e.lba, 8);
    LeRoundTrip(e.size, 8);
    LeRoundTrip(e.flags, 8);
  }

  /** What is kept of a path without NUL: all of it, or the first 31 bytes. */
  lemma KeptBytes(path: Path)
    requires 0 !in path
    ensures CutAtNul(PathField(path)) == if |path| <= 31 then path else path[..31]
  {
    var kept := if |path| <= 31 then path else path[..31];
    CutPadded(kept, 32 - |kept|);
  }

  /** The path ends with a U+FFFD that the cut after 31 bytes falls into. */
  predicate CutInReplacement(path: Path)
  {
    32 <= |path| <= 33 && path[|path| - 3..] == REPLACEMENT
  }

  /** A path is read back as written exactly when it is UTF-8 without NUL and has at most 31 bytes, or
      the cut falls into a U+FFFD at its end, which decoding then puts back. */
  lemma PathFitsIff(path: Path)
    ensures PathFits(path) <==> IsText(path) && 0 !in path && (|path| <= 31 || CutInReplacement(path))
  {
    DecodedIsText(CutAtNul(PathField(path)));
    DecodedKeepsNul(CutAtNul(PathField(path)));
    if IsText(path) && 0 !in path {
      KeptBytes(path);
      if |path| <= 31 {
        DecodedSameIff(path);
      } else if CutInReplacement(path) {
        ReplacementPutBack(path);
      } else {
        CutLosesPath(path);
      }
    }
  }

  lemma ReplacementPutBack(path: Path)
    requires IsText(path) && CutInReplacement(path)
    ensures Decoded(path[..31]) == path
  {
    var x, m := path[..|path| - 3], 34 - |path|;
    assert path == x + REPLACEMENT;
    TextBeforeReplacement(x);
    assert path[..31] == x + REPLACEMENT[..m];
    DecodedConcat(x, REPLACEMENT[..m]);
    CutChar(REPLACEMENT, m);
  }

  lemma CutLosesPath(path: Path)
    requires IsText(path) && |path| > 31 && !CutInReplacement(path)
    ensures Decoded(path[..31]) != path
  {
    var a := DecodedPrefix(path, 31);
    assert (a + REPLACEMENT)[|a|..] == REPLACEMENT;
  }

  // ---------------------------------------------------------------------------
  // The index
  // ---------------------------------------------------------------------------

  function IndexBytes(entries: seq<Entry>): (r: seq<byte>)
    ensures |r| == ENTRY_SIZE * |entries|
  {
    if entries == [] then []
    else IndexBytes(entries[..|entries| - 1]) + EntryBytes(entries[|entries| - 1])
  }

  lemma {:induction false} IndexBytesAt(entries: seq<Entry>, i: nat)
    requires i < |entries|
    ensures IndexBytes(entries)[ENTRY_SIZE * i..ENTRY_SIZE * i + ENTRY_SIZE] == EntryBytes(entries[i])
  {
    var n := |entries| - 1;
    if i < n {
      IndexBytesAt(entries[..n], i);
      var front := IndexBytes(entries[..n]);
      assert IndexBytes(entries) == front + EntryBytes(entries[n]);
      assert (front + EntryBytes(entries[n]))[ENTRY_SIZE * i..ENTRY_SIZE * i + ENTRY_SIZE]
          == front[ENTRY_SIZE * i..ENTRY_SIZE * i + ENTRY_SIZE];
    }
  }

  /** Entry `i` of an image. */
  function EntryAt(img: seq<byte>, i: nat): (e: Entry)
    requires i < ENTRIES && |img| >= INDEX_START + INDEX_BYTES
    ensures e.Fits()
  {
    ParseEntry(img[INDEX_START + ENTRY_SIZE * i..INDEX_START + ENTRY_SIZE * i + ENTRY_SIZE])
  }

  function Entries(img: seq<byte>): (r: seq<Entry>)
    requires |img| >= INDEX_START + INDEX_BYTES
    ensures |r| == ENTRIES && forall i :: 0 <= i < ENTRIES ==> r[i] == EntryAt(img, i)
  {
    seq(ENTRIES, i requires 0 <= i < ENTRIES => EntryAt(img, i))
  }

  lemma IndexRoundTrip(img: seq<byte>, entries: seq<Entry>, i: nat)
    requires |entries| == ENTRIES && i < ENTRIES && entries[i].Fits()
    ensures |Put(img, INDEX_START, IndexBytes(entries))| >= INDEX_START + INDEX_BYTES
    ensures EntryAt(Put(img, INDEX_START, IndexBytes(entries)), i) == Stored(entries[i])
  {
    var raw := IndexBytes(entries);
    var img' := Put(img, INDEX_START, raw);
    PutSame(img, INDEX_START, raw);
    assert img'[INDEX_START..INDEX_START + INDEX_BYTES] == raw;
    IndexBytesAt(entries, i);
    var lo := ENTRY_SIZE * i;
    assert img'[INDEX_START + lo..INDEX_START + lo + ENTRY_SIZE]
        == img'[INDEX_START..INDEX_START + INDEX_BYTES][lo..lo + ENTRY_SIZE];
    EntryRoundTrip(entries[i]);
  }

  // ---------------------------------------------------------------------------
  // File data
  // ---------------------------------------------------------------------------

  function Sectors(size: nat): nat { (size + SECTOR - 1) / SECTOR }

  function FitsInPlace(oldSize: nat, newSize: nat): bool { Sectors(newSize) <= Sectors(oldSize) }

  function Pad(data: seq<byte>): (r: seq<byte>)
    ensures data <= r && |r| == SECTOR * Sectors(|data|)
  {
    data + Zeros((SECTOR - |data| % SECTOR) % SECTOR)
  }

  /** One past the last sector of the file. */
  function EndOf(e: Entry): nat { e.lba + Sectors(e.size) }

  /** `read_file_data`. */
  function ReadData(img: seq<byte>, lba: nat, size: nat): (r: seq<byte>)
  {
    var lo := Min(lba * SECTOR, |img|);
    var raw := img[lo..Min(lo + Sectors(size) * SECTOR, |img|)];
    if size <= |raw| then raw[..size] else raw
  }

  /** The extent is in the data area and in the image. An empty file may lie at the start of the data
      area of an image that ends before it. */
  predicate Inside(img: seq<byte>, e: Entry)
  {
    DATA_START_LBA <= e.lba && EndOf(e) * SECTOR <= Max(|img|, DATA_START_LBA * SECTOR)
  }

  lemma ReadDataIs(img: seq<byte>, e: Entry)
    requires Inside(img, e)
    ensures e.size == 0 ==> ReadData(img, e.lba, e.size) == []
    ensures e.size > 0 ==> e.lba * SECTOR + e.size <= |img|
                           && ReadData(img, e.lba, e.size) == img[e.lba * SECTOR..e.lba * SECTOR + e.size]
  {
  }

  predicate Apart(a: Entry, b: Entry) { EndOf(a) <= b.lba || EndOf(b) <= a.lba }

  /** The end of the data area: after every file, and no further. */
  function DataEnd(entries: seq<Entry>): (r: nat)
    ensures r >= DATA_START_LBA
    ensures forall i :: 0 <= i < |entries| && entries[i].IsValid() && entries[i].lba >= DATA_START_LBA ==>
              EndOf(entries[i]) <= r
    ensures r == DATA_START_LBA || exists i :: 0 <= i < |entries| && entries[i].IsValid() && EndOf(entries[i]) == r
  {
    if entries == [] then DATA_START_LBA
    else
      var front, e := entries[..|entries| - 1], entries[|entries| - 1];
      var r := DataEnd(front);
      assert forall i :: 0 <= i < |front| ==> front[i] == entries[i];
      if e.IsValid() && e.lba >= DATA_START_LBA then Max(r, EndOf(e)) else r
  }
}
