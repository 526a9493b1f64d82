/** Installing files into an IONAFS image (scripts/install-to-ionafs.py). */
module Installer {
  import opened Common
  import opened Ionafs

  // ---------------------------------------------------------------------------
  // Looking up entries
  // ---------------------------------------------------------------------------

  predicate Matches(e: Entry, path: Path) { e.IsValid() && e.path == path }

  /** The first valid entry with this path. */
  ghost predicate IsFound(entries: seq<Entry>, path: Path, r: Option<nat>)
  {
    match r
    case None => forall i :: 0 <= i < |entries| ==> !Matches(entries[i], path)
    case Some(k) => k < |entries| && Matches(entries[k], path) && forall i :: 0 <= i < k ==> !Matches(entries[i], path)
  }

  ghost predicate IsFreeSlot(entries: seq<Entry>, r: Option<nat>)
  {
    match r
    case None => forall i :: 0 <= i < |entries| ==> !entries[i].IsEmpty()
    case Some(k) => k < |entries| && entries[k].IsEmpty() && forall i :: 0 <= i < k ==> !entries[i].IsEmpty()
  }

  method FindByPath(entries: seq<Entry>, path: Path) returns (r: Option<nat>)
    ensures IsFound(entries, path, r)
  {
    for i := 0 to |entries|
      invariant forall j :: 0 <= j < i ==> !Matches(entries[j], path)
    {
      if entries[i].path == path && entries[i].IsValid() {
        return Some(i);
      }
    }
    return None;
  }

  method FindFreeSlot(entries: seq<Entry>) returns (r: Option<nat>)
    ensures IsFreeSlot(entries, r)
  {
    for i := 0 to |entries|
      invariant forall j :: 0 <= j < i ==> !entries[j].IsEmpty()
    {
      if entries[i].IsEmpty() {
        return Some(i);
      }
    }
    return None;
  }

  method GetDataEndLba(entries: seq<Entry>) returns (maxLba: nat)
    ensures maxLba == DataEnd(entries)
  {
    maxLba := DATA_START_LBA;
    for i := 0 to |entries|
      invariant maxLba == DataEnd(entries[..i])
    {
      var entry := entries[i];
      assert entries[..i + 1][..i] == entries[..i] && entries[..i + 1][i] == entry;
      if !entry.IsValid() {
        continue;
      }
      if entry.lba < DATA_START_LBA {
        continue;
      }
      var endLba := entry.lba + (entry.size + SECTOR - 1) / SECTOR;
      if endLba > maxLba {
        maxLba := endLba;
      }
    }
    assert entries[..|entries|] == entries;
  }

  /** The number of entries with these flags. */
  function CountFlags(entries: seq<Entry>, flags: nat): (n: nat)
    ensures n <= |entries|
    ensures n == 0 <==> forall i :: 0 <= i < |entries| ==> entries[i].flags != flags
  {
    if entries == [] then 0
    else (if entries[0].flags == flags then 1 else 0) + CountFlags(entries[1..], flags)
  }

  lemma {:induction false} CountAgree(a: seq<Entry>, b: seq<Entry>, flags: nat)
    requires |a| == |b| && forall i :: 0 <= i < |a| ==> a[i].flags == b[i].flags
    ensures CountFlags(a, flags) == CountFlags(b, flags)
  {
    if a != [] {
      CountAgree(a[1..], b[1..], flags);
    }
  }

  lemma {:induction false} CountUpdate(entries: seq<Entry>, k: nat, e: Entry, flags: nat)
    requires k < |entries|
    ensures CountFlags(entries[k := e], flags) + (if entries[k].flags == flags then 1 else 0)
         == CountFlags(entries, flags) + (if e.flags == flags then 1 else 0)
  {
    if k == 0 {
      assert entries[k := e][1..] == entries[1..];
    } else {
      CountUpdate(entries[1..], k - 1, e, flags);
      assert entries[k := e][1..] == entries[1..][k - 1 := e];
    }
  }

  // ---------------------------------------------------------------------------
  // Well-formed images, and the files they hold
  // ---------------------------------------------------------------------------

  predicate HasIndex(img: seq<byte>) { |img| >= INDEX_START + INDEX_BYTES }

  function Super(img: seq<byte>): Superblock
    requires |img| >= SECTOR
  {
    ParseSuperblock(img[..SECTOR])
  }

  /** Valid extents are inside the data area and pairwise disjoint; no path occurs twice. */
  ghost predicate GoodFiles(img: seq<byte>)
  {
    && HasIndex(img)
    && (forall i :: 0 <= i < ENTRIES && EntryAt(img, i).IsValid() ==>
          PathFits(EntryAt(img, i).path) && Inside(img, EntryAt(img, i)))
    && (forall i, j :: 0 <= i < ENTRIES && 0 <= j < ENTRIES && i != j
                       && EntryAt(img, i).IsValid() && EntryAt(img, j).IsValid() ==>
          Apart(EntryAt(img, i), EntryAt(img, j)) && EntryAt(img, i).path != EntryAt(img, j).path)
  }

  ghost predicate Good(img: seq<byte>)
  {
    && GoodFiles(img) && Super(img).magic == MAGIC
    && Super(img).numFiles == CountFlags(Entries(img), 1)
  }

  /** Entry `j` is a file with this path and this content. */
  ghost predicate Gives(img: seq<byte>, j: nat, path: Path, data: seq<byte>)
    requires HasIndex(img) && j < ENTRIES
  {
    var e := EntryAt(img, j);
    Matches(e, path) && ReadData(img, e.lba, e.size) == data
  }

  ghost predicate Holds(img: seq<byte>, path: Path, data: seq<byte>)
    requires HasIndex(img)
  {
    exists j :: 0 <= j < ENTRIES && Gives(img, j, path, data)
  }

  ghost function PathsOf(img: seq<byte>): set<Path>
    requires HasIndex(img)
  {
    set i | 0 <= i < ENTRIES && EntryAt(img, i).IsValid() :: EntryAt(img, i).path
  }

  lemma SomeContent(img: seq<byte>, path: Path)
    requires HasIndex(img) && path in PathsOf(img)
    ensures exists data :: Holds(img, path, data)
  {
    var i :| 0 <= i < ENTRIES && EntryAt(img, i).IsValid() && EntryAt(img, i).path == path;
    var data := ReadData(img, EntryAt(img, i).lba, EntryAt(img, i).size);
    assert Gives(img, i, path, data);
    assert Holds(img, path, data);
  }

  lemma OneContent(img: seq<byte>, path: Path, a: seq<byte>, b: seq<byte>)
    requires GoodFiles(img) && Holds(img, path, a) && Holds(img, path, b)
    ensures a == b
  {
  }

  /** The image as a map from paths to contents. */
  ghost function Files(img: seq<byte>): map<Path, seq<byte>>
    requires GoodFiles(img)
  {
    map path | path in PathsOf(img) :: SomeContent(img, path); var data :| Holds(img, path, data); data
  }

  lemma FilesHold(img: seq<byte>, path: Path, data: seq<byte>)
    requires GoodFiles(img)
    ensures path in Files(img) && Files(img)[path] == data <==> Holds(img, path, data)
  {
    if path in Files(img) {
      SomeContent(img, path);
      assert Holds(img, path, Files(img)[path]);
      if Holds(img, path, data) {
        OneContent(img, path, data, Files(img)[path]);
      }
    }
  }

  // ---------------------------------------------------------------------------
  // Where a file goes
  // ---------------------------------------------------------------------------

  datatype Plan = Plan(idx: nat, lba: nat, isNew: bool)

  ghost predicate IsPlan(entries: seq<Entry>, path: Path, size: nat, plan: Plan)
  {
    && plan.idx < |entries|
    && if plan.isNew then
         IsFound(entries, path, None) && IsFreeSlot(entries, Some(plan.idx)) && plan.lba == DataEnd(entries)
       else
         && IsFound(entries, path, Some(plan.idx))
         && plan.lba == if FitsInPlace(entries[plan.idx].size, size) then entries[plan.idx].lba else DataEnd(entries)
  }

  function NewEntry(plan: Plan, path: Path, data: seq<byte>): Entry
  {
    Entry(path, plan.lba, |data|, 1)
  }

  /** The new extent meets no file but the one it replaces. */
  lemma PlanApart(img: seq<byte>, path: Path, data: seq<byte>, plan: Plan, j: nat)
    requires GoodFiles(img) && IsPlan(Entries(img), path, |data|, plan)
    requires j < ENTRIES && j != plan.idx && EntryAt(img, j).IsValid()
    ensures EntryAt(img, j).path != path && plan.lba >= DATA_START_LBA
    ensures Apart(NewEntry(plan, path, data), EntryAt(img, j))
  {
    var entries := Entries(img);
    assert entries[j] == EntryAt(img, j);
    if !plan.isNew {
      assert entries[plan.idx] == EntryAt(img, plan.idx);
    }
  }

  lemma PlanAddress(img: seq<byte>, path: Path, data: seq<byte>, plan: Plan)
    requires GoodFiles(img) && IsPlan(Entries(img), path, |data|, plan)
    ensures plan.lba >= DATA_START_LBA && plan.lba * SECTOR <= Max(|img|, DATA_START_LBA * SECTOR)
  {
    var entries := Entries(img);
    assert forall i :: 0 <= i < ENTRIES ==> entries[i] == EntryAt(img, i);
    if plan.lba != DataEnd(entries) {
      assert Inside(img, EntryAt(img, plan.idx));
    } else if plan.lba != DATA_START_LBA {
      var i :| 0 <= i < |entries| && entries[i].IsValid() && EndOf(entries[i]) == plan.lba;
      assert Inside(img, EntryAt(img, i));
    }
  }

  // ---------------------------------------------------------------------------
  // The three writes
  // ---------------------------------------------------------------------------

  function WithData(img: seq<byte>, plan: Plan, data: seq<byte>): (r: seq<byte>)
    ensures |r| >= |img|
  {
    Put(img, plan.lba * SECTOR, Pad(data))
  }

  function WithIndex(img: seq<byte>, entries: seq<Entry>): (r: seq<byte>)
    requires |entries| == ENTRIES
    ensures |r| >= |img| && HasIndex(r)
  {
    Put(img, INDEX_START, IndexBytes(entries))
  }

  function WithSuper(img: seq<byte>, s: Superblock): (r: seq<byte>)
    ensures |r| >= |img|
  {
    Put(img, 0, SuperblockBytes(s))
  }

  /** Writing file data leaves the superblock and the index alone. */
  lemma DataKeepsHeader(img: seq<byte>, plan: Plan, data: seq<byte>)
    requires HasIndex(img) && plan.lba >= DATA_START_LBA
    ensures Super(WithData(img, plan, data)) == Super(img)
    ensures forall i :: 0 <= i < ENTRIES ==> EntryAt(WithData(img, plan, data), i) == EntryAt(img, i)
  {
    var img' := WithData(img, plan, data);
    var offset := plan.lba * SECTOR;
    PutOther(img, offset, Pad(data), 0, SECTOR);
    assert img'[..SECTOR] == img'[0..SECTOR] && img[..SECTOR] == img[0..SECTOR];
    forall i | 0 <= i < ENTRIES ensures EntryAt(img', i) == EntryAt(img, i) {
      var lo := INDEX_START + ENTRY_SIZE * i;
      PutOther(img, offset, Pad(data), lo, lo + ENTRY_SIZE);
    }
  }

  /** Nor does it touch a file apart from it. */
  lemma DataKeepsFile(img: seq<byte>, plan: Plan, path: Path, data: seq<byte>, e: Entry)
    requires Inside(img, e) && Apart(NewEntry(plan, path, data), e)
    ensures Inside(WithData(img, plan, data), e)
    ensures ReadData(WithData(img, plan, data), e.lba, e.size) == ReadData(img, e.lba, e.size)
  {
    ReadDataIs(img, e);
    ReadDataIs(WithData(img, plan, data), e);
    if e.size > 0 {
      PutOther(img, plan.lba * SECTOR, Pad(data), e.lba * SECTOR, e.lba * SECTOR + e.size);
    }
  }

  lemma DataWritten(img: seq<byte>, plan: Plan, path: Path, data: seq<byte>)
    requires plan.lba >= DATA_START_LBA && plan.lba * SECTOR <= Max(|img|, DATA_START_LBA * SECTOR)
    ensures var img' := WithData(img, plan, data);
            Inside(img', NewEntry(plan, path, data)) && ReadData(img', plan.lba, |data|) == data
  {
    var img' := WithData(img, plan, data);
    var offset := plan.lba * SECTOR;
    ReadDataIs(img', NewEntry(plan, path, data));
    if data != [] {
      PutSame(img, offset, Pad(data));
      assert img'[offset..offset + |data|] == img'[offset..offset + |Pad(data)|][..|data|];
    }
  }

  /** Writing the index or the superblock moves no file data. */
  lemma HeaderKeeps(img: seq<byte>, offset: nat, raw: seq<byte>, e: Entry)
    requires offset + |raw| <= DATA_START_LBA * SECTOR && Inside(img, e)
    ensures Inside(Put(img, offset, raw), e)
    ensures ReadData(Put(img, offset, raw), e.lba, e.size) == ReadData(img, e.lba, e.size)
  {
    ReadDataIs(img, e);
    ReadDataIs(Put(img, offset, raw), e);
    if e.size > 0 {
      PutOther(img, offset, raw, e.lba * SECTOR, e.lba * SECTOR + e.size);
    }
  }

  lemma IndexWritten(img: seq<byte>, entries: seq<Entry>)
    requires |img| >= SECTOR && |entries| == ENTRIES
    requires forall i :: 0 <= i < ENTRIES ==> entries[i].Fits()
    ensures Super(WithIndex(img, entries)) == Super(img)
    ensures forall i :: 0 <= i < ENTRIES ==> EntryAt(WithIndex(img, entries), i) == Stored(entries[i])
  {
    var img' := WithIndex(img, entries);
    PutOther(img, INDEX_START, IndexBytes(entries), 0, SECTOR);
    assert img'[..SECTOR] == img'[0..SECTOR] && img[..SECTOR] == img[0..SECTOR];
    forall i | 0 <= i < ENTRIES ensures EntryAt(img', i) == Stored(entries[i]) {
      IndexRoundTrip(img, entries, i);
    }
  }

  lemma SuperWritten(img: seq<byte>, s: Superblock)
    requires HasIndex(img) && s.Fits()
    ensures Super(WithSuper(img, s)) == s
    ensures forall i :: 0 <= i < ENTRIES ==> EntryAt(WithSuper(img, s), i) == EntryAt(img, i)
  {
    var img' := WithSuper(img, s);
    PutSame(img, 0, SuperblockBytes(s));
    assert img'[..SECTOR] == img'[0..0 + SECTOR] == SuperblockBytes(s);
    SuperblockRoundTrip(s);
    forall i | 0 <= i < ENTRIES ensures EntryAt(img', i) == EntryAt(img, i) {
      var lo := INDEX_START + ENTRY_SIZE * i;
      PutOther(img, 0, SuperblockBytes(s), lo, lo + ENTRY_SIZE);
    }
  }

  // ---------------------------------------------------------------------------
  // The image after each write
  // ---------------------------------------------------------------------------

  /** `img'` holds the file `data` in entry `idx` and otherwise the files of `img`. */
  ghost predicate Replaces(img: seq<byte>, img': seq<byte>, idx: nat, e: Entry, data: seq<byte>)
    requires HasIndex(img)
  {
    && HasIndex(img') && idx < ENTRIES
    && EntryAt(img', idx) == e && ReadData(img', e.lba, e.size) == data
    && forall j :: 0 <= j < ENTRIES && j != idx ==> SameFile(img, img', j)
  }

  /** Entry `j` has the same flags and, if it is valid, the same path, extent and content. */
  ghost predicate SameFile(img: seq<byte>, img': seq<byte>, j: nat)
    requires HasIndex(img) && HasIndex(img') && j < ENTRIES
  {
    var e := EntryAt(img, j);
    && EntryAt(img', j).flags == e.flags
    && (e.IsValid() ==> EntryAt(img', j) == e && (Inside(img, e) ==> Inside(img', e))
                        && ReadData(img', e.lba, e.size) == ReadData(img, e.lba, e.size))
  }

  lemma AfterData(img: seq<byte>, plan: Plan, path: Path, data: seq<byte>, j: nat)
    requires GoodFiles(img) && IsPlan(Entries(img), path, |data|, plan) && j < ENTRIES
    requires j != plan.idx || (!plan.isNew && plan.lba == DataEnd(Entries(img)))
    ensures SameFile(img, WithData(img, plan, data), j)
  {
    PlanAddress(img, path, data, plan);
    DataKeepsHeader(img, plan, data);
    var e := EntryAt(img, j);
    if e.IsValid() {
      if j != plan.idx {
        PlanApart(img, path, data, plan, j);
      } else {
        assert Entries(img)[j] == e;
      }
      DataKeepsFile(img, plan, path, data, e);
    }
  }

  function NewEntries(img: seq<byte>, plan: Plan, path: Path, data: seq<byte>): (r: seq<Entry>)
    requires HasIndex(img) && plan.idx < ENTRIES
    ensures |r| == ENTRIES
  {
    Entries(img)[plan.idx := NewEntry(plan, path, data)]
  }

  lemma AfterIndex(img: seq<byte>, plan: Plan, path: Path, data: seq<byte>)
    requires GoodFiles(img) && IsPlan(Entries(img), path, |data|, plan)
    requires plan.lba < U64_LIMIT && |data| < U64_LIMIT
    ensures var img' := WithIndex(WithData(img, plan, data), NewEntries(img, plan, path, data));
            var e := Stored(NewEntry(plan, path, data));
            Replaces(img, img', plan.idx, e, data) && Super(img') == Super(img) && Inside(img', e)
  {
    var img1 := WithData(img, plan, data);
    var entries := NewEntries(img, plan, path, data);
    PlanAddress(img, path, data, plan);
    DataKeepsHeader(img, plan, data);
    IndexWritten(img1, entries);
    NewFileWritten(img, plan, path, data, entries);
    forall j | 0 <= j < ENTRIES && j != plan.idx ensures SameFile(img, WithIndex(img1, entries), j) {
      AfterData(img, plan, path, data, j);
      IndexKeepsFile(img, img1, entries, j);
    }
  }

  lemma NewFileWritten(img: seq<byte>, plan: Plan, path: Path, data: seq<byte>, entries: seq<Entry>)
    requires |entries| == ENTRIES && plan.lba >= DATA_START_LBA
    requires plan.lba * SECTOR <= Max(|img|, DATA_START_LBA * SECTOR)
    ensures var img' := WithIndex(WithData(img, plan, data), entries);
            ReadData(img', plan.lba, |data|) == data && Inside(img', Stored(NewEntry(plan, path, data)))
  {
    DataWritten(img, plan, path, data);
    HeaderKeeps(WithData(img, plan, data), INDEX_START, IndexBytes(entries), NewEntry(plan, path, data));
  }

  lemma IndexKeepsFile(img: seq<byte>, img1: seq<byte>, entries: seq<Entry>, j: nat)
    requires GoodFiles(img) && HasIndex(img1) && j < ENTRIES && SameFile(img, img1, j)
    requires |entries| == ENTRIES && entries[j] == EntryAt(img, j)
    requires EntryAt(WithIndex(img1, entries), j) == Stored(entries[j])
    ensures SameFile(img, WithIndex(img1, entries), j)
  {
    var e := EntryAt(img, j);
    if e.IsValid() {
      HeaderKeeps(img1, INDEX_START, IndexBytes(entries), e);
    }
  }

  lemma AfterSuper(img: seq<byte>, img2: seq<byte>, idx: nat, e: Entry, data: seq<byte>, s: Superblock)
    requires GoodFiles(img) && Replaces(img, img2, idx, e, data) && Inside(img2, e) && s.Fits()
    ensures Replaces(img, WithSuper(img2, s), idx, e, data) && Super(WithSuper(img2, s)) == s
    ensures Inside(WithSuper(img2, s), e)
  {
    SuperWritten(img2, s);
    HeaderKeeps(img2, 0, SuperblockBytes(s), e);
    forall j | 0 <= j < ENTRIES && j != idx ensures SameFile(img, WithSuper(img2, s), j) {
      assert SameFile(img, img2, j);
      if EntryAt(img, j).IsValid() {
        HeaderKeeps(img2, 0, SuperblockBytes(s), EntryAt(img, j));
      }
    }
  }

  // ---------------------------------------------------------------------------
  // What an install means
  // ---------------------------------------------------------------------------

  /** An entry that survives an install, beside the new one. */
  lemma ReplacedEntry(img: seq<byte>, img': seq<byte>, plan: Plan, path: Path, data: seq<byte>, j: nat)
    requires GoodFiles(img) && IsPlan(Entries(img), path, |data|, plan)
    requires Replaces(img, img', plan.idx, Stored(NewEntry(plan, path, data)), data)
    requires j < ENTRIES && j != plan.idx && EntryAt(img', j).IsValid()
    ensures EntryAt(img', j) == EntryAt(img, j) && PathFits(EntryAt(img, j).path) && EntryAt(img, j).path != path
    ensures Inside(img', EntryAt(img, j)) && Apart(NewEntry(plan, path, data), EntryAt(img, j))
  {
    assert SameFile(img, img', j);
    PlanApart(img, path, data, plan, j);
  }

  lemma ReplacesGood(img: seq<byte>, img': seq<byte>, plan: Plan, path: Path, data: seq<byte>)
    requires GoodFiles(img) && IsPlan(Entries(img), path, |data|, plan) && PathFits(path)
    requires Replaces(img, img', plan.idx, Stored(NewEntry(plan, path, data)), data)
    requires Inside(img', Stored(NewEntry(plan, path, data)))
    ensures GoodFiles(img')
  {
    forall i | 0 <= i < ENTRIES && EntryAt(img', i).IsValid()
      ensures PathFits(EntryAt(img', i).path) && Inside(img', EntryAt(img', i))
    {
      if i != plan.idx {
        ReplacedEntry(img, img', plan, path, data, i);
      }
    }
    forall i, j | 0 <= i < ENTRIES && 0 <= j < ENTRIES && i != j
                  && EntryAt(img', i).IsValid() && EntryAt(img', j).IsValid()
      ensures Apart(EntryAt(img', i), EntryAt(img', j)) && EntryAt(img', i).path != EntryAt(img', j).path
    {
      ReplacesPair(img, img', plan, path, data, i, j);
    }
  }

  lemma ReplacesPair(img: seq<byte>, img': seq<byte>, plan: Plan, path: Path, data: seq<byte>, i: nat, j: nat)
    requires GoodFiles(img) && IsPlan(Entries(img), path, |data|, plan) && PathFits(path)
    requires Replaces(img, img', plan.idx, Stored(NewEntry(plan, path, data)), data)
    requires i < ENTRIES && j < ENTRIES && i != j && EntryAt(img', i).IsValid() && EntryAt(img', j).IsValid()
    ensures Apart(EntryAt(img', i), EntryAt(img', j)) && EntryAt(img', i).path != EntryAt(img', j).path
  {
    if i != plan.idx {
      ReplacedEntry(img, img', plan, path, data, i);
    }
    if j != plan.idx {
      ReplacedEntry(img, img', plan, path, data, j);
    }
  }

  /** The file that was installed is found again exactly when its path fits an entry. */
  lemma FoundAgainIff(img: seq<byte>, img': seq<byte>, plan: Plan, path: Path, data: seq<byte>)
    requires GoodFiles(img) && IsPlan(Entries(img), path, |data|, plan)
    requires Replaces(img, img', plan.idx, Stored(NewEntry(plan, path, data)), data)
    ensures Holds(img', path, data) <==> PathFits(path)
    ensures !PathFits(path) ==> IsFound(Entries(img'), path, None)
  {
    if PathFits(path) {
      assert Gives(img', plan.idx, path, data);
    }
    forall j | 0 <= j < ENTRIES && j != plan.idx ensures !Matches(EntryAt(img', j), path) {
      if EntryAt(img', j).IsValid() {
        ReplacedEntry(img, img', plan, path, data, j);
      }
    }
  }

  lemma ReplacesGives(img: seq<byte>, img': seq<byte>, idx: nat, e: Entry, data: seq<byte>, p: Path, d: seq<byte>,
                      j: nat)
    requires HasIndex(img) && Replaces(img, img', idx, e, data) && j < ENTRIES
    requires e.path != p && !Matches(EntryAt(img, idx), p)
    ensures Gives(img', j, p, d) <==> Gives(img, j, p, d)
  {
    if j != idx {
      assert SameFile(img, img', j);
    }
  }

  lemma ReplacesHolds(img: seq<byte>, img': seq<byte>, plan: Plan, path: Path, data: seq<byte>, p: Path, d: seq<byte>)
    requires GoodFiles(img) && IsPlan(Entries(img), path, |data|, plan) && p != path
    requires Replaces(img, img', plan.idx, Stored(NewEntry(plan, path, data)), data) && PathFits(path)
    ensures Holds(img', p, d) <==> Holds(img, p, d)
  {
    assert Entries(img)[plan.idx] == EntryAt(img, plan.idx);
    forall j | 0 <= j < ENTRIES ensures Gives(img', j, p, d) <==> Gives(img, j, p, d) {
      ReplacesGives(img, img', plan.idx, Stored(NewEntry(plan, path, data)), data, p, d, j);
    }
  }

  ghost predicate Maps<K, V>(m: map<K, V>, k: K, v: V) { k in m && m[k] == v }

  lemma SameMaps<K, V>(a: map<K, V>, b: map<K, V>)
    requires forall k, v :: Maps(a, k, v) <==> Maps(b, k, v)
    ensures a == b
  {
    forall k | k in a ensures k in b && b[k] == a[k] {
      assert Maps(a, k, a[k]);
    }
    forall k | k in b ensures k in a {
      assert Maps(b, k, b[k]);
    }
  }

  lemma FilesUpdateAt(img: seq<byte>, img': seq<byte>, path: Path, data: seq<byte>, p: Path, d: seq<byte>)
    requires GoodFiles(img) && GoodFiles(img') && Holds(img', path, data)
    requires p != path ==> (Holds(img', p, d) <==> Holds(img, p, d))
    ensures Maps(Files(img'), p, d) <==> Maps(Files(img)[path := data], p, d)
  {
    FilesHold(img', p, d);
    if p == path {
      FilesHold(img', path, data);
    } else {
      FilesHold(img, p, d);
    }
  }

  /** Two images that hold the same but for one file. */
  lemma FilesUpdate(img: seq<byte>, img': seq<byte>, path: Path, data: seq<byte>)
    requires GoodFiles(img) && GoodFiles(img') && Holds(img', path, data)
    requires forall p, d :: p != path ==> (Holds(img', p, d) <==> Holds(img, p, d))
    ensures Files(img') == Files(img)[path := data]
  {
    forall p, d ensures Maps(Files(img'), p, d) <==> Maps(Files(img)[path := data], p, d) {
      FilesUpdateAt(img, img', path, data, p, d);
    }
    SameMaps(Files(img'), Files(img)[path := data]);
  }

  /** The files afterwards are those before, with this one. */
  lemma ReplacesFiles(img: seq<byte>, img': seq<byte>, plan: Plan, path: Path, data: seq<byte>)
    requires GoodFiles(img) && IsPlan(Entries(img), path, |data|, plan) && GoodFiles(img')
    requires Replaces(img, img', plan.idx, Stored(NewEntry(plan, path, data)), data) && PathFits(path)
    ensures Files(img') == Files(img)[path := data]
  {
    FoundAgainIff(img, img', plan, path, data);
    forall p, d | p != path ensures Holds(img', p, d) <==> Holds(img, p, d) {
      ReplacesHolds(img, img', plan, path, data, p, d);
    }
    FilesUpdate(img, img', path, data);
  }

  // ---------------------------------------------------------------------------
  // Stopping between the writes
  // ---------------------------------------------------------------------------

  function Stage1(img: seq<byte>, plan: Plan, data: seq<byte>): (r: seq<byte>)
    ensures |r| >= |img|
  {
    WithData(img, plan, data)
  }

  function Stage2(img: seq<byte>, plan: Plan, path: Path, data: seq<byte>): (r: seq<byte>)
    requires HasIndex(img) && plan.idx < ENTRIES
    ensures |r| == |Stage1(img, plan, data)|
  {
    WithIndex(Stage1(img, plan, data), NewEntries(img, plan, path, data))
  }

  /** The image after the first `k` of the three writes. */
  function Stage(img: seq<byte>, plan: Plan, path: Path, data: seq<byte>, s: Superblock, k: nat): (r: seq<byte>)
    requires HasIndex(img) && plan.idx < ENTRIES
  {
    if k == 0 then img
    else if k == 1 then Stage1(img, plan, data)
    else if k == 2 then Stage2(img, plan, path, data)
    else WithSuper(Stage2(img, plan, path, data), s)
  }

  /** Sector `k` of `t` is that of `source`, which counts as zeros past its end. */
  ghost predicate SectorFrom(source: seq<byte>, t: seq<byte>, k: nat)
  {
    forall i :: k * SECTOR <= i < (k + 1) * SECTOR && i < |t| ==> t[i] == if i < |source| then source[i] else 0
  }

  /** `t` is an image after a crash in the middle of a write that turns `a` into `b`: each of its sectors is
      the old or the new one, and it has grown any part of the way. */
  ghost predicate IsTorn(a: seq<byte>, b: seq<byte>, t: seq<byte>)
  {
    |a| <= |t| <= |b| && forall k: nat :: SectorFrom(a, t, k) || SectorFrom(b, t, k)
  }

  lemma TornSlice(a: seq<byte>, b: seq<byte>, t: seq<byte>, k: nat, lo: nat, hi: nat)
    requires IsTorn(a, b, t) && k * SECTOR <= lo <= hi <= (k + 1) * SECTOR && hi <= |a|
    ensures t[lo..hi] == a[lo..hi] || t[lo..hi] == b[lo..hi]
  {
    if SectorFrom(a, t, k) {
      assert t[lo..hi] == a[lo..hi];
    } else {
      assert SectorFrom(b, t, k);
      assert t[lo..hi] == b[lo..hi];
    }
  }

  /** Bytes that the write does not change are safe. */
  lemma TornByte(a: seq<byte>, b: seq<byte>, t: seq<byte>, i: nat)
    requires IsTorn(a, b, t) && i < |a| && a[i] == b[i]
    ensures t[i] == a[i]
  {
    assert SectorFrom(a, t, i / SECTOR) || SectorFrom(b, t, i / SECTOR);
  }

  lemma TornAgree(a: seq<byte>, b: seq<byte>, t: seq<byte>, lo: nat, hi: nat)
    requires IsTorn(a, b, t) && lo <= hi <= |a| && a[lo..hi] == b[lo..hi]
    ensures t[lo..hi] == a[lo..hi]
  {
    forall i | lo <= i < hi ensures t[i] == a[i] {
      assert a[lo..hi][i - lo] == b[lo..hi][i - lo];
      TornByte(a, b, t, i);
    }
  }

  /** In the middle of the data write the index is as before. */
  lemma TornDataEntry(img: seq<byte>, plan: Plan, data: seq<byte>, t: seq<byte>, j: nat)
    requires HasIndex(img) && plan.lba >= DATA_START_LBA && j < ENTRIES
    requires IsTorn(img, WithData(img, plan, data), t)
    ensures EntryAt(t, j) == EntryAt(img, j)
  {
    var lo := INDEX_START + ENTRY_SIZE * j;
    PutOther(img, plan.lba * SECTOR, Pad(data), lo, lo + ENTRY_SIZE);
    TornAgree(img, WithData(img, plan, data), t, lo, lo + ENTRY_SIZE);
  }

  /** And so is every file apart from the new extent. */
  lemma TornData(img: seq<byte>, plan: Plan, path: Path, data: seq<byte>, t: seq<byte>, j: nat)
    requires GoodFiles(img) && plan.lba >= DATA_START_LBA && j < ENTRIES
    requires IsTorn(img, WithData(img, plan, data), t)
    requires EntryAt(img, j).IsValid() ==> Apart(NewEntry(plan, path, data), EntryAt(img, j))
    ensures SameFile(img, t, j)
  {
    TornDataEntry(img, plan, data, t, j);
    var e := EntryAt(img, j);
    if e.IsValid() {
      TornFile(img, WithData(img, plan, data), t, e, plan.lba * SECTOR, Pad(data));
    }
  }

  /** A plan for new space is apart from every file, the replaced one included. */
  lemma NewSpaceApart(img: seq<byte>, path: Path, data: seq<byte>, plan: Plan, j: nat)
    requires GoodFiles(img) && IsPlan(Entries(img), path, |data|, plan) && plan.lba == DataEnd(Entries(img))
    requires j < ENTRIES && EntryAt(img, j).IsValid()
    ensures Apart(NewEntry(plan, path, data), EntryAt(img, j))
  {
    assert Entries(img)[j] == EntryAt(img, j);
  }

  lemma TornFile(a: seq<byte>, b: seq<byte>, t: seq<byte>, e: Entry, offset: nat, raw: seq<byte>)
    requires IsTorn(a, b, t) && b == Put(a, offset, raw) && Inside(a, e)
    requires EndOf(e) * SECTOR <= offset || offset + |raw| <= e.lba * SECTOR
    ensures Inside(t, e) && ReadData(t, e.lba, e.size) == ReadData(a, e.lba, e.size)
  {
    ReadDataIs(a, e);
    ReadDataIs(t, e);
    if e.size > 0 {
      var lo := e.lba * SECTOR;
      PutOther(a, offset, raw, lo, lo + e.size);
      TornAgree(a, b, t, lo, lo + e.size);
    }
  }

  /** The entry of a file after a crash in the middle of the index write: the old one or the new one. */
  lemma TornEntry(img1: seq<byte>, entries: seq<Entry>, t: seq<byte>, j: nat)
    requires HasIndex(img1) && |entries| == ENTRIES && IsTorn(img1, WithIndex(img1, entries), t) && j < ENTRIES
    ensures EntryAt(t, j) == EntryAt(img1, j) || EntryAt(t, j) == EntryAt(WithIndex(img1, entries), j)
  {
    var lo := INDEX_START + ENTRY_SIZE * j;
    TornSlice(img1, WithIndex(img1, entries), t, 1 + j / 8, lo, lo + ENTRY_SIZE);
  }

  /** In the middle of the index write every other file is as before. */
  lemma TornOther(img: seq<byte>, plan: Plan, path: Path, data: seq<byte>, t: seq<byte>, j: nat)
    requires GoodFiles(img) && IsPlan(Entries(img), path, |data|, plan)
    requires plan.lba < U64_LIMIT && |data| < U64_LIMIT && j < ENTRIES && j != plan.idx
    requires IsTorn(Stage1(img, plan, data), Stage2(img, plan, path, data), t)
    ensures SameFile(img, t, j)
  {
    var img1, entries := Stage1(img, plan, data), NewEntries(img, plan, path, data);
    AfterData(img, plan, path, data, j);
    AfterIndex(img, plan, path, data);
    assert SameFile(img, Stage2(img, plan, path, data), j);
    TornEntry(img1, entries, t, j);
    var e := EntryAt(img, j);
    if e.IsValid() {
      TornFile(img1, Stage2(img, plan, path, data), t, e, INDEX_START, IndexBytes(entries));
    }
  }

  /** And the installed one is as before or new. */
  lemma TornIndex(img: seq<byte>, plan: Plan, path: Path, data: seq<byte>, t: seq<byte>)
    requires GoodFiles(img) && IsPlan(Entries(img), path, |data|, plan) && plan.lba == DataEnd(Entries(img))
    requires plan.lba < U64_LIMIT && |data| < U64_LIMIT
    requires IsTorn(Stage1(img, plan, data), Stage2(img, plan, path, data), t)
    ensures var e := Stored(NewEntry(plan, path, data));
            || SameFile(img, t, plan.idx)
            || (EntryAt(t, plan.idx) == e && ReadData(t, e.lba, e.size) == data && Inside(t, e))
  {
    var img1, img2 := Stage1(img, plan, data), Stage2(img, plan, path, data);
    var entries, e := NewEntries(img, plan, path, data), Stored(NewEntry(plan, path, data));
    AfterIndex(img, plan, path, data);
    PlanAddress(img, path, data, plan);
    DataWritten(img, plan, path, data);
    TornEntry(img1, entries, t, plan.idx);
    TornFile(img1, img2, t, e, INDEX_START, IndexBytes(entries));
    if EntryAt(t, plan.idx) != e {
      TornKeepsOld(img, plan, path, data, t);
    }
  }

  lemma TornKeepsOld(img: seq<byte>, plan: Plan, path: Path, data: seq<byte>, t: seq<byte>)
    requires GoodFiles(img) && IsPlan(Entries(img), path, |data|, plan) && plan.lba == DataEnd(Entries(img))
    requires IsTorn(Stage1(img, plan, data), Stage2(img, plan, path, data), t)
    requires EntryAt(t, plan.idx) == EntryAt(Stage1(img, plan, data), plan.idx)
    ensures SameFile(img, t, plan.idx)
  {
    var img1, img2 := Stage1(img, plan, data), Stage2(img, plan, path, data);
    var old' := EntryAt(img, plan.idx);
    assert Entries(img)[plan.idx] == old';
    if plan.isNew {
      PlanAddress(img, path, data, plan);
      DataKeepsHeader(img, plan, data);
    } else {
      AfterData(img, plan, path, data, plan.idx);
      TornFile(img1, img2, t, old', INDEX_START, IndexBytes(NewEntries(img, plan, path, data)));
    }
  }

  /** The superblock is one sector: it is written or not. */
  lemma TornSuper(img2: seq<byte>, s: Superblock, t: seq<byte>)
    requires HasIndex(img2) && IsTorn(img2, WithSuper(img2, s), t)
    ensures t == img2 || t == WithSuper(img2, s)
  {
    var img3 := WithSuper(img2, s);
    TornSlice(img2, img3, t, 0, 0, SECTOR);
    PutOther(img2, 0, SuperblockBytes(s), SECTOR, |img2|);
    TornAgree(img2, img3, t, SECTOR, |img2|);
    if t[0..SECTOR] == img2[0..SECTOR] {
      SplitSame(t, img2);
    } else {
      SplitSame(t, img3);
    }
  }

  lemma SplitSame(a: seq<byte>, b: seq<byte>)
    requires |a| == |b| >= SECTOR && a[0..SECTOR] == b[0..SECTOR] && a[SECTOR..|a|] == b[SECTOR..|a|]
    ensures a == b
  {
    assert a == a[0..SECTOR] + a[SECTOR..|a|] && b == b[0..SECTOR] + b[SECTOR..|a|];
  }

  /** When a file gets new space, a crash in the middle of any of the three writes, with any of its
      sectors written, leaves every earlier file readable, and the installed path holds the old or the
      new content. */
  lemma CrashSafe(img: seq<byte>, plan: Plan, path: Path, data: seq<byte>, s: Superblock, k: nat, t: seq<byte>)
    requires GoodFiles(img) && IsPlan(Entries(img), path, |data|, plan) && PathFits(path)
    requires plan.lba < U64_LIMIT && |data| < U64_LIMIT && s.Fits() && plan.lba == DataEnd(Entries(img))
    requires k < 3 && IsTorn(Stage(img, plan, path, data, s, k), Stage(img, plan, path, data, s, k + 1), t)
    ensures GoodFiles(t)
    ensures Files(t) == Files(img) || Files(t) == Files(img)[path := data]
    ensures k == 0 ==> Files(t) == Files(img)
    ensures k == 2 ==> Files(t) == Files(img)[path := data]
  {
    PlanAddress(img, path, data, plan);
    if k == 0 {
      forall j | 0 <= j < ENTRIES ensures SameFile(img, t, j) {
        if EntryAt(img, j).IsValid() {
          NewSpaceApart(img, path, data, plan, j);
        }
        TornData(img, plan, path, data, t, j);
      }
      SameImages(img, t);
    } else if k == 1 {
      CrashInIndex(img, plan, path, data, t);
    } else {
      TornSuper(Stage2(img, plan, path, data), s, t);
      var n := if t == Stage2(img, plan, path, data) then 2 else 3;
      StageReplaces(img, plan, path, data, s, n);
      ReplacesGood(img, t, plan, path, data);
      ReplacesFiles(img, t, plan, path, data);
    }
  }

  lemma CrashInIndex(img: seq<byte>, plan: Plan, path: Path, data: seq<byte>, t: seq<byte>)
    requires GoodFiles(img) && IsPlan(Entries(img), path, |data|, plan) && PathFits(path)
    requires plan.lba < U64_LIMIT && |data| < U64_LIMIT && plan.lba == DataEnd(Entries(img))
    requires IsTorn(Stage1(img, plan, data), Stage2(img, plan, path, data), t)
    ensures GoodFiles(t) && (Files(t) == Files(img) || Files(t) == Files(img)[path := data])
  {
    TornIndex(img, plan, path, data, t);
    forall j | 0 <= j < ENTRIES && j != plan.idx ensures SameFile(img, t, j) {
      TornOther(img, plan, path, data, t, j);
    }
    if SameFile(img, t, plan.idx) {
      SameImages(img, t);
    } else {
      ReplacesGood(img, t, plan, path, data);
      ReplacesFiles(img, t, plan, path, data);
    }
  }

  lemma StageReplaces(img: seq<byte>, plan: Plan, path: Path, data: seq<byte>, s: Superblock, k: nat)
    requires GoodFiles(img) && IsPlan(Entries(img), path, |data|, plan)
    requires plan.lba < U64_LIMIT && |data| < U64_LIMIT && s.Fits() && 2 <= k <= 3
    ensures var img' := Stage(img, plan, path, data, s, k);
            var e := Stored(NewEntry(plan, path, data));
            Replaces(img, img', plan.idx, e, data) && Inside(img', e) && Super(img') == if k == 2 then Super(img) else s
  {
    AfterIndex(img, plan, path, data);
    if k == 3 {
      AfterSuper(img, Stage(img, plan, path, data, s, 2), plan.idx, Stored(NewEntry(plan, path, data)), data, s);
    }
  }

  lemma SameImages(img: seq<byte>, img': seq<byte>)
    requires GoodFiles(img) && HasIndex(img') && forall j :: 0 <= j < ENTRIES ==> SameFile(img, img', j)
    ensures GoodFiles(img') && Files(img') == Files(img)
  {
    forall i | 0 <= i < ENTRIES && EntryAt(img', i).IsValid()
      ensures EntryAt(img', i) == EntryAt(img, i) && Inside(img', EntryAt(img, i))
    {
      assert SameFile(img, img', i);
    }
    forall p, d ensures Maps(Files(img'), p, d) <==> Maps(Files(img), p, d) {
      SameHolds(img, img', p, d);
      FilesHold(img', p, d);
      FilesHold(img, p, d);
    }
    SameMaps(Files(img'), Files(img));
  }

  lemma SameHolds(img: seq<byte>, img': seq<byte>, p: Path, d: seq<byte>)
    requires HasIndex(img) && HasIndex(img') && forall j :: 0 <= j < ENTRIES ==> SameFile(img, img', j)
    ensures Holds(img', p, d) <==> Holds(img, p, d)
  {
    forall j | 0 <= j < ENTRIES ensures Gives(img', j, p, d) <==> Gives(img, j, p, d) {
      assert SameFile(img, img', j);
    }
  }

  /** The old content with its first sectors replaced by the new ones. */
  function Spliced(old': seq<byte>, raw: seq<byte>): seq<byte>
  {
    if |old'| <= |raw| then raw[..|old'|] else raw + old'[|raw|..]
  }

  /** When space is reused, stopping after the data write leaves every file as it was exactly when the
      new sectors repeat the old content as far as both go. Other files are safe in any case. */
  lemma CrashInPlace(img: seq<byte>, plan: Plan, path: Path, data: seq<byte>)
    requires GoodFiles(img) && IsPlan(Entries(img), path, |data|, plan)
    requires !plan.isNew && FitsInPlace(EntryAt(img, plan.idx).size, |data|)
    ensures GoodFiles(WithData(img, plan, data)) && path in Files(img)
    ensures Files(WithData(img, plan, data)) == Files(img)[path := Spliced(Files(img)[path], Pad(data))]
    ensures Files(WithData(img, plan, data)) == Files(img) <==> AgreeOnCommon(Files(img)[path], Pad(data))
  {
    var was := InPlaceFiles(img, plan, path, data);
    UpdateSame(Files(img), path, Spliced(was, Pad(data)));
    SplicedSameIff(was, Pad(data));
  }

  /** A crash in the middle of that write costs no other file. */
  lemma CrashInPlaceOthers(img: seq<byte>, plan: Plan, path: Path, data: seq<byte>, t: seq<byte>, p: Path, d: seq<byte>)
    requires GoodFiles(img) && IsPlan(Entries(img), path, |data|, plan) && !plan.isNew && p != path
    requires IsTorn(img, WithData(img, plan, data), t)
    ensures Holds(t, p, d) <==> Holds(img, p, d)
  {
    PlanAddress(img, path, data, plan);
    assert Entries(img)[plan.idx] == EntryAt(img, plan.idx);
    forall j | 0 <= j < ENTRIES ensures Gives(t, j, p, d) <==> Gives(img, j, p, d) {
      if j == plan.idx {
        TornDataEntry(img, plan, data, t, j);
      } else {
        if EntryAt(img, j).IsValid() {
          PlanApart(img, path, data, plan, j);
        }
        TornData(img, plan, path, data, t, j);
      }
    }
  }

  predicate AgreeOnCommon(a: seq<byte>, b: seq<byte>)
  {
    forall k :: 0 <= k < |a| && k < |b| ==> a[k] == b[k]
  }

  lemma SplicedSameIff(was: seq<byte>, raw: seq<byte>)
    ensures Spliced(was, raw) == was <==> AgreeOnCommon(was, raw)
  {
    var r := Spliced(was, raw);
    assert forall k :: 0 <= k < |was| && k < |raw| ==> r[k] == raw[k];
    assert forall k :: |raw| <= k < |was| ==> r[k] == was[k];
  }

  lemma UpdateSame<K, V>(m: map<K, V>, k: K, v: V)
    requires k in m
    ensures m[k := v] == m <==> v == m[k]
  {
    if v == m[k] {
      assert m[k := v] == m;
    } else {
      assert m[k := v][k] == v;
    }
  }

  lemma InPlaceFiles(img: seq<byte>, plan: Plan, path: Path, data: seq<byte>) returns (was: seq<byte>)
    requires GoodFiles(img) && IsPlan(Entries(img), path, |data|, plan)
    requires !plan.isNew && FitsInPlace(EntryAt(img, plan.idx).size, |data|)
    ensures GoodFiles(WithData(img, plan, data)) && Maps(Files(img), path, was)
    ensures Files(WithData(img, plan, data)) == Files(img)[path := Spliced(was, Pad(data))]
  {
    was := InPlaceOld(img, plan, path, data);
    InPlaceGood(img, plan, path, data);
    FilesHold(img, path, was);
    forall p, d | p != path ensures Holds(WithData(img, plan, data), p, d) <==> Holds(img, p, d) {
      InPlaceOthers(img, plan, path, data, p, d);
    }
    FilesUpdate(img, WithData(img, plan, data), path, Spliced(was, Pad(data)));
  }

  lemma InPlaceOld(img: seq<byte>, plan: Plan, path: Path, data: seq<byte>) returns (was: seq<byte>)
    requires GoodFiles(img) && IsPlan(Entries(img), path, |data|, plan)
    requires !plan.isNew && FitsInPlace(EntryAt(img, plan.idx).size, |data|)
    ensures Holds(img, path, was) && Holds(WithData(img, plan, data), path, Spliced(was, Pad(data)))
  {
    var e := EntryAt(img, plan.idx);
    assert Entries(img)[plan.idx] == e;
    PlanAddress(img, path, data, plan);
    DataKeepsHeader(img, plan, data);
    InPlaceContent(img, plan, data, e);
    was := ReadData(img, e.lba, e.size);
    assert Gives(img, plan.idx, path, was);
    assert Gives(WithData(img, plan, data), plan.idx, path, Spliced(was, Pad(data)));
  }

  lemma InPlaceOthers(img: seq<byte>, plan: Plan, path: Path, data: seq<byte>, p: Path, d: seq<byte>)
    requires GoodFiles(img) && IsPlan(Entries(img), path, |data|, plan) && !plan.isNew && p != path
    ensures Holds(WithData(img, plan, data), p, d) <==> Holds(img, p, d)
  {
    PlanAddress(img, path, data, plan);
    DataKeepsHeader(img, plan, data);
    assert Entries(img)[plan.idx] == EntryAt(img, plan.idx);
    forall j | 0 <= j < ENTRIES ensures Gives(WithData(img, plan, data), j, p, d) <==> Gives(img, j, p, d) {
      if j != plan.idx {
        AfterData(img, plan, path, data, j);
      }
    }
  }

  lemma InPlaceGood(img: seq<byte>, plan: Plan, path: Path, data: seq<byte>)
    requires GoodFiles(img) && IsPlan(Entries(img), path, |data|, plan)
    ensures GoodFiles(WithData(img, plan, data))
  {
    PlanAddress(img, path, data, plan);
    DataKeepsHeader(img, plan, data);
  }

  lemma PutSplices(img: seq<byte>, lo: nat, size: nat, raw: seq<byte>)
    requires lo + size <= |img|
    ensures Put(img, lo, raw)[lo..lo + size] == Spliced(img[lo..lo + size], raw)
  {
    var img' := Put(img, lo, raw);
    var x, y := img'[lo..lo + size], Spliced(img[lo..lo + size], raw);
    forall k | 0 <= k < size ensures x[k] == y[k] {
      if k < |raw| {
        assert img'[lo + k] == raw[k];
      } else {
        assert img'[lo + k] == img[lo + k];
      }
    }
  }

  lemma InPlaceContent(img: seq<byte>, plan: Plan, data: seq<byte>, e: Entry)
    requires Inside(img, e) && plan.lba == e.lba && FitsInPlace(e.size, |data|)
    ensures ReadData(WithData(img, plan, data), e.lba, e.size) == Spliced(ReadData(img, e.lba, e.size), Pad(data))
  {
    ReadDataIs(img, e);
    ReadDataIs(WithData(img, plan, data), e);
    if e.size > 0 {
      PutSplices(img, e.lba * SECTOR, e.size, Pad(data));
    }
  }

  // ---------------------------------------------------------------------------
  // The installer
  // ---------------------------------------------------------------------------

  datatype InstallError = TooLarge | NotInitialized | ImageTooSmall | IndexFull | Unaddressable | CountOverflow

  datatype InstallResult = Installed | Refused(error: InstallError)

  /** Offsets from here on are refused by the operating system. */
  const FILE_LIMIT: nat := 0x8000_0000_0000_0000

  predicate Ready(img: seq<byte>) { |img| >= SECTOR && Super(img).magic == MAGIC }

  const EMPTY_ENTRY := Entry([], 0, 0, 0)

  function EmptyIndex(): (r: seq<Entry>)
    ensures |r| == ENTRIES && forall i :: 0 <= i < ENTRIES ==> r[i] == EMPTY_ENTRY
  {
    seq(ENTRIES, _ => EMPTY_ENTRY)
  }

  function Initialised(img: seq<byte>): (r: seq<byte>)
    ensures HasIndex(r)
  {
    WithIndex(WithSuper(img, Superblock(MAGIC, 0, 0)), EmptyIndex())
  }

  /** A new file system holds no file, whatever the image held. */
  lemma InitialisedGood(img: seq<byte>)
    ensures Ready(Initialised(img)) && Good(Initialised(img))
    ensures Files(Initialised(img)) == map[] && CountFlags(Entries(Initialised(img)), 0) == ENTRIES
  {
    var s := Superblock(MAGIC, 0, 0);
    var img1 := WithSuper(img, s);
    var img' := Initialised(img);
    PutSame(img, 0, SuperblockBytes(s));
    assert img1[..SECTOR] == img1[0..0 + SECTOR] == SuperblockBytes(s);
    SuperblockRoundTrip(s);
    IndexWritten(img1, EmptyIndex());
    forall i | 0 <= i < ENTRIES ensures EntryAt(img', i).flags == 0 {
    }
    AllFlags(Entries(img'), 0);
    assert PathsOf(img') == {};
    assert Files(img').Keys == {};
  }

  lemma {:induction false} AllFlags(entries: seq<Entry>, flags: nat)
    requires forall i :: 0 <= i < |entries| ==> entries[i].flags == flags
    ensures CountFlags(entries, flags) == |entries|
  {
    if entries != [] {
      AllFlags(entries[1..], flags);
    }
  }
}
