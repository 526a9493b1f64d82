/** The installer acting on an image file, one install after another. */
module DiskImages {
  import opened Common
  import opened Ionafs
  import opened Installer

  /** The image and the answer of one call of `install_file`, on any image. */
  ghost predicate InstallStep(img: seq<byte>, path: Path, data: seq<byte>, dryRun: bool, force: bool,
                              img': seq<byte>, r: InstallResult)
  {
    var base := if !Ready(img) && force && !dryRun then Initialised(img) else img;
    if |data| > MAX_FILE_SIZE then img' == img && r == Refused(TooLarge)
    else if !Ready(base) then img' == img && r == Refused(NotInitialized)
    else if !HasIndex(base) then img' == base && r == Refused(ImageTooSmall)
    else if IsFound(Entries(base), path, None) && IsFreeSlot(Entries(base), None) then
      img' == base && r == Refused(IndexFull)
    else exists plan :: IsPlan(Entries(base), path, |data|, plan) && PlanStep(base, path, data, dryRun, plan, img', r)
  }

  predicate Addressable(plan: Plan, data: seq<byte>) { plan.lba * SECTOR + |Pad(data)| < FILE_LIMIT }

  function NewSuper(img: seq<byte>, plan: Plan): Superblock
    requires |img| >= SECTOR
  {
    Super(img).(numFiles := Super(img).numFiles + if plan.isNew then 1 else 0)
  }

  ghost predicate PlanStep(base: seq<byte>, path: Path, data: seq<byte>, dryRun: bool, plan: Plan,
                           img': seq<byte>, r: InstallResult)
    requires HasIndex(base) && plan.idx < ENTRIES
  {
    var s := NewSuper(base, plan);
    if dryRun then img' == base && r == Installed
    else if !Addressable(plan, data) then img' == base && r == Refused(Unaddressable)
    else if !s.Fits() then img' == Stage(base, plan, path, data, s, 2) && r == Refused(CountOverflow)
    else img' == Stage(base, plan, path, data, s, 3) && r == Installed
  }

  lemma SliceOfSlice(s: seq<byte>, lo: nat, hi: nat, a: nat, b: nat)
    requires lo <= hi <= |s| && a <= b <= hi - lo
    ensures s[lo..hi][a..b] == s[lo + a..lo + b]
  {
    var x, y := s[lo..hi][a..b], s[lo + a..lo + b];
    forall k | 0 <= k < |x| ensures x[k] == y[k] {
      assert x[k] == s[lo..hi][a + k] == s[lo + a + k];
    }
  }

  class DiskImage {
    var bytes: seq<byte>

    constructor (bytes: seq<byte>)
      ensures this.bytes == bytes
    {
      this.bytes := bytes;
    }

    method ReadIndex() returns (r: Option<seq<Entry>>)
      ensures r == if HasIndex(bytes) then Some(Entries(bytes)) else None
    {
      if |bytes| < INDEX_START + INDEX_BYTES {
        return None;
      }
      var raw := bytes[INDEX_START..INDEX_START + INDEX_BYTES];
      var entries: seq<Entry> := [];
      for i := 0 to ENTRIES
        invariant |entries| == i && forall j :: 0 <= j < i ==> entries[j] == EntryAt(bytes, j)
      {
        var offset := i * ENTRY_SIZE;
        SliceOfSlice(bytes, INDEX_START, INDEX_START + INDEX_BYTES, offset, offset + ENTRY_SIZE);
        entries := entries + [ParseEntry(raw[offset..offset + ENTRY_SIZE])];
      }
      assert entries == Entries(bytes);
      return Some(entries);
    }

    method WriteIndex(entries: seq<Entry>)
      requires |entries| == ENTRIES
      modifies this
      ensures bytes == WithIndex(old(bytes), entries)
    {
      var data := Zeros(INDEX_BYTES);
      for i := 0 to |entries|
        invariant |data| == INDEX_BYTES && data[..i * ENTRY_SIZE] == IndexBytes(entries[..i])
      {
        var offset := i * ENTRY_SIZE;
        var next := data[..offset] + EntryBytes(entries[i]) + data[offset + ENTRY_SIZE..];
        assert entries[..i + 1][..i] == entries[..i];
        assert next[..offset + ENTRY_SIZE] == data[..offset] + EntryBytes(entries[i]);
        data := next;
      }
      assert entries[..|entries|] == entries && data[..INDEX_BYTES] == data;
      bytes := Put(bytes, INDEX_START, data);
    }

    method InitializeDisk()
      modifies this
      ensures bytes == Initialised(old(bytes))
    {
      bytes := WithSuper(bytes, Superblock(MAGIC, 0, 0));
      WriteIndex(EmptyIndex());
    }

    /** Where the file goes; nothing is written. */
    method ChoosePlan(entries: seq<Entry>, path: Path, size: nat) returns (r: Option<Plan>)
      ensures r.None? <==> IsFound(entries, path, None) && IsFreeSlot(entries, None)
      ensures r.Some? ==> IsPlan(entries, path, size, r.value)
    {
      var found := FindByPath(entries, path);
      if found.Some? {
        var idx := found.value;
        var lba := entries[idx].lba;
        if !FitsInPlace(entries[idx].size, size) {
          lba := GetDataEndLba(entries);
        }
        return Some(Plan(idx, lba, false));
      }
      var slot := FindFreeSlot(entries);
      if slot.None? {
        return None;
      }
      var lba := GetDataEndLba(entries);
      return Some(Plan(slot.value, lba, true));
    }

    method WritePlan(path: Path, data: seq<byte>, plan: Plan) returns (r: InstallResult)
      requires HasIndex(bytes) && plan.idx < ENTRIES
      modifies this
      ensures PlanStep(old(bytes), path, data, false, plan, bytes, r)
    {
      if !Addressable(plan, data) {
        return Refused(Unaddressable);
      }
      var s := NewSuper(bytes, plan);
      var entries := NewEntries(bytes, plan, path, data);
      bytes := Put(bytes, plan.lba * SECTOR, Pad(data));
      WriteIndex(entries);
      if !s.Fits() {
        return Refused(CountOverflow);
      }
      bytes := Put(bytes, 0, SuperblockBytes(s));
      return Installed;
    }

    method InstallFile(path: Path, data: seq<byte>, dryRun: bool, force: bool) returns (r: InstallResult)
      modifies this
      ensures InstallStep(old(bytes), path, data, dryRun, force, bytes, r)
    {
      if |data| > MAX_FILE_SIZE {
        return Refused(TooLarge);
      }
      if !Ready(bytes) {
        if dryRun || !force {
          return Refused(NotInitialized);
        }
        InitialisedGood(bytes);
        InitializeDisk();
      }
      var index := ReadIndex();
      if index.None? {
        return Refused(ImageTooSmall);
      }
      var plan := ChoosePlan(index.value, path, |data|);
      if plan.None? {
        return Refused(IndexFull);
      }
      ghost var base := bytes;
      if dryRun {
        r := Installed;
      } else {
        r := WritePlan(path, data, plan.value);
      }
      assert PlanStep(base, path, data, dryRun, plan.value, bytes, r);
    }
  }

  // ---------------------------------------------------------------------------
  // The file system seen as a map
  // ---------------------------------------------------------------------------

  datatype FsModel = FsModel(files: map<Path, seq<byte>>, free: nat)

  ghost function View(img: seq<byte>): FsModel
    requires GoodFiles(img)
  {
    FsModel(Files(img), CountFlags(Entries(img), 0))
  }

  function Meaning(m: FsModel, path: Path, data: seq<byte>): (FsModel, InstallResult)
  {
    if |data| > MAX_FILE_SIZE then (m, Refused(TooLarge))
    else if path in m.files then (m.(files := m.files[path := data]), Installed)
    else if m.free == 0 then (m, Refused(IndexFull))
    else (FsModel(m.files[path := data], m.free - 1), Installed)
  }

  /** The image is small enough for the data to be placed after it. */
  predicate HasRoom(img: seq<byte>, size: nat) { Max(|img|, DATA_START_LBA * SECTOR) + size + SECTOR < FILE_LIMIT }

  lemma FoundIff(img: seq<byte>, path: Path)
    requires GoodFiles(img)
    ensures IsFound(Entries(img), path, None) <==> path !in Files(img)
  {
    var entries := Entries(img);
    assert forall i :: 0 <= i < ENTRIES ==> entries[i] == EntryAt(img, i);
  }

  lemma FreeIff(img: seq<byte>)
    requires HasIndex(img)
    ensures IsFreeSlot(Entries(img), None) <==> CountFlags(Entries(img), 0) == 0
  {
  }

  /** The counts of files and of free slots follow the plan. */
  lemma InstallCounts(img: seq<byte>, img': seq<byte>, plan: Plan, path: Path, data: seq<byte>)
    requires GoodFiles(img) && IsPlan(Entries(img), path, |data|, plan)
    requires Replaces(img, img', plan.idx, Stored(NewEntry(plan, path, data)), data)
    ensures CountFlags(Entries(img'), 1) == CountFlags(Entries(img), 1) + if plan.isNew then 1 else 0
    ensures CountFlags(Entries(img'), 0) == CountFlags(Entries(img), 0) - if plan.isNew then 1 else 0
  {
    var entries := NewEntries(img, plan, path, data);
    forall j | 0 <= j < ENTRIES ensures Entries(img')[j].flags == entries[j].flags {
      if j != plan.idx {
        assert SameFile(img, img', j);
      }
    }
    CountAgree(Entries(img'), entries, 0);
    CountAgree(Entries(img'), entries, 1);
    CountUpdate(Entries(img), plan.idx, NewEntry(plan, path, data), 0);
    CountUpdate(Entries(img), plan.idx, NewEntry(plan, path, data), 1);
  }

  lemma PlanFits(img: seq<byte>, path: Path, data: seq<byte>, plan: Plan)
    requires Good(img) && HasRoom(img, |data|) && IsPlan(Entries(img), path, |data|, plan)
    ensures plan.lba < U64_LIMIT && |data| < U64_LIMIT && Addressable(plan, data) && NewSuper(img, plan).Fits()
  {
    PlanAddress(img, path, data, plan);
  }

  lemma StageSize(img: seq<byte>, path: Path, data: seq<byte>, plan: Plan, s: Superblock)
    requires HasIndex(img) && plan.idx < ENTRIES && plan.lba * SECTOR <= Max(|img|, DATA_START_LBA * SECTOR)
    ensures |Stage(img, plan, path, data, s, 3)| <= Max(|img|, DATA_START_LBA * SECTOR) + |data| + SECTOR
  {
    assert |WithData(img, plan, data)| <= Max(|img|, plan.lba * SECTOR + |Pad(data)|);
  }

  /** On a well-formed image with room, a plan is carried out to its end. */
  lemma PlanFinishes(img: seq<byte>, path: Path, data: seq<byte>, plan: Plan, img': seq<byte>, r: InstallResult)
    requires Good(img) && HasRoom(img, |data|) && IsPlan(Entries(img), path, |data|, plan)
    requires PlanStep(img, path, data, false, plan, img', r)
    ensures plan.lba < U64_LIMIT && |data| < U64_LIMIT && NewSuper(img, plan).Fits()
    ensures r == Installed && img' == Stage(img, plan, path, data, NewSuper(img, plan), 3)
    ensures |img'| <= Max(|img|, DATA_START_LBA * SECTOR) + |data| + SECTOR
  {
    PlanFits(img, path, data, plan);
    PlanAddress(img, path, data, plan);
    StageSize(img, path, data, plan, NewSuper(img, plan));
  }

  /** A plan that is carried out on a well-formed image. */
  lemma PlanMeaning(img: seq<byte>, path: Path, data: seq<byte>, plan: Plan, img': seq<byte>)
    requires Good(img) && PathFits(path) && IsPlan(Entries(img), path, |data|, plan)
    requires plan.lba < U64_LIMIT && |data| < U64_LIMIT && NewSuper(img, plan).Fits()
    requires img' == Stage(img, plan, path, data, NewSuper(img, plan), 3)
    ensures Good(img') && Files(img') == Files(img)[path := data]
    ensures CountFlags(Entries(img'), 0) == CountFlags(Entries(img), 0) - if plan.isNew then 1 else 0
  {
    StageReplaces(img, plan, path, data, NewSuper(img, plan), 3);
    InstallCounts(img, img', plan, path, data);
    ReplacesGood(img, img', plan, path, data);
    ReplacesFiles(img, img', plan, path, data);
  }

  /** An install that finds a place. */
  lemma PlacedMeaning(img: seq<byte>, path: Path, data: seq<byte>, plan: Plan, img': seq<byte>, r: InstallResult)
    requires Good(img) && PathFits(path) && HasRoom(img, |data|) && IsPlan(Entries(img), path, |data|, plan)
    requires PlanStep(img, path, data, false, plan, img', r) && |data| <= MAX_FILE_SIZE
    ensures Good(img') && (View(img'), r) == Meaning(View(img), path, data)
    ensures |img'| <= Max(|img|, DATA_START_LBA * SECTOR) + |data| + SECTOR
  {
    PlanFinishes(img, path, data, plan, img', r);
    PlanMeaning(img, path, data, plan, img');
    PlanIsNew(img, path, |data|, plan);
    FreeIff(img);
    MeaningOf(View(img), View(img'), path, data, plan.isNew);
  }

  lemma MeaningOf(m: FsModel, m': FsModel, path: Path, data: seq<byte>, isNew: bool)
    requires |data| <= MAX_FILE_SIZE && (isNew <==> path !in m.files)
    requires m'.files == m.files[path := data] && m.free - m'.free == if isNew then 1 else 0
    ensures (m', Installed) == Meaning(m, path, data)
  {
  }

  /** On a well-formed image, an install updates the map of files and nothing else. */
  lemma InstallMeaning(img: seq<byte>, path: Path, data: seq<byte>, force: bool, img': seq<byte>, r: InstallResult)
    requires Good(img) && PathFits(path) && HasRoom(img, |data|)
    requires InstallStep(img, path, data, false, force, img', r)
    ensures Good(img') && (View(img'), r) == Meaning(View(img), path, data)
    ensures |img'| <= Max(|img|, DATA_START_LBA * SECTOR) + |data| + SECTOR
  {
    if |data| <= MAX_FILE_SIZE {
      if IsFound(Entries(img), path, None) && IsFreeSlot(Entries(img), None) {
        FoundIff(img, path);
        FreeIff(img);
      } else {
        var plan := StepPlan(img, path, data, force, img', r);
        PlacedMeaning(img, path, data, plan, img', r);
      }
    }
  }

  /** On an image without a file system, a forced install makes one that holds exactly this file; without force
      it is refused. */
  lemma FirstInstall(img: seq<byte>, path: Path, data: seq<byte>, force: bool, img': seq<byte>, r: InstallResult)
    requires !Ready(img) && PathFits(path) && HasRoom(Initialised(img), |data|) && |data| <= MAX_FILE_SIZE
    requires InstallStep(img, path, data, false, force, img', r)
    ensures !force ==> r == Refused(NotInitialized) && img' == img
    ensures force ==> r == Installed && Good(img') && Files(img') == map[path := data]
  {
    if force {
      InitialisedGood(img);
      InstallMeaning(Initialised(img), path, data, force, img', r);
    }
  }

  /** A dry run writes nothing, on any image; on a well-formed one it answers as the install would. */
  lemma DryRun(img: seq<byte>, path: Path, data: seq<byte>, force: bool, img': seq<byte>, r: InstallResult)
    requires InstallStep(img, path, data, true, force, img', r)
    ensures img' == img && (!Ready(img) && |data| <= MAX_FILE_SIZE ==> r == Refused(NotInitialized))
    ensures Good(img) ==> r == Meaning(View(img), path, data).1
  {
    if Good(img) && |data| <= MAX_FILE_SIZE {
      FoundIff(img, path);
      FreeIff(img);
    }
  }

  /** Too much data, and an image too small for an index, are refused whatever else holds. */
  lemma InstallRefused(img: seq<byte>, path: Path, data: seq<byte>, dryRun: bool, force: bool, img': seq<byte>,
                       r: InstallResult)
    requires InstallStep(img, path, data, dryRun, force, img', r)
    ensures |data| > MAX_FILE_SIZE ==> r == Refused(TooLarge) && img' == img
    ensures |data| <= MAX_FILE_SIZE && Ready(img) && !HasIndex(img) ==> r == Refused(ImageTooSmall) && img' == img
  {
  }

  lemma StepPlan(img: seq<byte>, path: Path, data: seq<byte>, force: bool, img': seq<byte>, r: InstallResult)
    returns (plan: Plan)
    requires Good(img) && InstallStep(img, path, data, false, force, img', r) && |data| <= MAX_FILE_SIZE
    requires !(IsFound(Entries(img), path, None) && IsFreeSlot(Entries(img), None))
    ensures IsPlan(Entries(img), path, |data|, plan) && PlanStep(img, path, data, false, plan, img', r)
  {
    plan :| IsPlan(Entries(img), path, |data|, plan) && PlanStep(img, path, data, false, plan, img', r);
  }

  lemma PlanIsNew(img: seq<byte>, path: Path, size: nat, plan: Plan)
    requires GoodFiles(img) && IsPlan(Entries(img), path, size, plan)
    ensures plan.isNew <==> path !in Files(img)
  {
    FoundIff(img, path);
  }

  /** The number of sectors that hold so many bytes. */
  predicate Occupies(size: nat, n: nat) { SECTOR * n - SECTOR < size <= SECTOR * n || (size == 0 && n == 0) }

  lemma SectorsOccupied(size: nat)
    ensures Occupies(size, Sectors(size))
  {
  }

  lemma OccupiesOne(size: nat, n: nat)
    requires Occupies(size, n)
    ensures n == Sectors(size)
  {
  }

  /** Every file of the image ends before this sector. */
  ghost predicate AfterFiles(img: seq<byte>, lba: nat)
    requires HasIndex(img)
  {
    forall i :: 0 <= i < ENTRIES && EntryAt(img, i).IsValid() ==>
      EntryAt(img, i).lba * SECTOR + EntryAt(img, i).size <= lba * SECTOR
  }

  /** Only entry `j` differs, and no other file has the path. */
  ghost predicate OnlyEntry(img: seq<byte>, img': seq<byte>, path: Path, j: nat)
    requires HasIndex(img) && HasIndex(img')
  {
    forall i :: 0 <= i < ENTRIES && i != j ==>
      && EntryAt(img', i).flags == EntryAt(img, i).flags
      && (EntryAt(img, i).IsValid() ==> EntryAt(img', i) == EntryAt(img, i) && EntryAt(img, i).path != path)
  }

  lemma PlanPlaced(img: seq<byte>, path: Path, size: nat, plan: Plan, n: nat)
    requires GoodFiles(img) && IsPlan(Entries(img), path, size, plan)
    ensures plan.isNew <==> !EntryAt(img, plan.idx).IsValid()
    ensures !plan.isNew ==> EntryAt(img, plan.idx).path == path
    ensures !plan.isNew && Occupies(EntryAt(img, plan.idx).size, n) && size <= SECTOR * n ==>
              plan.lba == EntryAt(img, plan.idx).lba
    ensures plan.isNew || (Occupies(EntryAt(img, plan.idx).size, n) && size > SECTOR * n) ==> AfterFiles(img, plan.lba)
  {
    var e := EntryAt(img, plan.idx);
    assert Entries(img)[plan.idx] == e;
    SectorsOccupied(size);
    if Occupies(e.size, n) {
      OccupiesOne(e.size, n);
    }
    if plan.lba == DataEnd(Entries(img)) {
      EndAfterFiles(img);
    }
  }

  lemma EndAfterFiles(img: seq<byte>)
    requires GoodFiles(img)
    ensures AfterFiles(img, DataEnd(Entries(img)))
  {
    forall i | 0 <= i < ENTRIES && EntryAt(img, i).IsValid()
      ensures EntryAt(img, i).lba * SECTOR + EntryAt(img, i).size <= DataEnd(Entries(img)) * SECTOR
    {
      assert Entries(img)[i] == EntryAt(img, i) && Inside(img, EntryAt(img, i));
      SectorsOccupied(EntryAt(img, i).size);
    }
  }

  lemma PlanKeepsOthers(img: seq<byte>, img': seq<byte>, path: Path, data: seq<byte>, plan: Plan)
    requires GoodFiles(img) && IsPlan(Entries(img), path, |data|, plan)
    requires Replaces(img, img', plan.idx, Stored(NewEntry(plan, path, data)), data)
    ensures OnlyEntry(img, img', path, plan.idx)
  {
    forall i | 0 <= i < ENTRIES && i != plan.idx
      ensures EntryAt(img', i).flags == EntryAt(img, i).flags
      ensures EntryAt(img, i).IsValid() ==> EntryAt(img', i) == EntryAt(img, i) && EntryAt(img, i).path != path
    {
      assert SameFile(img, img', i);
      if EntryAt(img, i).IsValid() {
        PlanApart(img, path, data, plan, i);
      }
    }
  }

  /** Where an install puts the file. A file that was there already, in `n` sectors, keeps its extent
      when the new data fits in those sectors; any other extent starts after all the files. */
  lemma InstallPlaced(img: seq<byte>, path: Path, data: seq<byte>, force: bool, img': seq<byte>, n: nat)
    returns (j: nat)
    requires Good(img) && PathFits(path) && HasRoom(img, |data|)
    requires InstallStep(img, path, data, false, force, img', Installed)
    ensures HasIndex(img') && j < ENTRIES && OnlyEntry(img, img', path, j)
    ensures EntryAt(img', j) == Entry(path, EntryAt(img', j).lba, |data|, 1)
    ensures EntryAt(img, j).IsValid() ==> EntryAt(img, j).path == path
    ensures EntryAt(img, j).IsValid() && Occupies(EntryAt(img, j).size, n) && |data| <= SECTOR * n ==>
              EntryAt(img', j).lba == EntryAt(img, j).lba
    ensures !EntryAt(img, j).IsValid() || (Occupies(EntryAt(img, j).size, n) && |data| > SECTOR * n) ==>
              AfterFiles(img, EntryAt(img', j).lba)
  {
    var plan := StepPlan(img, path, data, force, img', Installed);
    PlanFinishes(img, path, data, plan, img', Installed);
    StageReplaces(img, plan, path, data, NewSuper(img, plan), 3);
    j := plan.idx;
    PlanKeepsOthers(img, img', path, data, plan);
    PlanPlaced(img, path, |data|, plan, n);
  }

  // ---------------------------------------------------------------------------
  // Every sequence of installs
  // ---------------------------------------------------------------------------

  datatype Request = Request(path: Path, data: seq<byte>)

  function FinalModel(m: FsModel, requests: seq<Request>): FsModel
    decreases |requests|
  {
    if requests == [] then m else FinalModel(Meaning(m, requests[0].path, requests[0].data).0, requests[1..])
  }

  function Results(m: FsModel, requests: seq<Request>): seq<InstallResult>
    decreases |requests|
  {
    if requests == [] then []
    else var (next, r) := Meaning(m, requests[0].path, requests[0].data); [r] + Results(next, requests[1..])
  }

  function TotalSize(requests: seq<Request>): nat
  {
    if requests == [] then 0 else |requests[0].data| + SECTOR + TotalSize(requests[1..])
  }

  /** For every sequence of installs, the image stays well-formed and its files are those of a
      map that the installs update. */
  method InstallAll(disk: DiskImage, requests: seq<Request>) returns (results: seq<InstallResult>)
    requires Good(disk.bytes) && HasRoom(disk.bytes, TotalSize(requests))
    requires forall i :: 0 <= i < |requests| ==> PathFits(requests[i].path)
    modifies disk
    ensures Good(disk.bytes)
    ensures View(disk.bytes) == FinalModel(View(old(disk.bytes)), requests)
    ensures results == Results(View(old(disk.bytes)), requests)
    decreases |requests|
  {
    if requests == [] {
      return [];
    }
    ghost var img := disk.bytes;
    var r := disk.InstallFile(requests[0].path, requests[0].data, false, false);
    InstallMeaning(img, requests[0].path, requests[0].data, false, disk.bytes, r);
    var rest := InstallAll(disk, requests[1..]);
    return [r] + rest;
  }
}
