/** The database file of src/blockchain/redb_adapter.rs: fixed-size pages kept in a dirty map,
    a bounded cache and page files, seen from outside as one flat array of bytes. */
module PageStore {
  import opened Common

  const PAGE_SIZE: nat := 4096
  const SUPERBLOCK_SIZE: nat := 16

  type Pages = map<nat, seq<byte>>

  datatype Error = Closed | InvalidConfig | AlreadyExists

  /** `Panicked` is the overflow check of 64-bit offset arithmetic. */
  datatype Result<+T> = Ok(value: T) | Err(error: Error) | Panicked

  datatype StoreConfig = StoreConfig(cacheSize: nat, flushIntervalMs: nat, maxDirtyPages: nat) {
    predicate Valid() { cacheSize > 0 && flushIntervalMs > 0 && maxDirtyPages > 0 }
  }

  // ---------------------------------------------------------------------------
  // The flat array
  // ---------------------------------------------------------------------------

  /** The array with the data in place of what was at `offset`, byte after byte. */
  function Overwrite(bytes: seq<byte>, offset: nat, data: seq<byte>): (r: seq<byte>)
    requires offset + |data| <= |bytes|
    ensures |r| == |bytes|
    decreases |data|
  {
    if data == [] then bytes else Overwrite(bytes[offset := data[0]], offset + 1, data[1..])
  }

  lemma {:induction false} OverwriteAt(bytes: seq<byte>, offset: nat, data: seq<byte>, i: nat)
    requires offset + |data| <= |bytes| && i < |bytes|
    ensures Overwrite(bytes, offset, data)[i] == if offset <= i < offset + |data| then data[i - offset] else bytes[i]
    decreases |data|
  {
    if data != [] {
      OverwriteAt(bytes[offset := data[0]], offset + 1, data[1..], i);
    }
  }

  lemma {:induction false} OverwriteJoin(bytes: seq<byte>, offset: nat, a: seq<byte>, b: seq<byte>)
    requires offset + |a| + |b| <= |bytes|
    ensures Overwrite(Overwrite(bytes, offset, a), offset + |a|, b) == Overwrite(bytes, offset, a + b)
    decreases |a|
  {
    if a == [] {
      assert a + b == b;
    } else {
      OverwriteJoin(bytes[offset := a[0]], offset + 1, a[1..], b);
      assert (a + b)[1..] == a[1..] + b;
    }
  }

  /** `len` bytes at `offset` of the array, which continues with zeros for ever. */
  function ReadFlat(bytes: seq<byte>, offset: nat, len: nat): (r: seq<byte>)
  {
    seq(len, i requires 0 <= i => if offset + i < |bytes| then bytes[offset + i] else 0)
  }

  function PagesFor(size: nat): nat { (size + PAGE_SIZE - 1) / PAGE_SIZE }

  /** The array grown to hold `size` bytes, in whole pages. */
  function Extend(bytes: seq<byte>, size: nat): (r: seq<byte>)
  {
    var target := PagesFor(size) * PAGE_SIZE;
    if target <= |bytes| then bytes else bytes + Zeros(target - |bytes|)
  }

  function WriteFlat(bytes: seq<byte>, offset: nat, data: seq<byte>): (r: seq<byte>)
  {
    ExtendCovers(bytes, offset + |data|);
    Overwrite(Extend(bytes, offset + |data|), offset, data)
  }

  lemma ExtendCovers(bytes: seq<byte>, size: nat)
    ensures |Extend(bytes, size)| >= size && bytes <= Extend(bytes, size)
    ensures |bytes| % PAGE_SIZE == 0 && size <= |bytes| ==> Extend(bytes, size) == bytes
  {
  }

  /** A write leaves whole pages, and no page more than it needs. */
  lemma LengthAfterWrite(bytes: seq<byte>, offset: nat, data: seq<byte>, pages: nat)
    requires |bytes| == pages * PAGE_SIZE
    ensures var end, after := offset + |data|, |WriteFlat(bytes, offset, data)|;
            && after % PAGE_SIZE == 0 && after >= end
            && (end <= |bytes| ==> after == |bytes|) && (end > |bytes| ==> after < end + PAGE_SIZE)
  {
    ExtendCovers(bytes, offset + |data|);
  }

  lemma ReadPastEnd(bytes: seq<byte>, offset: nat, len: nat)
    requires |bytes| <= offset
    ensures ReadFlat(bytes, offset, len) == Zeros(len)
  {
  }

  /** A write is read back, and every other byte reads as before. */
  lemma ReadAfterWrite(bytes: seq<byte>, offset: nat, data: seq<byte>, at: nat, len: nat)
    ensures |WriteFlat(bytes, offset, data)| >= |bytes|
    ensures forall i :: 0 <= i < len ==>
              ReadFlat(WriteFlat(bytes, offset, data), at, len)[i]
              == if offset <= at + i < offset + |data| then data[at + i - offset] else ReadFlat(bytes, at, len)[i]
  {
    ExtendCovers(bytes, offset + |data|);
    var wide := Extend(bytes, offset + |data|);
    forall i | 0 <= i < len
      ensures ReadFlat(WriteFlat(bytes, offset, data), at, len)[i]
           == if offset <= at + i < offset + |data| then data[at + i - offset] else ReadFlat(bytes, at, len)[i]
    {
      if at + i < |wide| {
        OverwriteAt(wide, offset, data, at + i);
      }
    }
  }

  // ---------------------------------------------------------------------------
  // Pages
  // ---------------------------------------------------------------------------

  ghost predicate Sized(pages: Pages)
  {
    forall p :: p in pages ==> |pages[p]| == PAGE_SIZE
  }

  /** The current content of a page: the dirty copy, else the page file, else zeros. */
  ghost function Look(dirty: Pages, files: Pages, p: nat): (r: seq<byte>)
    requires Sized(dirty) && Sized(files)
    ensures |r| == PAGE_SIZE
  {
    if p in dirty then dirty[p] else if p in files then files[p] else Zeros(PAGE_SIZE)
  }

  /** The first `n` pages, one after the other. */
  ghost function Contents(n: nat, dirty: Pages, files: Pages): (r: seq<byte>)
    requires Sized(dirty) && Sized(files)
    ensures |r| == n * PAGE_SIZE
  {
    if n == 0 then [] else Contents(n - 1, dirty, files) + Look(dirty, files, n - 1)
  }

  lemma {:induction false} ContentsAt(n: nat, dirty: Pages, files: Pages, i: nat)
    requires Sized(dirty) && Sized(files) && i < n * PAGE_SIZE
    ensures Contents(n, dirty, files)[i] == Look(dirty, files, i / PAGE_SIZE)[i % PAGE_SIZE]
    decreases n
  {
    if i < (n - 1) * PAGE_SIZE {
      ContentsAt(n - 1, dirty, files, i);
    } else {
      assert i / PAGE_SIZE == n - 1 && i % PAGE_SIZE == i - (n - 1) * PAGE_SIZE;
    }
  }

  lemma {:induction false} ContentsSame(n: nat, dirty: Pages, files: Pages, dirty': Pages, files': Pages)
    requires Sized(dirty) && Sized(files) && Sized(dirty') && Sized(files')
    requires forall p :: 0 <= p < n ==> Look(dirty', files', p) == Look(dirty, files, p)
    ensures Contents(n, dirty', files') == Contents(n, dirty, files)
    decreases n
  {
    if n > 0 {
      ContentsSame(n - 1, dirty, files, dirty', files');
    }
  }

  /** Replacing part of one page replaces that part of the array. */
  lemma WritePage(n: nat, dirty: Pages, files: Pages, pos: nat, data: seq<byte>, p: nat, page: seq<byte>)
    requires Sized(dirty) && Sized(files) && p == pos / PAGE_SIZE
    requires pos % PAGE_SIZE + |data| <= PAGE_SIZE && pos + |data| <= n * PAGE_SIZE
    requires page == Overwrite(Look(dirty, files, p), pos % PAGE_SIZE, data)
    ensures Sized(dirty[p := page])
    ensures Contents(n, dirty[p := page], files) == Overwrite(Contents(n, dirty, files), pos, data)
  {
    var before, after := Contents(n, dirty, files), Contents(n, dirty[p := page], files);
    forall i | 0 <= i < n * PAGE_SIZE ensures after[i] == Overwrite(before, pos, data)[i] {
      ContentsAt(n, dirty, files, i);
      ContentsAt(n, dirty[p := page], files, i);
      OverwriteAt(before, pos, data, i);
      OverwriteAt(Look(dirty, files, p), pos % PAGE_SIZE, data, i % PAGE_SIZE);
    }
  }

  /** Moving a dirty page to its file changes no byte. */
  lemma FlushPage(n: nat, dirty: Pages, files: Pages, p: nat)
    requires Sized(dirty) && Sized(files) && p in dirty
    ensures Sized(dirty - {p}) && Sized(files[p := dirty[p]])
    ensures forall q :: Look(dirty - {p}, files[p := dirty[p]], q) == Look(dirty, files, q)
    ensures Contents(n, dirty - {p}, files[p := dirty[p]]) == Contents(n, dirty, files)
  {
    ContentsSame(n, dirty, files, dirty - {p}, files[p := dirty[p]]);
  }

  lemma GrowPage(n: nat, dirty: Pages, files: Pages)
    requires Sized(dirty) && Sized(files) && n !in dirty
    ensures Sized(files[n := Zeros(PAGE_SIZE)])
    ensures Contents(n + 1, dirty, files[n := Zeros(PAGE_SIZE)]) == Contents(n, dirty, files) + Zeros(PAGE_SIZE)
  {
    ContentsSame(n, dirty, files, dirty, files[n := Zeros(PAGE_SIZE)]);
  }

  // ---------------------------------------------------------------------------
  // The page cache
  // ---------------------------------------------------------------------------

  /** `order` lists every page of `keys` once. */
  ghost predicate Listing(order: seq<nat>, keys: set<nat>)
  {
    && (forall i, j :: 0 <= i < j < |order| ==> order[i] != order[j])
    && (forall p :: p in keys <==> p in order)
  }

  /** `Vec::retain(|&q| q != p)`. */
  function Retain(s: seq<nat>, p: nat): (r: seq<nat>)
    ensures forall q :: q in r <==> q in s && q != p
  {
    if s == [] then [] else if s[0] == p then Retain(s[1..], p) else [s[0]] + Retain(s[1..], p)
  }

  lemma {:induction false} ListingRetain(order: seq<nat>, keys: set<nat>, p: nat)
    requires Listing(order, keys)
    ensures Listing(Retain(order, p), keys - {p})
  {
    if order != [] {
      ListingPop(order, keys);
      ListingRetain(order[1..], keys - {order[0]}, p);
      var rest := Retain(order[1..], p);
      forall j | 0 <= j < |rest| ensures rest[j] != order[0] {
        assert rest[j] in rest;
      }
    }
  }

  lemma ListingPop(order: seq<nat>, keys: set<nat>)
    requires Listing(order, keys) && order != []
    ensures order[0] in keys && Listing(order[1..], keys - {order[0]})
  {
  }

  lemma ListingPush(order: seq<nat>, keys: set<nat>, p: nat)
    requires Listing(order, keys) && p !in keys
    ensures Listing(order + [p], keys + {p})
  {
  }

  /** `order` lists the cached pages, least recently inserted first. */
  ghost predicate CacheOk(pages: Pages, order: seq<nat>, capacity: nat)
  {
    capacity > 0 && |pages| <= capacity && Listing(order, pages.Keys)
  }

  lemma CacheRefresh(pages: Pages, order: seq<nat>, capacity: nat, page: nat, data: seq<byte>)
    requires CacheOk(pages, order, capacity) && page in pages
    ensures CacheOk(pages[page := data], Retain(order, page) + [page], capacity)
  {
    ListingRetain(order, pages.Keys, page);
    ListingPush(Retain(order, page), pages.Keys - {page}, page);
    assert pages.Keys - {page} + {page} == pages.Keys == pages[page := data].Keys;
  }

  lemma CacheAppend(pages: Pages, order: seq<nat>, capacity: nat, page: nat, data: seq<byte>)
    requires CacheOk(pages, order, capacity) && page !in pages && |pages| < capacity
    ensures CacheOk(pages[page := data], order + [page], capacity)
  {
    ListingPush(order, pages.Keys, page);
    assert pages[page := data].Keys == pages.Keys + {page};
  }

  lemma CacheEvict(pages: Pages, order: seq<nat>, capacity: nat)
    requires CacheOk(pages, order, capacity) && |pages| == capacity
    ensures order != [] && order[0] in pages
    ensures CacheOk(pages - {order[0]}, order[1..], capacity) && |pages - {order[0]}| < capacity
  {
    assert pages.Keys != {};
    var some :| some in pages.Keys;
    assert some in order;
    ListingPop(order, pages.Keys);
    assert (pages - {order[0]}).Keys == pages.Keys - {order[0]};
  }

  class PageCache {
    var pages: Pages
    var order: seq<nat>
    const capacity: nat

    ghost predicate Valid()
      reads this
    {
      CacheOk(pages, order, capacity)
    }

    constructor (capacity: nat)
      requires capacity > 0
      ensures Valid() && this.capacity == capacity && pages == map[]
    {
      this.capacity := capacity;
      pages := map[];
      order := [];
    }

    method Insert(page: nat, data: seq<byte>) returns (evicted: Option<nat>)
      requires Valid()
      modifies this
      ensures Valid()
      ensures evicted.Some? <==> page !in old(pages) && |old(pages)| == capacity
      ensures evicted.Some? ==> old(order) != [] && evicted.value == old(order)[0]
      ensures pages == (if evicted.Some? then old(pages) - {evicted.value} else old(pages))[page := data]
      ensures order == (if evicted.Some? then old(order)[1..]
                        else if page in old(pages) then Retain(old(order), page) else old(order)) + [page]
    {
      evicted := None;
      if page in pages {
        CacheRefresh(pages, order, capacity, page, data);
        order := Retain(order, page);
      } else {
        if |pages| >= capacity {
          CacheEvict(pages, order, capacity);
          var lru := order[0];
          order := order[1..];
          pages := pages - {lru};
          evicted := Some(lru);
        }
        CacheAppend(pages, order, capacity, page, data);
      }
      pages := pages[page := data];
      order := order + [page];
    }
  }

  // ---------------------------------------------------------------------------
  // The files of one database
  // ---------------------------------------------------------------------------

  function Superblock(n: nat): (r: seq<byte>)
    ensures |r| == SUPERBLOCK_SIZE
  {
    ToLe(n, 8) + ToLe(PAGE_SIZE, 8)
  }

  datatype Disk = Disk(files: Pages, super: Option<seq<byte>>) {

    /** The page count that `open` reads. */
    function NumPages(): nat
    {
      if super.Some? && |super.value| >= SUPERBLOCK_SIZE then FromLe(super.value[..8]) else 0
    }

    /** Whole pages only, and nothing but zeros after the last one. */
    ghost predicate WellFormed()
    {
      && NumPages() * PAGE_SIZE < U64_LIMIT && Sized(files)
      && forall p :: p in files && NumPages() <= p ==> files[p] == Zeros(PAGE_SIZE)
    }

    ghost function Bytes(): (r: seq<byte>)
      requires WellFormed()
    {
      Contents(NumPages(), map[], files)
    }
  }

  lemma SuperblockRoundTrip(files: Pages, n: nat)
    requires n < U64_LIMIT
    ensures Disk(files, Some(Superblock(n))).NumPages() == n
  {
    WidthValues();
    LeRoundTrip(n, 8);
    assert Superblock(n)[..8] == ToLe(n, 8);
  }

  // ---------------------------------------------------------------------------
  // The open database
  // ---------------------------------------------------------------------------

  ghost predicate Coherent(cached: Pages, dirty: Pages, files: Pages)
  {
    && Sized(dirty) && Sized(files)
    && forall p :: p in cached ==> cached[p] == Look(dirty, files, p)
  }

  /** A page that is written is cached and dirty; other cached pages may go but do not change. */
  lemma CoherentWrite(cached: Pages, cached': Pages, dirty: Pages, files: Pages, page: nat, data: seq<byte>)
    requires Coherent(cached, dirty, files) && |data| == PAGE_SIZE
    requires forall p :: p in cached' ==>
               if p == page then cached'[p] == data else p in cached && cached'[p] == cached[p]
    ensures Coherent(cached', dirty[page := data], files)
  {
  }

  /** `now` is the array with the first `s` bytes of the data written. */
  ghost predicate Written(bytes: seq<byte>, offset: nat, data: seq<byte>, s: nat, now: seq<byte>)
  {
    s <= |data| && offset + |data| <= |bytes| && now == Overwrite(bytes, offset, data[..s])
  }

  /** One more part of a write, at `pos`. */
  lemma OverwriteTwice(bytes: seq<byte>, offset: nat, data: seq<byte>, s: nat, t: nat, pos: nat,
                       now: seq<byte>, next: seq<byte>)
    requires s <= t <= |data| && pos == offset + s && Written(bytes, offset, data, s, now)
    requires next == Overwrite(now, pos, data[s..t])
    ensures Written(bytes, offset, data, t, next)
  {
    OverwriteJoin(bytes, offset, data[..s], data[s..t]);
    assert data[..s] + data[s..t] == data[..t];
  }

  lemma AllDone(bytes: seq<byte>, offset: nat, data: seq<byte>, s: nat, now: seq<byte>)
    requires Written(bytes, offset, data, s, now) && s == |data|
    ensures now == Overwrite(bytes, offset, data)
  {
    assert data[..s] == data;
  }

  /** Writes a zero page for every page from `n` to `m`, where only zeros were seen before. */
  method GrowFiles(n: nat, m: nat, ghost dirty: Pages, files: Pages) returns (grown: Pages)
    requires Sized(dirty) && Sized(files) && n <= m
    requires forall p :: n <= p ==> Look(dirty, files, p) == Zeros(PAGE_SIZE) && p !in dirty
    ensures Sized(grown) && forall p :: Look(dirty, grown, p) == Look(dirty, files, p)
    ensures Contents(m, dirty, grown) == Contents(n, dirty, files) + Zeros((m - n) * PAGE_SIZE)
    ensures forall p :: p in grown && n <= p ==> grown[p] == Zeros(PAGE_SIZE)
  {
    grown := files;
    var page := n;
    while page < m
      invariant n <= page <= m && Sized(grown)
      invariant forall p :: Look(dirty, grown, p) == Look(dirty, files, p)
      invariant Contents(page, dirty, grown) == Contents(n, dirty, files) + Zeros((page - n) * PAGE_SIZE)
    {
      GrowPage(page, dirty, grown);
      grown := grown[page := Zeros(PAGE_SIZE)];
      page := page + 1;
    }
    forall p | p in grown && n <= p ensures grown[p] == Zeros(PAGE_SIZE) {
      assert Look(dirty, grown, p) == Zeros(PAGE_SIZE);
    }
  }

  lemma NoOverwrite(bytes: seq<byte>, offset: nat, data: seq<byte>)
    requires offset + |data| <= |bytes|
    ensures Written(bytes, offset, data, 0, bytes)
  {
  }

  class DatabaseFile {
    const config: StoreConfig
    const cache: PageCache
    var numPages: nat
    var dirty: Pages
    var disk: Disk
    var closed: bool

    ghost predicate Shaped()
      reads this, cache
    {
      && config.Valid() && cache.Valid() && cache.capacity == config.cacheSize
      && disk.WellFormed() && disk.NumPages() == numPages
      && Coherent(cache.pages, dirty, disk.files)
      && forall p :: p in dirty ==> p < numPages
    }

    ghost predicate Valid()
      reads this, cache
    {
      Shaped() && |dirty| < config.maxDirtyPages && (closed ==> dirty == map[])
    }

    /** The flat array that the database stands for. */
    ghost function Bytes(): (r: seq<byte>)
      reads this, cache
      requires Shaped()
    {
      Contents(numPages, dirty, disk.files)
    }

    constructor Open(disk: Disk, config: StoreConfig)
      requires disk.WellFormed() && config.Valid()
      ensures Valid() && fresh(cache) && this.disk == disk && !closed && Bytes() == disk.Bytes()
    {
      this.config := config;
      cache := new PageCache(config.cacheSize);
      numPages := disk.NumPages();
      dirty := map[];
      this.disk := disk;
      closed := false;
    }

    /** Whatever was evicted or flushed, a page reads as the array has it. */
    method ReadPage(page: nat) returns (data: seq<byte>)
      requires Shaped()
      modifies cache
      ensures Shaped() && data == Look(dirty, disk.files, page) && Bytes() == old(Bytes())
    {
      if page in dirty {
        return dirty[page];
      }
      if page in cache.pages {
        return cache.pages[page];
      }
      data := if page in disk.files then disk.files[page] else Zeros(PAGE_SIZE);
      var _ := cache.Insert(page, data);
    }

    method ReadAt(offset: nat, len: nat) returns (r: Result<seq<byte>>)
      requires Valid()
      modifies cache
      ensures Valid() && Bytes() == old(Bytes())
      ensures r == ReadResult(Bytes(), closed, offset, len)
    {
      if closed {
        return Err(Closed);
      }
      if offset >= numPages * PAGE_SIZE {
        ReadPastEnd(Bytes(), offset, len);
        return Ok(Zeros(len));
      }
      r := ReadPages(offset, len);
    }

    lemma BeyondEnd(page: nat)
      requires Shaped() && numPages <= page
      ensures Look(dirty, disk.files, page) == Zeros(PAGE_SIZE)
    {
    }

    method ReadPages(offset: nat, len: nat) returns (r: Result<seq<byte>>)
      requires Shaped() && offset < U64_LIMIT
      modifies cache
      ensures Shaped() && Bytes() == old(Bytes())
      ensures r == if len > 0 && offset + len >= U64_LIMIT then Panicked else Ok(ReadFlat(Bytes(), offset, len))
    {
      ghost var bytes := Bytes();
      var result: seq<byte> := [];
      var pos := offset;
      while |result| < len
        invariant Shaped() && Bytes() == bytes
        invariant |result| <= len && pos == offset + |result| < U64_LIMIT
        invariant result == ReadFlat(bytes, offset, |result|)
        decreases len - |result|
      {
        var page, offIn := pos / PAGE_SIZE, pos % PAGE_SIZE;
        var canRead := Min(PAGE_SIZE - offIn, len - |result|);
        var data := ReadPage(page);
        var part := data[offIn..offIn + canRead];
        if numPages <= page {
          BeyondEnd(page);
        }
        ReadMore(numPages, dirty, disk.files, offset, |result|, pos, part);
        result := result + part;
        if pos + canRead >= U64_LIMIT {
          return Panicked;
        }
        pos := pos + canRead;
      }
      return Ok(result);
    }

    method WriteSuperblock()
      requires numPages < U64_LIMIT
      modifies `disk
      ensures disk == old(disk).(super := Some(Superblock(numPages))) && disk.NumPages() == numPages
    {
      SuperblockRoundTrip(disk.files, numPages);
      disk := disk.(super := Some(Superblock(numPages)));
    }

    /** Afterwards the files alone hold the array. */
    method Flush() returns (r: Result<()>)
      requires Shaped()
      modifies `dirty, `disk
      ensures Shaped() && Bytes() == old(Bytes())
      ensures closed ==> r == Err(Closed) && dirty == old(dirty) && disk == old(disk)
      ensures !closed ==> r == Ok(()) && dirty == map[] && disk.Bytes() == Bytes()
    {
      if closed {
        return Err(Closed);
      }
      if |dirty| == 0 {
        assert dirty.Keys == {};
        return Ok(());
      }
      ghost var bytes := Bytes();
      while |dirty| > 0
        invariant Shaped() && Bytes() == bytes
        decreases |dirty|
      {
        assert dirty.Keys != {};
        var page :| page in dirty.Keys;
        FlushPage(numPages, dirty, disk.files, page);
        FlushShrinks(dirty, page);
        disk := disk.(files := disk.files[page := dirty[page]]);
        dirty := dirty - {page};
      }
      assert dirty.Keys == {};
      WriteSuperblock();
      return Ok(());
    }

    method GrowTo(size: nat) returns (r: Result<()>)
      requires Valid()
      modifies `numPages, `disk
      ensures Valid()
      ensures r == GrowResult(closed, size)
      ensures Bytes() == if r.Ok? then Extend(old(Bytes()), size) else old(Bytes())
    {
      if closed {
        return Err(Closed);
      }
      if size + PAGE_SIZE - 1 >= U64_LIMIT {
        return Panicked;
      }
      var newPages := (size + PAGE_SIZE - 1) / PAGE_SIZE;
      if newPages <= numPages {
        return Ok(());
      }
      var files := GrowFiles(numPages, newPages, dirty, disk.files);
      disk := disk.(files := files);
      numPages := newPages;
      WriteSuperblock();
      return Ok(());
    }

    /** One page of a write: cached, marked dirty, and flushed when too many pages are dirty. */
    method StorePage(page: nat, data: seq<byte>)
      requires Valid() && !closed && page < numPages && |data| == PAGE_SIZE
      modifies cache, `dirty, `disk
      ensures Valid() && Sized(old(dirty)[page := data])
      ensures Bytes() == Contents(numPages, old(dirty)[page := data], old(disk.files))
    {
      var _ := cache.Insert(page, data);
      dirty := dirty[page := data];
      CoherentWrite(old(cache.pages), cache.pages, old(dirty), disk.files, page, data);
      if |dirty| >= config.maxDirtyPages {
        var _ := Flush();
      }
    }

    method WriteAt(offset: nat, data: seq<byte>) returns (r: Result<()>)
      requires Valid()
      modifies this, cache
      ensures Valid() && closed == old(closed)
      ensures r == WriteResult(old(Bytes()), closed, offset, data)
      ensures Bytes() == if r.Ok? then WriteFlat(old(Bytes()), offset, data) else old(Bytes())
    {
      if closed {
        return Err(Closed);
      }
      if offset + |data| >= U64_LIMIT {
        return Panicked;
      }
      r := MakeRoom(offset + |data|);
      if r.Ok? {
        WritePages(offset, data);
      }
    }

    method MakeRoom(end: nat) returns (r: Result<()>)
      requires Valid() && !closed
      modifies `numPages, `disk
      ensures Valid()
      ensures r == if end > |old(Bytes())| then GrowResult(false, end) else Ok(())
      ensures Bytes() == if r.Ok? then Extend(old(Bytes()), end) else old(Bytes())
      ensures r.Ok? ==> end <= numPages * PAGE_SIZE
    {
      r := Ok(());
      ExtendCovers(Bytes(), end);
      if end > numPages * PAGE_SIZE {
        r := GrowTo(end);
      }
    }

    method WritePages(offset: nat, data: seq<byte>)
      requires Valid() && !closed && offset + |data| <= numPages * PAGE_SIZE
      modifies cache, `dirty, `disk
      ensures Valid() && Bytes() == Overwrite(old(Bytes()), offset, data)
    {
      ghost var bytes := Bytes();
      ghost var now := bytes;
      NoOverwrite(bytes, offset, data);
      var pos, src := offset, 0;
      while src < |data|
        invariant Valid() && src <= |data| && pos == offset + src
        invariant Bytes() == now && Written(bytes, offset, data, src, now)
      {
        var canWrite := Min(PAGE_SIZE - pos % PAGE_SIZE, |data| - src);
        ghost var next := WritePart(pos, data[src..src + canWrite]);
        OverwriteTwice(bytes, offset, data, src, src + canWrite, pos, now, next);
        now := next;
        pos := pos + canWrite;
        src := src + canWrite;
      }
      AllDone(bytes, offset, data, src, now);
    }

    /** The part of a write that falls into one page. */
    method WritePart(pos: nat, part: seq<byte>) returns (ghost next: seq<byte>)
      requires Valid() && !closed && pos + |part| <= numPages * PAGE_SIZE
      requires pos % PAGE_SIZE + |part| <= PAGE_SIZE && part != []
      modifies cache, `dirty, `disk
      ensures Valid() && next == Bytes() == Overwrite(old(Bytes()), pos, part)
    {
      var page, offIn := pos / PAGE_SIZE, pos % PAGE_SIZE;
      var pageData := ReadPage(page);
      var changed := Overwrite(pageData, offIn, part);
      WritePage(numPages, dirty, disk.files, pos, part, page, changed);
      StorePage(page, changed);
      next := Bytes();
    }

    method Close() returns (r: Result<()>)
      requires Valid()
      modifies this
      ensures Valid() && closed && r == Ok(())
      ensures Bytes() == old(Bytes()) == disk.Bytes()
    {
      if closed {
        return Ok(());
      }
      r := Flush();
      closed := true;
    }
  }

  lemma FlushShrinks(dirty: Pages, p: nat)
    requires p in dirty
    ensures |dirty - {p}| < |dirty|
  {
    assert dirty.Keys == (dirty - {p}).Keys + {p};
  }

  /** One byte of a page is that byte of the array, or zero after its end. */
  lemma PageByte(n: nat, dirty: Pages, files: Pages, at: nat, k: nat)
    requires Sized(dirty) && Sized(files) && at % PAGE_SIZE + k < PAGE_SIZE
    requires n <= at / PAGE_SIZE ==> Look(dirty, files, at / PAGE_SIZE) == Zeros(PAGE_SIZE)
    ensures var bytes := Contents(n, dirty, files);
            Look(dirty, files, at / PAGE_SIZE)[at % PAGE_SIZE + k] == if at + k < |bytes| then bytes[at + k] else 0
  {
    assert (at + k) / PAGE_SIZE == at / PAGE_SIZE && (at + k) % PAGE_SIZE == at % PAGE_SIZE + k;
    if at + k < n * PAGE_SIZE {
      ContentsAt(n, dirty, files, at + k);
    }
  }

  lemma ReadFlatMore(bytes: seq<byte>, offset: nat, done: nat, part: seq<byte>)
    requires forall k :: 0 <= k < |part| ==>
               part[k] == if offset + done + k < |bytes| then bytes[offset + done + k] else 0
    ensures ReadFlat(bytes, offset, done) + part == ReadFlat(bytes, offset, done + |part|)
  {
    var r := ReadFlat(bytes, offset, done + |part|);
    forall i | 0 <= i < done + |part| ensures (ReadFlat(bytes, offset, done) + part)[i] == r[i] {
      if i >= done {
        assert part[i - done] == r[i];
      }
    }
  }

  /** The bytes of one page continue a read. */
  lemma ReadMore(n: nat, dirty: Pages, files: Pages, offset: nat, done: nat, at: nat, part: seq<byte>)
    requires Sized(dirty) && Sized(files) && at == offset + done
    requires n <= at / PAGE_SIZE ==> Look(dirty, files, at / PAGE_SIZE) == Zeros(PAGE_SIZE)
    requires at % PAGE_SIZE + |part| <= PAGE_SIZE
    requires part == Look(dirty, files, at / PAGE_SIZE)[at % PAGE_SIZE..at % PAGE_SIZE + |part|]
    ensures ReadFlat(Contents(n, dirty, files), offset, done) + part
         == ReadFlat(Contents(n, dirty, files), offset, done + |part|)
  {
    var bytes := Contents(n, dirty, files);
    forall k | 0 <= k < |part| ensures part[k] == if at + k < |bytes| then bytes[at + k] else 0 {
      PageByte(n, dirty, files, at, k);
    }
    ReadFlatMore(bytes, offset, done, part);
  }

  // ---------------------------------------------------------------------------
  // What each operation answers
  // ---------------------------------------------------------------------------

  function ReadResult(bytes: seq<byte>, closed: bool, offset: nat, len: nat): Result<seq<byte>>
  {
    if closed then Err(Closed)
    else if offset < |bytes| && len > 0 && offset + len >= U64_LIMIT then Panicked
    else Ok(ReadFlat(bytes, offset, len))
  }

  function GrowResult(closed: bool, size: nat): Result<()>
  {
    if closed then Err(Closed) else if size + PAGE_SIZE - 1 >= U64_LIMIT then Panicked else Ok(())
  }

  function WriteResult(bytes: seq<byte>, closed: bool, offset: nat, data: seq<byte>): Result<()>
  {
    if closed then Err(Closed)
    else if offset + |data| >= U64_LIMIT then Panicked
    else if offset + |data| > |bytes| then GrowResult(closed, offset + |data|)
    else Ok(())
  }

  // ---------------------------------------------------------------------------
  // Opening and creating
  // ---------------------------------------------------------------------------

  method OpenDatabase(disk: Disk, config: StoreConfig) returns (r: Result<DatabaseFile>)
    requires disk.WellFormed()
    ensures !config.Valid() ==> r == Err(InvalidConfig)
    ensures config.Valid() ==> r.Ok? && fresh(r.value) && fresh(r.value.cache)
    ensures config.Valid() ==> r.value.Valid() && !r.value.closed && r.value.Bytes() == disk.Bytes()
  {
    if !config.Valid() {
      return Err(InvalidConfig);
    }
    var db := new DatabaseFile.Open(disk, config);
    return Ok(db);
  }

  /** A new database is two pages of zeros, already in its files. */
  method Create(disk: Disk, config: StoreConfig) returns (r: Result<DatabaseFile>)
    requires disk.WellFormed()
    ensures disk.super.Some? ==> r == Err(AlreadyExists)
    ensures disk.super.None? && !config.Valid() ==> r == Err(InvalidConfig)
    ensures disk.super.None? && config.Valid() ==> r.Ok? && fresh(r.value) && r.value.Valid()
    ensures r.Ok? ==> r.value.Bytes() == Zeros(2 * PAGE_SIZE)
  {
    if disk.super.Some? {
      return Err(AlreadyExists);
    }
    r := OpenDatabase(disk, config);
    if r.Ok? {
      assert r.value.Bytes() == [];
      var _ := r.value.GrowTo(2 * PAGE_SIZE);
      assert [] + Zeros(2 * PAGE_SIZE) == Zeros(2 * PAGE_SIZE);
    }
  }

  // ---------------------------------------------------------------------------
  // Whole lifetimes
  // ---------------------------------------------------------------------------

  datatype Op =
    | Read(offset: nat, len: nat)
    | Write(offset: nat, data: seq<byte>)
    | Grow(size: nat)
    | Sync
    | Shut

  datatype Model = Model(bytes: seq<byte>, closed: bool)

  /** What the operation does to a plain byte array, and the bytes it answers with. */
  function Meaning(m: Model, op: Op): (Model, Result<seq<byte>>)
  {
    match op
    case Read(offset, len) => (m, ReadResult(m.bytes, m.closed, offset, len))
    case Write(offset, data) =>
      var r := WriteResult(m.bytes, m.closed, offset, data);
      (if r.Ok? then m.(bytes := WriteFlat(m.bytes, offset, data)) else m, Done(r))
    case Grow(size) =>
      var r := GrowResult(m.closed, size);
      (if r.Ok? then m.(bytes := Extend(m.bytes, size)) else m, Done(r))
    case Sync => (m, if m.closed then Err(Closed) else Ok([]))
    case Shut => (m.(closed := true), Ok([]))
  }

  function Done(r: Result<()>): Result<seq<byte>>
  {
    match r case Ok(_) => Ok([]) case Err(e) => Err(e) case Panicked => Panicked
  }

  function After(m: Model, ops: seq<Op>): (r: Model)
    decreases |ops|
  {
    if ops == [] then m else After(Meaning(m, ops[0]).0, ops[1..])
  }

  function Answers(m: Model, ops: seq<Op>): (r: seq<Result<seq<byte>>>)
    ensures |r| == |ops|
    decreases |ops|
  {
    if ops == [] then [] else [Meaning(m, ops[0]).1] + Answers(Meaning(m, ops[0]).0, ops[1..])
  }

  lemma {:induction false} AnswersSnoc(m: Model, ops: seq<Op>, op: Op)
    ensures After(m, ops + [op]) == Meaning(After(m, ops), op).0
    ensures Answers(m, ops + [op]) == Answers(m, ops) + [Meaning(After(m, ops), op).1]
    decreases |ops|
  {
    if ops == [] {
      assert ops + [op] == [op] && [op][1..] == [];
    } else {
      AnswersSnoc(Meaning(m, ops[0]).0, ops[1..], op);
      assert (ops + [op])[1..] == ops[1..] + [op];
    }
  }

  method Execute(db: DatabaseFile, op: Op) returns (answer: Result<seq<byte>>)
    requires db.Valid()
    modifies db, db.cache
    ensures db.Valid()
    ensures (Model(db.Bytes(), db.closed), answer) == Meaning(old(Model(db.Bytes(), db.closed)), op)
  {
    match op
    case Read(offset, len) =>
      answer := db.ReadAt(offset, len);
    case Write(offset, data) =>
      var r := db.WriteAt(offset, data);
      answer := Done(r);
    case Grow(size) =>
      var r := db.GrowTo(size);
      answer := Done(r);
    case Sync =>
      var r := db.Flush();
      answer := Done(r);
    case Shut =>
      var r := db.Close();
      answer := Done(r);
  }

  lemma TakeOne(ops: seq<Op>, i: nat)
    requires i < |ops|
    ensures ops[..i + 1] == ops[..i] + [ops[i]]
  {
  }

  /** One opening of the database: the operations, and the close when it is dropped. */
  method Session(disk: Disk, config: StoreConfig, ops: seq<Op>)
    returns (answers: seq<Result<seq<byte>>>, disk': Disk)
    requires disk.WellFormed() && config.Valid()
    ensures answers == Answers(Model(disk.Bytes(), false), ops)
    ensures disk'.WellFormed() && disk'.Bytes() == After(Model(disk.Bytes(), false), ops).bytes
  {
    var db := new DatabaseFile.Open(disk, config);
    answers := [];
    ghost var start := Model(disk.Bytes(), false);
    for i := 0 to |ops|
      invariant db.Valid() && fresh(db) && fresh(db.cache)
      invariant answers == Answers(start, ops[..i]) && Model(db.Bytes(), db.closed) == After(start, ops[..i])
    {
      TakeOne(ops, i);
      AnswersSnoc(start, ops[..i], ops[i]);
      var answer := Execute(db, ops[i]);
      answers := answers + [answer];
    }
    assert ops[..|ops|] == ops;
    var _ := db.Close();
    disk' := db.disk;
  }

  datatype Opening = Opening(config: StoreConfig, ops: seq<Op>)

  function LifetimeBytes(bytes: seq<byte>, runs: seq<Opening>): (r: seq<byte>)
    decreases |runs|
  {
    if runs == [] then bytes
    else LifetimeBytes(After(Model(bytes, false), runs[0].ops).bytes, runs[1..])
  }

  function LifetimeAnswers(bytes: seq<byte>, runs: seq<Opening>): (r: seq<seq<Result<seq<byte>>>>)
    decreases |runs|
  {
    if runs == [] then []
    else
      [Answers(Model(bytes, false), runs[0].ops)]
      + LifetimeAnswers(After(Model(bytes, false), runs[0].ops).bytes, runs[1..])
  }

  /** Over any number of openings, each with its own cache size and dirty limit, every answer is
      the one a plain byte array would give. */
  method Lifetime(disk: Disk, runs: seq<Opening>) returns (answers: seq<seq<Result<seq<byte>>>>, disk': Disk)
    requires disk.WellFormed() && forall i :: 0 <= i < |runs| ==> runs[i].config.Valid()
    ensures answers == LifetimeAnswers(disk.Bytes(), runs)
    ensures disk'.WellFormed() && disk'.Bytes() == LifetimeBytes(disk.Bytes(), runs)
    decreases |runs|
  {
    if runs == [] {
      return [], disk;
    }
    var first, next := Session(disk, runs[0].config, runs[0].ops);
    var rest, last := Lifetime(next, runs[1..]);
    return [first] + rest, last;
  }

  /** A database that was never created is the empty array. */
  lemma NewDiskEmpty()
    ensures Disk(map[], None).WellFormed() && Disk(map[], None).Bytes() == []
  {
  }

  /** The whole life of a database that starts without files: every answer is that of an array that starts
      empty. */
  method WholeLifetime(runs: seq<Opening>) returns (answers: seq<seq<Result<seq<byte>>>>, disk: Disk)
    requires forall i :: 0 <= i < |runs| ==> runs[i].config.Valid()
    ensures answers == LifetimeAnswers([], runs)
    ensures disk.WellFormed() && disk.Bytes() == LifetimeBytes([], runs)
  {
    NewDiskEmpty();
    answers, disk := Lifetime(Disk(map[], None), runs);
  }
}
