/**
An open regular file: an inode that lists bundles, bundles that list pages, and two direct-mapped caches.  Every
operation is proved against the page tree, with no condition on cache collisions, evictions or the keys drawn
for new rows.
*/
module PagedFile {
  import opened Prelude
  import opened PageTree
  import opened PageStore
  import opened PageHistory

  datatype WriteOutcome = Wrote(count: nat) | NoAccess | Overflow

  const U64_LIMIT: nat := 0x1_0000_0000_0000_0000

  /** Every page there is, or ever will be, is read through its write line. */
  ghost predicate LowKeys(pageRows: PageRows, draw: nat -> Key) {
    (forall k :: k in pageRows ==> k % 80 < 10) && (forall i: nat :: draw(i) % 80 < 10)
  }

  class RegularFile {
    /** Whether the inode was opened for mutation. */
    const writable: bool
    /** The keys that will be drawn for new rows, in order. */
    const draw: nat -> Key
    const bundleCache: array<Option<BundleLine>>
    const pageCache: array<Option<PageLine>>

    var drawn: nat
    var dirty: bool
    var size: nat
    var bundles: seq<Option<Key>>
    var bundleRows: BundleRows
    var pageRows: PageRows
    /** The size that can be asked for without taking the lock. */
    var statSize: nat

    /** The pages as they were stored when the file was opened, and every use of the page cache since. */
    ghost const origin: PageRows
    ghost var uses: seq<Use>

    // -------------------------------------------------------------- state

    ghost predicate Valid()
      reads this, bundleCache, pageCache
    {
      && BundleLinesOk(bundleCache[..], bundleRows)
      && PageLinesOk(pageCache[..], pageRows)
      && Linked(bundles, bundleRows, pageRows.Keys)
      && Unshared(bundles, bundleRows)
      && (!dirty ==> Settled(pageCache[..], pageRows))
      && (!writable ==> !dirty)
      && (forall i: nat, j: nat :: draw(i) == draw(j) ==> i == j)
      && (forall i: nat :: i >= drawn ==> draw(i) !in bundleRows && draw(i) !in pageRows)
    }

    ghost function CacheState(): Cache
      reads this, pageCache
    {
      Cache(pageCache[..], pageRows)
    }

    /** The page cache is what its uses make of it, and every page was there at first or has a key that was drawn. */
    ghost predicate Traced()
      reads this, pageCache
    {
      && Proper(origin, uses) && After(origin, uses) == CacheState()
      && forall k :: k in pageRows ==> k in origin || exists i: nat :: i < drawn && draw(i) == k
    }

    /** Every page there is, or ever will be, is read through its write line. */
    ghost predicate AllLow() {
      LowKeys(origin, draw)
    }

    ghost function SlotOf(kb: Key, i: nat): Option<Key>
      reads this
    {
      if kb in bundleRows && i < |bundleRows[kb]| then bundleRows[kb][i] else None
    }

    ghost function KeyOf(p: nat): Option<Key>
      reads this
    {
      KeyAt(bundles, bundleRows, p)
    }

    /** The latest content of every page. */
    ghost function Contents(): PageRows
      reads this, pageCache
    {
      AllCurrent(pageCache[..], pageRows)
    }

    ghost function Tree(): Tree
      reads this, pageCache
    {
      TreeOf(bundles, bundleRows, Contents())
    }

    /** The tree as reads find it: the same as Tree() unless a read line holds an outdated copy. */
    ghost function SeenTree(): Tree
      reads this, pageCache
    {
      TreeOf(bundles, bundleRows, AllSeen(pageCache[..], pageRows))
    }

    ghost function File(): File
      reads this, pageCache
    {
      PageTree.File(size, Tree())
    }

    /** Opening an inode: both caches start empty. */
    constructor (writable: bool, size: nat, bundles: seq<Option<Key>>, bundleRows: BundleRows, pageRows: PageRows,
                 draw: nat -> Key)
      requires Linked(bundles, bundleRows, pageRows.Keys) && Unshared(bundles, bundleRows)
      requires forall i: nat, j: nat :: draw(i) == draw(j) ==> i == j
      requires forall i: nat :: draw(i) !in bundleRows && draw(i) !in pageRows
      ensures Valid() && fresh(bundleCache) && fresh(pageCache)
      ensures this.writable == writable && this.draw == draw && !dirty && statSize == size
      ensures Traced() && origin == pageRows && uses == [] && drawn == 0 && this.bundles == bundles
      ensures File() == PageTree.File(size, TreeOf(bundles, bundleRows, pageRows))
    {
      this.writable, this.draw := writable, draw;
      this.drawn, this.dirty, this.statSize := 0, false, size;
      this.size, this.bundles, this.bundleRows, this.pageRows := size, bundles, bundleRows, pageRows;
      bundleCache := new Option<BundleLine>[CACHED_BUNDLES](_ => None);
      pageCache := new Option<PageLine>[CACHED_PAGES](_ => None);
      origin, uses := pageRows, [];
      new;
      assert pageCache[..] == NoLines();
      SettledIsCurrent(pageCache[..], this.pageRows);
    }

    // -------------------------------------------------------------- cache lines

    /** Bring a bundle into its cache line and return its page references. */
    method LoadBundle(key: Key) returns (pages: seq<Option<Key>>)
      requires Valid() && key in bundleRows
      modifies bundleCache
      ensures Valid()
      ensures pages == bundleRows[key]
      ensures bundleCache[key % CACHED_BUNDLES] == Some(BundleLine(key, pages))
    {
      var s := key % CACHED_BUNDLES;
      var line := bundleCache[s];
      if line.Some? && line.value.key == key {
        pages := line.value.pages;
      } else {
        pages := bundleRows[key];
        bundleCache[s] := Some(BundleLine(key, pages));
      }
    }

    /** Replace line s by a clean copy of a row; the copy dropped is written back if it was modified. */
    method ReplaceLine(s: nat, key: Key)
      requires Valid() && key in pageRows && !Holds(pageCache[..], s, key)
      requires s == key % CACHED_PAGES || s == key % CACHED_BUNDLES
      modifies this`pageRows, pageCache
      ensures Valid()
      ensures Contents() == old(Contents()) && pageRows.Keys == old(pageRows.Keys)
      ensures pageCache[..] == old(pageCache[..])[s := Some(PageLine(key, old(pageRows[key]), false))]
      ensures pageRows[key] == old(pageRows[key])
      ensures CacheState() == Fetch(old(CacheState()), s, key)
    {
      hide BundleLinesOk, Linked, Unshared;
      ReadLineInWriteRange(key);
      var line, fetched := pageCache[s], PageLine(key, pageRows[key], false);
      ghost var before := pageCache[..];
      DropKeepsContent(before, pageRows, s, Some(fetched));
      pageCache[s] := Some(fetched);
      assert pageCache[..] == before[s := Some(fetched)];
      if line.Some? && line.value.dirty {
        pageRows := pageRows[line.value.key := line.value.buf];
      }
    }

    /** Bring a page into line s, which is its read line or its write line. */
    method LoadPage(key: Key, s: nat) returns (buf: Page)
      requires Valid() && key in pageRows
      requires s == key % CACHED_PAGES || s == key % CACHED_BUNDLES
      modifies this`pageRows, pageCache
      ensures Valid()
      ensures Contents() == old(Contents()) && pageRows.Keys == old(pageRows.Keys)
      ensures Holds(pageCache[..], s, key) && buf == pageCache[s].value.buf
      ensures s == key % CACHED_PAGES ==> buf == old(Seen(pageCache[..], pageRows, key))
      ensures s == key % CACHED_BUNDLES ==> buf == old(Current(pageCache[..], pageRows, key))
      ensures key % CACHED_PAGES >= CACHED_BUNDLES ==>
                Seen(pageCache[..], pageRows, key) == old(Seen(pageCache[..], pageRows, key))
      ensures CacheState() == Fetch(old(CacheState()), s, key)
    {
      hide BundleLinesOk, PageLineOk, Linked, Unshared, Settled, AllCurrent;
      ReadLineInWriteRange(key);
      var line := pageCache[s];
      if line.Some? && line.value.key == key {
        buf := line.value.buf;
      } else {
        buf := pageRows[key];
        ReplaceLine(s, key);
      }
    }

    // -------------------------------------------------------------- reading

    /** Zeros come from the tail of one static zero page, so a request may not exceed a page. */
    method WriteZeros(n: nat) returns (zeros: seq<Byte>)
      requires n <= PAGE_SIZE
      ensures zeros == Zeros(n)
    {
      if n <= 0 {
        return [];
      }
      var offset := PAGE_SIZE - n;
      zeros := Zeros(PAGE_SIZE)[offset..];
    }

    /** With nothing uncommitted, or with every page read through its write line, reads find what is current. */
    lemma SeesCurrent()
      requires Valid() && Traced() && (!dirty || AllLow())
      ensures SeenTree() == Tree()
    {
      hide TreeOf, Linked, Unshared, BundleLinesOk, Proper, After;
      if !dirty {
        SettledIsCurrent(pageCache[..], pageRows);
      } else {
        forall k | k in pageRows
          ensures Seen(pageCache[..], pageRows, k) == Current(pageCache[..], pageRows, k)
        {
          LowLinesNeverStale(pageCache[..], pageRows, k);
        }
        assert AllSeen(pageCache[..], pageRows) == AllCurrent(pageCache[..], pageRows);
      }
    }

    /** What the history shows of a page is what reads find there. */
    lemma PageSeen(p: nat)
      requires Valid() && Traced()
      ensures PageAt(SeenTree(), p) == if KeyOf(p).Some? then Some(View(origin, uses, KeyOf(p).value)) else None
      ensures KeyOf(p).Some? ==> KeyOf(p).value in pageRows
    {
      hide PageLinesOk, BundleLinesOk, Unshared, Settled, Proper, After, Seen, View, PageAt, TreeOf, KeyAt;
      var seen := AllSeen(pageCache[..], pageRows);
      assert seen.Keys == pageRows.Keys;
      PageOfKey(bundles, bundleRows, seen, p);
      if KeyOf(p).Some? {
        SeenIsView(origin, uses, KeyOf(p).value);
      }
    }

    /** Read a page through its read line. */
    method LookAt(key: Key) returns (buf: Page)
      requires Valid() && Traced() && key in pageRows
      modifies this`pageRows, this`uses, pageCache
      ensures Valid() && Traced()
      ensures Contents() == old(Contents()) && pageRows.Keys == old(pageRows.Keys)
      ensures buf == View(origin, old(uses), key) && uses == old(uses) + [Look(key)]
    {
      hide BundleLinesOk, PageLinesOk, Linked, Unshared, Settled, Proper, After, Fetch, View, AllCurrent;
      SeenIsView(origin, uses, key);
      Extends(origin, uses, CacheState(), Look(key));
      buf := LoadPage(key, key % CACHED_PAGES);
      uses := uses + [Look(key)];
    }

    /** Find the page an offset lies in, through the bundle cache, and the position in it. */
    method FindPage(offset: nat) returns (page: Option<Key>, rest: nat)
      requires Valid()
      modifies bundleCache
      ensures Valid() && page == KeyOf(offset / 131072) && rest == offset % 131072
      ensures page.Some? ==> page.value in pageRows
    {
      hide PageLinesOk, BundleLinesOk, Unshared, Settled;
      var index, pageIndex, sub := Locate(offset);
      rest := sub;
      if index >= |bundles| {
        return None, rest;
      }
      var bundle := bundles[index];
      if bundle.None? {
        return None, rest;
      }
      var pages := LoadBundle(bundle.value);
      if pageIndex >= |pages| {
        return None, rest;
      }
      page := pages[pageIndex];
    }

    /** Read n bytes that lie within one page. */
    method ReadPage(offset: nat, n: nat) returns (r: ReadOutcome)
      requires Valid() && Traced() && 0 < n && offset % PAGE_SIZE + n <= PAGE_SIZE
      modifies this`pageRows, this`uses, bundleCache, pageCache
      ensures Valid() && Traced() && Contents() == old(Contents()) && pageRows.Keys == old(pageRows.Keys)
      ensures var key := KeyOf(offset / 131072);
              && r == ChunkOf(if key.Some? then Some(View(origin, old(uses), key.value)) else None, offset % 131072, n)
              && uses == Looks(old(uses), key)
      ensures r.Data? ==> |r.bytes| == n
    {
      hide Valid, AllCurrent, View, Proper, After, KeyAt, ChunkOf;
      var page, rest := FindPage(offset);
      if page.None? {
        var zeros := WriteZeros(n);
        HoleChunk(rest, n);
        return Data(zeros);
      }
      var buf := LookAt(page.value);
      r := CopyOut(buf, rest, n);
    }

    /** Copy n bytes out of a page, with zeros for what lies beyond its end. */
    method CopyOut(buf: Page, rest: nat, n: nat) returns (r: ReadOutcome)
      requires n <= PAGE_SIZE
      ensures r == ChunkOf(Some(buf), rest, n) && (r.Data? ==> |r.bytes| == n)
    {
      if |buf| < rest {
        return Panic;
      }
      var sub := Min(n, |buf| - rest);
      var out := if sub > 0 then buf[rest..rest + sub] else [];
      var zeros := WriteZeros(n - sub);
      return Data(out + zeros);
    }

    /** Read up to `count` bytes from `offset`. */
    method Read(offset: nat, count: nat) returns (r: ReadOutcome)
      requires Valid() && Traced()
      modifies this`pageRows, this`uses, bundleCache, pageCache
      ensures Valid() && Traced() && File() == old(File())
      ensures (r, uses) ==
              if offset >= size || count == 0 then (Data([]), old(uses))
              else ReadVia(bundles, bundleRows, origin, old(uses), offset, Min(count, size - offset))
      ensures !dirty || AllLow() ==> r == ReadFile(File(), offset, count)
      ensures r.Data? ==> |r.bytes| == if offset < size then Min(count, size - offset) else 0
    {
      hide Valid, Traced, TreeOf, AllCurrent, AllSeen, PageAt, ByteAt, ChunkOf, Span;
      hide View, KeyAt, Looks, ReadVia, AllLow, Following;
      if offset >= size {
        return Data([]);
      }
      var left := Min(count, size - offset);
      if left <= 0 {
        return Data([]);
      }
      ghost var total, t, clear := left, Tree(), !dirty || AllLow();
      ghost var whole := ReadVia(bundles, bundleRows, origin, uses, offset, left);
      var at, bytes := offset, [];
      NothingYet(whole);
      while left > 0
        invariant Valid() && Traced() && Contents() == old(Contents())
        invariant 0 <= left && at + left == offset + total && |bytes| == at - offset
        invariant at > offset ==> left == 0 || at % PAGE_SIZE == 0
        invariant Following(bytes, ReadVia(bundles, bundleRows, origin, uses, at, left)) == whole
        invariant clear ==> bytes == Span(t, offset, |bytes|)
        invariant clear && at > offset ==> !TooShort(t, offset)
      {
        var sub := at % PAGE_SIZE;
        var n := Min(left, PAGE_SIZE - sub);
        PieceEnds(at, left);
        ReadViaStep(bundles, bundleRows, origin, uses, at, left, bytes);
        PageSeen(at / 131072);
        ChunkIsBytes(t, at, n);
        if clear {
          SeesCurrent();
        }
        var chunk := ReadPage(at, n);
        if chunk.Panic? {
          return Panic;
        }
        ghost var before := bytes;
        bytes := bytes + chunk.bytes;
        if clear {
          SpanJoins(t, offset, |before|, n);
        }
        left := left - n;
        at := at + n;
      }
      NothingLeft(bundles, bundleRows, origin, uses, at, bytes);
      return Data(bytes);
    }

    // -------------------------------------------------------------- writing

    /** Insert a new, empty bundle at slot b. */
    method InsertNewBundle(b: nat) returns (kb: Key)
      requires Valid() && Traced() && writable && dirty && b <= |bundles|
      modifies this`bundles, this`bundleRows, this`drawn, bundleCache
      ensures Valid() && Traced()
      ensures Tree() == InsertAt(old(Tree()), b, Some([]))
      ensures b < |bundles| && bundles[b] == Some(kb) && kb in bundleRows && bundleRows[kb] == []
      ensures drawn == old(drawn) + 1
    {
      hide PageLinesOk, Settled, AllCurrent, TreeOf, Linked, Unshared, Proper, After;
      kb := draw(drawn);
      InsertBundle(bundles, bundleRows, Contents(), b, kb);
      InsertBundleOk(bundles, bundleRows, pageRows.Keys, b, kb);
      drawn := drawn + 1;
      bundleRows := bundleRows[kb := []];
      bundleCache[kb % CACHED_BUNDLES] := Some(BundleLine(kb, []));
      bundles := InsertAt(bundles, b, Some(kb));
    }

    /** The vector of bundles, grown with holes until it has a slot b. */
    method Lengthen(b: nat) returns (grown: seq<Option<Key>>)
      ensures grown == GrowTo(bundles, b + 1)
    {
      grown := bundles;
      while |grown| <= b
        invariant |bundles| <= |grown|
        invariant grown == bundles + seq(|grown| - |bundles|, _ => None)
        invariant grown == bundles || |grown| <= b + 1
      {
        grown := grown + [None];
      }
    }

    /** Make sure slot b of the inode holds a bundle, inserting a new one into a hole. */
    method OpenBundle(b: nat) returns (kb: Key)
      requires Valid() && Traced() && writable && dirty
      modifies this`bundles, this`bundleRows, this`drawn, bundleCache
      ensures Valid() && Traced()
      ensures Tree() == FillBundle(old(Tree()), b)
      ensures b < |bundles| && bundles[b] == Some(kb) && kb in bundleRows
      ensures if b < |old(bundles)| && old(bundles)[b].Some?
              then old(bundles)[b] == Some(kb) && bundleRows == old(bundleRows) && drawn == old(drawn)
              else bundleRows[kb] == [] && drawn == old(drawn) + 1
    {
      hide PageLinesOk, Settled, AllCurrent, BundleOf, Proper, After;
      GrowBundles(bundles, bundleRows, Contents(), b + 1);
      bundles := Lengthen(b);
      if bundles[b].Some? {
        kb := bundles[b].value;
      } else {
        kb := InsertNewBundle(b);
      }
    }

    /** Grow a row to one slot more than a bundle has pages, so that no further growth is ever needed. */
    method Extend(was: seq<Option<Key>>) returns (pages: seq<Option<Key>>)
      requires |was| <= PAGES_PER_BUNDLE
      ensures pages == GrowTo(was, PAGES_PER_BUNDLE + 1) && |pages| == PAGES_PER_BUNDLE + 1
    {
      pages := was;
      while |pages| <= PAGES_PER_BUNDLE
        invariant |was| <= |pages| <= PAGES_PER_BUNDLE + 1
        invariant pages == was + seq(|pages| - |was|, _ => None)
      {
        pages := pages + [None];
      }
    }

    /** Give the bundle at b enough slots for slot i. */
    method GrowBundle(ghost b: nat, kb: Key, i: nat)
      requires Valid() && Traced() && b < |bundles| && bundles[b] == Some(kb) && i < PAGES_PER_BUNDLE
      modifies this`bundleRows, bundleCache
      ensures Valid() && Traced()
      ensures var bd := old(Tree())[b].value;
              Tree() == old(Tree())[b := Some(if |bd| <= i then GrowTo(bd, PAGES_PER_BUNDLE + 1) else bd)]
      ensures kb in bundleRows && i < |bundleRows[kb]| && bundleRows[kb][i] == old(SlotOf(kb, i))
    {
      hide PageLinesOk, Settled, BundleLinesOk, AllCurrent, Linked, Unshared, TreeOf, BundleOf, GrowTo, Proper, After;
      GrowRow(bundles, bundleRows, Contents(), pageRows.Keys, b, kb, PAGES_PER_BUNDLE + 1);
      var pages := LoadBundle(kb);
      if |pages| <= i {
        GrownSlot(pages, PAGES_PER_BUNDLE + 1, i);
        pages := Extend(pages);
        SetBundle(kb, pages);
      }
    }

    /** Store a new, empty page and leave it in its write line. */
    method StorePage() returns (k: Key)
      requires Valid() && Traced() && writable && dirty
      modifies this`pageRows, this`drawn, this`uses, pageCache
      ensures Valid() && Traced()
      ensures k !in old(pageRows) && Contents() == old(Contents())[k := []]
      ensures k == draw(old(drawn)) && drawn == old(drawn) + 1 && uses == old(uses) + [Create(k)]
    {
      hide Linked, Unshared, BundleLinesOk, PageLinesOk, Settled, Proper, After, Fetch, TreeOf, BundleOf, AllCurrent;
      k := draw(drawn);
      Extends(origin, uses, CacheState(), Create(k));
      uses := uses + [Create(k)];
      StoreNewPage(pageCache[..], pageRows, k);
      UnreferencedPage(bundles, bundleRows, pageRows, k, []);
      drawn := drawn + 1;
      pageRows := pageRows[k := []];
      ReplaceLine(k % CACHED_BUNDLES, k);
    }

    /** Fill the hole at slot i of the bundle at b with a new, empty page. */
    method InsertNewPage(ghost b: nat, kb: Key, i: nat) returns (k: Key)
      requires Valid() && Traced() && writable && dirty
      requires b < |bundles| && bundles[b] == Some(kb) && i < |bundleRows[kb]|
      modifies this`bundleRows, this`pageRows, this`drawn, this`uses, bundleCache, pageCache
      ensures Valid() && Traced()
      ensures k == draw(old(drawn)) && drawn == old(drawn) + 1 && uses == old(uses) + [Create(k)]
      ensures Tree() == old(Tree())[b := Some(InsertAt(old(Tree())[b].value, i, Some([])))]
      ensures kb in bundleRows && i < |bundleRows[kb]| && bundleRows[kb][i] == Some(k) && k in pageRows
    {
      hide PageLinesOk, Settled, AllCurrent, Proper, After;
      k := StorePage();
      ghost var contents := old(Contents());
      UnreferencedPage(bundles, bundleRows, contents, k, []);
      var pages := InsertAt(bundleRows[kb], i, Some(k));
      InsertPage(bundleRows[kb], Contents(), i, k);
      InsertRowOk(bundles, bundleRows, contents.Keys, kb, i, k);
      SetRow(bundles, bundleRows, Contents(), b, kb, pages);
      SetBundle(kb, pages);
    }

    /** Change the page references of a bundle, in its row and in its cache line. */
    method SetBundle(kb: Key, pages: seq<Option<Key>>)
      requires Valid() && kb in bundleRows
      requires Linked(bundles, bundleRows[kb := pages], pageRows.Keys)
      requires Unshared(bundles, bundleRows[kb := pages])
      modifies this`bundleRows, bundleCache
      ensures Valid() && bundleRows == old(bundleRows)[kb := pages]
    {
      hide PageLinesOk, Settled, Linked, Unshared;
      bundleCache[kb % CACHED_BUNDLES] := Some(BundleLine(kb, pages));
      bundleRows := bundleRows[kb := pages];
    }

    /** Make sure slot i of the bundle at b holds a page, inserting a new one into a hole. */
    method OpenPage(ghost b: nat, kb: Key, i: nat) returns (k: Key)
      requires Valid() && Traced() && writable && dirty
      requires b < |bundles| && bundles[b] == Some(kb) && i < PAGES_PER_BUNDLE
      modifies this`bundleRows, this`pageRows, this`drawn, this`uses, bundleCache, pageCache
      ensures Valid() && Traced()
      ensures if old(SlotOf(kb, i)).Some?
              then Some(k) == old(SlotOf(kb, i)) && drawn == old(drawn) && uses == old(uses)
              else k == draw(old(drawn)) && drawn == old(drawn) + 1 && uses == old(uses) + [Create(k)]
      ensures Tree() == old(Tree())[b := Some(FillPage(old(Tree())[b].value, i))]
      ensures kb in bundleRows && i < |bundleRows[kb]| && bundleRows[kb][i] == Some(k) && k in pageRows
    {
      hide BundleLinesOk, PageLinesOk, Unshared, Settled, AllCurrent, Proper, After;
      GrowBundle(b, kb, i);
      var pages := bundleRows[kb];
      if pages[i].Some? {
        k := pages[i].value;
      } else {
        k := InsertNewPage(b, kb, i);
      }
    }

    /** Copy a chunk into a page, through its write line. */
    method PatchPage(k: Key, o: nat, chunk: seq<Byte>)
      requires Valid() && Traced() && writable && dirty && k in pageRows
      modifies this`pageRows, this`uses, pageCache
      ensures Valid() && Traced() && pageRows.Keys == old(pageRows.Keys)
      ensures Contents() == old(Contents())[k := Patch(old(Contents())[k], o, chunk)]
      ensures uses == old(uses) + [Put(k, o, chunk)]
      ensures Seen(pageCache[..], pageRows, k) ==
              if k % CACHED_PAGES < CACHED_BUNDLES then Contents()[k] else old(Seen(pageCache[..], pageRows, k))
    {
      hide BundleLinesOk, PageLinesOk, Linked, Unshared, Settled, AllCurrent, Seen, Current;
      hide Proper, After, Fetch, Patch;
      var s := k % CACHED_BUNDLES;
      CurrentOf(pageCache[..], pageRows, k);
      Extends(origin, uses, CacheState(), Put(k, o, chunk));
      uses := uses + [Put(k, o, chunk)];
      var buf := LoadPage(k, s);
      buf := Overwrite(buf, o, chunk);
      ghost var before := pageCache[..];
      PatchLine(before, pageRows, k, buf);
      WriteVisibleIff(before, pageRows, k, buf);
      pageCache[s] := Some(PageLine(k, buf, true));
      assert pageCache[..] == before[s := Some(PageLine(k, buf, true))];
    }

    /** Pad a buffer with zeros up to a position and copy a chunk over it from there. */
    method Overwrite(was: Page, o: nat, chunk: seq<Byte>) returns (buf: Page)
      ensures buf == Patch(was, o, chunk)
    {
      buf := was;
      while |buf| < o
        invariant |was| <= |buf| && buf == was + Zeros(|buf| - |was|)
        invariant buf == was || |buf| <= o
      {
        buf := buf + [0];
      }
      assert buf == PadTo(was, o);
      buf := buf[..o] + chunk + if o + |chunk| < |buf| then buf[o + |chunk|..] else [];
    }

    /** Make sure there is a page at slot i of the bundle at b. */
    method OpenSlot(b: nat, i: nat) returns (ghost kb: Key, k: Key)
      requires Valid() && Traced() && writable && dirty && i < PAGES_PER_BUNDLE
      modifies this`bundles, this`bundleRows, this`pageRows, this`drawn, this`uses, bundleCache, pageCache
      ensures Valid() && Traced() && Tree() == OpenedAt(old(Tree()), b, i)
      ensures b < |bundles| && bundles[b] == Some(kb) && kb in bundleRows
      ensures i < |bundleRows[kb]| && bundleRows[kb][i] == Some(k) && k in pageRows
      ensures var before := KeyIn(old(bundles), old(bundleRows), b, i);
              && uses == (if before.None? then old(uses) + [Create(k)] else old(uses))
              && (before.Some? ==> before == Some(k))
              && Drew(before, Some(k), draw, old(drawn), drawn, old(bundles))
    {
      hide BundleLinesOk, PageLinesOk, Unshared, Settled, AllCurrent, TreeOf, FillBundle, FillPage, Proper, After;
      var key := OpenBundle(b);
      kb := key;
      k := OpenPage(b, key, i);
    }

    /** Write a chunk that lies within one page. */
    method WritePage(offset: nat, chunk: seq<Byte>) returns (r: WriteOutcome)
      requires Valid() && Traced()
      modifies this`dirty, this`bundles, this`bundleRows, this`pageRows, this`drawn, this`uses, bundleCache, pageCache
      ensures Valid() && Traced()
      ensures writable ==> r == Wrote(|chunk|) && dirty
      ensures writable ==> Tree() == PageTree.WritePage(old(Tree()), offset / 131072, offset % 131072, chunk)
      ensures !writable ==> r == NoAccess && Tree() == old(Tree())
      ensures writable ==>
                var p := offset / 131072;
                && PutOnce(old(uses), uses, old(KeyOf(p)), KeyOf(p), offset % 131072, chunk)
                && Drew(old(KeyOf(p)), KeyOf(p), draw, old(drawn), drawn, old(bundles))
    {
      hide BundleLinesOk, PageLinesOk, Linked, Unshared, Settled, AllCurrent, TreeOf;
      hide Patch, OpenedAt, Proper, After, Drew, PageTree.WritePage;
      if !writable {
        return NoAccess;
      }
      dirty := true;
      var index, pageIndex, rest := Locate(offset);
      ghost var t := Tree();
      ghost var kb;
      var k;
      kb, k := OpenSlot(index, pageIndex);
      ghost var contents := Contents();
      SetContent(bundles, bundleRows, contents, index, kb, pageIndex, k, Patch(contents[k], rest, chunk));
      PatchOpened(t, Tree(), offset / 131072, rest, chunk, contents[k]);
      PatchPage(k, rest, chunk);
      return Wrote(|chunk|);
    }

    /** Write bytes at an offset, growing the file if they end beyond it. */
    method Write(offset: nat, data: seq<Byte>) returns (r: WriteOutcome)
      requires Valid() && Traced() && statSize == size
      modifies this`dirty, this`size, this`statSize, this`bundles, this`bundleRows, this`pageRows, this`drawn,
          this`uses,
               bundleCache, pageCache
      ensures Valid() && Traced() && statSize == size
      ensures r.Wrote? && data != [] && offset % PAGE_SIZE + |data| <= PAGE_SIZE ==>
                var p := offset / 131072;
                && PutOnce(old(uses), uses, old(KeyOf(p)), KeyOf(p), offset % 131072, data)
                && Drew(old(KeyOf(p)), KeyOf(p), draw, old(drawn), drawn, old(bundles))
      ensures r == if data == [] then Wrote(0)
                   else if offset + |data| >= U64_LIMIT then Overflow
                   else if !writable then NoAccess
                   else Wrote(|data|)
      ensures File() == if r.Wrote? then WriteFile(old(File()), offset, data) else old(File())
      ensures data == [] ==> dirty == old(dirty)
    {
      hide BundleLinesOk, PageLinesOk, Linked, Unshared, Settled, TreeOf, AllCurrent;
      hide PageTree.WritePage, WriteTree, Proper, After, KeyAt, PutOnce, Drew;
      if |data| <= 0 {
        return Wrote(0);
      }
      if offset + |data| >= U64_LIMIT {
        return Overflow;
      }
      var end := offset + |data|;
      if end > size {
        if !writable {
          return NoAccess;
        }
        SetSize(end);
      }
      var left, at, done := |data|, offset, 0;
      assert data[0..] == data;
      while left > 0
        invariant Valid() && Traced() && 0 <= left && done + left == |data| && at == offset + done
        invariant done == 0 ==> uses == old(uses) && bundles == old(bundles) && bundleRows == old(bundleRows)
        invariant done == 0 ==> drawn == old(drawn)
        invariant done > 0 && offset % PAGE_SIZE + |data| <= PAGE_SIZE ==>
                    var p := offset / 131072;
                    && left == 0 && PutOnce(old(uses), uses, old(KeyOf(p)), KeyOf(p), offset % 131072, data)
                    && Drew(old(KeyOf(p)), KeyOf(p), draw, old(drawn), drawn, old(bundles))
        invariant size == if end > old(size) then end else old(size)
        invariant done > 0 ==> writable
        invariant !writable ==> Tree() == old(Tree()) && size == old(size) && statSize == size
        invariant writable ==> WriteTree(Tree(), at, data[done..]) == WriteTree(old(Tree()), offset, data)
      {
        var sub := at % PAGE_SIZE;
        var n := Min(left, PAGE_SIZE - sub);
        WriteTreeStep(Tree(), at, data, done);
        assert done == 0 && n == |data| ==> data[done..done + n] == data;
        var w := WritePage(at, data[done..done + n]);
        if w.NoAccess? {
          return NoAccess;
        }
        left := left - n;
        at := at + n;
        done := done + n;
      }
      WriteTreeDone(Tree(), at, data);
      statSize := size;
      return Wrote(|data|);
    }

    method SetSize(n: nat)
      requires Valid() && Traced() && writable
      modifies this`dirty, this`size
      ensures Valid() && Traced() && dirty && size == n
    {
      hide Proper, After;
      size := n;
      dirty := true;
    }

    /** Set the size; no page is touched. */
    method Fallocate(n: nat) returns (ok: bool)
      requires Valid() && Traced() && statSize == size
      modifies this`dirty, this`size, this`statSize
      ensures Valid() && Traced() && statSize == size && ok == writable
      ensures File() == if writable then old(File()).(size := n) else old(File())
    {
      hide Proper, After;
      if !writable {
        return false;
      }
      SetSize(n);
      statSize := n;
      return true;
    }

    /** Empty line s; the copy dropped is written back if it was modified. */
    method DropLine(s: nat)
      requires Valid() && dirty && s < CACHED_PAGES
      modifies this`pageRows, pageCache
      ensures Valid() && Contents() == old(Contents())
      ensures pageCache[..] == old(pageCache[..])[s := None]
    {
      hide BundleLinesOk, Linked, Unshared, Settled;
      var line := pageCache[s];
      ghost var before := pageCache[..];
      DropKeepsContent(before, pageRows, s, None);
      pageCache[s] := None;
      assert pageCache[..] == before[s := None];
      if line.Some? && line.value.dirty {
        pageRows := pageRows[line.value.key := line.value.buf];
      }
    }

    /** Drop every cached page, so that modified copies reach their rows. */
    method Commit()
      requires Valid() && Traced()
      modifies this`dirty, this`pageRows, this`uses, pageCache
      ensures Valid() && Traced() && !dirty && File() == old(File())
      ensures uses == if old(dirty) then old(uses) + [Flush] else old(uses)
    {
      if !dirty {
        return;
      }
      hide BundleLinesOk, PageLineOk, Linked, Unshared, AllCurrent, Proper, After;
      ghost var before := CacheState();
      Extends(origin, uses, before, Flush);
      for s := 0 to CACHED_PAGES
        invariant Valid() && dirty && Contents() == old(Contents()) && uses == old(uses)
        invariant forall u: nat :: u < s ==> pageCache[..][u].None?
      {
        DropLine(s);
      }
      dirty := false;
      uses := uses + [Flush];
      assert pageCache[..] == NoLines();
      SettledIsCurrent(pageCache[..], pageRows);
      assert pageRows.Keys == Contents().Keys == before.rows.Keys;
    }
  }

  /** A page was written once, and created first if there was none. */
  ghost predicate PutOnce(was: seq<Use>, now: seq<Use>, before: Option<Key>, after: Option<Key>, o: nat,
                          chunk: seq<Byte>) {
    && after.Some? && (before.Some? ==> before == after)
    && now == (if before.None? then was + [Create(after.value)] else was) + [Put(after.value, o, chunk)]
  }

  /** A new page has the last key drawn; the first page of a file takes two, the other for its bundle. */
  ghost predicate Drew(before: Option<Key>, after: Option<Key>, draw: nat -> Key, was: nat, now: nat,
                       bundles: seq<Option<Key>>) {
    && (before.None? ==> now > 0 && after == Some(draw(now - 1)))
    && (bundles == [] ==> now == was + 2)
  }

  /** The strides by which an offset is split into bundle, page and position in the page. */
  method Locate(offset: nat) returns (bundle: nat, page: nat, rest: nat)
    ensures bundle == offset / 131072 / 1024
    ensures page == offset / 131072 % 1024
    ensures rest == offset % 131072
  {
    var stridePage := PAGE_SIZE;
    var strideBundle := PAGES_PER_BUNDLE * stridePage;
    bundle := offset / strideBundle;
    rest := offset - bundle * strideBundle;
    page := rest / stridePage;
    rest := rest - page * stridePage;
  }

  lemma WriteTreeStep(t: Tree, at: nat, data: seq<Byte>, done: nat)
    requires done < |data|
    ensures var n := Min(|data| - done, 131072 - at % 131072);
            WriteTree(t, at, data[done..]) ==
            WriteTree(PageTree.WritePage(t, at / 131072, at % 131072, data[done..done + n]), at + n, data[done + n..])
  {
    hide PageTree.WritePage;
    var n := Min(|data| - done, 131072 - at % 131072);
    assert data[done..][..n] == data[done..done + n] && data[done..][n..] == data[done + n..];
  }

  lemma WriteTreeDone(t: Tree, at: nat, data: seq<Byte>)
    ensures WriteTree(t, at, data[|data|..]) == t
  {
  }

  lemma HoleChunk(rest: nat, n: nat)
    ensures ChunkOf(None, rest, n) == Data(Zeros(n)) && |Zeros(n)| == n
  {
  }

  lemma GrownSlot<T>(s: seq<Option<T>>, n: nat, i: nat)
    requires |s| <= i < n
    ensures |GrowTo(s, n)| == n && GrowTo(s, n)[i] == None
  {
  }

  /** The tree once there is a page at slot i of the bundle at b. */
  function OpenedAt(t: Tree, b: nat, i: nat): Tree
    requires i < PAGES_PER_BUNDLE
  {
    var u := FillBundle(t, b);
    u[b := Some(FillPage(u[b].value, i))]
  }

  lemma PatchOpened(t: Tree, u: Tree, p: nat, o: nat, chunk: seq<Byte>, page: Page)
    requires u == OpenedAt(t, p / 1024, p % 1024)
    requires PageAt(u, p) == Some(page)
    ensures PageTree.WritePage(t, p, o, chunk) ==
            u[p / 1024 := Some(u[p / 1024].value[p % 1024 := Some(Patch(page, o, chunk))])]
  {
    hide FillBundle, FillPage, Patch;
    var b := p / 1024;
    SetTwice(FillBundle(t, b), b, u[b], PageTree.WritePage(t, p, o, chunk)[b]);
  }

  lemma SetTwice<T>(s: seq<T>, i: nat, x: T, y: T)
    requires i < |s|
    ensures s[i := x][i := y] == s[i := y]
  {
  }

  lemma SpanJoins(t: Tree, a: nat, m: nat, n: nat)
    ensures Span(t, a, m) + Span(t, a + m, n) == Span(t, a, m + n)
  {
  }

  datatype Step = Change(op: Op) | Sync | Query(offset: nat, count: nat)

  /** The writes and allocations among the steps. */
  function Changes(steps: seq<Step>): seq<Op> {
    if steps == [] then []
    else
      var front, last := Changes(steps[..|steps| - 1]), steps[|steps| - 1];
      if last.Change? then front + [last.op] else front
  }

  /** Every change has been committed. */
  predicate Synced(steps: seq<Step>) {
    steps == [] ||
    match steps[|steps| - 1]
    case Sync => true
    case Query(_, _) => Synced(steps[..|steps| - 1])
    case Change(op) => op.Write? && op.data == [] && Synced(steps[..|steps| - 1])
  }

  /** What one more step adds to a session. */
  lemma StepRuns(f: File, steps: seq<Step>, i: nat)
    requires i < |steps|
    ensures var before := Run(f, Changes(steps[..i]));
            Run(f, Changes(steps[..i + 1])) == if steps[i].Change? then Apply(before, steps[i].op) else before
    ensures Synced(steps[..i + 1]) <==>
              steps[i].Sync? ||
              (Synced(steps[..i]) && (steps[i].Change? ==> steps[i].op.Write? && steps[i].op.data == []))
  {
    hide Apply;
    assert steps[..i + 1][..i] == steps[..i];
    if steps[i].Change? {
      var ops := Changes(steps[..i]);
      assert (ops + [steps[i].op])[..|ops|] == ops;
    }
  }

  lemma NothingRuns(f: File)
    ensures Run(f, Changes([])) == f
  {
  }

  /**
   Any session on a file opened for mutation.  Every read with no uncommitted change, and every read at all if
   pages are read through their write lines, returns what the tree of the changes so far holds, and the flat
   bytes whenever no write moved a filled slot.
   */
  method Session(size: nat, bundles: seq<Option<Key>>, bundleRows: BundleRows, pageRows: PageRows,
                 draw: nat -> Key, steps: seq<Step>)
    returns (outs: seq<ReadOutcome>)
    requires Linked(bundles, bundleRows, pageRows.Keys) && Unshared(bundles, bundleRows)
    requires forall i: nat, j: nat :: draw(i) == draw(j) ==> i == j
    requires forall i: nat :: draw(i) !in bundleRows && draw(i) !in pageRows
    requires forall i: nat :: i < |steps| && steps[i].Change? && steps[i].op.Write? ==>
               steps[i].op.offset + |steps[i].op.data| < U64_LIMIT
    ensures |outs| == |steps|
    ensures var f := PageTree.File(size, TreeOf(bundles, bundleRows, pageRows));
            forall i: nat :: i < |steps| && steps[i].Query? && (Synced(steps[..i]) || LowKeys(pageRows, draw)) ==>
              var ops := Changes(steps[..i]);
              && outs[i] == ReadFile(Run(f, ops), steps[i].offset, steps[i].count)
              && (RunFits(f, ops) ==> IsFlatRead(f, ops, steps[i].offset, steps[i].count, outs[i]))
  {
    hide Linked, Unshared, TreeOf, AllCurrent, WriteFile, ReadFile, Run, Changes, Synced, Apply, ReadVia, LowKeys;
    var file := new RegularFile(true, size, bundles, bundleRows, pageRows, draw);
    ghost var f := file.File();
    outs := [];
    assert steps[..0] == [];
    NothingRuns(f);
    ghost var low := LowKeys(pageRows, draw);
    assert low ==> file.AllLow();
    for i := 0 to |steps|
      invariant file.Valid() && file.Traced() && file.writable && file.statSize == file.size
      invariant file.File() == Run(f, Changes(steps[..i]))
      invariant Synced(steps[..i]) ==> !file.dirty
      invariant |outs| == i
      invariant forall j: nat :: j < i && steps[j].Query? && (Synced(steps[..j]) || low) ==>
                  outs[j] == ReadFile(Run(f, Changes(steps[..j])), steps[j].offset, steps[j].count)
    {
      hide RegularFile.Valid, RegularFile.Traced, RegularFile.AllLow;
      StepRuns(f, steps, i);
      var out := Data([]);
      match steps[i] {
        case Change(op) =>
          DoChange(file, op);
        case Sync =>
          file.Commit();
        case Query(offset, count) =>
          out := file.Read(offset, count);
      }
      outs := outs + [out];
    }
    forall i: nat | i < |steps| && steps[i].Query? && RunFits(f, Changes(steps[..i])) {
      ReadAfterRun(f, Changes(steps[..i]), steps[i].offset, steps[i].count);
    }
  }

  method DoChange(file: RegularFile, op: Op)
    requires file.Valid() && file.Traced() && file.writable && file.statSize == file.size
    requires op.Write? ==> op.offset + |op.data| < U64_LIMIT
    modifies file, file.bundleCache, file.pageCache
    ensures file.Valid() && file.Traced() && file.statSize == file.size
    ensures file.File() == Apply(old(file.File()), op)
    ensures op.Write? && op.data == [] ==> file.dirty == old(file.dirty)
  {
    hide RegularFile.Valid, RegularFile.Traced;
    match op
    case Write(offset, data) =>
      var _ := file.Write(offset, data);
    case Fallocate(n) =>
      var _ := file.Fallocate(n);
  }

  /** A read-only handle returns what an uncached read would, whatever the keys, collisions and evictions. */
  method ReadOnly(size: nat, bundles: seq<Option<Key>>, bundleRows: BundleRows, pageRows: PageRows,
                  draw: nat -> Key, queries: seq<(nat, nat)>)
    returns (outs: seq<ReadOutcome>)
    requires Linked(bundles, bundleRows, pageRows.Keys) && Unshared(bundles, bundleRows)
    requires forall i: nat, j: nat :: draw(i) == draw(j) ==> i == j
    requires forall i: nat :: draw(i) !in bundleRows && draw(i) !in pageRows
    ensures |outs| == |queries|
    ensures var f := PageTree.File(size, TreeOf(bundles, bundleRows, pageRows));
            forall i: nat :: i < |queries| ==> outs[i] == ReadFile(f, queries[i].0, queries[i].1)
  {
    hide Linked, Unshared, TreeOf, AllCurrent, ReadFile, ReadVia;
    var file := new RegularFile(false, size, bundles, bundleRows, pageRows, draw);
    ghost var f := file.File();
    outs := [];
    for i := 0 to |queries|
      invariant file.Valid() && file.Traced() && !file.dirty && file.File() == f
      invariant |outs| == i
      invariant forall j: nat :: j < i ==> outs[j] == ReadFile(f, queries[j].0, queries[j].1)
    {
      var r := file.Read(queries[i].0, queries[i].1);
      outs := outs + [r];
    }
  }

  /**
   The first byte ever written to a file, read before and after a commit: before it, the byte is there if and
   only if the key drawn for its page is read through its write line.
   */
  method WriteThenRead(b: Byte, draw: nat -> Key) returns (before: ReadOutcome, after: ReadOutcome)
    requires forall i: nat, j: nat :: draw(i) == draw(j) ==> i == j
    ensures before == Data([if draw(1) % 80 < 10 then b else 0])
    ensures after == Data([b])
  {
    hide Linked, Unshared, TreeOf, AllCurrent, WriteFile, ReadFile, ReadVia, KeyAt;
    hide RegularFile.Valid, RegularFile.Traced;
    assert Linked([], map[], {}) && Unshared([], map[]) && TreeOf([], map[], map[]) == [] by {
      EmptyStore();
    }
    var file := new RegularFile(true, 0, [], map[], map[], draw);
    NoKey(file.bundleRows);
    var w := file.Write(0, [b]);
    ghost var k := draw(1);
    assert file.uses == [Create(k), Put(k, 0, [b])];
    FirstByte(b);
    FirstView(file.bundles, file.bundleRows, k, b);
    before := file.Read(0, 1);
    file.Commit();
    after := file.Read(0, 1);
  }

  lemma EmptyStore()
    ensures Linked([], map[], {}) && Unshared([], map[]) && TreeOf([], map[], map[]) == []
  {
  }

  lemma NoKey(rows: BundleRows)
    ensures KeyAt([], rows, 0) == None
  {
  }

  lemma FirstByte(b: Byte)
    ensures var f := WriteFile(File(0, []), 0, [b]);
            f.size == 1 && ReadFile(f, 0, 1) == Data([b])
  {
    hide ReadFile, WriteFile;
    AppendedRoundTrip([[b]], 0, 1);
    AppendedIsPacked([[b]]);
    assert [[b]][..0] == [];
  }

  lemma FirstView(bundles: seq<Option<Key>>, rows: BundleRows, k: Key, b: Byte)
    requires KeyAt(bundles, rows, 0) == Some(k)
    ensures ReadVia(bundles, rows, map[], [Create(k), Put(k, 0, [b])], 0, 1).0 == Data([if k % 80 < 10 then b else 0])
  {
    hide KeyAt;
    var uses := [Create(k), Put(k, 0, [b])];
    assert uses[..1] == [Create(k)] && [Create(k)][..0] == [];
    assert Stored(map[], uses, k) == Stored(map[], [Create(k)], k) == [];
    assert Content(map[], [Create(k)], k) == [];
    assert Content(map[], uses, k) == Patch([], 0, [b]) == [b];
    assert Copy(map[], uses, k) == Copy(map[], [Create(k)], k) == None;
    var page := View(map[], uses, k);
    assert ChunkOf(Some(page), 0, 1) == Data([if k % 80 < 10 then b else 0]) by {
      assert Zeros(1) == [0] && Zeros(0) == [];
    }
    assert ReadVia(bundles, rows, map[], Looks(uses, Some(k)), 1, 0).0 == Data([]);
  }
}
