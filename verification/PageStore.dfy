/**
The rows behind a regular file and the two direct-mapped caches in front of them, as values: what a cache line
may hold, which copy of a page is current, and how the keyed rows spell out a page tree.
*/
module PageStore {
  import opened Prelude
  import opened PageTree

  /** A primary key, as the number its cache line is computed from. */
  type Key = nat

  const CACHED_BUNDLES: nat := 10
  const CACHED_PAGES: nat := 80

  datatype BundleLine = BundleLine(key: Key, pages: seq<Option<Key>>)

  /** A page held in the cache: a copy of the row, written back when dropped if it was modified. */
  datatype PageLine = PageLine(key: Key, buf: Page, dirty: bool)

  type BundleRows = map<Key, seq<Option<Key>>>
  type PageRows = map<Key, Page>
  type BundleLines = seq<Option<BundleLine>>
  type PageLines = seq<Option<PageLine>>

  // ---------------------------------------------------------------- cache lines

  /** Writes use line key % 10 of the page cache, reads use line key % 80; only the first ten are ever dirty. */
  predicate PageLineOk(l: PageLine, s: nat, rows: PageRows) {
    && l.key in rows
    && l.key % 10 == s % 10
    && (s < 10 ==> l.dirty || l.buf == rows[l.key])
    && (s >= 10 ==> !l.dirty && l.key % 80 == s)
  }

  predicate PageLinesOk(lines: PageLines, rows: PageRows) {
    && |lines| == 80
    && forall s: nat :: s < 80 && lines[s].Some? ==> PageLineOk(lines[s].value, s, rows)
  }

  predicate BundleLinesOk(lines: BundleLines, rows: BundleRows) {
    && |lines| == 10
    && forall s: nat :: s < 10 && lines[s].Some? ==>
         && lines[s].value.key in rows
         && lines[s].value.key % 10 == s
         && lines[s].value.pages == rows[lines[s].value.key]
  }

  /** No cached page differs from its row. */
  predicate Settled(lines: PageLines, rows: PageRows) {
    forall s: nat :: s < |lines| && lines[s].Some? ==>
      !lines[s].value.dirty && lines[s].value.key in rows && lines[s].value.buf == rows[lines[s].value.key]
  }

  predicate Holds(lines: PageLines, s: nat, k: Key) {
    s < |lines| && lines[s].Some? && lines[s].value.key == k
  }

  /** The latest content of page k: the copy in its write line, or else the row. */
  function Current(lines: PageLines, rows: PageRows, k: Key): Page
    requires k in rows
  {
    if Holds(lines, k % 10, k) then lines[k % 10].value.buf else rows[k]
  }

  /** The content a read of page k finds: the copy in its read line, or else the row. */
  function Seen(lines: PageLines, rows: PageRows, k: Key): Page
    requires k in rows
  {
    if Holds(lines, k % 80, k) then lines[k % 80].value.buf else rows[k]
  }

  function AllCurrent(lines: PageLines, rows: PageRows): (r: PageRows)
    ensures r.Keys == rows.Keys
  {
    map k | k in rows :: Current(lines, rows, k)
  }

  function AllSeen(lines: PageLines, rows: PageRows): PageRows {
    map k | k in rows :: Seen(lines, rows, k)
  }

  lemma CurrentOf(lines: PageLines, rows: PageRows, k: Key)
    requires k in rows
    ensures AllCurrent(lines, rows)[k] == Current(lines, rows, k)
  {
  }

  /** The rows after line s has been dropped. */
  function WriteBack(lines: PageLines, rows: PageRows, s: nat): PageRows
    requires s < |lines|
  {
    if lines[s].Some? && lines[s].value.dirty then rows[lines[s].value.key := lines[s].value.buf] else rows
  }

  lemma SettledIsCurrent(lines: PageLines, rows: PageRows)
    requires Settled(lines, rows)
    ensures AllSeen(lines, rows) == AllCurrent(lines, rows) == rows
  {
  }

  lemma ReadLineInWriteRange(k: Key)
    ensures k % 80 < 10 ==> k % 80 == k % 10
    ensures (k % 80) % 10 == k % 10
  {
    var q, r := k / 80, k % 80;
    assert k == 80 * q + r;
    TensPlace(8 * q, r);
    TensPlace(r / 10, r % 10);
  }

  lemma TensPlace(q: nat, r: nat)
    ensures (10 * q + r) % 10 == r % 10
  {
  }

  /** A page whose read line is one of the ten write lines is always read as last written. */
  lemma LowLinesNeverStale(lines: PageLines, rows: PageRows, k: Key)
    requires k in rows && k % 80 < 10
    ensures Seen(lines, rows, k) == Current(lines, rows, k)
  {
    ReadLineInWriteRange(k);
  }

  /** Replacing or emptying a line writes its copy back, and no page content is lost or changed. */
  lemma DropKeepsContent(lines: PageLines, rows: PageRows, s: nat, line: Option<PageLine>)
    requires PageLinesOk(lines, rows) && s < 80
    requires line.Some? ==>
               && line.value.key in rows
               && PageLineOk(line.value, s, WriteBack(lines, rows, s))
               && !Holds(lines, s, line.value.key)
               && line.value.buf == rows[line.value.key]
    ensures var rows' := WriteBack(lines, rows, s);
            && PageLinesOk(lines[s := line], rows')
            && AllCurrent(lines[s := line], rows') == AllCurrent(lines, rows)
  {
    var rows' := WriteBack(lines, rows, s);
    var lines' := lines[s := line];
    forall u: nat | u < 80 && lines'[u].Some?
      ensures PageLineOk(lines'[u].value, u, rows')
    {
      assert u != s ==> PageLineOk(lines[u].value, u, rows);
      assert lines[s].Some? ==> PageLineOk(lines[s].value, s, rows);
    }
    forall k | k in rows
      ensures Current(lines', rows', k) == Current(lines, rows, k)
    {
      assert lines[s].Some? ==> PageLineOk(lines[s].value, s, rows);
    }
  }

  /** A row stored under a key not yet in use changes no other page. */
  lemma StoreNewPage(lines: PageLines, rows: PageRows, k: Key)
    requires PageLinesOk(lines, rows) && k !in rows
    ensures PageLinesOk(lines, rows[k := []])
    ensures AllCurrent(lines, rows[k := []]) == AllCurrent(lines, rows)[k := []]
    ensures forall s: nat :: !Holds(lines, s, k)
  {
  }

  /** New bytes for a page in its write line are its content from then on, and no other page's. */
  lemma PatchLine(lines: PageLines, rows: PageRows, k: Key, buf: Page)
    requires PageLinesOk(lines, rows) && k in rows
    ensures PageLinesOk(lines[k % 10 := Some(PageLine(k, buf, true))], rows)
    ensures Holds(lines, k % 10, k) ==>
              AllCurrent(lines[k % 10 := Some(PageLine(k, buf, true))], rows) == AllCurrent(lines, rows)[k := buf]
  {
  }

  /**
   Right after bytes were put into the write line of page k, reads find them exactly when the page's read line
   is that same line, or they found those bytes already.
   */
  lemma WriteVisibleIff(lines: PageLines, rows: PageRows, k: Key, buf: Page)
    requires PageLinesOk(lines, rows) && k in rows
    ensures var lines' := lines[k % 10 := Some(PageLine(k, buf, true))];
            && Seen(lines', rows, k) == (if k % 80 < 10 then buf else Seen(lines, rows, k))
            && (Seen(lines', rows, k) == Current(lines', rows, k) <==> k % 80 < 10 || Seen(lines, rows, k) == buf)
  {
    ReadLineInWriteRange(k);
  }

  // ---------------------------------------------------------------- rows as a tree

  function BundleOf(pages: seq<Option<Key>>, contents: PageRows): (r: Bundle)
    ensures |r| == |pages|
  {
    seq(|pages|, j requires 0 <= j < |pages| =>
      if pages[j].Some? && pages[j].value in contents then Some(contents[pages[j].value]) else None)
  }

  function TreeOf(bundles: seq<Option<Key>>, rows: BundleRows, contents: PageRows): (r: Tree)
    ensures |r| == |bundles|
  {
    seq(|bundles|, b requires 0 <= b < |bundles| =>
      if bundles[b].Some? && bundles[b].value in rows then Some(BundleOf(rows[bundles[b].value], contents)) else None)
  }

  /** Every reference resolves. */
  predicate Linked(bundles: seq<Option<Key>>, rows: BundleRows, pages: set<Key>) {
    && (forall b: nat :: b < |bundles| && bundles[b].Some? ==> bundles[b].value in rows)
    && (forall kb, j: nat :: kb in rows && j < |rows[kb]| && rows[kb][j].Some? ==> rows[kb][j].value in pages)
  }

  /** No row is referenced twice. */
  predicate Unshared(bundles: seq<Option<Key>>, rows: BundleRows) {
    && (forall b: nat, c: nat :: b < |bundles| && c < |bundles| && bundles[b].Some? ==>
          bundles[b] == bundles[c] ==> b == c)
    && (forall kb, kc, i: nat, j: nat ::
          kb in rows && kc in rows && i < |rows[kb]| && j < |rows[kc]| && rows[kb][i].Some? ==>
            rows[kb][i] == rows[kc][j] ==> kb == kc && i == j)
  }

  /** Growing the vector of bundles with holes. */
  lemma GrowBundles(bundles: seq<Option<Key>>, rows: BundleRows, contents: PageRows, n: nat)
    ensures TreeOf(GrowTo(bundles, n), rows, contents) == GrowTo(TreeOf(bundles, rows, contents), n)
    ensures Linked(bundles, rows, contents.Keys) ==> Linked(GrowTo(bundles, n), rows, contents.Keys)
    ensures Unshared(bundles, rows) ==> Unshared(GrowTo(bundles, n), rows)
  {
    hide BundleOf;
  }

  /** Inserting a new, empty bundle under a key not yet in use. */
  lemma InsertBundle(bundles: seq<Option<Key>>, rows: BundleRows, contents: PageRows, b: nat, kb: Key)
    requires b <= |bundles| && kb !in rows
    requires Linked(bundles, rows, contents.Keys)
    ensures TreeOf(InsertAt(bundles, b, Some(kb)), rows[kb := []], contents) ==
            InsertAt(TreeOf(bundles, rows, contents), b, Some([]))
  {
    hide BundleOf;
    assert BundleOf([], contents) == [];
  }

  lemma InsertBundleOk(bundles: seq<Option<Key>>, rows: BundleRows, pages: set<Key>, b: nat, kb: Key)
    requires b <= |bundles| && kb !in rows
    requires Linked(bundles, rows, pages) && Unshared(bundles, rows)
    ensures Linked(InsertAt(bundles, b, Some(kb)), rows[kb := []], pages)
    ensures Unshared(InsertAt(bundles, b, Some(kb)), rows[kb := []])
  {
    var bundles' := InsertAt(bundles, b, Some(kb));
    assert forall c: nat :: c < |bundles'| && c != b ==> bundles'[c] == bundles[if c < b then c else c - 1];
  }

  /** Changing the row of the one bundle at position b changes the tree there and nowhere else. */
  lemma SetRow(bundles: seq<Option<Key>>, rows: BundleRows, contents: PageRows, b: nat, kb: Key, row: seq<Option<Key>>)
    requires b < |bundles| && bundles[b] == Some(kb) && kb in rows
    requires Unshared(bundles, rows)
    ensures TreeOf(bundles, rows[kb := row], contents) ==
            TreeOf(bundles, rows, contents)[b := Some(BundleOf(row, contents))]
  {
    hide BundleOf;
  }

  /** A page nobody refers to is not part of the tree. */
  lemma UnreferencedPage(bundles: seq<Option<Key>>, rows: BundleRows, contents: PageRows, k: Key, v: Page)
    requires Linked(bundles, rows, contents.Keys) && k !in contents
    ensures TreeOf(bundles, rows, contents[k := v]) == TreeOf(bundles, rows, contents)
    ensures forall kb :: kb in rows ==> BundleOf(rows[kb], contents[k := v]) == BundleOf(rows[kb], contents)
    ensures Linked(bundles, rows, contents[k := v].Keys)
  {
    forall kb | kb in rows
      ensures BundleOf(rows[kb], contents[k := v]) == BundleOf(rows[kb], contents)
    {
    }
  }

  lemma GrowPages(pages: seq<Option<Key>>, contents: PageRows, n: nat)
    ensures BundleOf(GrowTo(pages, n), contents) == GrowTo(BundleOf(pages, contents), n)
  {
  }

  lemma InsertPage(pages: seq<Option<Key>>, contents: PageRows, i: nat, k: Key)
    requires i <= |pages| && k in contents
    ensures BundleOf(InsertAt(pages, i, Some(k)), contents) == InsertAt(BundleOf(pages, contents), i, Some(contents[k]))
  {
  }

  /** Holes added to a row, and a new key inserted in it, share nothing. */
  lemma GrowRowOk(bundles: seq<Option<Key>>, rows: BundleRows, pages: set<Key>, kb: Key, n: nat)
    requires kb in rows && Linked(bundles, rows, pages) && Unshared(bundles, rows)
    ensures Linked(bundles, rows[kb := GrowTo(rows[kb], n)], pages)
    ensures Unshared(bundles, rows[kb := GrowTo(rows[kb], n)])
  {
  }

  /** Growing one row grows one bundle of the tree. */
  lemma GrowRow(bundles: seq<Option<Key>>, rows: BundleRows, contents: PageRows, pages: set<Key>, b: nat, kb: Key,
                n: nat)
    requires b < |bundles| && bundles[b] == Some(kb) && Linked(bundles, rows, pages) && Unshared(bundles, rows)
    ensures kb in rows
    ensures |TreeOf(bundles, rows, contents)| == |bundles|
    ensures TreeOf(bundles, rows, contents)[b] == Some(BundleOf(rows[kb], contents))
    ensures |BundleOf(rows[kb], contents)| == |rows[kb]|
    ensures var row := GrowTo(rows[kb], n);
            && Linked(bundles, rows[kb := row], pages) && Unshared(bundles, rows[kb := row])
            && TreeOf(bundles, rows[kb := row], contents) ==
               TreeOf(bundles, rows, contents)[b := Some(GrowTo(BundleOf(rows[kb], contents), n))]
  {
    GrowRowOk(bundles, rows, pages, kb, n);
    GrowPages(rows[kb], contents, n);
    SetRow(bundles, rows, contents, b, kb, GrowTo(rows[kb], n));
  }

  lemma InsertRowOk(bundles: seq<Option<Key>>, rows: BundleRows, pages: set<Key>, kb: Key, i: nat, k: Key)
    requires kb in rows && Linked(bundles, rows, pages) && Unshared(bundles, rows)
    requires i <= |rows[kb]| && k !in pages
    ensures Linked(bundles, rows[kb := InsertAt(rows[kb], i, Some(k))], pages + {k})
    ensures Unshared(bundles, rows[kb := InsertAt(rows[kb], i, Some(k))])
  {
    var row := InsertAt(rows[kb], i, Some(k));
    assert forall j: nat :: j < |row| && j != i ==> row[j] == rows[kb][if j < i then j else j - 1];
  }

  /** New content for the page at slot i of the bundle at b changes the tree there and nowhere else. */
  lemma SetContent(bundles: seq<Option<Key>>, rows: BundleRows, contents: PageRows, b: nat, kb: Key, i: nat, k: Key,
                   v: Page)
    requires b < |bundles| && bundles[b] == Some(kb) && kb in rows && i < |rows[kb]| && rows[kb][i] == Some(k)
    requires k in contents && Unshared(bundles, rows)
    ensures var t := TreeOf(bundles, rows, contents);
            && t[b].Some? && t[b].value == BundleOf(rows[kb], contents)
            && TreeOf(bundles, rows, contents[k := v]) == t[b := Some(t[b].value[i := Some(v)])]
  {
    var t := TreeOf(bundles, rows, contents);
    forall c: nat | c < |bundles| && bundles[c].Some? && bundles[c].value in rows && c != b
      ensures BundleOf(rows[bundles[c].value], contents[k := v]) == BundleOf(rows[bundles[c].value], contents)
    {
      var row := rows[bundles[c].value];
      assert forall j: nat :: j < |row| ==> row[j] != Some(k);
    }
    assert BundleOf(rows[kb], contents[k := v]) == BundleOf(rows[kb], contents)[i := Some(v)];
  }
}
