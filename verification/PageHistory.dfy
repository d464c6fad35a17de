/**
What reads find in a page, told from the history of the page cache alone.  Writes use one line of the cache and
reads another, so a page can be current in one and outdated in the other until something moves it.
*/
module PageHistory {
  import opened Prelude
  import opened PageTree
  import opened PageStore

  datatype Cache = Cache(lines: PageLines, rows: PageRows)

  /** One use of the page cache: a read of a page, a patch to it, a new page, or a commit. */
  datatype Use = Look(key: Key) | Put(key: Key, at: nat, chunk: seq<Byte>) | Create(key: Key) | Flush

  /** An empty cache. */
  function NoLines(): (lines: PageLines)
    ensures |lines| == 80 && forall s :: 0 <= s < 80 ==> lines[s].None?
  {
    seq(80, _ => None)
  }

  // ---------------------------------------------------------------- the cache

  /** Bring page k into line s; the copy that was there is written back if it was modified. */
  function Fetch(c: Cache, s: nat, k: Key): Cache {
    if k !in c.rows || s >= |c.lines| || Holds(c.lines, s, k) then c
    else Cache(c.lines[s := Some(PageLine(k, c.rows[k], false))], WriteBack(c.lines, c.rows, s))
  }

  function Patched(c: Cache, k: Key, at: nat, chunk: seq<Byte>): Cache {
    if !Holds(c.lines, k % 10, k) then c
    else c.(lines := c.lines[k % 10 := Some(PageLine(k, Patch(c.lines[k % 10].value.buf, at, chunk), true))])
  }

  function Do(c: Cache, u: Use): Cache {
    match u
    case Look(k) => Fetch(c, k % 80, k)
    case Put(k, at, chunk) => Patched(Fetch(c, k % 10, k), k, at, chunk)
    case Create(k) => Fetch(c.(rows := c.rows[k := []]), k % 10, k)
    case Flush => Cache(NoLines(), AllCurrent(c.lines, c.rows))
  }

  function After(origin: PageRows, uses: seq<Use>): Cache {
    if uses == [] then Cache(NoLines(), origin) else Do(After(origin, uses[..|uses| - 1]), uses[|uses| - 1])
  }

  /** Only pages there are get used, and only keys not in use are created. */
  predicate Proper(origin: PageRows, uses: seq<Use>) {
    uses == [] ||
    var c, u := After(origin, uses[..|uses| - 1]), uses[|uses| - 1];
    && Proper(origin, uses[..|uses| - 1])
    && (u.Look? || u.Put? ==> u.key in c.rows)
    && (u.Create? ==> u.key !in c.rows)
  }

  // ---------------------------------------------------------------- the history

  /** Another page takes the write line of k. */
  predicate Evicts(u: Use, k: Key) {
    match u
    case Look(j) => j != k && j % 80 == k % 10
    case Put(j, _, _) => j != k && j % 10 == k % 10
    case Create(j) => j != k && j % 10 == k % 10
    case Flush => true
  }

  /** Another page takes the read line of k. */
  predicate Displaces(u: Use, k: Key) {
    match u
    case Look(j) => j != k && j % 80 == k % 80
    case Flush => true
    case _ => false
  }

  /** All that was ever written to the page. */
  function Content(origin: PageRows, uses: seq<Use>, k: Key): Page {
    if uses == [] then (if k in origin then origin[k] else [])
    else
      var before, u := Content(origin, uses[..|uses| - 1], k), uses[|uses| - 1];
      match u
      case Put(j, at, chunk) => if j == k then Patch(before, at, chunk) else before
      case Create(j) => if j == k then [] else before
      case _ => before
  }

  /** What had been written when the page last left its write line. */
  function Stored(origin: PageRows, uses: seq<Use>, k: Key): Page {
    if uses == [] then (if k in origin then origin[k] else [])
    else
      var front, u := uses[..|uses| - 1], uses[|uses| - 1];
      if u == Create(k) then [] else if Evicts(u, k) then Content(origin, front, k) else Stored(origin, front, k)
  }

  /** What was stored when the page was last brought into its read line, if it is still there. */
  function Copy(origin: PageRows, uses: seq<Use>, k: Key): Option<Page> {
    if uses == [] then None
    else
      var front, u := uses[..|uses| - 1], uses[|uses| - 1];
      if Displaces(u, k) || u == Create(k) then None
      else if u == Look(k) && Copy(origin, front, k).None? then Some(Stored(origin, front, k))
      else Copy(origin, front, k)
  }

  /** What a read of the page finds. */
  function View(origin: PageRows, uses: seq<Use>, k: Key): Page {
    if k % 80 < 10 then Content(origin, uses, k)
    else if Copy(origin, uses, k).Some? then Copy(origin, uses, k).value
    else Stored(origin, uses, k)
  }

  function ReadCopy(c: Cache, k: Key): Option<Page> {
    if Holds(c.lines, k % 80, k) then Some(c.lines[k % 80].value.buf) else None
  }

  predicate Agrees(c: Cache, origin: PageRows, uses: seq<Use>, k: Key)
    requires k in c.rows
  {
    && c.rows[k] == Stored(origin, uses, k)
    && Current(c.lines, c.rows, k) == Content(origin, uses, k)
    && (k % 80 >= 10 ==> ReadCopy(c, k) == Copy(origin, uses, k))
  }

  lemma FetchOk(c: Cache, s: nat, j: Key)
    requires PageLinesOk(c.lines, c.rows) && j in c.rows && (s == j % 80 || s == j % 10)
    ensures var d := Fetch(c, s, j);
            PageLinesOk(d.lines, d.rows) && d.rows.Keys == c.rows.Keys && Holds(d.lines, s, j)
  {
    ReadLineInWriteRange(j);
    if !Holds(c.lines, s, j) {
      DropKeepsContent(c.lines, c.rows, s, Some(PageLine(j, c.rows[j], false)));
    }
  }

  /** What bringing page j into a line does to page k. */
  lemma FetchEffect(c: Cache, s: nat, j: Key, k: Key)
    requires PageLinesOk(c.lines, c.rows) && j in c.rows && k in c.rows && (s == j % 80 || s == j % 10)
    ensures var d := Fetch(c, s, j);
            && k in d.rows && Current(d.lines, d.rows, k) == Current(c.lines, c.rows, k)
            && d.rows[k] == (if j != k && s == k % 10 then Current(c.lines, c.rows, k) else c.rows[k])
            && (k % 80 >= 10 ==>
                  ReadCopy(d, k) == if s != k % 80 then ReadCopy(c, k)
                                    else if j != k then None
                                    else if ReadCopy(c, k).None? then Some(c.rows[k])
                                    else ReadCopy(c, k))
  {
    ReadLineInWriteRange(j);
    ReadLineInWriteRange(k);
    assert c.lines[s].Some? ==> PageLineOk(c.lines[s].value, s, c.rows);
    assert c.lines[k % 10].Some? ==> PageLineOk(c.lines[k % 10].value, k % 10, c.rows);
  }

  lemma {:induction false} AfterOk(origin: PageRows, uses: seq<Use>)
    requires Proper(origin, uses)
    ensures PageLinesOk(After(origin, uses).lines, After(origin, uses).rows)
  {
    hide PageLinesOk, Fetch, AllCurrent;
    if uses == [] {
      EmptyOk(origin);
    } else {
      AfterOk(origin, uses[..|uses| - 1]);
      DoOk(After(origin, uses[..|uses| - 1]), uses[|uses| - 1]);
    }
  }

  lemma EmptyOk(rows: PageRows)
    ensures PageLinesOk(NoLines(), rows)
  {
  }

  lemma DoOk(c: Cache, u: Use)
    requires PageLinesOk(c.lines, c.rows)
    requires u.Look? || u.Put? ==> u.key in c.rows
    requires u.Create? ==> u.key !in c.rows
    ensures PageLinesOk(Do(c, u).lines, Do(c, u).rows)
  {
    hide PageLineOk, Fetch, AllCurrent, Patch;
    match u {
      case Look(k) =>
        FetchOk(c, k % 80, k);
      case Put(k, at, chunk) =>
        FetchOk(c, k % 10, k);
        var d := Fetch(c, k % 10, k);
        PatchLine(d.lines, d.rows, k, Patch(d.lines[k % 10].value.buf, at, chunk));
      case Create(k) =>
        StoreNewPage(c.lines, c.rows, k);
        FetchOk(c.(rows := c.rows[k := []]), k % 10, k);
      case Flush =>
        EmptyOk(AllCurrent(c.lines, c.rows));
    }
  }

  lemma LookAgrees(c: Cache, origin: PageRows, front: seq<Use>, uses: seq<Use>, j: Key, k: Key)
    requires uses == front + [Look(j)] && PageLinesOk(c.lines, c.rows) && j in c.rows
    requires k in c.rows && Agrees(c, origin, front, k)
    ensures k in Do(c, Look(j)).rows && Agrees(Do(c, Look(j)), origin, uses, k)
  {
    hide PageLinesOk, Fetch, Current, ReadCopy;
    assert uses[..|uses| - 1] == front;
    ReadLineInWriteRange(k);
    FetchEffect(c, j % 80, j, k);
  }

  lemma PutAgrees(c: Cache, origin: PageRows, front: seq<Use>, uses: seq<Use>, j: Key, at: nat, chunk: seq<Byte>,
                  k: Key)
    requires uses == front + [Put(j, at, chunk)] && PageLinesOk(c.lines, c.rows) && j in c.rows
    requires k in c.rows && Agrees(c, origin, front, k)
    ensures var d := Do(c, Put(j, at, chunk));
            k in d.rows && Agrees(d, origin, uses, k)
  {
    hide Fetch, Patch, PageLineOk;
    assert uses[..|uses| - 1] == front;
    FetchEffect(c, j % 10, j, k);
    FetchOk(c, j % 10, j);
  }

  lemma CreateAgrees(c: Cache, origin: PageRows, front: seq<Use>, uses: seq<Use>, j: Key, k: Key)
    requires uses == front + [Create(j)] && PageLinesOk(c.lines, c.rows) && j !in c.rows
    requires k == j || (k in c.rows && Agrees(c, origin, front, k))
    ensures k in Do(c, Create(j)).rows && Agrees(Do(c, Create(j)), origin, uses, k)
  {
    hide Fetch, PageLineOk;
    assert uses[..|uses| - 1] == front;
    StoreNewPage(c.lines, c.rows, j);
    var d := c.(rows := c.rows[j := []]);
    ReadLineInWriteRange(k);
    FetchEffect(d, j % 10, j, k);
  }

  lemma FlushAgrees(c: Cache, origin: PageRows, front: seq<Use>, uses: seq<Use>, k: Key)
    requires uses == front + [Flush] && k in c.rows && Agrees(c, origin, front, k)
    ensures k in Do(c, Flush).rows && Agrees(Do(c, Flush), origin, uses, k)
  {
    assert uses[..|uses| - 1] == front;
  }

  /** After any history, the row, the latest content and the read copy of every page are what the history says. */
  lemma {:induction false} HistoryIs(origin: PageRows, uses: seq<Use>, k: Key)
    requires Proper(origin, uses) && k in After(origin, uses).rows
    ensures Agrees(After(origin, uses), origin, uses, k)
  {
    hide Agrees, PageLinesOk, Do;
    if uses == [] {
      StartAgrees(origin, k);
    } else {
      var front, u := uses[..|uses| - 1], uses[|uses| - 1];
      var c := After(origin, front);
      assert uses == front + [u];
      AfterOk(origin, front);
      KeysAfter(c, u, k);
      if k in c.rows {
        HistoryIs(origin, front, k);
      }
      match u {
        case Look(j) => LookAgrees(c, origin, front, uses, j, k);
        case Put(j, at, chunk) => PutAgrees(c, origin, front, uses, j, at, chunk, k);
        case Create(j) => CreateAgrees(c, origin, front, uses, j, k);
        case Flush => FlushAgrees(c, origin, front, uses, k);
      }
    }
  }

  lemma StartAgrees(origin: PageRows, k: Key)
    requires k in origin
    ensures Agrees(Cache(NoLines(), origin), origin, [], k)
  {
  }

  lemma KeysAfter(c: Cache, u: Use, k: Key)
    requires PageLinesOk(c.lines, c.rows) && k in Do(c, u).rows
    ensures k in c.rows || u == Create(k)
  {
  }

  /** What reads find in a page is what the history says. */
  lemma SeenIsView(origin: PageRows, uses: seq<Use>, k: Key)
    requires Proper(origin, uses) && k in After(origin, uses).rows
    ensures var c := After(origin, uses);
            && Seen(c.lines, c.rows, k) == View(origin, uses, k)
            && Current(c.lines, c.rows, k) == Content(origin, uses, k)
  {
    hide After, Proper, Stored, Content, Copy;
    HistoryIs(origin, uses, k);
    ReadLineInWriteRange(k);
    if k % 80 < 10 {
      LowLinesNeverStale(After(origin, uses).lines, After(origin, uses).rows, k);
    }
  }

  /** One more use of the cache. */
  lemma Extends(origin: PageRows, uses: seq<Use>, c: Cache, u: Use)
    requires Proper(origin, uses) && After(origin, uses) == c
    requires u.Look? || u.Put? ==> u.key in c.rows
    requires u.Create? ==> u.key !in c.rows
    ensures Proper(origin, uses + [u]) && After(origin, uses + [u]) == Do(c, u)
  {
    hide Do;
    assert (uses + [u])[..|uses|] == uses;
  }

  // ---------------------------------------------------------------- when a write is seen

  /** Nothing in these uses writes to the page again. */
  predicate Untouched(after: seq<Use>, k: Key) {
    forall u :: u in after ==> !(u.Put? && u.key == k) && u != Create(k) && u != Flush
  }

  /** The write line of k has gone to another page. */
  predicate Gone(after: seq<Use>, k: Key) {
    exists u :: u in after && Evicts(u, k)
  }

  predicate Displaced(after: seq<Use>, k: Key) {
    exists u :: u in after && Displaces(u, k)
  }

  /** The read line holds a copy of k; `had` tells whether it did before. */
  predicate Held(had: bool, after: seq<Use>, k: Key) {
    if after == [] then had
    else
      var front, u := after[..|after| - 1], after[|after| - 1];
      u == Look(k) || (!Displaces(u, k) && Held(had, front, k))
  }

  /** And that copy was made before the write line was given up. */
  predicate Outdated(had: bool, after: seq<Use>, k: Key) {
    if after == [] then had
    else
      var front, u := after[..|after| - 1], after[|after| - 1];
      if u == Look(k) && !Held(had, front, k) then !Gone(front, k)
      else !Displaces(u, k) && Outdated(had, front, k)
  }

  /** What reads found before the write: the copy they had, or the row once that was displaced. */
  function Older(origin: PageRows, before: seq<Use>, after: seq<Use>, k: Key): Page {
    if Copy(origin, before, k).Some? && !Displaced(after, k) then Copy(origin, before, k).value
    else Stored(origin, before, k)
  }

  /** The state of a page since its last write, as the uses after the write leave it. */
  predicate Since(origin: PageRows, before: seq<Use>, uses: seq<Use>, after: seq<Use>, k: Key, content: Page) {
    var had := Copy(origin, before, k).Some?;
    && Content(origin, uses, k) == content
    && Stored(origin, uses, k) == (if Gone(after, k) then content else Stored(origin, before, k))
    && (Copy(origin, uses, k).Some? <==> Held(had, after, k))
    && (Held(had, after, k) ==>
          Copy(origin, uses, k).value == if Outdated(had, after, k) then Older(origin, before, after, k) else content)
    && (Outdated(had, after, k) ==> Held(had, after, k))
    && (Held(had, after, k) && !Outdated(had, after, k) ==> Gone(after, k))
    && (had && !Displaced(after, k) ==> Held(had, after, k))
  }

  lemma SinceStep(origin: PageRows, before: seq<Use>, uses: seq<Use>, after: seq<Use>, u: Use, k: Key, content: Page)
    requires Since(origin, before, uses, after, k, content)
    requires !(u.Put? && u.key == k) && u != Create(k) && u != Flush
    ensures Since(origin, before, uses + [u], after + [u], k, content)
  {
    hide Gone, Displaced, Content, Stored, Copy, Held, Outdated;
    StepOf(origin, uses, u, k);
    HeldStep(Copy(origin, before, k).Some?, after, u, k);
    SnocGone(after, u, k);
  }

  lemma StepOf(origin: PageRows, uses: seq<Use>, u: Use, k: Key)
    requires !(u.Put? && u.key == k) && u != Create(k)
    ensures Content(origin, uses + [u], k) == Content(origin, uses, k)
    ensures Stored(origin, uses + [u], k) == if Evicts(u, k) then Content(origin, uses, k) else Stored(origin, uses, k)
    ensures Copy(origin, uses + [u], k) ==
            if Displaces(u, k) then None
            else if u == Look(k) && Copy(origin, uses, k).None? then Some(Stored(origin, uses, k))
            else Copy(origin, uses, k)
  {
    assert (uses + [u])[..|uses|] == uses;
  }

  lemma HeldStep(had: bool, after: seq<Use>, u: Use, k: Key)
    ensures Held(had, after + [u], k) <==> u == Look(k) || (!Displaces(u, k) && Held(had, after, k))
    ensures Outdated(had, after + [u], k) <==>
            if u == Look(k) && !Held(had, after, k) then !Gone(after, k)
            else !Displaces(u, k) && Outdated(had, after, k)
  {
    assert (after + [u])[..|after|] == after;
  }

  lemma SnocGone(after: seq<Use>, u: Use, k: Key)
    ensures Gone(after + [u], k) <==> Gone(after, k) || Evicts(u, k)
    ensures Displaced(after + [u], k) <==> Displaced(after, k) || Displaces(u, k)
  {
  }

  lemma {:induction false} SinceWrite(origin: PageRows, before: seq<Use>, k: Key, at: nat, chunk: seq<Byte>,
                                      after: seq<Use>)
    requires Untouched(after, k)
    ensures var content := Patch(Content(origin, before, k), at, chunk);
            Since(origin, before, before + [Put(k, at, chunk)] + after, after, k, content)
  {
    hide Since, Patch;
    var uses := before + [Put(k, at, chunk)] + after;
    if after == [] {
      assert uses == before + [Put(k, at, chunk)];
      JustWritten(origin, before, k, at, chunk);
    } else {
      var front, u := after[..|after| - 1], after[|after| - 1];
      assert u in after && Untouched(front, k) by {
        assert forall x :: x in front ==> x in after;
      }
      SinceWrite(origin, before, k, at, chunk, front);
      var content := Patch(Content(origin, before, k), at, chunk);
      SinceStep(origin, before, before + [Put(k, at, chunk)] + front, front, u, k, content);
      assert front + [u] == after;
      assert before + [Put(k, at, chunk)] + front + [u] == uses;
    }
  }

  lemma JustWritten(origin: PageRows, before: seq<Use>, k: Key, at: nat, chunk: seq<Byte>)
    ensures Since(origin, before, before + [Put(k, at, chunk)], [], k, Patch(Content(origin, before, k), at, chunk))
  {
    var uses := before + [Put(k, at, chunk)];
    assert uses[..|uses| - 1] == before;
  }

  /**
   Over any history without a commit after the last write to page k: reads find what was written if and only if
   the page is read through its write line; or the write line has gone to another page since, and the read line
   holds no copy made before that; or the older bytes were the same.
   */
  lemma LastWriteVisibleIff(origin: PageRows, before: seq<Use>, k: Key, at: nat, chunk: seq<Byte>, after: seq<Use>)
    requires Proper(origin, before + [Put(k, at, chunk)] + after) && Untouched(after, k)
    requires k in After(origin, before + [Put(k, at, chunk)] + after).rows
    ensures var c := After(origin, before + [Put(k, at, chunk)] + after);
            Seen(c.lines, c.rows, k) == Current(c.lines, c.rows, k) <==>
              || k % 80 < 10
              || (Gone(after, k) && !Outdated(Copy(origin, before, k).Some?, after, k))
              || Older(origin, before, after, k) == Patch(Content(origin, before, k), at, chunk)
  {
    hide After, Proper, Seen, Current, Patch, Gone, Held, Outdated, Displaced, Content, Stored, Copy;
    var uses := before + [Put(k, at, chunk)] + after;
    SinceWrite(origin, before, k, at, chunk, after);
    SeenIsView(origin, uses, k);
  }

  /**
   Page 20 is written and reads as before; then page 30 takes its write line, and the write shows without a
   commit.
   */
  lemma EvictionShowsExample(origin: PageRows)
    requires 20 in origin && 30 in origin && origin[20] == []
    ensures var one, two := [Put(20, 0, [1])], [Put(20, 0, [1]), Put(30, 0, [2])];
            && Proper(origin, one) && View(origin, one, 20) == []
            && Proper(origin, two) && View(origin, two, 20) == [1]
  {
    hide Proper, Patch;
    var x, y := Put(20, 0, [1]), Put(30, 0, [2]);
    assert [] + [x] == [x] && [x] + [y] == [x, y] && [x][..0] == [];
    PatchEmpty(1);
    assert Stored(origin, [x], 20) == Stored(origin, [], 20) && Copy(origin, [x], 20) == Copy(origin, [], 20);
    assert Content(origin, [x], 20) == Patch(Content(origin, [], 20), 0, [1]);
    StepOf(origin, [x], y, 20);
    TwoPuts(origin, x, y);
  }

  lemma TwoPuts(origin: PageRows, x: Use, y: Use)
    requires x.Put? && y.Put? && x.key in origin && y.key in origin
    ensures Proper(origin, [x]) && Proper(origin, [x, y])
  {
    hide Do, Proper, After;
    var c := Cache(NoLines(), origin);
    StartProper(origin);
    Extends(origin, [], c, x);
    assert [] + [x] == [x] && [x] + [y] == [x, y];
    PutKeepsKeys(c, x, y.key);
    Extends(origin, [x], Do(c, x), y);
  }

  lemma PatchEmpty(b: Byte)
    ensures Patch([], 0, [b]) == [b]
  {
  }

  lemma StartProper(origin: PageRows)
    ensures Proper(origin, []) && After(origin, []) == Cache(NoLines(), origin)
  {
  }

  lemma PutKeepsKeys(c: Cache, u: Use, k: Key)
    requires u.Put? && u.key in c.rows && k in c.rows
    ensures k in Do(c, u).rows
  {
    hide Patch;
  }

  /** A commit shows every write. */
  lemma FlushShowsAll(origin: PageRows, uses: seq<Use>, k: Key)
    ensures View(origin, uses + [Flush], k) == Content(origin, uses, k)
  {
    assert (uses + [Flush])[..|uses|] == uses;
  }

  // ---------------------------------------------------------------- reads across pages

  /** The key of page p, if it is there. */
  function KeyAt(bundles: seq<Option<Key>>, rows: BundleRows, p: nat): Option<Key> {
    KeyIn(bundles, rows, p / 1024, p % 1024)
  }

  function KeyIn(bundles: seq<Option<Key>>, rows: BundleRows, b: nat, i: nat): Option<Key> {
    if b < |bundles| && bundles[b].Some? && bundles[b].value in rows && i < |rows[bundles[b].value]|
    then rows[bundles[b].value][i] else None
  }

  lemma PageOfKey(bundles: seq<Option<Key>>, rows: BundleRows, contents: PageRows, p: nat)
    requires Linked(bundles, rows, contents.Keys)
    ensures var key := KeyAt(bundles, rows, p);
            && (key.Some? ==> key.value in contents)
            && PageAt(TreeOf(bundles, rows, contents), p) == if key.Some? then Some(contents[key.value]) else None
  {
  }

  function Looks(uses: seq<Use>, key: Option<Key>): seq<Use> {
    if key.Some? then uses + [Look(key.value)] else uses
  }

  /**
   A read told from the history: page by page, what the history so far shows of each, while every page read
   becomes part of the history itself.
   */
  function ReadVia(bundles: seq<Option<Key>>, rows: BundleRows, origin: PageRows, uses: seq<Use>, at: nat, left: nat)
    : (ReadOutcome, seq<Use>)
    decreases left
  {
    if left == 0 then (Data([]), uses)
    else
      var n, key := Min(left, 131072 - at % 131072), KeyAt(bundles, rows, at / 131072);
      var page := if key.Some? then Some(View(origin, uses, key.value)) else None;
      var chunk, looked := ChunkOf(page, at % 131072, n), Looks(uses, key);
      if chunk.Panic? then (Panic, looked)
      else
        var (rest, end) := ReadVia(bundles, rows, origin, looked, at + n, left - n);
        (if rest.Panic? then Panic else Data(chunk.bytes + rest.bytes), end)
  }

  /** A read of which some bytes are there already. */
  function Following(bytes: seq<Byte>, rest: (ReadOutcome, seq<Use>)): (ReadOutcome, seq<Use>) {
    (if rest.0.Panic? then Panic else Data(bytes + rest.0.bytes), rest.1)
  }

  lemma ReadViaStep(bundles: seq<Option<Key>>, rows: BundleRows, origin: PageRows, uses: seq<Use>, at: nat, left: nat,
                    bytes: seq<Byte>)
    requires left > 0
    ensures var n, key := Min(left, 131072 - at % 131072), KeyAt(bundles, rows, at / 131072);
            var page := if key.Some? then Some(View(origin, uses, key.value)) else None;
            var chunk := ChunkOf(page, at % 131072, n);
            Following(bytes, ReadVia(bundles, rows, origin, uses, at, left)) ==
            if chunk.Panic? then (Panic, Looks(uses, key))
            else Following(bytes + chunk.bytes, ReadVia(bundles, rows, origin, Looks(uses, key), at + n, left - n))
  {
    hide ChunkOf, View, KeyAt, Looks;
    var n, key := Min(left, 131072 - at % 131072), KeyAt(bundles, rows, at / 131072);
    var page := if key.Some? then Some(View(origin, uses, key.value)) else None;
    var chunk := ChunkOf(page, at % 131072, n);
    var rest := ReadVia(bundles, rows, origin, Looks(uses, key), at + n, left - n);
    if chunk.Data? && rest.0.Data? {
      assert bytes + (chunk.bytes + rest.0.bytes) == bytes + chunk.bytes + rest.0.bytes;
    }
  }

  lemma NothingYet(read: (ReadOutcome, seq<Use>))
    ensures Following([], read) == read
  {
    if read.0.Data? {
      assert [] + read.0.bytes == read.0.bytes;
    }
  }

  lemma NothingLeft(bundles: seq<Option<Key>>, rows: BundleRows, origin: PageRows, uses: seq<Use>, at: nat,
                    bytes: seq<Byte>)
    ensures Following(bytes, ReadVia(bundles, rows, origin, uses, at, 0)) == (Data(bytes), uses)
  {
    assert bytes + [] == bytes;
  }
}
