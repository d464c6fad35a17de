/**
The content of a regular file with keys, rows and caches abstracted away: a vector of optional bundles, each a
vector of optional pages, each a byte buffer.  Offsets are split as the program splits them, holes are filled by
insertion as the program fills them, and every law below is about the bytes a reader can address.
*/
module PageTree {
  import opened Prelude

  const PAGE_SIZE: nat := 131072
  const PAGES_PER_BUNDLE: nat := 1024

  type Page = seq<Byte>
  type Bundle = seq<Option<Page>>
  type Tree = seq<Option<Bundle>>

  datatype File = File(size: nat, tree: Tree)

  datatype ReadOutcome = Data(bytes: seq<Byte>) | Panic

  // ---------------------------------------------------------------- addressing

  /** The page with file-wide number p; a hole and a slot beyond the vectors read alike. */
  function PageAt(t: Tree, p: nat): Option<Page> {
    var b, i := p / 1024, p % 1024;
    if b < |t| && t[b].Some? && i < |t[b].value| then t[b].value[i] else None
  }

  function ByteOf(pg: Option<Page>, o: nat): Byte {
    if pg.Some? && o < |pg.value| then pg.value[o] else 0
  }

  function ByteAt(t: Tree, a: nat): Byte {
    ByteOf(PageAt(t, a / 131072), a % 131072)
  }

  /** The n flat bytes from address a on. */
  function Span(t: Tree, a: nat, n: nat): (r: seq<Byte>)
    ensures |r| == n
    ensures forall i :: 0 <= i < n ==> r[i] == ByteAt(t, a + i)
  {
    seq<Byte>(n, i requires 0 <= i => ByteAt(t, a + i))
  }

  function Zeros(n: nat): seq<Byte> {
    seq(n, _ => 0)
  }

  // ---------------------------------------------------------------- reading

  /** What one page contributes to a read that starts at sub-offset o and stays inside the page. */
  function ChunkOf(pg: Option<Page>, o: nat, size: nat): ReadOutcome {
    match pg
    case None => Data(Zeros(size))
    case Some(buf) =>
      if |buf| < o then Panic
      else
        var n := Min(size, |buf| - o);
        Data(buf[o..o + n] + Zeros(size - n))
  }

  /** The first page a read touches exists but its buffer ends before the read starts. */
  predicate TooShort(t: Tree, offset: nat) {
    var pg := PageAt(t, offset / 131072);
    pg.Some? && |pg.value| < offset % 131072
  }

  /** The reference reading of a file: the flat bytes, clipped to the size. */
  function ReadFile(f: File, offset: nat, size: nat): ReadOutcome {
    if offset >= f.size || size == 0 then Data([])
    else if TooShort(f.tree, offset) then Panic
    else Data(Span(f.tree, offset, Min(size, f.size - offset)))
  }

  lemma ChunkIsBytes(t: Tree, offset: nat, size: nat)
    requires offset % 131072 + size <= 131072
    ensures var r := ChunkOf(PageAt(t, offset / 131072), offset % 131072, size);
            if TooShort(t, offset) then r.Panic? else r == Data(Span(t, offset, size))
  {
    var pg := PageAt(t, offset / 131072);
    var r := ChunkOf(pg, offset % 131072, size);
    if r.Data? {
      forall j | 0 <= j < size
        ensures r.bytes[j] == ByteAt(t, offset + j)
      {
        assert (offset + j) / 131072 == offset / 131072 && (offset + j) % 131072 == offset % 131072 + j;
      }
      assert r.bytes == Span(t, offset, size);
    }
  }

  // ---------------------------------------------------------------- writing

  function GrowTo<T>(s: seq<Option<T>>, n: nat): seq<Option<T>> {
    if |s| < n then s + seq(n - |s|, _ => None) else s
  }

  /** `Vec::insert`: everything from i on moves up by one. */
  function InsertAt<T>(s: seq<T>, i: nat, v: T): seq<T>
    requires i <= |s|
  {
    s[..i] + [v] + s[i..]
  }

  function FillBundle(t: Tree, b: nat): (r: Tree)
    ensures b < |r| && r[b].Some?
  {
    var g := GrowTo(t, b + 1);
    if g[b].None? then InsertAt(g, b, Some([])) else g
  }

  function FillPage(bd: Bundle, i: nat): (r: Bundle)
    requires i < PAGES_PER_BUNDLE
    ensures i < |r| && r[i].Some?
  {
    var g := if |bd| <= i then GrowTo(bd, PAGES_PER_BUNDLE + 1) else bd;
    if g[i].None? then InsertAt(g, i, Some([])) else g
  }

  function PadTo(buf: Page, o: nat): (r: Page)
    ensures |r| >= o
  {
    if |buf| < o then buf + Zeros(o - |buf|) else buf
  }

  /** The buffer after `chunk` has been copied in at o, zero-extended up to o first. */
  function Patch(buf: Page, o: nat, chunk: seq<Byte>): Page {
    var g := PadTo(buf, o);
    g[..o] + chunk + if o + |chunk| < |g| then g[o + |chunk|..] else []
  }

  function BufOf(pg: Option<Page>): Page {
    if pg.Some? then pg.value else []
  }

  function WritePage(t: Tree, p: nat, o: nat, chunk: seq<Byte>): Tree {
    var b, i := p / 1024, p % 1024;
    var t1 := FillBundle(t, b);
    var bd := FillPage(t1[b].value, i);
    t1[b := Some(bd[i := Some(Patch(bd[i].value, o, chunk))])]
  }

  /** The write loop: split at page boundaries, page by page. */
  function WriteTree(t: Tree, offset: nat, data: seq<Byte>): Tree
    decreases |data|
  {
    if data == [] then t
    else
      var n := Min(|data|, 131072 - offset % 131072);
      WriteTree(WritePage(t, offset / 131072, offset % 131072, data[..n]), offset + n, data[n..])
  }

  function WriteFile(f: File, offset: nat, data: seq<Byte>): File {
    if data == [] then f
    else File(if offset + |data| > f.size then offset + |data| else f.size, WriteTree(f.tree, offset, data))
  }

  // ---------------------------------------------------------------- the shift law

  predicate BundleHole(t: Tree, b: nat) {
    b >= |t| || t[b].None?
  }

  /** Which page of the old tree is found at q after a write to page p. */
  function Origin(t: Tree, p: nat, q: nat): nat {
    if BundleHole(t, p / 1024) then (if q / 1024 > p / 1024 then q - 1024 else q)
    else if PageAt(t, p).None? then (if q / 1024 == p / 1024 && q > p then q - 1 else q)
    else q
  }

  lemma FillBundleSlots(t: Tree, b: nat, c: nat)
    ensures var r := FillBundle(t, b);
            BundleHole(t, b) ==>
              && r[b] == Some([])
              && (c > b ==>
                    && (BundleHole(r, c) <==> BundleHole(t, c - 1))
                    && (!BundleHole(r, c) ==> r[c] == t[c - 1]))
    ensures var r := FillBundle(t, b);
            c < b || !BundleHole(t, b) ==>
              && (BundleHole(r, c) <==> BundleHole(t, c))
              && (!BundleHole(r, c) ==> r[c] == t[c])
  {
  }

  lemma FillPageSlots(bd: Bundle, i: nat, j: nat)
    requires i < PAGES_PER_BUNDLE
    ensures var r := FillPage(bd, i);
            var oldSlot := if i < |bd| then bd[i] else None;
            var newSlot := if j < |r| then r[j] else None;
            && (oldSlot.Some? ==> r == bd)
            && (oldSlot.None? ==>
                  && r[i] == Some([])
                  && (j < i ==> newSlot == if j < |bd| then bd[j] else None)
                  && (j > i ==> newSlot == if j - 1 < |bd| then bd[j - 1] else None))
  {
  }

  /** The exact effect of one page write on every page of the file, shifted or not. */
  lemma WritePageMoves(t: Tree, p: nat, o: nat, chunk: seq<Byte>, q: nat)
    ensures PageAt(WritePage(t, p, o, chunk), q) ==
            if q == p then Some(Patch(BufOf(PageAt(t, p)), o, chunk)) else PageAt(t, Origin(t, p, q))
  {
    hide FillBundle, FillPage, Patch;
    var b, i := p / 1024, p % 1024;
    var t1 := FillBundle(t, b);
    FillBundleSlots(t, b, b);
    FillBundleSlots(t, b, q / 1024);
    FillPageSlots(t1[b].value, i, i);
    FillPageSlots(t1[b].value, i, q % 1024);
    if q / 1024 > b {
      assert (q - 1024) / 1024 == q / 1024 - 1 && (q - 1024) % 1024 == q % 1024;
    } else if q / 1024 == b && q > p {
      assert (q - 1) / 1024 == b && (q - 1) % 1024 == q % 1024 - 1;
    }
  }

  /** The tree u is t after a write to page p, as the law above describes it. */
  ghost predicate Moved(t: Tree, u: Tree, p: nat, o: nat, chunk: seq<Byte>) {
    forall q: nat :: PageAt(u, q) ==
                     if q == p then Some(Patch(BufOf(PageAt(t, p)), o, chunk)) else PageAt(t, Origin(t, p, q))
  }

  lemma WritePageMoved(t: Tree, p: nat, o: nat, chunk: seq<Byte>)
    ensures Moved(t, WritePage(t, p, o, chunk), p, o, chunk)
  {
    forall q: nat {
      WritePageMoves(t, p, o, chunk, q);
    }
  }

  // ---------------------------------------------------------------- when a write disturbs nothing

  predicate SamePage(x: Option<Page>, y: Option<Page>) {
    forall o: nat :: o < 131072 ==> ByteOf(x, o) == ByteOf(y, o)
  }

  predicate ZeroPage(x: Option<Page>) {
    SamePage(x, None)
  }

  /** Page q would move if page p had to be filled. */
  predicate Behind(t: Tree, p: nat, q: nat) {
    Origin(t, p, q) != q
  }

  /** Nothing but zeros lies behind the hole that a write to page p would fill. */
  ghost predicate TailZero(t: Tree, p: nat) {
    forall q: nat :: Behind(t, p, q) ==> ZeroPage(PageAt(t, q))
  }

  ghost predicate Undisturbed(t: Tree, u: Tree, p: nat) {
    forall q: nat :: q != p ==> SamePage(PageAt(u, q), PageAt(t, q))
  }

  /** What moves into the first place behind a hole is the hole itself. */
  lemma OriginOfTail(t: Tree, p: nat, q: nat)
    requires Behind(t, p, q)
    ensures Origin(t, p, q) < q && q > p
    ensures !Behind(t, p, Origin(t, p, q)) ==> PageAt(t, Origin(t, p, q)).None?
  {
  }

  lemma {:induction false} UndisturbedTail(t: Tree, u: Tree, p: nat, o: nat, chunk: seq<Byte>, q: nat)
    requires Moved(t, u, p, o, chunk) && Undisturbed(t, u, p)
    requires Behind(t, p, q)
    ensures ZeroPage(PageAt(t, q))
    decreases q
  {
    OriginOfTail(t, p, q);
    assert SamePage(PageAt(u, q), PageAt(t, q));
    if Behind(t, p, Origin(t, p, q)) {
      UndisturbedTail(t, u, p, o, chunk, Origin(t, p, q));
    }
  }

  lemma TailZeroUndisturbed(t: Tree, u: Tree, p: nat, o: nat, chunk: seq<Byte>)
    requires Moved(t, u, p, o, chunk) && TailZero(t, p)
    ensures Undisturbed(t, u, p)
  {
    forall q: nat | q != p
      ensures SamePage(PageAt(u, q), PageAt(t, q))
    {
      if Behind(t, p, q) {
        OriginOfTail(t, p, q);
        assert ZeroPage(PageAt(t, q));
        if Behind(t, p, Origin(t, p, q)) {
          assert ZeroPage(PageAt(t, Origin(t, p, q)));
        }
      }
    }
  }

  /** A page write leaves every other page as it was exactly when only zeros lie behind the hole it fills. */
  lemma WriteDisturbsNothing(t: Tree, p: nat, o: nat, chunk: seq<Byte>)
    ensures Undisturbed(t, WritePage(t, p, o, chunk), p) <==> TailZero(t, p)
  {
    var u := WritePage(t, p, o, chunk);
    WritePageMoved(t, p, o, chunk);
    if TailZero(t, p) {
      TailZeroUndisturbed(t, u, p, o, chunk);
    }
    if Undisturbed(t, u, p) {
      forall q: nat | Behind(t, p, q) {
        UndisturbedTail(t, u, p, o, chunk, q);
      }
    }
  }

  lemma PatchBytes(pg: Option<Page>, o: nat, chunk: seq<Byte>, x: nat)
    ensures ByteOf(Some(Patch(BufOf(pg), o, chunk)), x) ==
            if o <= x < o + |chunk| then chunk[x - o] else ByteOf(pg, x)
  {
  }

  /** The bytes of data written at offset, over the bytes that were there. */
  function Overlay(under: Byte, offset: nat, data: seq<Byte>, a: nat): Byte {
    if offset <= a < offset + |data| then data[a - offset] else under
  }

  // ---------------------------------------------------------------- writes over several pages

  /** The first bundle from b on, and before `end`, that is a hole, or else `end`. */
  function FirstHoleBundle(t: Tree, b: nat, end: nat): (r: nat)
    requires b <= end
    ensures b <= r <= end && (r < end ==> BundleHole(t, r)) && forall c: nat :: b <= c < r ==> !BundleHole(t, c)
    decreases end - b
  {
    if b == end || BundleHole(t, b) then b else FirstHoleBundle(t, b + 1, end)
  }

  /** The first page from lo on, and before `end`, that is a hole, or else `end`. */
  function FirstHolePage(t: Tree, lo: nat, end: nat): (r: nat)
    requires lo <= end
    ensures lo <= r <= end && (r < end ==> PageAt(t, r).None?)
    ensures forall q: nat :: lo <= q < r ==> PageAt(t, q).Some?
    decreases end - lo
  {
    if lo == end || PageAt(t, lo).None? then lo else FirstHolePage(t, lo + 1, end)
  }

  /** The pages from p up to e that lie in bundle c. */
  function From(p: nat, c: nat): (lo: nat)
    ensures lo == p || lo == 1024 * c
  {
    if p < 1024 * c then 1024 * c else p
  }

  function UpTo(e: nat, c: nat): nat {
    Min(e, 1024 * (c + 1))
  }

  /**
   Which page of the old tree is found at q after writes to all pages from p up to e.  From the first missing
   bundle on, every bundle written to is a new one, and all behind them move up together; in a bundle that is
   there, the same holds of its pages from the first missing one on.
   */
  function Origins(t: Tree, p: nat, e: nat, q: nat): nat {
    if e <= p then q
    else
      var b, last, c := p / 1024, (e - 1) / 1024, q / 1024;
      var hb := FirstHoleBundle(t, b, last + 1);
      if c < b then q
      else if c > last then q - 1024 * (last + 1 - hb)
      else if c >= hb then 1024 * hb + q % 1024
      else PageOrigin(t, p, e, q)
  }

  /** The same within a bundle that is there. */
  function PageOrigin(t: Tree, p: nat, e: nat, q: nat): nat
    requires p / 1024 <= q / 1024 <= (e - 1) / 1024 && p < e
  {
    var hi := UpTo(e, q / 1024);
    if q < hi then q else q - (hi - FirstHolePage(t, From(p, q / 1024), hi))
  }

  predicate HoleAfter(t: Tree, p: nat, e: nat, c: nat) {
    if e <= p || c < p / 1024 then BundleHole(t, c)
    else
      var last := (e - 1) / 1024;
      c > last && BundleHole(t, c - (last + 1 - FirstHoleBundle(t, p / 1024, last + 1)))
  }

  lemma WritePageHoles(t: Tree, p: nat, o: nat, chunk: seq<Byte>, c: nat)
    ensures var b := p / 1024;
            BundleHole(WritePage(t, p, o, chunk), c) <==>
            if !BundleHole(t, b) || c < b then BundleHole(t, c) else c > b && BundleHole(t, c - 1)
  {
    hide FillPage, Patch, FillBundle;
    FillBundleSlots(t, p / 1024, c);
  }

  lemma {:induction false} FirstHoleBundleGrows(t: Tree, b: nat, end: nat)
    requires b <= end
    ensures FirstHoleBundle(t, b, end + 1) ==
            if FirstHoleBundle(t, b, end) < end then FirstHoleBundle(t, b, end)
            else if BundleHole(t, end) then end else end + 1
    decreases end - b
  {
    hide BundleHole;
    if b == end {
    } else if !BundleHole(t, b) {
      FirstHoleBundleGrows(t, b + 1, end);
    }
  }

  lemma {:induction false} FirstHolePageGrows(t: Tree, lo: nat, end: nat)
    requires lo <= end
    ensures FirstHolePage(t, lo, end + 1) ==
            if FirstHolePage(t, lo, end) < end then FirstHolePage(t, lo, end)
            else if PageAt(t, end).None? then end else end + 1
    decreases end - lo
  {
    hide PageAt;
    if lo == end {
    } else if PageAt(t, lo).Some? {
      FirstHolePageGrows(t, lo + 1, end);
    }
  }

  /** The next page lies in the last bundle written to, or begins the one behind it. */
  lemma NextBundle(e: nat)
    requires e > 0
    ensures e % 1024 != 0 ==> e / 1024 == (e - 1) / 1024
    ensures e % 1024 == 0 ==> e / 1024 == (e - 1) / 1024 + 1 && e == 1024 * (e / 1024)
  {
  }

  /** The first missing bundle, once page e is written too. */
  predicate NextFirstHole(t: Tree, p: nat, e: nat)
    requires p < e
  {
    var b, c := p / 1024, e / 1024;
    FirstHoleBundle(t, b, c + 1) ==
    if e % 1024 != 0 then FirstHoleBundle(t, b, (e - 1) / 1024 + 1)
    else if FirstHoleBundle(t, b, c) < c then FirstHoleBundle(t, b, c)
    else if BundleHole(t, c) then c else c + 1
  }

  /** Whether the bundle of the next page is a hole by then. */
  lemma NextIsHole(t: Tree, p: nat, e: nat)
    requires p <= e
    ensures var c := e / 1024;
            HoleAfter(t, p, e, c) <==> FirstHoleBundle(t, p / 1024, c + 1) <= c && (e == p || e % 1024 == 0)
    ensures e > p ==> NextFirstHole(t, p, e)
  {
    hide BundleHole, FirstHoleBundle;
    if e == p {
      FirstHoleBundleGrows(t, p / 1024, p / 1024);
    } else {
      NextBundle(e);
      if e % 1024 == 0 {
        FirstHoleBundleGrows(t, p / 1024, e / 1024);
      }
    }
  }

  /** Where pages come from if a bundle written to is missing. */
  lemma OriginsMissing(t: Tree, p: nat, e: nat, q: nat)
    requires p < e && !(p <= q < e)
    requires FirstHoleBundle(t, p / 1024, (e - 1) / 1024 + 1) <= (e - 1) / 1024
    ensures var last := (e - 1) / 1024;
            var hb := FirstHoleBundle(t, p / 1024, last + 1);
            && (q / 1024 > last ==> Origins(t, p, e, q) == q - 1024 * (last + 1 - hb) >= 1024 * hb)
            && (hb <= q / 1024 <= last ==> PageAt(t, Origins(t, p, e, q)).None?)
            && (q / 1024 < hb ==> Origins(t, p, e, q) == q)
  {
  }

  /** Where pages come from if every bundle written to is there. */
  lemma OriginsPresent(t: Tree, p: nat, e: nat, q: nat)
    requires p < e && !(p <= q < e)
    requires FirstHoleBundle(t, p / 1024, (e - 1) / 1024 + 1) > (e - 1) / 1024
    ensures var last := (e - 1) / 1024;
            var h := FirstHolePage(t, From(p, last), e);
            Origins(t, p, e, q) == if e <= q < 1024 * (last + 1) then q - (e - h) else q
  {
    hide PageAt, BundleHole;
  }

  /** Where page q comes from when page e is written, by what is missing there. */
  function NextOrigin(noBundle: bool, noPage: bool, e: nat, q: nat): nat {
    if noBundle then (if q / 1024 > e / 1024 then q - 1024 else q)
    else if noPage && q / 1024 == e / 1024 && q > e then q - 1
    else q
  }

  /** One page more, and where q comes from then: the step from e to e + 1. */
  ghost predicate Steps(t: Tree, p: nat, e: nat, q: nat) {
    var o := NextOrigin(HoleAfter(t, p, e, e / 1024), PageAt(t, Origins(t, p, e, e)).None?, e, q);
    !(p <= o < e) && PageAt(t, Origins(t, p, e, o)) == PageAt(t, Origins(t, p, e + 1, q))
  }

  /** A write of one page moves the others as a page write does. */
  lemma OriginsOfOne(t: Tree, p: nat, q: nat)
    requires q != p
    ensures Origins(t, p, p + 1, q) == Origin(t, p, q)
  {
    hide PageAt, BundleHole;
    FirstHoleBundleGrows(t, p / 1024, p / 1024);
    FirstHolePageGrows(t, p, p);
  }

  /** The first page written. */
  lemma StepFirst(t: Tree, p: nat, q: nat)
    requires q != p
    ensures Steps(t, p, p, q)
  {
    hide PageAt, BundleHole, FirstHoleBundle, PageOrigin;
    OriginsOfOne(t, p, q);
  }

  /** Bundles before that of page e are done with. */
  lemma StepBelow(t: Tree, p: nat, e: nat, q: nat)
    requires p < e && !(p <= q <= e) && q / 1024 < e / 1024
    ensures Steps(t, p, e, q)
  {
    hide BundleHole, PageAt;
    NextBundle(e);
    NextIsHole(t, p, e);
  }

  /** Page e begins a bundle that has to be made. */
  lemma StepNewBundle(t: Tree, p: nat, e: nat, q: nat)
    requires p < e < q && q / 1024 >= e / 1024 && HoleAfter(t, p, e, e / 1024)
    ensures Steps(t, p, e, q)
  {
    hide BundleHole, PageAt;
    NextBundle(e);
    NextIsHole(t, p, e);
  }

  /** Page e begins a bundle that is there. */
  lemma StepNextBundle(t: Tree, p: nat, e: nat, q: nat)
    requires p < e < q && q / 1024 >= e / 1024 && !HoleAfter(t, p, e, e / 1024) && e % 1024 == 0
    ensures Steps(t, p, e, q)
  {
    hide BundleHole, PageAt;
    NextBundle(e);
    NextIsHole(t, p, e);
  }

  /** Page e continues a bundle made for this write. */
  lemma StepFresh(t: Tree, p: nat, e: nat, q: nat)
    requires p < e && !(p <= q <= e) && q / 1024 >= e / 1024 && e % 1024 != 0
    requires FirstHoleBundle(t, p / 1024, e / 1024 + 1) <= e / 1024
    ensures Steps(t, p, e, q)
  {
    hide Origins, PageAt, FirstHoleBundle, HoleAfter;
    NextBundle(e);
    NextIsHole(t, p, e);
    OriginsMissing(t, p, e, e);
    OriginsMissing(t, p, e, q);
    OriginsMissing(t, p, e + 1, q);
    if q > e {
      OriginsMissing(t, p, e, q - 1);
    }
  }

  /** Page e continues a bundle that was there. */
  lemma StepWithin(t: Tree, p: nat, e: nat, q: nat)
    requires p < e && !(p <= q <= e) && q / 1024 >= e / 1024 && e % 1024 != 0
    requires FirstHoleBundle(t, p / 1024, e / 1024 + 1) > e / 1024
    ensures Steps(t, p, e, q)
  {
    hide Origins, PageAt, FirstHoleBundle, HoleAfter, FirstHolePage, From;
    NextBundle(e);
    NextIsHole(t, p, e);
    FirstHolePageGrows(t, From(p, e / 1024), e);
    OriginsPresent(t, p, e, e);
    OriginsPresent(t, p, e, q);
    OriginsPresent(t, p, e + 1, q);
    if q > e {
      OriginsPresent(t, p, e, q - 1);
    }
  }

  lemma OriginsStep(t: Tree, p: nat, e: nat, q: nat)
    requires p <= e && !(p <= q <= e)
    ensures Steps(t, p, e, q)
  {
    hide BundleHole, PageAt, Steps, HoleAfter;
    if p == e {
      StepFirst(t, p, q);
    } else if q / 1024 < e / 1024 {
      StepBelow(t, p, e, q);
    } else if e % 1024 != 0 {
      if FirstHoleBundle(t, p / 1024, e / 1024 + 1) <= e / 1024 {
        StepFresh(t, p, e, q);
      } else {
        StepWithin(t, p, e, q);
      }
    } else if HoleAfter(t, p, e, e / 1024) {
      StepNewBundle(t, p, e, q);
    } else {
      StepNextBundle(t, p, e, q);
    }
  }

  lemma HolesStep(t: Tree, p: nat, e: nat, c: nat)
    requires p <= e
    ensures var b := e / 1024;
            HoleAfter(t, p, e + 1, c) <==>
            if !HoleAfter(t, p, e, b) || c < b then HoleAfter(t, p, e, c) else c > b && HoleAfter(t, p, e, c - 1)
  {
    hide BundleHole;
    NextIsHole(t, p, e);
    if e > p {
      NextBundle(e);
    }
  }

  /** The page behind the last one that n bytes at offset touch. */
  function EndPage(offset: nat, n: nat): (e: nat)
    ensures n == 0 ==> e == offset / 131072
    ensures n > 0 ==> e > offset / 131072
  {
    if n == 0 then offset / 131072 else (offset + n - 1) / 131072 + 1
  }

  /** The tree u is t after `done` has been written at offset: every bundle, every page and every byte of it. */
  ghost predicate AfterWrite(t: Tree, u: Tree, offset: nat, done: seq<Byte>) {
    var p, e := offset / 131072, EndPage(offset, |done|);
    && (forall c: nat :: BundleHole(u, c) <==> HoleAfter(t, p, e, c))
    && (forall q: nat :: !(p <= q < e) ==> PageAt(u, q) == PageAt(t, Origins(t, p, e, q)))
    && (forall q: nat, x: nat :: p <= q < e && x < 131072 ==>
          ByteOf(PageAt(u, q), x) ==
          Overlay(ByteOf(PageAt(t, Origins(t, p, q, q)), x), offset, done, q * 131072 + x))
  }

  lemma AfterBundles(t: Tree, u: Tree, offset: nat, done: seq<Byte>, o: nat, chunk: seq<Byte>, c: nat)
    requires AfterWrite(t, u, offset, done)
    ensures var e := EndPage(offset, |done|);
            BundleHole(WritePage(u, e, o, chunk), c) <==> HoleAfter(t, offset / 131072, e + 1, c)
  {
    hide BundleHole, HoleAfter, PageAt, WritePage, EndPage;
    var e := EndPage(offset, |done|);
    WritePageHoles(u, e, o, chunk, c);
    HolesStep(t, offset / 131072, e, c);
  }

  lemma AfterPages(t: Tree, u: Tree, offset: nat, done: seq<Byte>, o: nat, chunk: seq<Byte>, q: nat)
    requires AfterWrite(t, u, offset, done) && !(offset / 131072 <= q <= EndPage(offset, |done|))
    ensures var e := EndPage(offset, |done|);
            PageAt(WritePage(u, e, o, chunk), q) == PageAt(t, Origins(t, offset / 131072, e + 1, q))
  {
    hide BundleHole, HoleAfter, PageAt, WritePage, EndPage, Origins, Patch;
    var e := EndPage(offset, |done|);
    WritePageMoves(u, e, o, chunk, q);
    OriginsStep(t, offset / 131072, e, q);
    assert Origin(u, e, q) == NextOrigin(BundleHole(u, e / 1024), PageAt(u, e).None?, e, q);
  }

  lemma AfterBytes(t: Tree, u: Tree, offset: nat, done: seq<Byte>, chunk: seq<Byte>, q: nat, x: nat)
    requires AfterWrite(t, u, offset, done) && x < 131072
    requires offset / 131072 <= q <= EndPage(offset, |done|)
    requires done == [] || (offset + |done|) % 131072 == 0
    requires 0 < |chunk| <= 131072 - (offset + |done|) % 131072
    ensures var at := offset + |done|;
            ByteOf(PageAt(WritePage(u, at / 131072, at % 131072, chunk), q), x) ==
            Overlay(ByteOf(PageAt(t, Origins(t, offset / 131072, q, q)), x), offset, done + chunk, q * 131072 + x)
  {
    hide BundleHole, HoleAfter, PageAt, WritePage, Origins, Patch, ByteOf;
    var e, o := EndPage(offset, |done|), (offset + |done|) % 131072;
    assert (offset + |done|) / 131072 == e;
    WritePageMoves(u, e, o, chunk, q);
    if q == e {
      PatchBytes(PageAt(u, e), o, chunk, x);
      assert PageAt(u, e) == PageAt(t, Origins(t, offset / 131072, e, e));
      assert e * 131072 + o == offset + |done|;
    } else {
      assert Origin(u, e, q) == q;
    }
  }

  lemma NextPage(offset: nat, n: nat, k: nat)
    requires n == 0 || (offset + n) % 131072 == 0
    requires 0 < k <= 131072 - (offset + n) % 131072
    ensures EndPage(offset, n) == (offset + n) / 131072 && EndPage(offset, n + k) == (offset + n) / 131072 + 1
  {
  }

  lemma AfterStep(t: Tree, u: Tree, offset: nat, done: seq<Byte>, chunk: seq<Byte>)
    requires AfterWrite(t, u, offset, done)
    requires done == [] || (offset + |done|) % 131072 == 0
    requires 0 < |chunk| <= 131072 - (offset + |done|) % 131072
    ensures var at := offset + |done|;
            AfterWrite(t, WritePage(u, at / 131072, at % 131072, chunk), offset, done + chunk)
  {
    hide BundleHole, HoleAfter, PageAt, WritePage, Origins, ByteOf, Overlay, EndPage;
    var p, e, o := offset / 131072, EndPage(offset, |done|), (offset + |done|) % 131072;
    var w := WritePage(u, e, o, chunk);
    NextPage(offset, |done|, |chunk|);
    forall c: nat
      ensures BundleHole(w, c) <==> HoleAfter(t, p, e + 1, c)
    {
      AfterBundles(t, u, offset, done, o, chunk, c);
    }
    forall q: nat | !(p <= q < e + 1)
      ensures PageAt(w, q) == PageAt(t, Origins(t, p, e + 1, q))
    {
      AfterPages(t, u, offset, done, o, chunk, q);
    }
    forall q: nat, x: nat | p <= q < e + 1 && x < 131072
      ensures ByteOf(PageAt(w, q), x) ==
              Overlay(ByteOf(PageAt(t, Origins(t, p, q, q)), x), offset, done + chunk, q * 131072 + x)
    {
      AfterBytes(t, u, offset, done, chunk, q, x);
    }
  }

  /** A piece of a read or a write ends where its page ends, or where all of it ends. */
  lemma PieceEnds(at: nat, left: nat)
    ensures var n := Min(left, 131072 - at % 131072);
            (left > 0 ==> n > 0) && (n == left || (at + n) % 131072 == 0)
  {
  }

  lemma {:induction false} AfterRest(t: Tree, u: Tree, offset: nat, done: seq<Byte>, rest: seq<Byte>)
    requires AfterWrite(t, u, offset, done)
    requires rest == [] || done == [] || (offset + |done|) % 131072 == 0
    ensures AfterWrite(t, WriteTree(u, offset + |done|, rest), offset, done + rest)
    decreases |rest|
  {
    hide AfterWrite, WritePage;
    if rest == [] {
      assert done + rest == done;
    } else {
      var at := offset + |done|;
      var n := Min(|rest|, 131072 - at % 131072);
      PieceEnds(at, |rest|);
      AfterStep(t, u, offset, done, rest[..n]);
      var w := WritePage(u, at / 131072, at % 131072, rest[..n]);
      assert |done + rest[..n]| == |done| + n;
      AfterRest(t, w, offset, done + rest[..n], rest[n..]);
      assert done + rest[..n] + rest[n..] == done + rest;
      assert WriteTree(u, at, rest) == WriteTree(w, at + n, rest[n..]);
    }
  }

  /** The exact effect of a whole write on every bundle, page and byte of the file. */
  lemma WriteTreeMoves(t: Tree, offset: nat, data: seq<Byte>)
    ensures AfterWrite(t, WriteTree(t, offset, data), offset, data)
  {
    assert AfterWrite(t, t, offset, []) by {
      hide PageAt, BundleHole;
    }
    AfterRest(t, t, offset, [], data);
    assert [] + data == data;
  }

  // ---------------------------------------------------------------- when a whole write disturbs nothing

  /** Where what is left of the last page begins. */
  function Rest(offset: nat, data: seq<Byte>): nat
    requires data != []
  {
    (offset + |data| - 1) % 131072 + 1
  }

  predicate SameFrom(k: nat, x: Option<Page>, y: Option<Page>) {
    forall o: nat :: k <= o < 131072 ==> ByteOf(x, o) == ByteOf(y, o)
  }

  /**
   Every page beside the write reads like the page that comes to lie there, and what is left of the last page
   reads like the page found there by then.
   */
  ghost predicate WriteKeeps(t: Tree, offset: nat, data: seq<Byte>) {
    data == [] || PagesKeep(t, offset / 131072, EndPage(offset, |data|), Rest(offset, data))
  }

  ghost predicate PagesKeep(t: Tree, p: nat, e: nat, rest: nat)
    requires p < e
  {
    && Beside(t, p, e)
    && SameFrom(rest, PageAt(t, Origins(t, p, e - 1, e - 1)), PageAt(t, e - 1))
  }

  ghost predicate Beside(t: Tree, p: nat, e: nat) {
    forall q: nat :: !(p <= q < e) ==> SamePage(PageAt(t, Origins(t, p, e, q)), PageAt(t, q))
  }

  /** The write changes the bytes it covers, and no others. */
  ghost predicate Overlays(t: Tree, u: Tree, offset: nat, data: seq<Byte>) {
    forall a: nat :: ByteAt(u, a) == Overlay(ByteAt(t, a), offset, data, a)
  }

  /** Where an address outside the data lies that is not on a page beside the write. */
  lemma EdgeAddress(offset: nat, n: nat, a: nat)
    requires offset / 131072 <= a / 131072 < EndPage(offset, n) && !(offset <= a < offset + n)
    ensures a < offset ==> a / 131072 == offset / 131072
    ensures a >= offset ==> a / 131072 == EndPage(offset, n) - 1 && (offset + n - 1) % 131072 < a % 131072
  {
  }

  lemma BesideAddress(offset: nat, n: nat, a: nat)
    requires !(offset / 131072 <= a / 131072 < EndPage(offset, n))
    ensures !(offset <= a < offset + n)
  {
  }

  lemma KeepsOverlay(t: Tree, u: Tree, offset: nat, data: seq<Byte>, a: nat)
    requires AfterWrite(t, u, offset, data) && WriteKeeps(t, offset, data)
    ensures ByteAt(u, a) == Overlay(ByteAt(t, a), offset, data, a)
  {
    hide BundleHole, HoleAfter, PageAt, FirstHoleBundle, PageOrigin, ByteOf, EndPage;
    var p, e, q, x := offset / 131072, EndPage(offset, |data|), a / 131072, a % 131072;
    if p <= q < e {
      assert q * 131072 + x == a;
      if !(offset <= a < offset + |data|) {
        EdgeAddress(offset, |data|, a);
      }
    } else {
      BesideAddress(offset, |data|, a);
      assert SamePage(PageAt(t, Origins(t, p, e, q)), PageAt(t, q));
    }
  }

  lemma OverlayKeeps(t: Tree, u: Tree, offset: nat, data: seq<Byte>)
    requires AfterWrite(t, u, offset, data) && Overlays(t, u, offset, data)
    ensures WriteKeeps(t, offset, data)
  {
    hide BundleHole, HoleAfter, PageAt, Origins, ByteOf, EndPage, AfterWrite;
    var p, e := offset / 131072, EndPage(offset, |data|);
    forall q: nat, x: nat | !(p <= q < e) && x < 131072
      ensures ByteOf(PageAt(t, Origins(t, p, e, q)), x) == ByteOf(PageAt(t, q), x)
    {
      OverlayBeside(t, u, offset, data, q, x);
    }
    if data != [] {
      var m := e - 1;
      forall x: nat | Rest(offset, data) <= x < 131072
        ensures ByteOf(PageAt(t, Origins(t, p, m, m)), x) == ByteOf(PageAt(t, m), x)
      {
        OverlayEdge(t, u, offset, data, x);
      }
    }
  }

  lemma OverlayBeside(t: Tree, u: Tree, offset: nat, data: seq<Byte>, q: nat, x: nat)
    requires AfterWrite(t, u, offset, data) && Overlays(t, u, offset, data)
    requires !(offset / 131072 <= q < EndPage(offset, |data|)) && x < 131072
    ensures ByteOf(PageAt(t, Origins(t, offset / 131072, EndPage(offset, |data|), q)), x) == ByteOf(PageAt(t, q), x)
  {
    hide BundleHole, HoleAfter, PageAt, Origins, ByteOf, EndPage;
    var a := q * 131072 + x;
    assert a / 131072 == q && a % 131072 == x;
    BesideAddress(offset, |data|, a);
    assert ByteAt(u, a) == Overlay(ByteAt(t, a), offset, data, a);
  }

  lemma OverlayEdge(t: Tree, u: Tree, offset: nat, data: seq<Byte>, x: nat)
    requires AfterWrite(t, u, offset, data) && Overlays(t, u, offset, data) && data != []
    requires Rest(offset, data) <= x < 131072
    ensures var e := EndPage(offset, |data|);
            ByteOf(PageAt(t, Origins(t, offset / 131072, e - 1, e - 1)), x) == ByteOf(PageAt(t, e - 1), x)
  {
    var e := EndPage(offset, |data|);
    var a := (e - 1) * 131072 + x;
    assert a / 131072 == e - 1 && a % 131072 == x && a >= offset + |data|;
    hide BundleHole, HoleAfter, PageAt, Origins, ByteOf, EndPage;
    assert ByteAt(u, a) == Overlay(ByteAt(t, a), offset, data, a);
  }

  /**
   What has to hold of the file before the write.  If a bundle the write touches is missing, only zeros lie from
   the first such bundle on.  If all are there, the pages behind the write in its last bundle repeat, with the
   distance by which they move, and what is left of the last page is zero if a hole before it is filled.
   */
  ghost predicate RoomFor(t: Tree, offset: nat, data: seq<Byte>) {
    data == [] || RoomForPages(t, offset / 131072, EndPage(offset, |data|), Rest(offset, data))
  }

  ghost predicate RoomForPages(t: Tree, p: nat, e: nat, rest: nat)
    requires p < e
  {
    var last := (e - 1) / 1024;
    var hb := FirstHoleBundle(t, p / 1024, last + 1);
    if hb <= last then ZeroFrom(t, hb)
    else
      var h := FirstHolePage(t, From(p, last), e);
      && Repeats(t, h, e, 1024 * (last + 1))
      && (h < e - 1 ==> SameFrom(rest, None, PageAt(t, e - 1)))
  }

  /** Everything from bundle b on reads as zeros. */
  ghost predicate ZeroFrom(t: Tree, b: nat) {
    forall q: nat :: q >= 1024 * b ==> ZeroPage(PageAt(t, q))
  }

  /** From page e up to `end`, each page reads like the one as far before it as h is before e. */
  ghost predicate Repeats(t: Tree, h: nat, e: nat, end: nat)
    requires h <= e
  {
    forall q: nat :: e <= q < end ==> SamePage(PageAt(t, q - (e - h)), PageAt(t, q))
  }

  /** The page that is by then at the place of page m, the last written. */
  lemma LastOrigin(t: Tree, p: nat, m: nat)
    requires p <= m
    ensures var hb := FirstHoleBundle(t, p / 1024, m / 1024 + 1);
            var o := Origins(t, p, m, m);
            if hb <= m / 1024 then PageAt(t, o).None?
            else o == FirstHolePage(t, From(p, m / 1024), m)
  {
    NextIsHole(t, p, m);
    if p < m {
      NextBundle(m);
    }
  }

  /** Bundles that repeat for ever behind the end of the file are zero. */
  lemma {:induction false} RepeatedIsZero(t: Tree, hb: nat, last: nat, q: nat)
    requires hb <= last && q >= 1024 * hb
    requires forall r: nat :: r / 1024 > last ==> SamePage(PageAt(t, r - 1024 * (last + 1 - hb)), PageAt(t, r))
    ensures ZeroPage(PageAt(t, q))
    decreases if q < 1024 * |t| then 1024 * |t| - q else 0
  {
    if q < 1024 * |t| {
      var r := q + 1024 * (last + 1 - hb);
      RepeatedIsZero(t, hb, last, r);
      assert SamePage(PageAt(t, r - 1024 * (last + 1 - hb)), PageAt(t, r));
    }
  }

  lemma BesideMissing(t: Tree, p: nat, e: nat)
    requires p < e && FirstHoleBundle(t, p / 1024, (e - 1) / 1024 + 1) <= (e - 1) / 1024
    ensures Beside(t, p, e) <==> ZeroFrom(t, FirstHoleBundle(t, p / 1024, (e - 1) / 1024 + 1))
  {
    hide PageAt, Origins, ByteOf;
    var last := (e - 1) / 1024;
    var hb := FirstHoleBundle(t, p / 1024, last + 1);
    forall q: nat | !(p <= q < e) {
      OriginsMissing(t, p, e, q);
    }
    if Beside(t, p, e) {
      forall r: nat | r / 1024 > last
        ensures SamePage(PageAt(t, r - 1024 * (last + 1 - hb)), PageAt(t, r))
      {
        assert SamePage(PageAt(t, Origins(t, p, e, r)), PageAt(t, r));
      }
      forall q: nat | q >= 1024 * hb {
        RepeatedIsZero(t, hb, last, q);
      }
    }
    if ZeroFrom(t, hb) {
      forall q: nat | !(p <= q < e)
        ensures SamePage(PageAt(t, Origins(t, p, e, q)), PageAt(t, q))
      {
        if q / 1024 >= hb {
          assert ZeroPage(PageAt(t, q));
        }
      }
    }
  }

  lemma BesidePresent(t: Tree, p: nat, e: nat)
    requires p < e && FirstHoleBundle(t, p / 1024, (e - 1) / 1024 + 1) > (e - 1) / 1024
    ensures var last := (e - 1) / 1024;
            Beside(t, p, e) <==> Repeats(t, FirstHolePage(t, From(p, last), e), e, 1024 * (last + 1))
  {
    hide PageAt, Origins, SamePage;
    var last := (e - 1) / 1024;
    var h := FirstHolePage(t, From(p, last), e);
    forall q: nat | !(p <= q < e)
      ensures Origins(t, p, e, q) == if e <= q < 1024 * (last + 1) then q - (e - h) else q
    {
      OriginsPresent(t, p, e, q);
    }
    if Beside(t, p, e) {
      forall q: nat | e <= q < 1024 * (last + 1)
        ensures SamePage(PageAt(t, q - (e - h)), PageAt(t, q))
      {
        assert SamePage(PageAt(t, Origins(t, p, e, q)), PageAt(t, q));
      }
    }
    if Repeats(t, h, e, 1024 * (last + 1)) {
      forall q: nat | !(p <= q < e)
        ensures SamePage(PageAt(t, Origins(t, p, e, q)), PageAt(t, q))
      {
        ReadsLikeItself(PageAt(t, q));
      }
    }
  }

  lemma ReadsLikeItself(x: Option<Page>)
    ensures SamePage(x, x)
  {
  }

  lemma RestPresent(t: Tree, p: nat, m: nat, k: nat)
    requires p <= m && FirstHoleBundle(t, p / 1024, m / 1024 + 1) > m / 1024
    ensures SameFrom(k, PageAt(t, Origins(t, p, m, m)), PageAt(t, m)) <==>
            (FirstHolePage(t, From(p, m / 1024), m + 1) < m ==> SameFrom(k, None, PageAt(t, m)))
  {
    LastOrigin(t, p, m);
    FirstHolePageGrows(t, From(p, m / 1024), m);
    hide PageAt, Origins, FirstHolePage, FirstHoleBundle, ByteOf;
  }

  lemma KeepsIsRoom(t: Tree, p: nat, e: nat, rest: nat)
    requires p < e
    ensures PagesKeep(t, p, e, rest) <==> RoomForPages(t, p, e, rest)
  {
    hide PageAt, Origins, Beside, Repeats, FirstHoleBundle, FirstHolePage, From;
    var last := (e - 1) / 1024;
    var hb := FirstHoleBundle(t, p / 1024, last + 1);
    if hb <= last {
      BesideMissing(t, p, e);
      LastOrigin(t, p, e - 1);
      if ZeroFrom(t, hb) {
        assert ZeroPage(PageAt(t, e - 1));
      }
    } else {
      hide SameFrom;
      BesidePresent(t, p, e);
      RestPresent(t, p, e - 1, rest);
    }
  }

  /** A write of any length changes the bytes it covers and no others exactly when there is room for it. */
  lemma WriteOverlaysIff(t: Tree, offset: nat, data: seq<Byte>)
    ensures Overlays(t, WriteTree(t, offset, data), offset, data) <==> RoomFor(t, offset, data)
  {
    if data != [] {
      KeepsIsRoom(t, offset / 131072, EndPage(offset, |data|), Rest(offset, data));
    }
    hide AfterWrite, PagesKeep, ByteAt, Overlay, RoomForPages, EndPage, Rest;
    var u := WriteTree(t, offset, data);
    WriteTreeMoves(t, offset, data);
    if WriteKeeps(t, offset, data) {
      forall a: nat {
        KeepsOverlay(t, u, offset, data, a);
      }
    }
    if Overlays(t, u, offset, data) {
      OverlayKeeps(t, u, offset, data);
    }
  }

  /**
   Writing over a hole and the page stored behind it at the end of a bundle disturbs nothing, though the hole
   alone does.
   */
  lemma LastPagesOfBundle(t: Tree, data: seq<Byte>)
    requires !BundleHole(t, 0) && PageAt(t, 1022).None? && !ZeroPage(PageAt(t, 1023)) && |data| == 262144
    ensures Overlays(t, WriteTree(t, 133955584, data), 133955584, data)
    ensures !TailZero(t, 1022)
  {
    assert EndPage(133955584, 262144) == 1024;
    assert RoomFor(t, 133955584, data) by {
      hide PageAt;
      assert FirstHoleBundle(t, 0, 1) == 1;
    }
    WriteOverlaysIff(t, 133955584, data);
    assert Behind(t, 1022, 1023);
  }

  // ---------------------------------------------------------------- whole runs against the flat file

  datatype Op = Write(offset: nat, data: seq<Byte>) | Fallocate(size: nat)

  function Apply(f: File, op: Op): File {
    match op
    case Write(offset, data) => WriteFile(f, offset, data)
    case Fallocate(size) => f.(size := size)
  }

  function Run(f: File, ops: seq<Op>): File {
    if ops == [] then f else Apply(Run(f, ops[..|ops| - 1]), ops[|ops| - 1])
  }

  ghost predicate RunFits(f: File, ops: seq<Op>) {
    ops != [] ==>
      var before := Run(f, ops[..|ops| - 1]);
      && RunFits(f, ops[..|ops| - 1])
      && (ops[|ops| - 1].Write? ==> RoomFor(before.tree, ops[|ops| - 1].offset, ops[|ops| - 1].data))
  }

  /** The flat file: the last write that covers an address wins, then whatever was there to begin with. */
  function FlatByte(f: File, ops: seq<Op>, a: nat): Byte {
    if ops == [] then ByteAt(f.tree, a)
    else
      var op := ops[|ops| - 1];
      var under := FlatByte(f, ops[..|ops| - 1], a);
      if op.Write? then Overlay(under, op.offset, op.data, a) else under
  }

  /** The flat size: an allocation sets it, a non-empty write only raises it. */
  function FlatSize(f: File, ops: seq<Op>): nat {
    if ops == [] then f.size
    else
      var before := FlatSize(f, ops[..|ops| - 1]);
      match ops[|ops| - 1]
      case Fallocate(size) => size
      case Write(offset, data) =>
        if data == [] || offset + |data| <= before then before else offset + |data|
  }

  /** After any run of allocations and of writes each of which found room, the file is the flat file. */
  lemma {:induction false} RunIsFlat(f: File, ops: seq<Op>, a: nat)
    requires RunFits(f, ops)
    ensures ByteAt(Run(f, ops).tree, a) == FlatByte(f, ops, a)
    ensures Run(f, ops).size == FlatSize(f, ops)
  {
    if ops == [] {
    } else {
      var before, op := ops[..|ops| - 1], ops[|ops| - 1];
      RunIsFlat(f, before, a);
      if op.Write? {
        WriteOverlaysIff(Run(f, before).tree, op.offset, op.data);
      }
    }
  }

  /** At every point of the run the file is the flat file. */
  ghost predicate FlatThroughout(f: File, ops: seq<Op>) {
    forall k: nat, a: nat :: k <= |ops| ==> ByteAt(Run(f, ops[..k]).tree, a) == FlatByte(f, ops[..k], a)
  }

  lemma {:induction false} FlatRunFits(f: File, ops: seq<Op>)
    requires FlatThroughout(f, ops)
    ensures RunFits(f, ops)
  {
    hide ByteAt, RoomForPages, WriteTree;
    if ops == [] {
    } else {
      var before, op := ops[..|ops| - 1], ops[|ops| - 1];
      assert forall k: nat :: k <= |before| ==> before[..k] == ops[..k];
      FlatRunFits(f, before);
      if op.Write? && op.data != [] {
        var t := Run(f, before).tree;
        forall a: nat
          ensures ByteAt(WriteTree(t, op.offset, op.data), a) == Overlay(ByteAt(t, a), op.offset, op.data, a)
        {
          assert ops[..|ops|] == ops;
          assert ByteAt(Run(f, ops[..|ops|]).tree, a) == FlatByte(f, ops[..|ops|], a);
          assert ByteAt(Run(f, ops[..|before|]).tree, a) == FlatByte(f, ops[..|before|], a);
        }
        WriteOverlaysIff(t, op.offset, op.data);
      }
    }
  }

  lemma {:induction false} FitsAtEveryPoint(f: File, ops: seq<Op>, k: nat)
    requires RunFits(f, ops) && k <= |ops|
    ensures RunFits(f, ops[..k])
  {
    hide RoomFor, Run;
    if k == |ops| {
      assert ops[..k] == ops;
    } else {
      FitsAtEveryPoint(f, ops[..|ops| - 1], k);
      assert ops[..|ops| - 1][..k] == ops[..k];
    }
  }

  /** A file stays the flat file throughout a run exactly when every write of it found room. */
  lemma FlatThroughoutIff(f: File, ops: seq<Op>)
    ensures FlatThroughout(f, ops) <==> RunFits(f, ops)
  {
    hide RunFits, ByteAt, Run, FlatByte;
    if FlatThroughout(f, ops) {
      FlatRunFits(f, ops);
    }
    if RunFits(f, ops) {
      forall k: nat, a: nat | k <= |ops|
        ensures ByteAt(Run(f, ops[..k]).tree, a) == FlatByte(f, ops[..k], a)
      {
        FitsAtEveryPoint(f, ops, k);
        RunIsFlat(f, ops[..k], a);
      }
    }
  }

  /** The outcome of a read is the flat bytes clipped to the flat size, or a panic on a short first page. */
  ghost predicate IsFlatRead(f: File, ops: seq<Op>, offset: nat, size: nat, r: ReadOutcome) {
    var n := if offset < FlatSize(f, ops) then Min(size, FlatSize(f, ops) - offset) else 0;
    if n > 0 && TooShort(Run(f, ops).tree, offset) then r.Panic?
    else r.Data? && |r.bytes| == n && forall i: nat :: i < n ==> r.bytes[i] == FlatByte(f, ops, offset + i)
  }

  /** Every read after a run whose writes all found room is a flat read. */
  lemma ReadAfterRun(f: File, ops: seq<Op>, offset: nat, size: nat)
    requires RunFits(f, ops)
    ensures IsFlatRead(f, ops, offset, size, ReadFile(Run(f, ops), offset, size))
  {
    RunIsFlat(f, ops, 0);
    forall a: nat
      ensures ByteAt(Run(f, ops).tree, a) == FlatByte(f, ops, a)
    {
      RunIsFlat(f, ops, a);
    }
  }

  /** Filling a page behind which another is stored moves that other page's bytes one page up. */
  lemma BackwardWriteMovesBytes(d: Byte, e: Byte)
    ensures var t := Run(File(0, []), [Write(131072, [d]), Write(0, [e])]).tree;
            ByteAt(t, 0) == e && ByteAt(t, 131072) == 0 && ByteAt(t, 262144) == d
  {
    hide WritePage, PageAt, Patch;
    var first, both := [Write(131072, [d])], [Write(131072, [d]), Write(0, [e])];
    assert both[..1] == first && first[..0] == [];
    var t1 := WritePage([], 1, 0, [d]);
    var t2 := WritePage(t1, 0, 0, [e]);
    assert WriteTree([], 131072, [d]) == t1 by {
      assert WriteTree(t1, 131073, [d][1..]) == t1;
      assert [d][..1] == [d];
    }
    assert Run(File(0, []), first) == File(131073, t1) by {
      assert Run(File(0, []), []) == File(0, []);
    }
    assert WriteTree(t1, 0, [e]) == t2 by {
      assert WriteTree(t2, 1, [e][1..]) == t2;
      assert [e][..1] == [e];
    }
    assert Run(File(0, []), both).tree == t2;
    TwoWrites(d, e);
  }

  lemma TwoWrites(d: Byte, e: Byte)
    ensures var t := WritePage(WritePage([], 1, 0, [d]), 0, 0, [e]);
            PageAt(t, 0) == Some([e]) && PageAt(t, 1) == None && PageAt(t, 2) == Some([d])
  {
    hide WritePage;
    var t1 := WritePage([], 1, 0, [d]);
    assert Patch([], 0, [d]) == [d] && Patch([], 0, [e]) == [e];
    WritePageMoves([], 1, 0, [d], 0);
    WritePageMoves([], 1, 0, [d], 1);
    WritePageMoves(t1, 0, 0, [e], 0);
    WritePageMoves(t1, 0, 0, [e], 1);
    WritePageMoves(t1, 0, 0, [e], 2);
  }

  // ---------------------------------------------------------------- files written front to back

  /** The first n bytes are backed by pages, and nothing else is. */
  ghost predicate Packed(t: Tree, n: nat) {
    forall q: nat :: PackedAt(t, n, q)
  }

  predicate PackedAt(t: Tree, n: nat, q: nat) {
    var pg := PageAt(t, q);
    if q * 131072 >= n then pg.None? else pg.Some? && |pg.value| == Min(131072, n - q * 131072)
  }

  function Concat(parts: seq<seq<Byte>>): seq<Byte> {
    if parts == [] then [] else Concat(parts[..|parts| - 1]) + parts[|parts| - 1]
  }

  /** A new file to which the parts are appended one after the other. */
  function Appended(parts: seq<seq<Byte>>): File {
    if parts == [] then File(0, [])
    else
      var f := Appended(parts[..|parts| - 1]);
      WriteFile(f, f.size, parts[|parts| - 1])
  }

  lemma PackedRoom(t: Tree, n: nat, data: seq<Byte>)
    requires Packed(t, n)
    ensures RoomFor(t, n, data)
  {
    hide EndPage;
    forall q: nat | q > n / 131072
      ensures PageAt(t, q).None?
    {
      assert PackedAt(t, n, q);
    }
  }

  lemma PackedMoved(t: Tree, u: Tree, n: nat, chunk: seq<Byte>)
    requires Packed(t, n) && 0 < |chunk| <= 131072 - n % 131072
    requires Moved(t, u, n / 131072, n % 131072, chunk)
    ensures Packed(u, n + |chunk|)
  {
    var p, o := n / 131072, n % 131072;
    forall q: nat {:trigger PackedAt(u, n + |chunk|, q)}
      ensures PackedAt(u, n + |chunk|, q)
    {
      assert PackedAt(t, n, q);
      if q == p {
        assert |BufOf(PageAt(t, p))| == o;
      } else if Behind(t, p, q) {
        OriginOfTail(t, p, q);
        assert PackedAt(t, n, Origin(t, p, q));
        if Behind(t, p, Origin(t, p, q)) {
          OriginOfTail(t, p, Origin(t, p, q));
        }
        assert PageAt(u, q).None?;
      }
    }
  }

  lemma {:induction false} PackedWrite(t: Tree, n: nat, data: seq<Byte>)
    requires Packed(t, n)
    ensures Packed(WriteTree(t, n, data), n + |data|)
    decreases |data|
  {
    hide WritePage, PageAt, Packed, Moved;
    if data == [] {
    } else {
      var k := Min(|data|, 131072 - n % 131072);
      var u := WritePage(t, n / 131072, n % 131072, data[..k]);
      WritePageMoved(t, n / 131072, n % 131072, data[..k]);
      PackedMoved(t, u, n, data[..k]);
      PackedWrite(u, n + k, data[k..]);
      assert WriteTree(t, n, data) == WriteTree(u, n + k, data[k..]);
    }
  }

  lemma EmptyIsPacked()
    ensures Packed([], 0) && Span([], 0, 0) == []
  {
  }

  lemma AppendedBytes(t: Tree, front: seq<Byte>, last: seq<Byte>)
    requires Span(t, 0, |front|) == front && RoomFor(t, |front|, last)
    ensures Span(WriteTree(t, |front|, last), 0, |front + last|) == front + last
  {
    hide WriteTree, RoomFor, ByteAt;
    WriteOverlaysIff(t, |front|, last);
    forall a: nat | a < |front + last|
      ensures ByteAt(WriteTree(t, |front|, last), a) == (front + last)[a]
    {
      assert a < |front| ==> Span(t, 0, |front|)[a] == ByteAt(t, 0 + a);
    }
  }

  lemma {:induction false} AppendedIsPacked(parts: seq<seq<Byte>>)
    ensures Appended(parts).size == |Concat(parts)|
    ensures Packed(Appended(parts).tree, |Concat(parts)|)
    ensures Span(Appended(parts).tree, 0, |Concat(parts)|) == Concat(parts)
  {
    hide WriteTree, RoomFor, Span, Packed;
    if parts == [] {
      EmptyIsPacked();
    } else {
      var front, last := parts[..|parts| - 1], parts[|parts| - 1];
      AppendedIsPacked(front);
      var f := Appended(front);
      PackedWrite(f.tree, f.size, last);
      PackedRoom(f.tree, f.size, last);
      AppendedBytes(f.tree, Concat(front), last);
      assert last == [] ==> Concat(parts) == Concat(front);
    }
  }

  /** A file written front to back never panics and never shifts: every read is a slice of what was appended. */
  lemma AppendedRoundTrip(parts: seq<seq<Byte>>, offset: nat, size: nat)
    ensures var all := Concat(parts);
            ReadFile(Appended(parts), offset, size) ==
            Data(if offset < |all| then all[offset..offset + Min(size, |all| - offset)] else [])
  {
    hide Appended, Concat, PageAt, ByteAt;
    AppendedIsPacked(parts);
    var f, all := Appended(parts), Concat(parts);
    if offset < |all| && size > 0 {
      var p := offset / 131072;
      assert PackedAt(f.tree, |all|, p);
      var n := Min(size, |all| - offset);
      forall i | 0 <= i < n
        ensures Span(f.tree, offset, n)[i] == all[offset + i]
      {
        assert Span(f.tree, 0, |all|)[offset + i] == ByteAt(f.tree, 0 + (offset + i));
      }
      assert Span(f.tree, offset, n) == all[offset..offset + n];
    }
  }
}
