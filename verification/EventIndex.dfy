/**
The materialised index over a chain of events, and the declarative reading of the whole event log that it has to
agree with.
*/
module EventIndex {
  import opened Prelude

  type Key = nat
  type Hash = nat

  datatype Collection = Collection(parentId: Key, collectionId: nat)
  datatype Upload = Upload(complete: bool, from: nat, to: nat)

  datatype Meta =
    | Data(key: Key)
    | Tombstone(key: Key)
    | Parent(vec: Collection)
    | Timestamp(ms: nat)
    | DelayedUpload(upload: Upload)
    | Other

  /** A header: its metadata, the hash of the event and whether it carries a data hash. */
  datatype Event = Event(core: seq<Meta>, hash: Hash, hasData: bool)

  datatype Leaf = Leaf(record: Hash, created: nat, updated: nat)

  datatype Index = Index(
    roots: set<Key>,
    primary: map<Key, Leaf>,
    secondary: map<Collection, seq<Key>>,
    parents: map<Key, Collection>,
    uploads: map<nat, Upload>)

  const EMPTY := Index({}, map[], map[], map[], map[])

  // ---------------------------------------------------------------- reading one header

  function FirstTombstone(core: seq<Meta>): Option<Key> {
    if core == [] then None
    else if core[0].Tombstone? then Some(core[0].key)
    else FirstTombstone(core[1..])
  }

  /** The key an event is about: that of its first Data or Tombstone entry. */
  function DataKey(core: seq<Meta>): Option<Key> {
    if core == [] then None
    else if core[0].Data? || core[0].Tombstone? then Some(core[0].key)
    else DataKey(core[1..])
  }

  function When(core: seq<Meta>): nat {
    if core == [] then 0 else if core[0].Timestamp? then core[0].ms else When(core[1..])
  }

  predicate HasParent(core: seq<Meta>) {
    exists m :: m in core && m.Parent?
  }

  /** The key a header removes is that of its first tombstone. */
  lemma {:induction false} FirstTombstoneAt(core: seq<Meta>) returns (i: nat)
    ensures match FirstTombstone(core)
            case Some(k) => i < |core| && core[i] == Tombstone(k) && forall j: nat :: j < i ==> !core[j].Tombstone?
            case None => forall m :: m in core ==> !m.Tombstone?
  {
    i := 0;
    if core != [] && !core[0].Tombstone? {
      i := FirstTombstoneAt(core[1..]);
      assert forall j: nat :: 0 < j < |core| ==> core[j] == core[1..][j - 1];
      i := i + 1;
    }
  }

  /** The key a header is about is that of its first entry that has one. */
  lemma {:induction false} DataKeyAt(core: seq<Meta>) returns (i: nat)
    ensures match DataKey(core)
            case Some(k) =>
              && i < |core| && core[i] in {Data(k), Tombstone(k)}
              && (forall j: nat :: j < i ==> !core[j].Data? && !core[j].Tombstone?)
            case None => forall m :: m in core ==> !m.Data? && !m.Tombstone?
  {
    i := 0;
    if core != [] && !core[0].Data? && !core[0].Tombstone? {
      i := DataKeyAt(core[1..]);
      assert forall j: nat :: 0 < j < |core| ==> core[j] == core[1..][j - 1];
      i := i + 1;
    }
  }

  /** Its time is that of its first timestamp, or zero. */
  lemma {:induction false} WhenAt(core: seq<Meta>) returns (i: nat)
    ensures if exists m :: m in core && m.Timestamp?
            then i < |core| && core[i] == Timestamp(When(core)) && forall j: nat :: j < i ==> !core[j].Timestamp?
            else When(core) == 0
  {
    i := 0;
    if core != [] && !core[0].Timestamp? {
      i := WhenAt(core[1..]);
      assert forall j: nat :: 0 < j < |core| ==> core[j] == core[1..][j - 1];
      assert forall m :: m in core <==> m == core[0] || m in core[1..];
      i := i + 1;
    }
  }

  // ---------------------------------------------------------------- one step of the index

  /** `Vec::retain` with the test "is not k". */
  function Without(s: seq<Key>, k: Key): (r: seq<Key>)
    ensures forall x :: x in r <==> x in s && x != k
  {
    if s == [] then []
    else if s[0] == k then Without(s[1..], k)
    else [s[0]] + Without(s[1..], k)
  }

  function ListOf(st: Index, c: Collection): seq<Key> {
    if c in st.secondary then st.secondary[c] else []
  }

  /** Take k out of its parent, if it has one. */
  function Detach(st: Index, k: Key): Index {
    if k !in st.parents then st
    else
      var c := st.parents[k];
      st.(parents := st.parents - {k},
          secondary := if c in st.secondary then st.secondary[c := Without(st.secondary[c], k)] else st.secondary)
  }

  function Attach(st: Index, k: Key, c: Collection): Index {
    var d := Detach(st, k);
    d.(parents := d.parents[k := c],
       secondary := if k in ListOf(d, c) then d.secondary else d.secondary[c := ListOf(d, c) + [k]])
  }

  function Bury(st: Index, k: Key): Index {
    Detach(st.(roots := st.roots - {k}, primary := st.primary - {k}), k)
  }

  function Touch(st: Index, e: Event, k: Key): Index {
    var created := if k in st.primary then st.primary[k].created else When(e.core);
    st.(roots := if HasParent(e.core) then st.roots + {k} else st.roots,
        primary := st.primary[k := Leaf(e.hash, created, When(e.core))])
  }

  function ApplyMeta(st: Index, e: Event, m: Meta): Index {
    match m
    case Data(k) => if e.hasData then Touch(st, e, k) else st
    case Parent(c) => if DataKey(e.core).Some? then Attach(st, DataKey(e.core).value, c) else st
    case DelayedUpload(u) => st.(uploads := st.uploads[u.from := u])
    case _ => st
  }

  /** The first n metadata entries of an event that tombstones nothing. */
  function ApplyMetas(st: Index, e: Event, n: nat): Index
    requires n <= |e.core|
  {
    if n == 0 then st else ApplyMeta(ApplyMetas(st, e, n - 1), e, e.core[n - 1])
  }

  function Absorb(st: Index, e: Event): Index {
    match FirstTombstone(e.core)
    case Some(k) => Bury(st, k)
    case None => ApplyMetas(st, e, |e.core|)
  }

  function FeedAll(log: seq<Event>): Index {
    if log == [] then EMPTY else Absorb(FeedAll(log[..|log| - 1]), log[|log| - 1])
  }

  // ---------------------------------------------------------------- the log, read declaratively

  /** The event removes k. */
  predicate Buries(e: Event, k: Key) {
    FirstTombstone(e.core) == Some(k)
  }

  /** The event is accepted and carries data for k. */
  predicate Touches(e: Event, k: Key) {
    FirstTombstone(e.core).None? && e.hasData && Data(k) in e.core
  }

  predicate NotBuriedFrom(log: seq<Event>, k: Key, i: nat) {
    forall j :: i <= j < |log| ==> !Buries(log[j], k)
  }

  /** Event i carries data for k, and k has not been removed since. */
  predicate Counts(log: seq<Event>, k: Key, i: nat) {
    i < |log| && Touches(log[i], k) && NotBuriedFrom(log, k, i)
  }

  /** The collection the last Parent entry names. */
  function LastParent(core: seq<Meta>): Option<Collection> {
    if core == [] then None
    else if core[|core| - 1].Parent? then Some(core[|core| - 1].vec)
    else LastParent(core[..|core| - 1])
  }

  /** The event is accepted and puts k into c. */
  predicate Places(e: Event, k: Key, c: Collection) {
    FirstTombstone(e.core).None? && DataKey(e.core) == Some(k) && LastParent(e.core) == Some(c)
  }

  predicate PlacesSomewhere(e: Event, k: Key) {
    FirstTombstone(e.core).None? && DataKey(e.core) == Some(k) && LastParent(e.core).Some?
  }

  /** The position of the last event that placed k, or -1. */
  function LastPlaced(log: seq<Event>, k: Key): (i: int)
    ensures -1 <= i < |log|
    ensures i >= 0 ==> PlacesSomewhere(log[i], k)
    ensures forall j :: i < j < |log| ==> !PlacesSomewhere(log[j], k)
  {
    if log == [] then -1
    else if PlacesSomewhere(log[|log| - 1], k) then |log| - 1
    else LastPlaced(log[..|log| - 1], k)
  }

  // ---------------------------------------------------------------- primary index and roots

  /** Two indexes say the same of one key. */
  predicate SameEntry(r: Index, st: Index, k: Key) {
    && (k in r.primary <==> k in st.primary)
    && (k in st.primary ==> r.primary[k] == st.primary[k])
    && (k in r.roots <==> k in st.roots)
  }

  lemma {:induction false} ApplyMetasTouches(st: Index, e: Event, n: nat, k: Key)
    requires n <= |e.core|
    ensures var r := ApplyMetas(st, e, n);
            if e.hasData && Data(k) in e.core[..n]
            then k in r.primary && SameEntry(r, Touch(st, e, k), k)
            else SameEntry(r, st, k)
  {
    hide HasParent, When, Without, DataKey;
    if n == 0 {
    } else {
      ApplyMetasTouches(st, e, n - 1, k);
      assert e.core[..n] == e.core[..n - 1] + [e.core[n - 1]];
    }
  }

  lemma FeedTouches(st: Index, e: Event, k: Key)
    ensures var r := Absorb(st, e);
            if Buries(e, k) then k !in r.primary && k !in r.roots
            else if Touches(e, k)
            then k in r.primary && SameEntry(r, Touch(st, e, k), k)
            else SameEntry(r, st, k)
  {
    hide HasParent, When, Without, Touch, ApplyMetas;
    if FirstTombstone(e.core).None? {
      ApplyMetasTouches(st, e, |e.core|, k);
      assert e.core[..|e.core|] == e.core;
    }
  }

  lemma CountsStep(log: seq<Event>, front: seq<Event>, e: Event, k: Key)
    requires log == front + [e]
    ensures forall i: nat {:trigger Counts(log, k, i)} {:trigger Counts(front, k, i)} ::
              Counts(log, k, i) <==> !Buries(e, k) && (Counts(front, k, i) || (i == |front| && Touches(e, k)))
    ensures forall i: nat :: Counts(log, k, i) ==> i < |log|
    ensures forall i: nat :: Counts(front, k, i) ==> i < |front|
    ensures Touches(e, k) ==> Counts(log, k, |front|) && !Buries(e, k)
  {
    hide Touches;
    assert log[|front|] == e;
    forall i: nat
      ensures Counts(log, k, i) <==> !Buries(e, k) && (Counts(front, k, i) || (i == |front| && Touches(e, k)))
    {
      if i < |front| {
        assert log[i] == front[i];
        if Counts(log, k, i) {
          assert NotBuriedFrom(front, k, i) by {
            assert forall j :: i <= j < |front| ==> log[j] == front[j];
          }
        }
        if !Buries(e, k) && Counts(front, k, i) {
          assert forall j :: i <= j < |log| ==> log[j] == if j < |front| then front[j] else e;
        }
      }
    }
    assert Touches(e, k) ==> !Buries(e, k) by {
      TouchesBuriesNothing(e, k);
    }
  }

  lemma TouchesBuriesNothing(e: Event, k: Key)
    ensures Touches(e, k) ==> !Buries(e, k)
  {
  }

  ghost predicate IsFirst(log: seq<Event>, k: Key, i: nat) {
    Counts(log, k, i) && forall j: nat :: j < i ==> !Counts(log, k, j)
  }

  ghost predicate IsLast(log: seq<Event>, k: Key, i: nat) {
    Counts(log, k, i) && forall j: nat :: j > i ==> !Counts(log, k, j)
  }

  /** For every event log: a key is found exactly when an accepted data event follows its last removal. */
  lemma {:induction false} PresentIffCounted(log: seq<Event>, k: Key)
    ensures k in FeedAll(log).primary <==> exists i: nat :: Counts(log, k, i)
  {
    hide HasParent, When, Counts, Absorb, Touches, Buries;
    if log == [] {
      CountsBounded(log, k);
    } else {
      var front, e := log[..|log| - 1], log[|log| - 1];
      PresentIffCounted(front, k);
      FeedTouches(FeedAll(front), e, k);
      CountsStep(log, front, e, k);
      assert (exists i: nat :: Counts(log, k, i)) <==>
             !Buries(e, k) && (Touches(e, k) || exists i: nat :: Counts(front, k, i));
    }
  }

  lemma LastOfSome(log: seq<Event>, k: Key, i: nat) returns (l: nat)
    requires Counts(log, k, i)
    ensures IsLast(log, k, l)
    decreases |log| - i
  {
    if j: nat :| j > i && Counts(log, k, j) {
      l := LastOfSome(log, k, j);
    } else {
      l := i;
    }
  }

  /** The leaf found was created by the first of those events and describes the last. */
  lemma {:induction false} PrimaryIsLog(log: seq<Event>, k: Key, first: nat, last: nat)
    requires IsFirst(log, k, first) && IsLast(log, k, last)
    ensures k in FeedAll(log).primary
    ensures FeedAll(log).primary[k] == Leaf(log[last].hash, When(log[first].core), When(log[last].core))
    decreases |log|
  {
    hide HasParent, When, Counts, Absorb, Touches, Buries;
    CountsBounded(log, k);
    var front, e := log[..|log| - 1], log[|log| - 1];
    FeedTouches(FeedAll(front), e, k);
    PresentIffCounted(front, k);
    CountsStep(log, front, e, k);
    if Counts(front, k, first) {
      var l := LastOfSome(front, k, first);
      assert IsFirst(front, k, first);
      PrimaryIsLog(front, k, first, l);
      if Touches(e, k) {
        assert last == |front|;
      } else {
        assert last == l;
      }
    } else {
      assert first == |front| == last;
    }
  }

  lemma CountsBounded(log: seq<Event>, k: Key)
    ensures forall i: nat :: Counts(log, k, i) ==> i < |log|
  {
  }

  /** A key is among the roots exactly when a data event that also names a parent follows its last removal. */
  lemma {:induction false} RootsIsLog(log: seq<Event>, k: Key)
    ensures k in FeedAll(log).roots <==> exists i: nat :: Counts(log, k, i) && HasParent(log[i].core)
  {
    hide HasParent, When, Counts, Absorb, Touches, Buries;
    CountsBounded(log, k);
    if log == [] {
    } else {
      var front, e := log[..|log| - 1], log[|log| - 1];
      RootsIsLog(front, k);
      FeedTouches(FeedAll(front), e, k);
      CountsStep(log, front, e, k);
      assert forall i: nat :: i < |front| ==> log[i] == front[i];
    }
  }

  /** Key 1 is fed with a parent and is a root; key 2 has no parent and is none. */
  lemma RootsExample(c: Collection)
    ensures var st := FeedAll([Event([Data(1), Parent(c)], 0, true), Event([Data(2)], 0, true)]);
            && 1 in st.roots && 1 in st.parents && st.parents[1] == c
            && 2 in st.primary && 2 !in st.parents && 2 !in st.roots
  {
    var x, y := Event([Data(1), Parent(c)], 0, true), Event([Data(2)], 0, true);
    var log := [x, y];
    assert log[..1] == [x] && [x][..0] == [] && FeedAll([]) == EMPTY;
    assert FirstTombstone(x.core[1..]) == FirstTombstone(x.core[1..][1..]) == None;
    assert FirstTombstone(y.core[1..]) == None;
    assert Parent(c) in x.core;
    assert ApplyMetas(EMPTY, x, 0) == EMPTY;
    assert ApplyMetas(EMPTY, x, 1) == Touch(EMPTY, x, 1);
    assert ApplyMetas(EMPTY, x, 2) == Attach(Touch(EMPTY, x, 1), 1, c);
    var st := FeedAll([x]);
    assert st == Attach(Touch(EMPTY, x, 1), 1, c);
    assert ApplyMetas(st, y, 0) == st;
    assert FeedAll(log) == ApplyMetas(st, y, 1) == Touch(st, y, 2);
    assert !HasParent(y.core);
  }

  // ---------------------------------------------------------------- secondary index

  /** A key stands in the list of its parent and in no other. */
  ghost predicate Inverse(st: Index) {
    forall k, c :: k in ListOf(st, c) <==> k in st.parents && st.parents[k] == c
  }

  lemma {:induction false} WithoutAbsent(s: seq<Key>, k: Key)
    requires k !in s
    ensures Without(s, k) == s
  {
    if s == [] {
    } else {
      WithoutAbsent(s[1..], k);
    }
  }

  lemma {:induction false} WithoutJoins(s: seq<Key>, t: seq<Key>, k: Key)
    ensures Without(s + t, k) == Without(s, k) + Without(t, k)
  {
    if s == [] {
      assert s + t == t;
    } else {
      WithoutJoins(s[1..], t, k);
      assert (s + t)[0] == s[0] && (s + t)[1..] == s[1..] + t;
    }
  }

  lemma WithoutTwice(s: seq<Key>, k: Key, t: seq<Key>)
    requires t == [] || t == [k]
    ensures Without(Without(s, k) + t, k) == Without(s, k)
  {
    hide Without;
    WithoutJoins(Without(s, k), t, k);
    WithoutAbsent(Without(s, k), k);
    assert Without(t, k) == [] by {
      WithoutOnly(t, k);
    }
  }

  lemma WithoutOnly(t: seq<Key>, k: Key)
    requires t == [] || t == [k]
    ensures Without(t, k) == []
  {
  }

  lemma DetachLists(st: Index, k: Key, c: Collection)
    requires Inverse(st)
    ensures ListOf(Detach(st, k), c) == Without(ListOf(st, c), k)
    ensures Detach(st, k).parents == st.parents - {k}
  {
    if k !in st.parents || st.parents[k] != c {
      WithoutAbsent(ListOf(st, c), k);
    }
    if k !in st.parents {
      assert st.parents - {k} == st.parents;
    }
  }

  lemma AttachLists(st: Index, k: Key, c: Collection, x: Collection)
    requires Inverse(st)
    ensures ListOf(Attach(st, k, c), x) == Without(ListOf(st, x), k) + if x == c then [k] else []
    ensures Attach(st, k, c).parents == st.parents[k := c]
  {
    hide Without, Detach;
    DetachLists(st, k, x);
    DetachLists(st, k, c);
    assert (st.parents - {k})[k := c] == st.parents[k := c];
  }

  lemma AttachInverse(st: Index, k: Key, c: Collection)
    requires Inverse(st)
    ensures Inverse(Attach(st, k, c))
  {
    hide Without, Attach, ListOf;
    forall x, y
      ensures x in ListOf(Attach(st, k, c), y) <==>
              x in Attach(st, k, c).parents && Attach(st, k, c).parents[x] == y
    {
      AttachLists(st, k, c, y);
      assert x in ListOf(st, y) <==> x in st.parents && st.parents[x] == y;
    }
  }

  lemma BuryInverse(st: Index, k: Key)
    requires Inverse(st)
    ensures Inverse(Bury(st, k))
    ensures forall x :: ListOf(Bury(st, k), x) == Without(ListOf(st, x), k)
    ensures Bury(st, k).parents == st.parents - {k}
  {
    hide Without, Detach, ListOf, Inverse;
    var m := st.(roots := st.roots - {k}, primary := st.primary - {k});
    forall x
      ensures ListOf(Bury(st, k), x) == Without(ListOf(st, x), k)
    {
      SameLists(st, m, x);
      DetachLists(m, k, x);
    }
    SameLists(st, m, Collection(0, 0));
    DetachLists(m, k, Collection(0, 0));
    ShrinkInverse(st, Bury(st, k), k);
  }

  lemma ShrinkInverse(st: Index, r: Index, k: Key)
    requires Inverse(st)
    requires forall x :: ListOf(r, x) == Without(ListOf(st, x), k)
    requires r.parents == st.parents - {k}
    ensures Inverse(r)
  {
    hide Without, ListOf;
    forall x, y
      ensures x in ListOf(r, y) <==> x in r.parents && r.parents[x] == y
    {
      assert x in ListOf(st, y) <==> x in st.parents && st.parents[x] == y;
    }
  }

  /** k has moved to the end of the list of c, and out of every other. */
  predicate Moved(r: Index, st: Index, k: Key, c: Collection, x: Collection) {
    && ListOf(r, x) == Without(ListOf(st, x), k) + (if x == c then [k] else [])
    && r.parents == st.parents[k := c]
  }

  lemma MovedTwice(r: Index, mid: Index, st: Index, k: Key, b: Collection, c: Collection, x: Collection)
    requires Moved(mid, st, k, b, x) && Moved(r, mid, k, c, x)
    ensures Moved(r, st, k, c, x)
  {
    hide Without, ListOf;
    WithoutTwice(ListOf(st, x), k, if x == b then [k] else []);
  }

  lemma {:induction false} ApplyMetasPlaces(st: Index, e: Event, n: nat, x: Collection)
    requires n <= |e.core| && Inverse(st)
    ensures var r, at := ApplyMetas(st, e, n), LastParent(e.core[..n]);
            && Inverse(r)
            && if DataKey(e.core).Some? && at.Some? then Moved(r, st, DataKey(e.core).value, at.value, x)
               else ListOf(r, x) == ListOf(st, x) && r.parents == st.parents
  {
    hide Without, DataKey, Attach, Inverse, ListOf, Touch, Moved;
    if n == 0 {
    } else {
      ApplyMetasPlaces(st, e, n - 1, x);
      var before, m := ApplyMetas(st, e, n - 1), e.core[n - 1];
      assert e.core[..n][..n - 1] == e.core[..n - 1];
      if m.Parent? && DataKey(e.core).Some? {
        var k, was := DataKey(e.core).value, LastParent(e.core[..n - 1]);
        AttachInverse(before, k, m.vec);
        AttachMoves(before, k, m.vec, x);
        if was.Some? {
          MovedTwice(Attach(before, k, m.vec), before, st, k, was.value, m.vec, x);
        } else {
          MovedFrom(Attach(before, k, m.vec), before, st, k, m.vec, x);
        }
      } else {
        KeepsLists(before, e, m);
        SameLists(before, ApplyMeta(before, e, m), x);
        MovedStill(ApplyMeta(before, e, m), before, st, x);
      }
    }
  }

  lemma MovedStill(r: Index, mid: Index, st: Index, x: Collection)
    requires ListOf(r, x) == ListOf(mid, x) && r.parents == mid.parents
    ensures forall k, c :: Moved(mid, st, k, c, x) ==> Moved(r, st, k, c, x)
  {
    hide Without, ListOf;
  }

  lemma AttachMoves(st: Index, k: Key, c: Collection, x: Collection)
    requires Inverse(st)
    ensures Moved(Attach(st, k, c), st, k, c, x)
  {
    hide Without, Attach, Inverse, ListOf;
    AttachLists(st, k, c, x);
  }

  lemma MovedFrom(r: Index, mid: Index, st: Index, k: Key, c: Collection, x: Collection)
    requires Moved(r, mid, k, c, x) && ListOf(mid, x) == ListOf(st, x) && mid.parents == st.parents
    ensures Moved(r, st, k, c, x)
  {
    hide Without, ListOf;
  }

  lemma KeepsLists(st: Index, e: Event, m: Meta)
    requires !(m.Parent? && DataKey(e.core).Some?)
    ensures ApplyMeta(st, e, m).secondary == st.secondary && ApplyMeta(st, e, m).parents == st.parents
  {
    hide DataKey, Attach, When, HasParent;
  }

  lemma SameLists(st: Index, r: Index, x: Collection)
    requires st.secondary == r.secondary && st.parents == r.parents
    ensures Inverse(st) <==> Inverse(r)
    ensures ListOf(st, x) == ListOf(r, x)
  {
    assert forall c :: ListOf(st, c) == ListOf(r, c);
  }

  /** What one event does to every list and to the parents. */
  lemma FeedPlaces(st: Index, e: Event, x: Collection)
    requires Inverse(st)
    ensures var r := Absorb(st, e);
            && Inverse(r)
            && (forall k :: Buries(e, k) ==> ListOf(r, x) == Without(ListOf(st, x), k) && r.parents == st.parents - {k})
            && (forall k, c :: Places(e, k, c) ==> Moved(r, st, k, c, x))
            && ((forall k :: !Buries(e, k) && !PlacesSomewhere(e, k)) ==>
                ListOf(r, x) == ListOf(st, x) && r.parents == st.parents)
  {
    hide Without, Attach, Inverse, ListOf, Touch, ApplyMetas, Bury;
    match FirstTombstone(e.core)
    case Some(k) =>
      BuryInverse(st, k);
      assert Buries(e, k);
    case None =>
      ApplyMetasPlaces(st, e, |e.core|, x);
      assert e.core[..|e.core|] == e.core;
      if DataKey(e.core).Some? && LastParent(e.core).Some? {
        assert PlacesSomewhere(e, DataKey(e.core).value);
      }
  }

  /** The position of the event that last placed a key, as a ranking of keys. */
  function Rank(log: seq<Event>): Key -> int {
    (k: Key) => LastPlaced(log, k)
  }

  /** The keys stand in the order of their ranks, each once. */
  predicate Ranked(s: seq<Key>, rank: Key -> int) {
    forall i, j :: 0 <= i < j < |s| ==> rank(s[i]) < rank(s[j])
  }

  lemma RankedCons(x: Key, t: seq<Key>, rank: Key -> int)
    ensures Ranked([x] + t, rank) <==> Ranked(t, rank) && forall y :: y in t ==> rank(x) < rank(y)
  {
    var s := [x] + t;
    assert forall i :: 0 < i < |s| ==> s[i] == t[i - 1];
    if Ranked(s, rank) {
      forall i, j | 0 <= i < j < |t|
        ensures rank(t[i]) < rank(t[j])
      {
        assert s[i + 1] == t[i] && s[j + 1] == t[j];
      }
      forall y | y in t
        ensures rank(x) < rank(y)
      {
        var j :| 0 <= j < |t| && t[j] == y;
        assert s[0] == x && s[j + 1] == y;
      }
    }
  }

  lemma {:induction false} WithoutRanked(s: seq<Key>, k: Key, rank: Key -> int)
    requires Ranked(s, rank)
    ensures Ranked(Without(s, k), rank)
  {
    hide Ranked;
    if s == [] {
    } else {
      assert s == [s[0]] + s[1..];
      RankedCons(s[0], s[1..], rank);
      WithoutRanked(s[1..], k, rank);
      RankedCons(s[0], Without(s[1..], k), rank);
    }
  }

  /** A key placed after all others goes last. */
  lemma RankedSnoc(s: seq<Key>, k: Key, rank: Key -> int)
    requires Ranked(s, rank) && forall x :: x in s ==> rank(x) < rank(k)
    ensures Ranked(s + [k], rank)
  {
  }

  lemma RanksAfter(log: seq<Event>, front: seq<Event>, e: Event, x: Key)
    requires log == front + [e]
    ensures LastPlaced(log, x) == if PlacesSomewhere(e, x) then |front| else LastPlaced(front, x)
  {
    hide PlacesSomewhere;
    assert log[..|log| - 1] == front;
  }

  lemma RankedGrows(s: seq<Key>, log: seq<Event>, front: seq<Event>, e: Event)
    requires log == front + [e] && Ranked(s, Rank(front))
    requires forall x :: x in s ==> !PlacesSomewhere(e, x)
    ensures Ranked(s, Rank(log))
  {
    hide PlacesSomewhere, LastPlaced;
    forall x | x in s
      ensures Rank(log)(x) == Rank(front)(x)
    {
      RanksAfter(log, front, e, x);
    }
  }

  /**
   For every event log and every collection: the secondary index lists exactly the keys whose parent it is, each
   once, in the order of the events that last placed them.
   */
  lemma {:induction false} SecondaryIsLog(log: seq<Event>, c: Collection)
    ensures Inverse(FeedAll(log))
    ensures Ranked(ListOf(FeedAll(log), c), Rank(log))
  {
    hide Inverse, Absorb, Without, LastPlaced, Ranked, Buries, PlacesSomewhere, Places;
    if log == [] {
      assert ListOf(EMPTY, c) == [];
      EmptyIndex();
    } else {
      var front, e := log[..|log| - 1], log[|log| - 1];
      var st := FeedAll(front);
      SecondaryIsLog(front, c);
      FeedPlaces(st, e, c);
      if k :| Buries(e, k) {
        WithoutRanked(ListOf(st, c), k, Rank(front));
        BuriesPlacesNothing(e, k);
        RankedGrows(ListOf(FeedAll(log), c), log, front, e);
      } else if k :| PlacesSomewhere(e, k) {
        PlacedSecondary(log, front, e, k, ListOf(st, c));
        assert ListOf(FeedAll(log), c) == Without(ListOf(st, c), k) ||
               ListOf(FeedAll(log), c) == Without(ListOf(st, c), k) + [k];
      } else {
        RankedGrows(ListOf(st, c), log, front, e);
      }
    }
  }

  lemma PlacedSecondary(log: seq<Event>, front: seq<Event>, e: Event, k: Key, s: seq<Key>)
    requires log == front + [e] && Ranked(s, Rank(front)) && PlacesSomewhere(e, k)
    ensures LastParent(e.core).Some? && Places(e, k, LastParent(e.core).value)
    ensures Ranked(Without(s, k), Rank(log)) && Ranked(Without(s, k) + [k], Rank(log))
    ensures Without(s, k) + [] == Without(s, k)
  {
    hide Without, LastPlaced, Ranked;
    var t := Without(s, k);
    WithoutRanked(s, k, Rank(front));
    OnlyOnePlaced(e, k);
    RankedGrows(t, log, front, e);
    forall x | x in t
      ensures Rank(log)(x) < Rank(log)(k)
    {
      RanksAfter(log, front, e, x);
      RanksAfter(log, front, e, k);
    }
    RankedSnoc(t, k, Rank(log));
  }

  lemma OnlyOnePlaced(e: Event, k: Key)
    requires PlacesSomewhere(e, k)
    ensures forall x :: PlacesSomewhere(e, x) ==> x == k
  {
  }

  lemma BuriesPlacesNothing(e: Event, k: Key)
    requires Buries(e, k)
    ensures forall x :: !PlacesSomewhere(e, x)
  {
  }

  lemma EmptyIndex()
    ensures Inverse(EMPTY)
    ensures forall rank :: Ranked([], rank)
  {
    assert forall c :: ListOf(EMPTY, c) == [];
  }

  lemma ParentStep(st: Index, e: Event, k: Key)
    requires Inverse(st)
    ensures var r := Absorb(st, e);
            if Buries(e, k) then k !in r.parents
            else if PlacesSomewhere(e, k) then k in r.parents && r.parents[k] == LastParent(e.core).value
            else (k in r.parents <==> k in st.parents) && (k in st.parents ==> r.parents[k] == st.parents[k])
  {
    hide Inverse, Absorb, Without, ListOf;
    FeedPlaces(st, e, Collection(0, 0));
    if x :| Buries(e, x) {
      BuriesPlacesNothing(e, x);
    } else if x :| PlacesSomewhere(e, x) {
      assert Places(e, x, LastParent(e.core).value);
    }
  }

  lemma NotBuriedStep(log: seq<Event>, front: seq<Event>, e: Event, k: Key, i: nat)
    requires log == front + [e] && i <= |front|
    ensures NotBuriedFrom(log, k, i) <==> NotBuriedFrom(front, k, i) && !Buries(e, k)
  {
    hide Buries;
    assert log[|front|] == e;
    if NotBuriedFrom(log, k, i) {
      assert forall j :: i <= j < |front| ==> log[j] == front[j];
    }
  }

  /** For every event log: the parent of a key is where it was last placed, if it has not been removed since. */
  lemma {:induction false} ParentsIsLog(log: seq<Event>, k: Key)
    ensures var i := LastPlaced(log, k);
            if i >= 0 && NotBuriedFrom(log, k, i)
            then k in FeedAll(log).parents && FeedAll(log).parents[k] == LastParent(log[i].core).value
            else k !in FeedAll(log).parents
  {
    hide Inverse, Absorb, NotBuriedFrom, Buries, LastParent, FeedAll, LastPlaced, PlacesSomewhere;
    if log == [] {
      NoParents(k);
    } else {
      var front, e := log[..|log| - 1], log[|log| - 1];
      assert log == front + [e];
      FeedStep(front, e);
      ParentsIsLog(front, k);
      SecondaryIsLog(front, Collection(0, 0));
      ParentStep(FeedAll(front), e, k);
      RanksAfter(log, front, e, k);
      var i := LastPlaced(log, k);
      if i >= 0 {
        NotBuriedStep(log, front, e, k, i);
      }
      if PlacesSomewhere(e, k) {
        PlacesBuriesNothing(front, e, k);
      }
    }
  }

  lemma NoParents(k: Key)
    ensures k !in FeedAll([]).parents && LastPlaced([], k) == -1
  {
  }

  lemma FeedStep(front: seq<Event>, e: Event)
    ensures FeedAll(front + [e]) == Absorb(FeedAll(front), e)
  {
    hide Absorb;
    assert (front + [e])[..|front|] == front;
  }

  lemma PlacesBuriesNothing(front: seq<Event>, e: Event, k: Key)
    requires PlacesSomewhere(e, k)
    ensures !Buries(e, k) && NotBuriedFrom(front, k, |front|)
  {
  }

  // ---------------------------------------------------------------- delayed uploads

  /** The last upload from this point among the metadata. */
  function UploadIn(core: seq<Meta>, from: nat): Option<Upload> {
    if core == [] then None
    else
      var m := core[|core| - 1];
      if m.DelayedUpload? && m.upload.from == from then Some(m.upload) else UploadIn(core[..|core| - 1], from)
  }

  /** The last upload from this point in an event that removes nothing. */
  function LastUpload(log: seq<Event>, from: nat): Option<Upload> {
    if log == [] then None
    else
      var e := log[|log| - 1];
      var here := UploadIn(e.core, from);
      if FirstTombstone(e.core).None? && here.Some? then here else LastUpload(log[..|log| - 1], from)
  }

  lemma {:induction false} ApplyMetasUploads(st: Index, e: Event, n: nat, from: nat)
    requires n <= |e.core|
    ensures var r, here := ApplyMetas(st, e, n).uploads, UploadIn(e.core[..n], from);
            if here.Some? then from in r && r[from] == here.value
            else (from in r <==> from in st.uploads) && (from in r ==> r[from] == st.uploads[from])
  {
    hide Attach, Touch, DataKey;
    if n == 0 {
    } else {
      ApplyMetasUploads(st, e, n - 1, from);
      assert e.core[..n][..n - 1] == e.core[..n - 1];
      KeepsUploads(ApplyMetas(st, e, n - 1), e, e.core[n - 1]);
    }
  }

  lemma KeepsUploads(st: Index, e: Event, m: Meta)
    ensures ApplyMeta(st, e, m).uploads ==
            if m.DelayedUpload? then st.uploads[m.upload.from := m.upload] else st.uploads
  {
    hide Without, DataKey, When, HasParent, ListOf;
  }

  /** The delayed upload known for a point is the last one any event gave that removed nothing. */
  lemma {:induction false} UploadsIsLog(log: seq<Event>, from: nat)
    ensures var uploads := FeedAll(log).uploads;
            match LastUpload(log, from)
            case None => from !in uploads
            case Some(u) => from in uploads && uploads[from] == u
  {
    hide UploadIn, ApplyMetas;
    if log == [] {
    } else {
      var front, e := log[..|log| - 1], log[|log| - 1];
      UploadsIsLog(front, from);
      ApplyMetasUploads(FeedAll(front), e, |e.core|, from);
      assert e.core[..|e.core|] == e.core;
    }
  }

  // ---------------------------------------------------------------- looking up a collection

  /** The keys that have data. */
  function Present(st: Index, keys: seq<Key>): (r: seq<Key>)
    ensures forall k :: k in r <==> k in keys && k in st.primary
  {
    if keys == [] then []
    else if keys[0] in st.primary then [keys[0]] + Present(st, keys[1..])
    else Present(st, keys[1..])
  }

  function Leaves(st: Index, keys: seq<Key>): (r: seq<Leaf>)
    ensures |r| == |Present(st, keys)|
  {
    if keys == [] then []
    else if keys[0] in st.primary then [st.primary[keys[0]]] + Leaves(st, keys[1..])
    else Leaves(st, keys[1..])
  }

  /** The leaves of a collection; a child without data is passed over. */
  function LookupSecondary(st: Index, c: Collection): Option<seq<Leaf>> {
    if c in st.secondary then Some(Leaves(st, st.secondary[c])) else None
  }

  lemma {:induction false} PresentRanked(st: Index, keys: seq<Key>, rank: Key -> int)
    requires Ranked(keys, rank)
    ensures Ranked(Present(st, keys), rank)
  {
    hide Ranked;
    if keys == [] {
      EmptyRanked(rank);
    } else {
      assert keys == [keys[0]] + keys[1..];
      RankedCons(keys[0], keys[1..], rank);
      PresentRanked(st, keys[1..], rank);
      RankedCons(keys[0], Present(st, keys[1..]), rank);
    }
  }

  lemma {:induction false} LeafAt(st: Index, keys: seq<Key>, i: nat)
    requires i < |Present(st, keys)|
    ensures Present(st, keys)[i] in st.primary && Leaves(st, keys)[i] == st.primary[Present(st, keys)[i]]
  {
    if keys[0] !in st.primary {
      LeafAt(st, keys[1..], i);
    } else if i > 0 {
      LeafAt(st, keys[1..], i - 1);
    }
  }

  lemma EmptyRanked(rank: Key -> int)
    ensures Ranked([], rank)
  {
  }

  /** The last event that placed k put it into c, and no tombstone came since. */
  predicate PlacedIn(log: seq<Event>, k: Key, c: Collection) {
    var i := LastPlaced(log, k);
    i >= 0 && NotBuriedFrom(log, k, i) && LastParent(log[i].core) == Some(c)
  }

  /**
   Looking up a collection gives the leaves of exactly the keys that have data and were last placed in it, each
   once, in the order in which they were placed.
   */
  lemma LookupSecondaryIsLog(log: seq<Event>, c: Collection) returns (keys: seq<Key>)
    ensures forall k :: k in keys <==> PlacedIn(log, k, c) && exists i: nat :: Counts(log, k, i)
    ensures Ranked(keys, Rank(log))
    ensures var st := FeedAll(log);
            match LookupSecondary(st, c)
            case None => keys == []
            case Some(leaves) =>
              |leaves| == |keys| &&
              forall i :: 0 <= i < |keys| ==> keys[i] in st.primary && leaves[i] == st.primary[keys[i]]
  {
    hide Ranked, FeedAll, Counts, LastPlaced, Present, Leaves, NotBuriedFrom;
    var st := FeedAll(log);
    keys := Present(st, ListOf(st, c));
    SecondaryIsLog(log, c);
    PresentRanked(st, ListOf(st, c), Rank(log));
    forall i: nat | i < |keys|
      ensures keys[i] in st.primary && Leaves(st, ListOf(st, c))[i] == st.primary[keys[i]]
    {
      LeafAt(st, ListOf(st, c), i);
    }
    assert keys != [] ==> keys[0] in ListOf(st, c);
    forall k
      ensures k in keys <==> PlacedIn(log, k, c) && exists i: nat :: Counts(log, k, i)
    {
      ParentsIsLog(log, k);
      PresentIffCounted(log, k);
    }
  }

  // ---------------------------------------------------------------- the indexer

  class BinaryTreeIndexer {
    var roots: set<Key>
    var primary: map<Key, Leaf>
    var secondary: map<Collection, seq<Key>>
    var parents: map<Key, Collection>
    var uploads: map<nat, Upload>

    constructor ()
      ensures State() == EMPTY
    {
      roots, primary, secondary, parents, uploads := {}, map[], map[], map[], map[];
    }

    function State(): Index
      reads this
    {
      Index(roots, primary, secondary, parents, uploads)
    }

    /** Take k out of the list of its parent, if it has one. */
    method RemoveParent(k: Key)
      modifies this`parents, this`secondary
      ensures State() == Detach(old(State()), k)
    {
      if k in parents {
        var c := parents[k];
        parents := parents - {k};
        if c in secondary {
          secondary := secondary[c := Without(secondary[c], k)];
        }
      }
    }

    method FeedData(e: Event, k: Key)
      modifies this`roots, this`primary
      ensures State() == Touch(old(State()), e, k)
    {
      if HasParent(e.core) {
        roots := roots + {k};
      }
      var now := When(e.core);
      var leaf := if k in primary then primary[k] else Leaf(0, now, 0);
      leaf := leaf.(record := e.hash);
      leaf := leaf.(updated := now);
      primary := primary[k := leaf];
    }

    method FeedParent(k: Key, c: Collection)
      modifies this`parents, this`secondary
      ensures State() == Attach(old(State()), k, c)
    {
      RemoveParent(k);
      parents := parents[k := c];
      var present := c in secondary && k in secondary[c];
      if !present {
        secondary := secondary[c := (if c in secondary then secondary[c] else []) + [k]];
      }
    }

    /** Take in one event header. */
    method Feed(e: Event)
      modifies this
      ensures State() == Absorb(old(State()), e)
    {
      hide Touch, Attach, Detach;
      for i := 0 to |e.core|
        invariant State() == old(State())
        invariant FirstTombstone(e.core) == FirstTombstone(e.core[i..])
      {
        if e.core[i].Tombstone? {
          var k := e.core[i].key;
          roots := roots - {k};
          primary := primary - {k};
          RemoveParent(k);
          return;
        }
      }
      for i := 0 to |e.core|
        invariant State() == ApplyMetas(old(State()), e, i)
      {
        match e.core[i] {
          case Data(k) =>
            if e.hasData {
              FeedData(e, k);
            }
          case Parent(c) =>
            var key := DataKey(e.core);
            if key.Some? {
              FeedParent(key.value, c);
            }
          case DelayedUpload(u) =>
            uploads := uploads[u.from := u];
          case _ =>
        }
      }
    }
  }

  /** Index a whole log, event by event. */
  method IndexLog(log: seq<Event>) returns (st: Index)
    ensures st == FeedAll(log)
  {
    hide Absorb;
    var index := new BinaryTreeIndexer();
    for i := 0 to |log|
      invariant index.State() == FeedAll(log[..i])
    {
      assert log[..i + 1][..i] == log[..i];
      index.Feed(log[i]);
    }
    assert log[..|log|] == log;
    st := index.State();
  }
}
