/**
The signature plugin: a sink that verifies signatures and remembers who signed what, a linter that signs
outgoing events, and the conversation that lets both skip keys already proven.  Cryptography is a value of type
Crypto, so every theorem holds for every scheme.
*/
module Signing {
  import opened Prelude

  type Hash = nat
  type PublicKey = nat
  type PrivateKey = nat
  type Signature = nat

  datatype Crypto = Crypto(
    hashOf: PublicKey -> Hash,
    secretHash: PrivateKey -> Hash,
    publicOf: PrivateKey -> PublicKey,
    digest: seq<Hash> -> Hash,
    sign: (PrivateKey, Hash) -> Option<Signature>,
    verify: (PublicKey, Hash, Signature) -> bool)

  /** Signatures verify under the matching public key, and both halves of a key pair hash alike. */
  ghost predicate Correct(c: Crypto) {
    && (forall sk :: c.hashOf(c.publicOf(sk)) == c.secretHash(sk))
    && (forall sk, h :: c.sign(sk, h).Some? ==> c.verify(c.publicOf(sk), h, c.sign(sk, h).value))
  }

  datatype TrustMode = Distributed | Server | Client

  predicate Centralized(mode: TrustMode) {
    mode != Distributed
  }

  datatype MetaSignature = MetaSignature(hashes: seq<Hash>, signature: Signature, keyHash: Hash)

  datatype Meta = KeyMeta(pk: PublicKey) | SigMeta(sig: MetaSignature) | OtherMeta

  type Keys = map<Hash, PublicKey>

  /** For each hash, the key hashes recorded as having signed it. */
  type Sigs = map<Hash, seq<Hash>>

  datatype FeedResult = Accepted | MissingPublicKey(key: Hash) | InvalidSignature(key: Hash)

  datatype Conversation = Conversation(id: Option<Hash>, proven: set<Hash>)

  // ---------------------------------------------------------------- the sink

  function Learn(c: Crypto, pk: Keys, metas: seq<Meta>): Keys {
    if metas == [] then pk
    else
      var before, last := Learn(c, pk, metas[..|metas| - 1]), metas[|metas| - 1];
      if last.KeyMeta? then before[c.hashOf(last.pk) := last.pk] else before
  }

  /** Verdict on one signature; a client takes the server's word for it. */
  function Check(c: Crypto, mode: TrustMode, pk: Keys, sig: MetaSignature): FeedResult {
    if mode == Client then Accepted
    else if sig.keyHash !in pk then MissingPublicKey(sig.keyHash)
    else if c.verify(pk[sig.keyHash], c.digest(sig.hashes), sig.signature) then Accepted
    else InvalidSignature(sig.keyHash)
  }

  function Signers(sigs: Sigs, h: Hash): seq<Hash> {
    if h in sigs then sigs[h] else []
  }

  function Record(sigs: Sigs, hashes: seq<Hash>, key: Hash): Sigs {
    if hashes == [] then sigs
    else
      var before, h := Record(sigs, hashes[..|hashes| - 1], key), hashes[|hashes| - 1];
      before[h := Signers(before, h) + [key]]
  }

  /** The conversation after a signature was recorded in it. */
  function Prove(mode: TrustMode, conv: Option<Conversation>, sig: MetaSignature): Option<Conversation> {
    if Centralized(mode) && conv.Some? && conv.value.id.Some? && conv.value.id.value in sig.hashes
    then Some(conv.value.(proven := conv.value.proven + {sig.keyHash}))
    else conv
  }

  datatype Progress = Progress(sigs: Sigs, conv: Option<Conversation>, result: FeedResult)

  /** The signatures among the metadata, in order, up to and excluding the first that fails. */
  function Absorb(c: Crypto, mode: TrustMode, pk: Keys, sigs: Sigs, conv: Option<Conversation>,
                  metas: seq<Meta>): Progress {
    if metas == [] then Progress(sigs, conv, Accepted)
    else
      var p, m := Absorb(c, mode, pk, sigs, conv, metas[..|metas| - 1]), metas[|metas| - 1];
      if p.result != Accepted || !m.SigMeta? then p
      else
        var verdict := Check(c, mode, pk, m.sig);
        if verdict != Accepted then p.(result := verdict)
        else Progress(Record(p.sigs, m.sig.hashes, m.sig.keyHash), Prove(mode, p.conv, m.sig), Accepted)
  }

  // ---------------------------------------------------------------- soundness over runs

  /** A feed of metadata in some conversation, or a reset. */
  datatype Input = Feeding(metas: seq<Meta>) | Reset

  datatype Plugin = Plugin(pk: Keys, sigs: Sigs)

  function Step(c: Crypto, mode: TrustMode, st: Plugin, input: Input): Plugin {
    match input
    case Reset => Plugin(map[], map[])
    case Feeding(metas) =>
      var pk := Learn(c, st.pk, metas);
      Plugin(pk, Absorb(c, mode, pk, st.sigs, None, metas).sigs)
  }

  function Run(c: Crypto, mode: TrustMode, inputs: seq<Input>): Plugin {
    if inputs == [] then Plugin(map[], map[])
    else Step(c, mode, Run(c, mode, inputs[..|inputs| - 1]), inputs[|inputs| - 1])
  }

  /** What the plugin records about signatures does not depend on the conversation. */
  lemma {:induction false} ConversationIrrelevant(c: Crypto, mode: TrustMode, pk: Keys, sigs: Sigs,
                                                  conv: Option<Conversation>, metas: seq<Meta>)
    ensures Absorb(c, mode, pk, sigs, conv, metas).sigs == Absorb(c, mode, pk, sigs, None, metas).sigs
    ensures Absorb(c, mode, pk, sigs, conv, metas).result == Absorb(c, mode, pk, sigs, None, metas).result
  {
    if metas == [] {
    } else {
      ConversationIrrelevant(c, mode, pk, sigs, conv, metas[..|metas| - 1]);
    }
  }

  /** The public keys known once input i has delivered its own. */
  function KeysAt(c: Crypto, mode: TrustMode, inputs: seq<Input>, i: nat): Keys
    requires i < |inputs|
  {
    Run(c, mode, inputs[..i + 1]).pk
  }

  /** Entry j is a signature that passes, and so does every signature before it. */
  predicate Passes(c: Crypto, mode: TrustMode, pk: Keys, metas: seq<Meta>, j: nat) {
    j < |metas| && metas[j].SigMeta? && AllPass(c, mode, pk, metas, j + 1)
  }

  predicate AllPass(c: Crypto, mode: TrustMode, pk: Keys, metas: seq<Meta>, n: nat) {
    forall i :: 0 <= i < n && i < |metas| && metas[i].SigMeta? ==> Check(c, mode, pk, metas[i].sig) == Accepted
  }

  predicate Covers(m: Meta, h: Hash, key: Hash) {
    m.SigMeta? && h in m.sig.hashes && m.sig.keyHash == key
  }

  /** Input i was not wiped by a later reset, and its entry j passes and covers h under the key. */
  predicate Witness(c: Crypto, mode: TrustMode, inputs: seq<Input>, h: Hash, key: Hash, i: nat, j: nat) {
    && i < |inputs| && inputs[i].Feeding?
    && (forall r :: i <= r < |inputs| ==> !inputs[r].Reset?)
    && j < |inputs[i].metas| && Covers(inputs[i].metas[j], h, key)
    && Passes(c, mode, KeysAt(c, mode, inputs, i), inputs[i].metas, j)
  }

  lemma {:induction false} RecordMembers(sigs: Sigs, hashes: seq<Hash>, key: Hash, h: Hash, k: Hash)
    ensures k in Signers(Record(sigs, hashes, key), h) <==> k in Signers(sigs, h) || (h in hashes && k == key)
  {
    if hashes == [] {
    } else {
      RecordMembers(sigs, hashes[..|hashes| - 1], key, h, k);
      assert hashes == hashes[..|hashes| - 1] + [hashes[|hashes| - 1]];
    }
  }

  lemma {:induction false} AbsorbMembers(c: Crypto, mode: TrustMode, pk: Keys, sigs: Sigs, metas: seq<Meta>, h: Hash,
                                         k: Hash)
    ensures var p := Absorb(c, mode, pk, sigs, None, metas);
            && (p.result == Accepted <==> AllPass(c, mode, pk, metas, |metas|))
            && (k in Signers(p.sigs, h) <==>
                  k in Signers(sigs, h) || exists j: nat :: Passes(c, mode, pk, metas, j) && Covers(metas[j], h, k))
  {
    hide Check, Record, Signers;
    if metas == [] {
    } else {
      var front, m := metas[..|metas| - 1], metas[|metas| - 1];
      AbsorbMembers(c, mode, pk, sigs, front, h, k);
      var p := Absorb(c, mode, pk, sigs, None, front);
      PassesStep(c, mode, pk, metas, front, m);
      if m.SigMeta? && p.result == Accepted && Check(c, mode, pk, m.sig) == Accepted {
        RecordMembers(p.sigs, m.sig.hashes, m.sig.keyHash, h, k);
      }
    }
  }

  lemma PassesStep(c: Crypto, mode: TrustMode, pk: Keys, metas: seq<Meta>, front: seq<Meta>, m: Meta)
    requires metas == front + [m]
    ensures AllPass(c, mode, pk, metas, |metas|) <==>
            AllPass(c, mode, pk, front, |front|) && (m.SigMeta? ==> Check(c, mode, pk, m.sig) == Accepted)
    ensures forall j: nat {:trigger Passes(c, mode, pk, metas, j)} {:trigger Passes(c, mode, pk, front, j)} ::
              Passes(c, mode, pk, metas, j) <==>
              Passes(c, mode, pk, front, j) || (j == |front| && m.SigMeta? && AllPass(c, mode, pk, metas, |metas|))
  {
    hide Check;
    assert metas[|front|] == m;
    assert forall i :: 0 <= i < |front| ==> metas[i] == front[i];
    if AllPass(c, mode, pk, front, |front|) && (m.SigMeta? ==> Check(c, mode, pk, m.sig) == Accepted) {
      assert AllPass(c, mode, pk, metas, |metas|);
    }
  }

  lemma WitnessStep(c: Crypto, mode: TrustMode, inputs: seq<Input>, front: seq<Input>, x: Input, h: Hash, key: Hash,
                    i: nat, j: nat)
    requires inputs == front + [x]
    ensures i < |front| ==>
              (Witness(c, mode, inputs, h, key, i, j) <==> Witness(c, mode, front, h, key, i, j) && !x.Reset?)
    ensures i == |front| ==>
              (Witness(c, mode, inputs, h, key, i, j) <==>
               && x.Feeding? && j < |x.metas| && Covers(x.metas[j], h, key)
               && Passes(c, mode, Run(c, mode, inputs).pk, x.metas, j))
  {
    hide Passes, Covers, Run;
    if i < |front| {
      assert inputs[..i + 1] == front[..i + 1] && inputs[i] == front[i];
      assert forall r :: 0 <= r < |front| ==> inputs[r] == front[r];
    }
    assert inputs[..|front| + 1] == inputs && inputs[|front|] == x;
  }

  /**
   Over every run of feeds, failed ones included, and resets: a key is listed for a hash exactly when a
   signature fed since the last reset covers that hash and passed, it and all before it in its event.
   */
  lemma {:induction false} ListedIffWitnessed(c: Crypto, mode: TrustMode, inputs: seq<Input>, h: Hash, key: Hash)
    ensures key in Signers(Run(c, mode, inputs).sigs, h) <==>
            exists i: nat, j: nat :: Witness(c, mode, inputs, h, key, i, j)
  {
    hide Witness, Covers, AllPass, Absorb, Learn, Signers;
    if inputs == [] {
      NoWitness(c, mode, h, key);
    } else {
      var front, x := inputs[..|inputs| - 1], inputs[|inputs| - 1];
      ListedIffWitnessed(c, mode, front, h, key);
      WitnessBounded(c, mode, inputs, h, key);
      WitnessBounded(c, mode, front, h, key);
      var st, r := Run(c, mode, front), Run(c, mode, inputs);
      if x.Feeding? {
        AbsorbMembers(c, mode, r.pk, st.sigs, x.metas, h, key);
      } else {
        NoWitness(c, mode, h, key);
      }
      if key in Signers(r.sigs, h) {
        if key in Signers(st.sigs, h) && x.Feeding? {
          var i: nat, j: nat :| Witness(c, mode, front, h, key, i, j);
          WitnessStep(c, mode, inputs, front, x, h, key, i, j);
        } else {
          var j: nat :| Passes(c, mode, r.pk, x.metas, j) && Covers(x.metas[j], h, key);
          WitnessStep(c, mode, inputs, front, x, h, key, |front|, j);
        }
      }
      if i: nat, j: nat :| Witness(c, mode, inputs, h, key, i, j) {
        WitnessStep(c, mode, inputs, front, x, h, key, i, j);
      }
    }
  }

  lemma WitnessBounded(c: Crypto, mode: TrustMode, inputs: seq<Input>, h: Hash, key: Hash)
    ensures forall i: nat, j: nat :: Witness(c, mode, inputs, h, key, i, j) ==> i < |inputs|
  {
  }

  lemma NoWitness(c: Crypto, mode: TrustMode, h: Hash, key: Hash)
    ensures forall i: nat, j: nat :: !Witness(c, mode, [], h, key, i, j)
    ensures Signers(map[], h) == []
  {
  }

  /** The public key was fed at input r and no reset up to input i wiped it. */
  predicate FedBy(inputs: seq<Input>, p: PublicKey, r: nat, i: nat) {
    && r <= i < |inputs| && inputs[r].Feeding? && KeyMeta(p) in inputs[r].metas
    && forall q :: r <= q <= i ==> !inputs[q].Reset?
  }

  lemma {:induction false} LearnSource(c: Crypto, pk: Keys, metas: seq<Meta>, h: Hash)
    requires h in Learn(c, pk, metas)
    ensures var p := Learn(c, pk, metas)[h];
            (c.hashOf(p) == h && KeyMeta(p) in metas) || (h in pk && p == pk[h])
  {
    if metas == [] {
    } else {
      var front, m := metas[..|metas| - 1], metas[|metas| - 1];
      if !(m.KeyMeta? && c.hashOf(m.pk) == h) {
        LearnSource(c, pk, front, h);
      }
    }
  }

  /** Every public key in store was fed since the last reset, and is stored under its own hash. */
  lemma {:induction false} KeysAreFed(c: Crypto, mode: TrustMode, inputs: seq<Input>, h: Hash) returns (r: nat)
    requires h in Run(c, mode, inputs).pk
    ensures c.hashOf(Run(c, mode, inputs).pk[h]) == h
    ensures inputs != [] && FedBy(inputs, Run(c, mode, inputs).pk[h], r, |inputs| - 1)
  {
    hide Absorb, Learn;
    var front, x := inputs[..|inputs| - 1], inputs[|inputs| - 1];
    var before, p := Run(c, mode, front).pk, Run(c, mode, inputs).pk[h];
    LearnSource(c, before, x.metas, h);
    if KeyMeta(p) in x.metas && c.hashOf(p) == h {
      r := |inputs| - 1;
    } else {
      r := KeysAreFed(c, mode, front, h);
      assert forall q :: 0 <= q < |front| ==> inputs[q] == front[q];
    }
  }

  /** A signature fed at input i verifies, over a hash list with h, under a public key of that hash fed before. */
  ghost predicate Verified(c: Crypto, inputs: seq<Input>, h: Hash, key: Hash, i: nat, sig: MetaSignature,
                           p: PublicKey) {
    && i < |inputs| && inputs[i].Feeding? && SigMeta(sig) in inputs[i].metas
    && h in sig.hashes && sig.keyHash == key
    && c.hashOf(p) == key && (exists r: nat :: FedBy(inputs, p, r, i))
    && c.verify(p, c.digest(sig.hashes), sig.signature)
  }

  /** In distributed or server mode nothing is ever listed as verified without such a signature. */
  lemma ListedIsVerified(c: Crypto, mode: TrustMode, inputs: seq<Input>, h: Hash, key: Hash)
    requires mode != Client
    requires key in Signers(Run(c, mode, inputs).sigs, h)
    ensures exists i: nat, sig, p :: Verified(c, inputs, h, key, i, sig, p)
  {
    ListedIffWitnessed(c, mode, inputs, h, key);
    var i: nat, j: nat :| Witness(c, mode, inputs, h, key, i, j);
    var m := inputs[i].metas[j];
    var pk := KeysAt(c, mode, inputs, i);
    assert Check(c, mode, pk, m.sig) == Accepted;
    var past := inputs[..i + 1];
    var r := KeysAreFed(c, mode, past, key);
    assert FedBy(inputs, pk[key], r, i) by {
      assert forall q :: 0 <= q <= i ==> past[q] == inputs[q];
    }
    assert Verified(c, inputs, h, key, i, m.sig, pk[key]);
  }

  /** Entry j of input i is a signature over h under the key, and no reset came since. */
  predicate Told(inputs: seq<Input>, h: Hash, key: Hash, i: nat, j: nat) {
    && i < |inputs| && inputs[i].Feeding? && (forall r :: i <= r < |inputs| ==> !inputs[r].Reset?)
    && j < |inputs[i].metas| && Covers(inputs[i].metas[j], h, key)
  }

  /** A client accepts every feed, and lists every key of every signature it was told of, checked by nobody. */
  lemma ClientTakesAll(c: Crypto, inputs: seq<Input>, h: Hash, key: Hash)
    ensures forall pk, sigs, metas :: Absorb(c, Client, pk, sigs, None, metas).result == Accepted
    ensures key in Signers(Run(c, Client, inputs).sigs, h) <==> exists i: nat, j: nat :: Told(inputs, h, key, i, j)
  {
    hide Absorb, Run, Signers, Covers;
    forall pk, sigs, metas
      ensures Absorb(c, Client, pk, sigs, None, metas).result == Accepted
    {
      AbsorbMembers(c, Client, pk, sigs, metas, h, key);
    }
    ListedIffWitnessed(c, Client, inputs, h, key);
    forall i: nat, j: nat
      ensures Witness(c, Client, inputs, h, key, i, j) <==> Told(inputs, h, key, i, j)
    {
      if Told(inputs, h, key, i, j) {
        assert inputs[i].metas[j].SigMeta? by {
          CoversSignature(inputs[i].metas[j], h, key);
        }
      }
    }
  }

  lemma CoversSignature(m: Meta, h: Hash, key: Hash)
    requires Covers(m, h, key)
    ensures m.SigMeta?
  {
  }

  // ---------------------------------------------------------------- the linter

  /** An event to be sent: the keys it must be signed with, and its hash. */
  datatype Outgoing = Outgoing(signWith: Option<seq<Hash>>, hash: Hash)

  datatype LintResult = Linted(metas: seq<Meta>) | MissingWriteKey(key: Hash) | SignFailed(key: Hash)

  predicate Ascending(s: seq<Hash>) {
    |s| >= 2 ==> s[0] < s[1] && Ascending(s[1..])
  }

  /** Insertion into a sorted list without duplicates. */
  function InsertSorted(s: seq<Hash>, x: Hash): (r: seq<Hash>)
    ensures forall y :: y in r <==> y == x || y in s
    ensures Ascending(s) ==> Ascending(r)
    ensures r != [] && (r[0] == x || (s != [] && r[0] == s[0]))
  {
    if s == [] then [x]
    else if x < s[0] then [x] + s
    else if x == s[0] then s
    else
      assert s == [s[0]] + s[1..];
      [s[0]] + InsertSorted(s[1..], x)
  }

  /** `sort` then `dedup`. */
  function SortDedup(s: seq<Hash>): (r: seq<Hash>)
    ensures forall y :: y in r <==> y in s
    ensures Ascending(r)
  {
    if s == [] then [] else InsertSorted(SortDedup(s[1..]), s[0])
  }

  predicate Requires(e: Outgoing, key: Hash) {
    e.signWith.Some? && key in e.signWith.value
  }

  function AllKeys(raw: seq<Outgoing>): (r: seq<Hash>)
    ensures forall k :: k in r <==> exists e :: e in raw && Requires(e, k)
  {
    if raw == [] then []
    else
      assert forall e :: e in raw <==> e == raw[0] || e in raw[1..];
      var own := if raw[0].signWith.Some? then raw[0].signWith.value else [];
      assert forall k :: k in own <==> Requires(raw[0], k);
      own + AllKeys(raw[1..])
  }

  /** Drop the keys the other side has already seen proven in this conversation. */
  function Unproven(auths: seq<Hash>, proven: set<Hash>): (r: seq<Hash>)
    ensures forall k :: k in r <==> k in auths && k !in proven
  {
    if auths == [] then []
    else if auths[0] in proven then Unproven(auths[1..], proven)
    else [auths[0]] + Unproven(auths[1..], proven)
  }

  function FindKey(c: Crypto, keys: seq<PrivateKey>, auth: Hash): (r: Option<PrivateKey>)
    ensures r.Some? ==> r.value in keys && c.secretHash(r.value) == auth
    ensures r.None? ==> forall k :: k in keys ==> c.secretHash(k) != auth
  {
    if keys == [] then None else if c.secretHash(keys[0]) == auth then Some(keys[0]) else FindKey(c, keys[1..], auth)
  }

  function EventHashes(raw: seq<Outgoing>, auth: Hash): (r: seq<Hash>)
    ensures forall h :: h in r <==> exists e :: e in raw && Requires(e, auth) && e.hash == h
  {
    if raw == [] then []
    else
      assert forall e :: e in raw <==> e == raw[0] || e in raw[1..];
      (if Requires(raw[0], auth) then [raw[0].hash] else []) + EventHashes(raw[1..], auth)
  }

  /** The hashes a key signs: the conversation id, if there is one, then the events that require it. */
  function SignedHashes(mode: TrustMode, conv: Option<Conversation>, raw: seq<Outgoing>, auth: Hash): seq<Hash> {
    var id := if Centralized(mode) && conv.Some? && conv.value.id.Some? then [conv.value.id.value] else [];
    id + EventHashes(raw, auth)
  }

  function Sent(mode: TrustMode, conv: Option<Conversation>, auth: Hash): Option<Conversation> {
    if Centralized(mode) && conv.Some? then Some(conv.value.(proven := conv.value.proven + {auth})) else conv
  }

  function Needed(mode: TrustMode, conv: Option<Conversation>, raw: seq<Outgoing>): seq<Hash> {
    var auths := SortDedup(AllKeys(raw));
    if Centralized(mode) && conv.Some? then Unproven(auths, conv.value.proven) else auths
  }

  datatype LintState = LintState(conv: Option<Conversation>, result: LintResult)

  /** Sign with one needed key; conv is the conversation the lint began with. */
  function SignOne(c: Crypto, pk: Keys, mode: TrustMode, conv: Option<Conversation>, raw: seq<Outgoing>,
                   keys: seq<PrivateKey>, before: LintState, auth: Hash): LintState
    requires before.result.Linted?
  {
    var sk := FindKey(c, keys, auth);
    if sk.None? then before.(result := MissingWriteKey(auth))
    else
      var hashes := SignedHashes(mode, conv, raw, auth);
      var sig := c.sign(sk.value, c.digest(hashes));
      if sig.None? then before.(result := SignFailed(auth))
      else
        var announce := if auth !in pk || Centralized(mode) then [KeyMeta(c.publicOf(sk.value))] else [];
        LintState(Sent(mode, before.conv, auth),
                  Linted(before.result.metas + announce + [SigMeta(MetaSignature(hashes, sig.value, auth))]))
  }

  /** Sign with the needed keys, one after the other, until one cannot be signed with. */
  function LintKeys(c: Crypto, pk: Keys, mode: TrustMode, conv: Option<Conversation>, raw: seq<Outgoing>,
                    keys: seq<PrivateKey>, auths: seq<Hash>): LintState {
    if auths == [] then LintState(conv, Linted([]))
    else
      var before := LintKeys(c, pk, mode, conv, raw, keys, auths[..|auths| - 1]);
      if before.result.Linted? then SignOne(c, pk, mode, conv, raw, keys, before, auths[|auths| - 1]) else before
  }

  function Lint(c: Crypto, pk: Keys, mode: TrustMode, conv: Option<Conversation>, raw: seq<Outgoing>,
                keys: seq<PrivateKey>): LintState {
    LintKeys(c, pk, mode, conv, raw, keys, Needed(mode, conv, raw))
  }

  // ---------------------------------------------------------------- two parties

  /** The session has the key of this hash, and its public half is in store. */
  predicate Matches(c: Crypto, pk: Keys, keys: seq<PrivateKey>, a: Hash) {
    FindKey(c, keys, a).Some? && a in pk && pk[a] == c.publicOf(FindKey(c, keys, a).value)
  }

  /** So it is of every needed key. */
  predicate Announced(c: Crypto, pk: Keys, keys: seq<PrivateKey>, auths: seq<Hash>) {
    forall a :: a in auths ==> Matches(c, pk, keys, a)
  }

  predicate CanSign(c: Crypto, mode: TrustMode, conv: Option<Conversation>, raw: seq<Outgoing>, keys: seq<PrivateKey>,
                    auth: Hash) {
    var sk := FindKey(c, keys, auth);
    sk.Some? && c.sign(sk.value, c.digest(SignedHashes(mode, conv, raw, auth))).Some?
  }

  /** How many of the needed keys can be signed with before one cannot. */
  function SignedCount(c: Crypto, mode: TrustMode, conv: Option<Conversation>, raw: seq<Outgoing>,
                       keys: seq<PrivateKey>, auths: seq<Hash>): (n: nat)
    ensures n <= |auths|
    ensures forall i :: 0 <= i < n ==> CanSign(c, mode, conv, raw, keys, auths[i])
    ensures n < |auths| ==> !CanSign(c, mode, conv, raw, keys, auths[n])
  {
    if auths == [] then 0
    else
      var n := SignedCount(c, mode, conv, raw, keys, auths[..|auths| - 1]);
      if n == |auths| - 1 && CanSign(c, mode, conv, raw, keys, auths[n]) then n + 1 else n
  }

  function Elements(s: seq<Hash>): set<Hash> {
    set x | x in s
  }

  lemma NoElements()
    ensures Elements([]) == {}
  {
  }

  lemma OneMoreElement(s: set<Hash>, t: seq<Hash>, x: Hash)
    ensures s + Elements(t + [x]) == s + Elements(t) + {x}
  {
  }

  /** A conversation in which the given keys have been proven too; distributed integrity keeps no such record. */
  function ProvenToo(mode: TrustMode, conv: Option<Conversation>, keys: set<Hash>): Option<Conversation> {
    if Centralized(mode) && conv.Some? then Some(conv.value.(proven := conv.value.proven + keys)) else conv
  }

  /**
   A lint succeeds exactly when every needed key can be signed with; every key before one that cannot is marked
   as sent.
   */
  lemma {:induction false} LintOutcome(c: Crypto, pk: Keys, mode: TrustMode, conv: Option<Conversation>,
                                       raw: seq<Outgoing>, keys: seq<PrivateKey>, auths: seq<Hash>)
    ensures var l, n := LintKeys(c, pk, mode, conv, raw, keys, auths), SignedCount(c, mode, conv, raw, keys, auths);
            && (l.result.Linted? <==> n == |auths|)
            && l.conv == ProvenToo(mode, conv, Elements(auths[..n]))
  {
    hide CanSign, SignOne, Elements, ProvenToo, Sent;
    if auths == [] {
      NoneSent(mode, conv);
    } else {
      var front, auth := auths[..|auths| - 1], auths[|auths| - 1];
      LintOutcome(c, pk, mode, conv, raw, keys, front);
      if LintKeys(c, pk, mode, conv, raw, keys, front).result.Linted? {
        SignsIff(c, pk, mode, conv, raw, keys, LintKeys(c, pk, mode, conv, raw, keys, front), auth);
      }
      var n := SignedCount(c, mode, conv, raw, keys, front);
      assert auths[..n] == front[..n];
      if n == |front| {
        assert auths[..n + 1] == front[..n] + [auth];
        OneMoreSent(mode, conv, front[..n], auth);
      }
    }
  }

  lemma SignsIff(c: Crypto, pk: Keys, mode: TrustMode, conv: Option<Conversation>, raw: seq<Outgoing>,
                 keys: seq<PrivateKey>, before: LintState, auth: Hash)
    requires before.result.Linted?
    ensures var l, can := SignOne(c, pk, mode, conv, raw, keys, before, auth), CanSign(c, mode, conv, raw, keys, auth);
            (l.result.Linted? <==> can) && l.conv == if can then Sent(mode, before.conv, auth) else before.conv
  {
    hide FindKey, SignedHashes, Sent;
  }

  lemma NoneSent(mode: TrustMode, conv: Option<Conversation>)
    ensures ProvenToo(mode, conv, Elements([])) == conv
  {
    NoElements();
    if conv.Some? {
      assert conv.value.proven + {} == conv.value.proven;
    }
  }

  lemma OneMoreSent(mode: TrustMode, conv: Option<Conversation>, keys: seq<Hash>, auth: Hash)
    ensures Sent(mode, ProvenToo(mode, conv, Elements(keys)), auth) == ProvenToo(mode, conv, Elements(keys + [auth]))
  {
    hide Elements;
    if conv.Some? {
      OneMoreElement(conv.value.proven, keys, auth);
    }
  }

  /**
   What a successful lint teaches a receiver, in every mode: the public half of each key it signed with that its
   own chain lacks, and in centralized mode of all of them; and no other key.
   */
  lemma {:induction false} LintTeaches(c: Crypto, pk: Keys, mode: TrustMode, conv: Option<Conversation>,
                                       raw: seq<Outgoing>, keys: seq<PrivateKey>, auths: seq<Hash>, known: Keys,
                                       a: Hash)
    requires Correct(c) && LintKeys(c, pk, mode, conv, raw, keys, auths).result.Linted?
    ensures var taught := Learn(c, known, LintKeys(c, pk, mode, conv, raw, keys, auths).result.metas);
            && (a in auths ==> FindKey(c, keys, a).Some?)
            && if a in auths && (a !in pk || mode != Distributed) then Matches(c, taught, keys, a)
               else (a in taught <==> a in known) && (a in taught ==> taught[a] == known[a])
  {
    hide SignOne, FindKey, Learn;
    if auths == [] {
      LearnNothing(c, known);
    } else {
      var front, auth := auths[..|auths| - 1], auths[|auths| - 1];
      LintTeaches(c, pk, mode, conv, raw, keys, front, known, a);
      assert auths == front + [auth];
      SignOneTeaches(c, pk, mode, conv, raw, keys, LintKeys(c, pk, mode, conv, raw, keys, front), auth, known);
    }
  }

  lemma SignOneTeaches(c: Crypto, pk: Keys, mode: TrustMode, conv: Option<Conversation>, raw: seq<Outgoing>,
                       keys: seq<PrivateKey>, before: LintState, auth: Hash, known: Keys)
    requires Correct(c) && before.result.Linted? && SignOne(c, pk, mode, conv, raw, keys, before, auth).result.Linted?
    ensures var had := Learn(c, known, before.result.metas);
            var has := Learn(c, known, SignOne(c, pk, mode, conv, raw, keys, before, auth).result.metas);
            && FindKey(c, keys, auth).Some?
            && has == if auth !in pk || mode != Distributed then had[auth := c.publicOf(FindKey(c, keys, auth).value)]
                      else had
  {
    hide SignedHashes, Sent, FindKey, Learn;
    var metas, after := before.result.metas, SignOne(c, pk, mode, conv, raw, keys, before, auth).result.metas;
    if |after| == |metas| + 2 {
      LearnTwo(c, known, metas, c.publicOf(FindKey(c, keys, auth).value), after);
    } else {
      LearnOne(c, known, metas, after);
    }
  }

  /**
   In every mode, a receiver knows all keys a successful lint signed with exactly when it had those already that
   a distributed chain would not announce again.
   */
  lemma LintAnnouncesIff(c: Crypto, pk: Keys, mode: TrustMode, conv: Option<Conversation>,
                         raw: seq<Outgoing>, keys: seq<PrivateKey>, auths: seq<Hash>, known: Keys)
    requires Correct(c) && LintKeys(c, pk, mode, conv, raw, keys, auths).result.Linted?
    ensures Announced(c, Learn(c, known, LintKeys(c, pk, mode, conv, raw, keys, auths).result.metas), keys, auths) <==>
            forall a :: a in auths && a in pk && mode == Distributed ==> Matches(c, known, keys, a)
  {
    hide LintKeys, FindKey, Learn, Correct;
    forall a {
      LintTeaches(c, pk, mode, conv, raw, keys, auths, known, a);
    }
  }

  lemma LearnNothing(c: Crypto, known: Keys)
    ensures Learn(c, known, []) == known
  {
  }

  lemma LearnOne(c: Crypto, known: Keys, before: seq<Meta>, after: seq<Meta>)
    requires |after| == |before| + 1 && after[..|before|] == before && after[|before|].SigMeta?
    ensures Learn(c, known, after) == Learn(c, known, before)
  {
  }

  lemma LearnTwo(c: Crypto, known: Keys, before: seq<Meta>, p: PublicKey, after: seq<Meta>)
    requires |after| == |before| + 2 && after[..|before|] == before
    requires after[|before|] == KeyMeta(p) && after[|before| + 1].SigMeta?
    ensures Learn(c, known, after) == Learn(c, known, before)[c.hashOf(p) := p]
  {
    var mid := after[..|before| + 1];
    assert mid[..|before|] == before;
    assert Learn(c, known, mid) == Learn(c, known, before)[c.hashOf(p) := p];
    assert after[..|after| - 1] == mid;
  }

  /** A signature, with or without its key before it, is taken up after what came before. */
  lemma AbsorbMore(c: Crypto, mode: TrustMode, pk: Keys, sigs: Sigs, conv: Option<Conversation>, before: seq<Meta>,
                   announce: seq<Meta>, sig: MetaSignature, after: seq<Meta>)
    requires after == before + announce + [SigMeta(sig)]
    requires announce == [] || (|announce| == 1 && announce[0].KeyMeta?)
    requires Absorb(c, mode, pk, sigs, conv, before).result == Accepted
    requires Check(c, mode, pk, sig) == Accepted
    ensures var q := Absorb(c, mode, pk, sigs, conv, before);
            Absorb(c, mode, pk, sigs, conv, after) ==
            Progress(Record(q.sigs, sig.hashes, sig.keyHash), Prove(mode, q.conv, sig), Accepted)
  {
    hide Check, Record, Prove;
    var mid := before + announce;
    assert after[..|after| - 1] == mid;
    if announce == [] {
      assert mid == before;
    } else {
      assert mid[..|mid| - 1] == before;
    }
    assert Absorb(c, mode, pk, sigs, conv, mid) == Absorb(c, mode, pk, sigs, conv, before);
  }

  /** The keys whose signatures the receiver takes as proof of ownership in its conversation. */
  function ProvenBy(conv: Conversation, mode: TrustMode, senderConv: Option<Conversation>, raw: seq<Outgoing>,
                    auths: seq<Hash>): set<Hash> {
    set a | a in auths && conv.id.Some? && conv.id.value in SignedHashes(mode, senderConv, raw, a)
  }

  function ProvenIn(conv: Option<Conversation>, mode: TrustMode, senderConv: Option<Conversation>, raw: seq<Outgoing>,
                    auths: seq<Hash>): set<Hash> {
    if conv.Some? then ProvenBy(conv.value, mode, senderConv, raw, auths) else {}
  }

  /**
   In every mode, the receiver accepts what a successful lint produced, records every signature and, where it
   keeps such a record, proves exactly the keys that signed its conversation.
   */
  lemma {:induction false} LintAccepted(c: Crypto, pk: Keys, mode: TrustMode, conv: Option<Conversation>,
                                        raw: seq<Outgoing>, keys: seq<PrivateKey>, auths: seq<Hash>,
                                        rmode: TrustMode, rpk: Keys, rsigs: Sigs, rconv: Option<Conversation>)
    requires Correct(c)
    requires LintKeys(c, pk, mode, conv, raw, keys, auths).result.Linted?
    requires Announced(c, rpk, keys, auths)
    ensures var p := Absorb(c, rmode, rpk, rsigs, rconv, LintKeys(c, pk, mode, conv, raw, keys, auths).result.metas);
            && p.result == Accepted
            && p.conv == ProvenToo(rmode, rconv, ProvenIn(rconv, mode, conv, raw, auths))
            && (forall h, k :: k in Signers(rsigs, h) ==> k in Signers(p.sigs, h))
            && (forall h, k :: k in auths && h in SignedHashes(mode, conv, raw, k) ==> k in Signers(p.sigs, h))
  {
    hide SignedHashes, Sent, FindKey, Signers, Record, ProvenToo, ProvenBy, Prove;
    if auths == [] {
      NothingProven(rmode, rconv, mode, conv, raw);
    } else {
      var front, auth := auths[..|auths| - 1], auths[|auths| - 1];
      assert auths == front + [auth];
      LintAccepted(c, pk, mode, conv, raw, keys, front, rmode, rpk, rsigs, rconv);
      var before := LintKeys(c, pk, mode, conv, raw, keys, front).result.metas;
      var after := LintKeys(c, pk, mode, conv, raw, keys, auths).result.metas;
      var sk := FindKey(c, keys, auth).value;
      var hashes := SignedHashes(mode, conv, raw, auth);
      var sig := MetaSignature(hashes, c.sign(sk, c.digest(hashes)).value, auth);
      var announce := if auth !in pk || Centralized(mode) then [KeyMeta(c.publicOf(sk))] else [];
      assert Matches(c, rpk, keys, auth);
      AbsorbMore(c, rmode, rpk, rsigs, rconv, before, announce, sig, after);
      var q := Absorb(c, rmode, rpk, rsigs, rconv, before);
      forall h, k
        ensures k in Signers(Record(q.sigs, hashes, auth), h) <==> k in Signers(q.sigs, h) || (h in hashes && k == auth)
      {
        RecordMembers(q.sigs, hashes, auth, h, k);
      }
      ProvenStep(rconv, mode, conv, raw, front, auth, rmode, sig);
    }
  }

  lemma NothingProven(rmode: TrustMode, rconv: Option<Conversation>, mode: TrustMode, conv: Option<Conversation>,
                      raw: seq<Outgoing>)
    ensures ProvenToo(rmode, rconv, ProvenIn(rconv, mode, conv, raw, [])) == rconv
  {
    if rconv.Some? {
      assert rconv.value.proven + ProvenBy(rconv.value, mode, conv, raw, []) == rconv.value.proven;
    }
  }

  lemma ProvenStep(rconv: Option<Conversation>, mode: TrustMode, conv: Option<Conversation>, raw: seq<Outgoing>,
                   front: seq<Hash>, auth: Hash, rmode: TrustMode, sig: MetaSignature)
    requires sig.hashes == SignedHashes(mode, conv, raw, auth) && sig.keyHash == auth
    ensures Prove(rmode, ProvenToo(rmode, rconv, ProvenIn(rconv, mode, conv, raw, front)), sig) ==
            ProvenToo(rmode, rconv, ProvenIn(rconv, mode, conv, raw, front + [auth]))
  {
    hide SignedHashes;
    if rconv.Some? {
      var v := rconv.value;
      var a, b := ProvenBy(v, mode, conv, raw, front), ProvenBy(v, mode, conv, raw, front + [auth]);
      if v.id.Some? && v.id.value in sig.hashes {
        assert b == a + {auth};
        assert v.proven + a + {auth} == v.proven + b;
      } else {
        assert b == a;
      }
    }
  }

  /** Both ends of one conversation: what the sender knows and has sent, what the receiver holds. */
  datatype Link = Link(known: Keys, sent: Conversation, receiver: Plugin, seen: Conversation)

  /** The sender lints and sends a batch, the receiver is fed something else, or the sender learns public keys. */
  datatype Action =
    | Transmit(raw: seq<Outgoing>, keys: seq<PrivateKey>)
    | Foreign(metas: seq<Meta>)
    | Inform(metas: seq<Meta>)

  function Receive(c: Crypto, rmode: TrustMode, link: Link, metas: seq<Meta>): Link {
    var pk := Learn(c, link.receiver.pk, metas);
    var p := Absorb(c, rmode, pk, link.receiver.sigs, Some(link.seen), metas);
    link.(receiver := Plugin(pk, p.sigs), seen := if p.conv.Some? then p.conv.value else link.seen)
  }

  function Act(c: Crypto, smode: TrustMode, rmode: TrustMode, link: Link, action: Action): Link {
    match action
    case Transmit(raw, keys) =>
      var l := Lint(c, link.known, smode, Some(link.sent), raw, keys);
      var after := link.(sent := if l.conv.Some? then l.conv.value else link.sent);
      if l.result.Linted? then Receive(c, rmode, after, l.result.metas) else after
    case Foreign(metas) => Receive(c, rmode, link, metas)
    case Inform(metas) => link.(known := Learn(c, link.known, metas))
  }

  function NeededKeys(smode: TrustMode, link: Link, raw: seq<Outgoing>): seq<Hash> {
    Needed(smode, Some(link.sent), raw)
  }

  function Signable(c: Crypto, smode: TrustMode, link: Link, raw: seq<Outgoing>, keys: seq<PrivateKey>): (n: nat)
    ensures n <= |NeededKeys(smode, link, raw)|
  {
    SignedCount(c, smode, Some(link.sent), raw, keys, NeededKeys(smode, link, raw))
  }

  /** What a successful transmission leaves behind, whatever the two conversation ids are. */
  lemma TransmitOutcome(c: Crypto, smode: TrustMode, rmode: TrustMode, link: Link, raw: seq<Outgoing>,
                        keys: seq<PrivateKey>)
    requires Correct(c) && Centralized(smode) && Centralized(rmode)
    requires Signable(c, smode, link, raw, keys) == |NeededKeys(smode, link, raw)|
    ensures var after, auths := Act(c, smode, rmode, link, Transmit(raw, keys)), NeededKeys(smode, link, raw);
            && after.sent == link.sent.(proven := link.sent.proven + Elements(auths))
            && after.seen == link.seen.(proven := after.seen.proven)
            && after.seen.proven == link.seen.proven + ProvenBy(link.seen, smode, Some(link.sent), raw, auths)
            && (forall h, k :: k in Signers(link.receiver.sigs, h) ==> k in Signers(after.receiver.sigs, h))
            && (forall h, k :: k in auths && h in SignedHashes(smode, Some(link.sent), raw, k) ==>
                k in Signers(after.receiver.sigs, h))
  {
    hide LintKeys, Absorb, Learn, SignedHashes, Needed, Correct, Announced, ProvenBy, Signers;
    var auths := NeededKeys(smode, link, raw);
    LintOutcome(c, link.known, smode, Some(link.sent), raw, keys, auths);
    assert auths[..|auths|] == auths;
    LintAnnouncesIff(c, link.known, smode, Some(link.sent), raw, keys, auths, link.receiver.pk);
    var metas := Lint(c, link.known, smode, Some(link.sent), raw, keys).result.metas;
    LintAccepted(c, link.known, smode, Some(link.sent), raw, keys, auths, rmode, Learn(c, link.receiver.pk, metas),
                 link.receiver.sigs, Some(link.seen));
  }

  /** Every event of a transmitted batch ends up signed with each key it requires, or that key was proven before. */
  lemma TransmittedIsSigned(c: Crypto, smode: TrustMode, rmode: TrustMode, link: Link, raw: seq<Outgoing>,
                            keys: seq<PrivateKey>,
                            e: Outgoing, k: Hash)
    requires Correct(c) && Centralized(smode) && Centralized(rmode)
    requires Signable(c, smode, link, raw, keys) == |NeededKeys(smode, link, raw)|
    requires e in raw && Requires(e, k)
    ensures k in Signers(Act(c, smode, rmode, link, Transmit(raw, keys)).receiver.sigs, e.hash) || k in link.sent.proven
  {
    hide Act, Signers, ProvenBy, Correct, SignedCount;
    TransmitOutcome(c, smode, rmode, link, raw, keys);
    if k !in link.sent.proven {
      assert k in AllKeys(raw);
      assert k in NeededKeys(smode, link, raw);
      assert e.hash in EventHashes(raw, k);
      assert e.hash in SignedHashes(smode, Some(link.sent), raw, k);
    }
  }

  /** Nothing is counted as proven by the sender that the receiver has not seen proven. */
  predicate InStep(link: Link) {
    link.sent.proven <= link.seen.proven
  }

  /** A successful transmission keeps the two ends in step exactly when each new key signed the receiver's id. */
  lemma TransmitKeepsStepIff(c: Crypto, smode: TrustMode, rmode: TrustMode, link: Link, raw: seq<Outgoing>,
                             keys: seq<PrivateKey>)
    requires Correct(c) && Centralized(smode) && Centralized(rmode) && InStep(link)
    requires Signable(c, smode, link, raw, keys) == |NeededKeys(smode, link, raw)|
    ensures InStep(Act(c, smode, rmode, link, Transmit(raw, keys))) <==>
            forall k :: k in NeededKeys(smode, link, raw) ==>
              k in link.seen.proven ||
              (link.seen.id.Some? && link.seen.id.value in SignedHashes(smode, Some(link.sent), raw, k))
  {
    hide Act, Signers, Correct, SignedCount, SignedHashes, Needed;
    TransmitOutcome(c, smode, rmode, link, raw, keys);
    var after, auths := Act(c, smode, rmode, link, Transmit(raw, keys)), NeededKeys(smode, link, raw);
    if InStep(after) {
      forall k | k in auths
        ensures k in link.seen.proven ||
                (link.seen.id.Some? && link.seen.id.value in SignedHashes(smode, Some(link.sent), raw, k))
      {
        assert k in after.sent.proven;
      }
    }
  }

  /**
   A failed lint keeps the two ends in step exactly when the keys it signed with before failing were seen
   already.
   */
  lemma FailedLintKeepsStepIff(c: Crypto, smode: TrustMode, rmode: TrustMode, link: Link, raw: seq<Outgoing>,
                               keys: seq<PrivateKey>)
    requires Centralized(smode) && InStep(link)
    requires Signable(c, smode, link, raw, keys) < |NeededKeys(smode, link, raw)|
    ensures InStep(Act(c, smode, rmode, link, Transmit(raw, keys))) <==>
            Elements(NeededKeys(smode, link, raw)[..Signable(c, smode, link, raw, keys)]) <= link.seen.proven
  {
    hide LintKeys, SignedCount, Needed;
    LintOutcome(c, link.known, smode, Some(link.sent), raw, keys, NeededKeys(smode, link, raw));
  }

  /** A foreign feed only ever adds to what the receiver has seen proven. */
  lemma {:induction false} AbsorbGrows(c: Crypto, mode: TrustMode, pk: Keys, sigs: Sigs, conv: Conversation,
                                       metas: seq<Meta>)
    ensures var p := Absorb(c, mode, pk, sigs, Some(conv), metas);
            p.conv.Some? && p.conv.value.id == conv.id && conv.proven <= p.conv.value.proven
  {
    hide Check, Record;
    if metas == [] {
    } else {
      AbsorbGrows(c, mode, pk, sigs, conv, metas[..|metas| - 1]);
    }
  }

  function Actions(c: Crypto, smode: TrustMode, rmode: TrustMode, link: Link, actions: seq<Action>): Link {
    if actions == [] then link
    else Act(c, smode, rmode, Actions(c, smode, rmode, link, actions[..|actions| - 1]), actions[|actions| - 1])
  }

  /** No lint along the way fails after marking as sent a key the receiver has not seen. */
  predicate NoLeak(c: Crypto, smode: TrustMode, rmode: TrustMode, link: Link, actions: seq<Action>) {
    actions != [] ==>
      var front, last := actions[..|actions| - 1], actions[|actions| - 1];
      var at := Actions(c, smode, rmode, link, front);
      && NoLeak(c, smode, rmode, link, front)
      && (last.Transmit? ==>
            var n := Signable(c, smode, at, last.raw, last.keys);
            || n == |NeededKeys(smode, at, last.raw)|
            || Elements(NeededKeys(smode, at, last.raw)[..n]) <= at.seen.proven)
  }

  /**
   With one conversation id on both ends, over every run of transmissions and other feeds, each key the sender
   skips as already proven is one the receiver has seen proven.
   */
  lemma {:induction false} AlwaysInStep(c: Crypto, smode: TrustMode, rmode: TrustMode, link: Link, actions: seq<Action>)
    requires Correct(c) && Centralized(smode) && Centralized(rmode)
    requires link.sent.id.Some? && link.seen.id == link.sent.id && InStep(link)
    requires NoLeak(c, smode, rmode, link, actions)
    ensures var end := Actions(c, smode, rmode, link, actions);
            InStep(end) && end.sent.id == link.sent.id && end.seen.id == link.seen.id
  {
    hide Correct, SignedCount, Needed, Elements, LintKeys, Absorb, Learn;
    if actions == [] {
    } else {
      var front, last := actions[..|actions| - 1], actions[|actions| - 1];
      AlwaysInStep(c, smode, rmode, link, front);
      var at := Actions(c, smode, rmode, link, front);
      match last {
        case Inform(_) =>
        case Foreign(metas) =>
          AbsorbGrows(c, rmode, Learn(c, at.receiver.pk, metas), at.receiver.sigs, at.seen, metas);
        case Transmit(raw, keys) =>
          if Signable(c, smode, at, raw, keys) == |NeededKeys(smode, at, raw)| {
            TransmitOutcome(c, smode, rmode, at, raw, keys);
            TransmitKeepsStepIff(c, smode, rmode, at, raw, keys);
          } else {
            LintOutcome(c, at.known, smode, Some(at.sent), raw, keys, NeededKeys(smode, at, raw));
            FailedLintKeepsStepIff(c, smode, rmode, at, raw, keys);
          }
      }
    }
  }

  /** What is recorded stays recorded. */
  lemma {:induction false} AbsorbKeepsSigners(c: Crypto, mode: TrustMode, pk: Keys, sigs: Sigs,
                                              conv: Option<Conversation>, metas: seq<Meta>, h: Hash, k: Hash)
    requires k in Signers(sigs, h)
    ensures k in Signers(Absorb(c, mode, pk, sigs, conv, metas).sigs, h)
  {
    hide Signers, Check, Record, Prove;
    if metas == [] {
    } else {
      AbsorbKeepsSigners(c, mode, pk, sigs, conv, metas[..|metas| - 1], h, k);
      var p, m := Absorb(c, mode, pk, sigs, conv, metas[..|metas| - 1]), metas[|metas| - 1];
      if m.SigMeta? {
        RecordMembers(p.sigs, m.sig.hashes, m.sig.keyHash, h, k);
      }
    }
  }

  /** Signed for, or proven: the receiver takes an event that requires k either way. */
  predicate Taken(link: Link, h: Hash, k: Hash) {
    k in Signers(link.receiver.sigs, h) || k in link.seen.proven
  }

  lemma ReceiveKeepsTaken(c: Crypto, rmode: TrustMode, link: Link, metas: seq<Meta>, h: Hash, k: Hash)
    requires Taken(link, h, k)
    ensures Taken(Receive(c, rmode, link, metas), h, k)
  {
    hide Absorb, Learn, Signers;
    var pk := Learn(c, link.receiver.pk, metas);
    AbsorbGrows(c, rmode, pk, link.receiver.sigs, link.seen, metas);
    if k in Signers(link.receiver.sigs, h) {
      AbsorbKeepsSigners(c, rmode, pk, link.receiver.sigs, Some(link.seen), metas, h, k);
    }
  }

  lemma ActKeepsTaken(c: Crypto, smode: TrustMode, rmode: TrustMode, link: Link, action: Action, h: Hash, k: Hash)
    requires Taken(link, h, k)
    ensures Taken(Act(c, smode, rmode, link, action), h, k)
  {
    hide Receive, Lint, Learn, Signers;
    match action {
      case Inform(_) =>
      case Foreign(metas) =>
        ReceiveKeepsTaken(c, rmode, link, metas, h, k);
      case Transmit(raw, keys) =>
        var l := Lint(c, link.known, smode, Some(link.sent), raw, keys);
        var after := link.(sent := if l.conv.Some? then l.conv.value else link.sent);
        if l.result.Linted? {
          ReceiveKeepsTaken(c, rmode, after, l.result.metas, h, k);
        }
    }
  }

  /** Action i is a transmission that the sender could sign in full. */
  predicate Delivered(c: Crypto, smode: TrustMode, rmode: TrustMode, link: Link, actions: seq<Action>, i: nat) {
    i < |actions| && actions[i].Transmit? &&
    var at := Actions(c, smode, rmode, link, actions[..i]);
    Signable(c, smode, at, actions[i].raw, actions[i].keys) == |NeededKeys(smode, at, actions[i].raw)|
  }

  /**
   Over every run, whatever else is sent and fed in between: at the end, each event of each delivered batch is
   recorded as signed by every key it requires, or the receiver itself has seen that key proven.
   */
  lemma {:induction false} DeliveredIsTaken(c: Crypto, smode: TrustMode, rmode: TrustMode, link: Link,
                                            actions: seq<Action>, i: nat, e: Outgoing, k: Hash)
    requires Correct(c) && Centralized(smode) && Centralized(rmode)
    requires link.sent.id.Some? && link.seen.id == link.sent.id && InStep(link)
    requires NoLeak(c, smode, rmode, link, actions)
    requires Delivered(c, smode, rmode, link, actions, i) && e in actions[i].raw && Requires(e, k)
    ensures Taken(Actions(c, smode, rmode, link, actions), e.hash, k)
  {
    hide Act, Correct, Signable, NeededKeys, Taken;
    var front, last := actions[..|actions| - 1], actions[|actions| - 1];
    var at := Actions(c, smode, rmode, link, front);
    if i == |front| {
      AlwaysInStep(c, smode, rmode, link, front);
      TransmittedIsTaken(c, smode, rmode, at, last.raw, last.keys, e, k);
    } else {
      assert front[..i] == actions[..i];
      DeliveredIsTaken(c, smode, rmode, link, front, i, e, k);
      ActKeepsTaken(c, smode, rmode, at, last, e.hash, k);
    }
  }

  lemma TransmittedIsTaken(c: Crypto, smode: TrustMode, rmode: TrustMode, link: Link, raw: seq<Outgoing>,
                           keys: seq<PrivateKey>, e: Outgoing, k: Hash)
    requires Correct(c) && Centralized(smode) && Centralized(rmode) && InStep(link)
    requires Signable(c, smode, link, raw, keys) == |NeededKeys(smode, link, raw)|
    requires e in raw && Requires(e, k)
    ensures Taken(Act(c, smode, rmode, link, Transmit(raw, keys)), e.hash, k)
  {
    hide Act, Correct, Signable, NeededKeys, Signers, ProvenBy;
    TransmittedIsSigned(c, smode, rmode, link, raw, keys, e, k);
    TransmitOutcome(c, smode, rmode, link, raw, keys);
  }

  // ---------------------------------------------------------------- a distributed chain

  /** A batch of events, and the session keys of whoever writes it. */
  datatype Batch = Batch(raw: seq<Outgoing>, keys: seq<PrivateKey>)

  /** A batch written to a distributed chain: linted with what the chain knows and, if signed, fed to all of it. */
  function Written(c: Crypto, chain: Plugin, b: Batch): Plugin {
    var l := Lint(c, chain.pk, Distributed, None, b.raw, b.keys).result;
    if l.Linted? then Step(c, Distributed, chain, Feeding(l.metas)) else chain
  }

  function Chain(c: Crypto, chain: Plugin, batches: seq<Batch>): Plugin {
    if batches == [] then chain
    else Written(c, Chain(c, chain, batches[..|batches| - 1]), batches[|batches| - 1])
  }

  /** No two public keys have one hash. */
  ghost predicate Apart(c: Crypto) {
    forall p, q :: c.hashOf(p) == c.hashOf(q) ==> p == q
  }

  /** Every key in store is stored under its own hash. */
  predicate Genuine(c: Crypto, pk: Keys) {
    forall h :: h in pk ==> c.hashOf(pk[h]) == h
  }

  lemma LearnIsGenuine(c: Crypto, pk: Keys, metas: seq<Meta>)
    requires Genuine(c, pk)
    ensures Genuine(c, Learn(c, pk, metas))
  {
    hide Learn;
    forall h | h in Learn(c, pk, metas) {
      LearnSource(c, pk, metas, h);
    }
  }

  lemma GenuineMatches(c: Crypto, pk: Keys, keys: seq<PrivateKey>, a: Hash)
    requires Correct(c) && Apart(c) && Genuine(c, pk) && a in pk && FindKey(c, keys, a).Some?
    ensures Matches(c, pk, keys, a)
  {
    hide FindKey;
  }

  /**
   A receiver in distributed mode that has all keys of the writer, and perhaps more, accepts whatever the writer
   could sign, and lists every event with every key it requires.
   */
  lemma DistributedIsAccepted(c: Crypto, pk: Keys, b: Batch, receiver: Plugin, e: Outgoing, k: Hash)
    requires Correct(c) && Apart(c) && Genuine(c, receiver.pk) && pk.Keys <= receiver.pk.Keys
    requires Lint(c, pk, Distributed, None, b.raw, b.keys).result.Linted?
    requires e in b.raw && Requires(e, k)
    ensures var metas := Lint(c, pk, Distributed, None, b.raw, b.keys).result.metas;
            && Absorb(c, Distributed, Learn(c, receiver.pk, metas), receiver.sigs, None, metas).result == Accepted
            && k in Signers(Step(c, Distributed, receiver, Feeding(metas)).sigs, e.hash)
  {
    hide LintKeys, Learn, Absorb, FindKey, Signers, Correct, Announced;
    var auths := Needed(Distributed, None, b.raw);
    var metas := Lint(c, pk, Distributed, None, b.raw, b.keys).result.metas;
    forall a | a in auths && a in pk
      ensures Matches(c, receiver.pk, b.keys, a)
    {
      LintTeaches(c, pk, Distributed, None, b.raw, b.keys, auths, receiver.pk, a);
      GenuineMatches(c, receiver.pk, b.keys, a);
    }
    LintAnnouncesIff(c, pk, Distributed, None, b.raw, b.keys, auths, receiver.pk);
    LintAccepted(c, pk, Distributed, None, b.raw, b.keys, auths, Distributed, Learn(c, receiver.pk, metas),
                 receiver.sigs, None);
    assert k in AllKeys(b.raw);
    assert e.hash in EventHashes(b.raw, k);
    assert e.hash in SignedHashes(Distributed, None, b.raw, k);
  }

  lemma WrittenKeeps(c: Crypto, chain: Plugin, b: Batch, h: Hash, k: Hash)
    ensures Genuine(c, chain.pk) ==> Genuine(c, Written(c, chain, b).pk)
    ensures k in Signers(chain.sigs, h) ==> k in Signers(Written(c, chain, b).sigs, h)
  {
    hide Lint, Learn, Absorb, Signers, Genuine;
    var l := Lint(c, chain.pk, Distributed, None, b.raw, b.keys).result;
    if l.Linted? {
      if Genuine(c, chain.pk) {
        LearnIsGenuine(c, chain.pk, l.metas);
      }
      if k in Signers(chain.sigs, h) {
        AbsorbKeepsSigners(c, Distributed, Learn(c, chain.pk, l.metas), chain.sigs, None, l.metas, h, k);
      }
    }
  }

  lemma {:induction false} ChainIsGenuine(c: Crypto, chain: Plugin, batches: seq<Batch>)
    requires Genuine(c, chain.pk)
    ensures Genuine(c, Chain(c, chain, batches).pk)
  {
    hide Genuine, Written;
    if batches == [] {
    } else {
      ChainIsGenuine(c, chain, batches[..|batches| - 1]);
      WrittenKeeps(c, Chain(c, chain, batches[..|batches| - 1]), batches[|batches| - 1], 0, 0);
    }
  }

  /** Batch i could be signed in full when it was written. */
  predicate Signed(c: Crypto, chain: Plugin, batches: seq<Batch>, i: nat) {
    i < |batches| &&
    Lint(c, Chain(c, chain, batches[..i]).pk, Distributed, None, batches[i].raw, batches[i].keys).result.Linted?
  }

  /**
   Over any batches by any writers on a distributed chain: each event of each batch that could be signed is, at
   the end, listed as signed by every key it requires.  So a key unknown to the chain reaches it with its first
   signature.
   */
  lemma {:induction false} SignedIsListed(c: Crypto, chain: Plugin, batches: seq<Batch>, i: nat, e: Outgoing, k: Hash)
    requires Correct(c) && Apart(c) && Genuine(c, chain.pk)
    requires Signed(c, chain, batches, i) && e in batches[i].raw && Requires(e, k)
    ensures k in Signers(Chain(c, chain, batches).sigs, e.hash)
  {
    hide Lint, Step, Signers, Genuine, Correct, Apart;
    var front, last := batches[..|batches| - 1], batches[|batches| - 1];
    var at := Chain(c, chain, front);
    if i == |front| {
      assert batches[..i] == front;
      ChainIsGenuine(c, chain, front);
      DistributedIsAccepted(c, at.pk, last, at, e, k);
    } else {
      assert front[..i] == batches[..i];
      SignedIsListed(c, chain, front, i, e, k);
      WrittenKeeps(c, at, last, e.hash, k);
    }
  }

  // ---------------------------------------------------------------- when the two ends fall out of step

  /** Keys, hashes and signatures that are all the same number. */
  function PlainCrypto(): Crypto {
    Crypto(p => p, sk => sk, sk => sk, _ => 0, (sk, h) => Some(0), (p, h, sig) => true)
  }

  /** A batch needing keys 1 and 2, signed in a session that only has key 1: key 1 is marked as sent and never was. */
  lemma FailedLintExample()
    ensures var link := Link(map[], Conversation(Some(7), {}), Plugin(map[], map[]), Conversation(Some(7), {}));
            var after := Act(PlainCrypto(), Client, Server, link, Transmit([Outgoing(Some([1, 2]), 5)], [1]));
            InStep(link) && !InStep(after) && after.receiver == link.receiver
  {
    var c, raw, keys := PlainCrypto(), [Outgoing(Some([1, 2]), 5)], [1];
    var conv := Conversation(Some(7), {});
    assert AllKeys(raw) == [1, 2] by {
      assert AllKeys(raw[1..]) == [];
    }
    assert SortDedup([1, 2]) == [1, 2] by {
      assert [1, 2][1..] == [2] && [2][1..] == [];
      assert SortDedup([2]) == [2];
      assert InsertSorted([2], 1) == [1, 2];
    }
    assert Unproven([1, 2], {}) == [1, 2] by {
      assert [1, 2][1..] == [2] && [2][1..] == [];
      assert Unproven([2], {}) == [2];
    }
    var auths := [1, 2];
    assert auths[..1] == [1] && auths[..1][..0] == [];
    assert FindKey(c, keys, 1) == Some(1) && FindKey(c, keys, 2) == None;
    var one := LintKeys(c, map[], Client, Some(conv), raw, keys, auths[..1]);
    assert one.result.Linted? && 1 in one.conv.value.proven;
    assert LintKeys(c, map[], Client, Some(conv), raw, keys, auths) == one.(result := MissingWriteKey(2));
  }

  // ---------------------------------------------------------------- the plugin

  class ConversationSession {
    var id: Option<Hash>
    var signatures: set<Hash>

    constructor (id: Option<Hash>)
      ensures this.id == id && signatures == {}
    {
      this.id, signatures := id, {};
    }
  }

  ghost function ViewOf(s: ConversationSession?): Option<Conversation>
    reads s
  {
    if s == null then None else Some(Conversation(s.id, s.signatures))
  }

  ghost function Footprint(s: ConversationSession?): set<object> {
    if s == null then {} else {s}
  }

  /** Once a signature has failed, nothing after it is looked at. */
  lemma {:induction false} AbsorbStops(c: Crypto, mode: TrustMode, pk: Keys, sigs: Sigs, conv: Option<Conversation>,
                                       metas: seq<Meta>, i: nat)
    requires i <= |metas| && Absorb(c, mode, pk, sigs, conv, metas[..i]).result != Accepted
    ensures Absorb(c, mode, pk, sigs, conv, metas) == Absorb(c, mode, pk, sigs, conv, metas[..i])
  {
    hide Check, Record, Prove;
    if i < |metas| {
      assert metas[..|metas| - 1][..i] == metas[..i];
      AbsorbStops(c, mode, pk, sigs, conv, metas[..|metas| - 1], i);
    } else {
      assert metas[..i] == metas;
    }
  }

  lemma {:induction false} LintStops(c: Crypto, pk: Keys, mode: TrustMode, conv: Option<Conversation>,
                                     raw: seq<Outgoing>, keys: seq<PrivateKey>, auths: seq<Hash>, i: nat)
    requires i <= |auths| && !LintKeys(c, pk, mode, conv, raw, keys, auths[..i]).result.Linted?
    ensures LintKeys(c, pk, mode, conv, raw, keys, auths) == LintKeys(c, pk, mode, conv, raw, keys, auths[..i])
  {
    hide FindKey, SignedHashes, Sent;
    if i < |auths| {
      assert auths[..|auths| - 1][..i] == auths[..i];
      LintStops(c, pk, mode, conv, raw, keys, auths[..|auths| - 1], i);
    } else {
      assert auths[..i] == auths;
    }
  }

  class SignaturePlugin {
    const crypto: Crypto
    var pk: Keys
    var sigs: Sigs
    var integrity: TrustMode

    constructor (crypto: Crypto)
      ensures this.crypto == crypto && pk == map[] && sigs == map[] && integrity == Distributed
    {
      this.crypto, pk, sigs, integrity := crypto, map[], map[], Distributed;
    }

    /** Take in an event: first its public keys, then its signatures until one fails. */
    method Feed(metas: seq<Meta>, conversation: ConversationSession?) returns (r: FeedResult)
      modifies this`pk, this`sigs, Footprint(conversation)
      ensures pk == Learn(crypto, old(pk), metas)
      ensures Progress(sigs, ViewOf(conversation), r) ==
              Absorb(crypto, integrity, pk, old(sigs), old(ViewOf(conversation)), metas)
    {
      hide Check, Learn, Record, Prove;
      LearnKeys(metas);
      assert metas[..|metas|] == metas;
      ghost var keys := pk;
      for i := 0 to |metas|
        invariant pk == keys
        invariant Progress(sigs, ViewOf(conversation), Accepted) ==
                  Absorb(crypto, integrity, keys, old(sigs), old(ViewOf(conversation)), metas[..i])
      {
        assert metas[..i + 1][..i] == metas[..i];
        if metas[i].SigMeta? {
          r := FeedSignature(metas[i].sig, conversation);
          if r != Accepted {
            AbsorbStops(crypto, integrity, keys, old(sigs), old(ViewOf(conversation)), metas, i + 1);
            return;
          }
        }
      }
      r := Accepted;
    }

    /** Store the public keys among the metadata. */
    method LearnKeys(metas: seq<Meta>)
      modifies this`pk
      ensures pk == Learn(crypto, old(pk), metas)
    {
      for i := 0 to |metas|
        invariant pk == Learn(crypto, old(pk), metas[..i])
      {
        assert metas[..i + 1][..i] == metas[..i];
        if metas[i].KeyMeta? {
          pk := pk[crypto.hashOf(metas[i].pk) := metas[i].pk];
        }
      }
      assert metas[..|metas|] == metas;
    }

    /** Verify one signature, record it for every hash it covers and, in a conversation, take it as proof. */
    method FeedSignature(sig: MetaSignature, conversation: ConversationSession?) returns (r: FeedResult)
      modifies this`sigs, Footprint(conversation)
      ensures r == Check(crypto, integrity, pk, sig)
      ensures sigs == if r == Accepted then Record(old(sigs), sig.hashes, sig.keyHash) else old(sigs)
      ensures ViewOf(conversation) ==
              if r == Accepted then Prove(integrity, old(ViewOf(conversation)), sig) else old(ViewOf(conversation))
    {
      if integrity == Distributed || integrity == Server {
        if sig.keyHash !in pk {
          return MissingPublicKey(sig.keyHash);
        }
        if !crypto.verify(pk[sig.keyHash], crypto.digest(sig.hashes), sig.signature) {
          return InvalidSignature(sig.keyHash);
        }
      }
      for j := 0 to |sig.hashes|
        invariant sigs == Record(old(sigs), sig.hashes[..j], sig.keyHash)
        invariant ViewOf(conversation) == old(ViewOf(conversation))
      {
        assert sig.hashes[..j + 1][..j] == sig.hashes[..j];
        var h := sig.hashes[j];
        sigs := sigs[h := Signers(sigs, h) + [sig.keyHash]];
      }
      assert sig.hashes[..|sig.hashes|] == sig.hashes;
      if Centralized(integrity) && conversation != null && conversation.id.Some? &&
          conversation.id.value in sig.hashes {
        conversation.signatures := conversation.signatures + {sig.keyHash};
      }
      return Accepted;
    }

    method Clear()
      modifies this`pk, this`sigs
      ensures pk == map[] && sigs == map[]
    {
      pk, sigs := map[], map[];
    }

    /** Sign the batch with one key. */
    method SignWith(auth: Hash, raw: seq<Outgoing>, keys: seq<PrivateKey>, conversation: ConversationSession?,
                    metas: seq<Meta>)
      returns (r: LintResult)
      modifies Footprint(conversation)
      ensures LintState(ViewOf(conversation), r) ==
              SignOne(crypto, pk, integrity, old(ViewOf(conversation)), raw, keys,
                      LintState(old(ViewOf(conversation)), Linted(metas)), auth)
      ensures conversation != null ==> conversation.id == old(conversation.id)
    {
      hide FindKey, EventHashes;
      var sk := FindKey(crypto, keys, auth);
      if sk.None? {
        return MissingWriteKey(auth);
      }
      var hashes := [];
      if Centralized(integrity) && conversation != null && conversation.id.Some? {
        hashes := [conversation.id.value];
      }
      hashes := hashes + EventHashes(raw, auth);
      var sig := crypto.sign(sk.value, crypto.digest(hashes));
      if sig.None? {
        return SignFailed(auth);
      }
      var announce := if auth !in pk || Centralized(integrity) then [KeyMeta(crypto.publicOf(sk.value))] else [];
      if Centralized(integrity) && conversation != null {
        conversation.signatures := conversation.signatures + {auth};
      }
      return Linted(metas + announce + [SigMeta(MetaSignature(hashes, sig.value, auth))]);
    }

    /** Sign a batch of outgoing events with every key they require that is not yet proven. */
    method MetadataLintMany(raw: seq<Outgoing>, keys: seq<PrivateKey>,
                            conversation: ConversationSession?) returns (r: LintResult)
      modifies Footprint(conversation)
      ensures LintState(ViewOf(conversation), r) == Lint(crypto, pk, integrity, old(ViewOf(conversation)), raw, keys)
    {
      hide EventHashes, AllKeys, SortDedup, SignOne;
      if |raw| <= 0 {
        NothingNeeded(integrity, ViewOf(conversation));
        return Linted([]);
      }
      var auths := SortDedup(AllKeys(raw));
      if Centralized(integrity) && conversation != null {
        auths := Unproven(auths, conversation.signatures);
      }
      ghost var conv := ViewOf(conversation);
      var metas := [];
      r := Linted([]);
      for i := 0 to |auths|
        invariant conversation != null ==> conversation.id == old(conversation.id)
        invariant LintState(ViewOf(conversation), Linted(metas)) ==
                  LintKeys(crypto, pk, integrity, conv, raw, keys, auths[..i])
      {
        var auth := auths[i];
        assert auths[..i + 1][..i] == auths[..i];
        SameIdSigns(crypto, pk, integrity, conv, ViewOf(conversation), raw, keys, metas, auth);
        r := SignWith(auth, raw, keys, conversation, metas);
        if !r.Linted? {
          LintStops(crypto, pk, integrity, conv, raw, keys, auths, i + 1);
          return;
        }
        metas := r.metas;
      }
      assert auths[..|auths|] == auths;
      return Linted(metas);
    }
  }

  /** What is signed depends on the id of the conversation only, which signing never changes. */
  lemma SameIdSigns(c: Crypto, pk: Keys, mode: TrustMode, conv: Option<Conversation>, now: Option<Conversation>,
                    raw: seq<Outgoing>, keys: seq<PrivateKey>, metas: seq<Meta>, auth: Hash)
    requires conv.Some? == now.Some? && (conv.Some? ==> conv.value.id == now.value.id)
    ensures SignOne(c, pk, mode, conv, raw, keys, LintState(now, Linted(metas)), auth) ==
            SignOne(c, pk, mode, now, raw, keys, LintState(now, Linted(metas)), auth)
  {
  }

  lemma NothingNeeded(mode: TrustMode, conv: Option<Conversation>)
    ensures Needed(mode, conv, []) == []
  {
  }

  /** Drive a plugin through feeds and resets in one trust mode. */
  method Replay(c: Crypto, mode: TrustMode, inputs: seq<Input>) returns (st: Plugin)
    ensures st == Run(c, mode, inputs)
  {
    hide Learn, Absorb;
    var plugin := new SignaturePlugin(c);
    plugin.integrity := mode;
    for i := 0 to |inputs|
      invariant plugin.crypto == c && plugin.integrity == mode
      invariant Plugin(plugin.pk, plugin.sigs) == Run(c, mode, inputs[..i])
    {
      assert inputs[..i + 1][..i] == inputs[..i];
      match inputs[i] {
        case Reset => plugin.Clear();
        case Feeding(metas) => var _ := plugin.Feed(metas, null);
      }
    }
    assert inputs[..|inputs|] == inputs;
    return Plugin(plugin.pk, plugin.sigs);
  }
}
