/**
 The hash-chained audit log: entries, the hash over `prev_hash|event_type|payload_json`, the chain
 verifier, and what an accepted log proves about its contents.

 SHA-256 is a parameter `H`. It cannot be injective on all strings, so the results ask only that it
 has no collision, and does not hit the genesis value, on the texts that the logs at hand hash.
 */
module AuditLog {
  import opened Prelude
  import opened Sorting
  import opened CanonicalJson
  import opened JsonDecoding
  import opened JsonIdentity
  import opened JsonValues

  predicate IsHex64(s: string) {
    |s| == 64 && forall i :: 0 <= i < 64 ==> '0' <= s[i] <= '9' || 'a' <= s[i] <= 'f'
  }

  function Zeros(n: nat): (s: string)
    ensures |s| == n && forall i :: 0 <= i < n ==> s[i] == '0'
  {
    if n == 0 then "" else "0" + Zeros(n - 1)
  }

  type Digest = s: string | IsHex64(s) witness Zeros(64)

  /** The hexadecimal digest of a text. */
  type Hash = string -> Digest

  const GENESIS_HASH: Digest := Zeros(64)

  type Uuid = n: nat | n < 0x1_0000_0000_0000_0000_0000_0000_0000_0000

  datatype Entry = Entry(
    escrowId: Uuid,
    sequenceNo: nat,
    eventType: string,
    payloadJson: string,
    prevHash: string,
    entryHash: string,
    createdAt: int)

  // ---------------------------------------------------------------------------------------------
  // Hashing
  // ---------------------------------------------------------------------------------------------

  function Join(separator: string, parts: seq<string>): string {
    if parts == [] then ""
    else if |parts| == 1 then parts[0]
    else parts[0] + separator + Join(separator, parts[1..])
  }

  function Preimage(prevHash: string, eventType: string, payloadJson: string): string {
    Join("|", [prevHash, eventType, payloadJson])
  }

  function Compute(H: Hash, prevHash: string, eventType: string, payloadJson: string): Digest {
    H(Preimage(prevHash, eventType, payloadJson))
  }

  function PreimageOf(e: Entry): string {
    Preimage(e.prevHash, e.eventType, e.payloadJson)
  }

  predicate HashConsistent(H: Hash, e: Entry) {
    e.entryHash == Compute(H, e.prevHash, e.eventType, e.payloadJson)
  }

  function CreateEntry(H: Hash, escrowId: Uuid, sequenceNo: nat, eventType: string, payload: Dict,
                       prevHash: string, now: int): (e: Entry)
    ensures HashConsistent(H, e)
  {
    var payloadJson := Dumps(payload);
    Entry(escrowId, sequenceNo, eventType, payloadJson, prevHash,
          Compute(H, prevHash, eventType, payloadJson), now)
  }

  lemma PreimageText(p: string, e: string, j: string)
    ensures Preimage(p, e, j) == p + ("|" + (e + "|" + j))
  {
    assert [p, e, j][1..] == [e, j] && [e, j][1..] == [j];
    assert Join("|", [j]) == j;
    assert Join("|", [e, j]) == e + "|" + j;
    assert Join("|", [p, e, j]) == p + "|" + Join("|", [e, j]);
  }

  /**
   What a created entry records: its arguments, a payload text that reads back as a value equal to the
   payload with rising keys, and the hash of the three parts joined by bars.
   */
  lemma CreatedEntryRecords(H: Hash, escrowId: Uuid, sequenceNo: nat, eventType: string, payload: Dict,
                            prevHash: string, now: int) returns (v: Json)
    ensures var e := CreateEntry(H, escrowId, sequenceNo, eventType, payload, prevHash, now);
      && e.escrowId == escrowId && e.sequenceNo == sequenceNo && e.eventType == eventType
      && e.prevHash == prevHash && e.createdAt == now
      && ReadValue(e.payloadJson) == Some((v, "")) && Same(v, Obj(payload)) && KeysRise(v)
      && e.entryHash == H(prevHash + ("|" + (eventType + "|" + e.payloadJson)))
  {
    v := PayloadTextReadsBack(payload);
    PreimageText(prevHash, eventType, Dumps(payload));
  }

  /** Where the last '|' before a balanced payload stands is forced, so the body splits one way. */
  lemma BodyUnique(e: string, j: string, e': string, j': string)
    requires Balanced(j) && Balanced(j')
    requires e + "|" + j == e' + "|" + j'
    ensures e == e' && j == j'
  {
    if |e| < |e'| {
      LongerEvent(e, j, e', j');
    } else if |e'| < |e| {
      LongerEvent(e', j', e, j);
    } else {
      assert e == (e + "|" + j)[..|e|] && e' == (e' + "|" + j')[..|e'|];
      assert j == (e + "|" + j)[|e| + 1..] && j' == (e' + "|" + j')[|e'| + 1..];
    }
  }

  lemma LongerEvent(e: string, j: string, e': string, j': string)
    requires Balanced(j')
    requires |e| < |e'| && e + "|" + j == e' + "|" + j'
    ensures !Balanced(j)
  {
    var whole := e + "|" + j;
    var x := e'[|e| + 1..];
    assert j == whole[|e| + 1..];
    assert x + "|" + j' == whole[|e| + 1..] by {
      assert whole == e' + "|" + j';
      assert e' == e'[..|e| + 1] + x;
      assert whole == e'[..|e| + 1] + (x + "|" + j');
    }
    NoBalancedSuffixAfterBar(x, j');
  }

  /** The hashed text determines its three parts, even when the event name contains '|'. */
  lemma PreimageDetermines(p: string, e: string, j: string, p': string, e': string, j': string)
    requires |p| == |p'| && Balanced(j) && Balanced(j')
    ensures Preimage(p, e, j) == Preimage(p', e', j') <==> p == p' && e == e' && j == j'
  {
    PreimageHead(p, e, j, p', e', j');
    if Preimage(p, e, j) == Preimage(p', e', j') {
      BodyUnique(e, j, e', j');
    }
  }

  /** For any payload text, the hashed text determines the previous hash and the joined rest. */
  lemma PreimageHead(p: string, e: string, j: string, p': string, e': string, j': string)
    requires |p| == |p'|
    ensures Preimage(p, e, j) == Preimage(p', e', j') <==> p == p' && e + "|" + j == e' + "|" + j'
  {
    PreimageText(p, e, j);
    PreimageText(p', e', j');
    var b, b' := "|" + (e + "|" + j), "|" + (e' + "|" + j');
    if p + b == p' + b' {
      assert p == (p + b)[..|p|] && b == (p + b)[|p|..];
      assert p' == (p' + b')[..|p'|] && b' == (p' + b')[|p'|..];
      assert e + "|" + j == b[1..] && e' + "|" + j' == b'[1..];
    }
  }

  /** The whole input of one append: the hash text fixes the event and the payload as a typed JSON value. */
  lemma PreimageDeterminesPayload(p: Digest, e: string, d: Dict, p': Digest, e': string, d': Dict)
    ensures Preimage(p, e, Dumps(d)) == Preimage(p', e', Dumps(d'))
       <==> p == p' && e == e' && Same(Obj(d), Obj(d'))
  {
    DumpsBalanced(d);
    DumpsBalanced(d');
    PreimageDetermines(p, e, Dumps(d), p', e', Dumps(d'));
    PayloadTextDecidesPayload(d, d');
  }

  // ---------------------------------------------------------------------------------------------
  // Chains
  // ---------------------------------------------------------------------------------------------

  function PrevHashAt(es: seq<Entry>, i: nat): string
    requires i < |es|
  {
    if i == 0 then GENESIS_HASH else es[i - 1].entryHash
  }

  /** The hash the next entry after these must name. */
  function LastHash(es: seq<Entry>): string {
    if es == [] then GENESIS_HASH else es[|es| - 1].entryHash
  }

  predicate SoundAt(H: Hash, es: seq<Entry>, i: nat)
    requires i < |es|
  {
    HashConsistent(H, es[i]) && es[i].prevHash == PrevHashAt(es, i)
  }

  /** A genesis-rooted chain: every entry hashes right and links to its predecessor. */
  ghost predicate Chain(H: Hash, es: seq<Entry>) {
    forall i :: 0 <= i < |es| ==> SoundAt(H, es, i)
  }

  predicate BySequence(a: Entry, b: Entry) {
    a.sequenceNo <= b.sequenceNo
  }

  function SortBySequence(es: seq<Entry>): (r: seq<Entry>)
    ensures SortedBy(r, BySequence) && multiset(r) == multiset(es) && |r| == |es|
  {
    Sort(es, BySequence)
  }

  /** What the verifier answers valid to. */
  ghost predicate Accepted(H: Hash, es: seq<Entry>) {
    Chain(H, SortBySequence(es))
  }

  /** `p` is the entry of the list numbered just below `e`. */
  ghost predicate Precedes(es: seq<Entry>, p: Entry, e: Entry) {
    && p in es
    && p.sequenceNo < e.sequenceNo
    && forall q :: q in es ==> q.sequenceNo <= p.sequenceNo || e.sequenceNo <= q.sequenceNo
  }

  ghost predicate First(es: seq<Entry>, e: Entry) {
    forall q :: q in es ==> e.sequenceNo <= q.sequenceNo
  }

  /** An entry of an unordered list whose hash and link are both right. */
  ghost predicate Sound(H: Hash, es: seq<Entry>, e: Entry) {
    && HashConsistent(H, e)
    && (if First(es, e) then e.prevHash == GENESIS_HASH
        else exists p :: Precedes(es, p, e) && e.prevHash == p.entryHash)
  }

  ghost predicate NumbersApart(a: Entry, b: Entry) {
    a.sequenceNo != b.sequenceNo
  }

  /** No two positions of the list carry the same number. */
  ghost predicate DistinctlyNumbered(es: seq<Entry>) {
    PairwiseApart(es, NumbersApart)
  }

  ghost predicate StrictlyNumbered(es: seq<Entry>) {
    forall i, j :: 0 <= i < j < |es| ==> es[i].sequenceNo < es[j].sequenceNo
  }

  lemma SortStrictly(es: seq<Entry>)
    requires DistinctlyNumbered(es)
    ensures StrictlyNumbered(SortBySequence(es))
  {
    var s := SortBySequence(es);
    PermutedApart(es, s, NumbersApart);
    forall i, j | 0 <= i < j < |s|
      ensures s[i].sequenceNo < s[j].sequenceNo
    {
      assert NumbersApart(s[i], s[j]) && BySequence(s[i], s[j]);
    }
  }

  /** A list already in order, given in any order, sorts to itself. */
  lemma SortRestores(s: seq<Entry>, es: seq<Entry>)
    requires StrictlyNumbered(s) && multiset(es) == multiset(s)
    ensures SortBySequence(es) == s
  {
    var r := SortBySequence(es);
    assert Distinguishes(s, BySequence);
    SortedUnique(s, r, BySequence);
  }

  /** In a list sorted by distinct numbers, the entry numbered just below another is its neighbour. */
  lemma NeighbourPrecedes(es: seq<Entry>, s: seq<Entry>, i: nat)
    requires StrictlyNumbered(s) && multiset(s) == multiset(es) && i < |s|
    ensures First(es, s[i]) <==> i == 0
    ensures i > 0 ==> Precedes(es, s[i - 1], s[i]) && forall p :: Precedes(es, p, s[i]) ==> p == s[i - 1]
  {
    SameMembers(s, es);
    forall q | q in es
      ensures exists k :: 0 <= k < |s| && s[k] == q
    {
      assert q in s;
    }
    if i > 0 {
      assert s[i - 1] in s;
      forall p | Precedes(es, p, s[i])
        ensures p == s[i - 1]
      {
        var k :| 0 <= k < |s| && s[k] == p;
      }
    }
  }

  /** Soundness by position is soundness by neighbour. */
  lemma SoundByPosition(H: Hash, es: seq<Entry>, s: seq<Entry>, i: nat)
    requires StrictlyNumbered(s) && multiset(s) == multiset(es) && i < |s|
    ensures Sound(H, es, s[i]) <==> SoundAt(H, s, i)
  {
    NeighbourPrecedes(es, s, i);
  }

  /** The verdict on a list: valid, or the least number at which an entry is not sound. */
  ghost predicate Verdict(H: Hash, es: seq<Entry>, valid: bool, firstInvalid: Option<nat>) {
    && (valid <==> firstInvalid == None)
    && (valid <==> forall e :: e in es ==> Sound(H, es, e))
    && (firstInvalid.Some? ==>
          && (exists e :: e in es && !Sound(H, es, e) && e.sequenceNo == firstInvalid.value)
          && (forall e :: e in es && !Sound(H, es, e) ==> firstInvalid.value <= e.sequenceNo))
  }

  lemma PositionsDecide(H: Hash, es: seq<Entry>, s: seq<Entry>)
    requires StrictlyNumbered(s) && multiset(s) == multiset(es)
    ensures forall i :: 0 <= i < |s| ==> (Sound(H, es, s[i]) <==> SoundAt(H, s, i))
    ensures forall e :: e in es ==> exists i :: 0 <= i < |s| && s[i] == e
    ensures forall i :: 0 <= i < |s| ==> s[i] in es
  {
    SameMembers(s, es);
    forall i | 0 <= i < |s|
      ensures Sound(H, es, s[i]) <==> SoundAt(H, s, i)
    {
      SoundByPosition(H, es, s, i);
    }
  }

  lemma AllPositionsSound(H: Hash, es: seq<Entry>, s: seq<Entry>)
    requires StrictlyNumbered(s) && multiset(s) == multiset(es)
    requires forall i :: 0 <= i < |s| ==> SoundAt(H, s, i)
    ensures forall e :: e in es ==> Sound(H, es, e)
  {
    PositionsDecide(H, es, s);
  }

  lemma FirstBadPosition(H: Hash, es: seq<Entry>, s: seq<Entry>, k: nat)
    requires StrictlyNumbered(s) && multiset(s) == multiset(es) && k < |s|
    requires forall i :: 0 <= i < k ==> SoundAt(H, s, i)
    requires !SoundAt(H, s, k)
    ensures s[k] in es && !Sound(H, es, s[k])
    ensures forall e :: e in es && !Sound(H, es, e) ==> s[k].sequenceNo <= e.sequenceNo
  {
    SameMembers(s, es);
    SoundByPosition(H, es, s, k);
    forall e | e in es && !Sound(H, es, e)
      ensures s[k].sequenceNo <= e.sequenceNo
    {
      assert e in s;
      var i :| 0 <= i < |s| && s[i] == e;
      SoundByPosition(H, es, s, i);
    }
  }

  /** Stopping at the first bad position of the sorted list gives the verdict on the list. */
  lemma SortedVerdict(H: Hash, es: seq<Entry>, s: seq<Entry>, k: nat)
    requires StrictlyNumbered(s) && multiset(s) == multiset(es)
    requires k <= |s|
    requires forall i :: 0 <= i < k ==> SoundAt(H, s, i)
    requires k < |s| ==> !SoundAt(H, s, k)
    ensures Verdict(H, es, k == |s|, if k == |s| then None else Some(s[k].sequenceNo))
  {
    if k == |s| {
      AllPositionsSound(H, es, s);
    } else {
      FirstBadPosition(H, es, s, k);
    }
  }

  /** The first position at which the pass over `s` stops, or its end. */
  ghost predicate StopsAt(H: Hash, s: seq<Entry>, k: nat) {
    && k <= |s|
    && (forall i :: 0 <= i < k ==> SoundAt(H, s, i))
    && (k < |s| ==> !SoundAt(H, s, k))
  }

  lemma ListVerdict(H: Hash, es: seq<Entry>, s: seq<Entry>, k: nat, valid: bool, firstInvalid: Option<nat>)
    requires s == SortBySequence(es) && StopsAt(H, s, k)
    requires valid <==> k == |s|
    requires firstInvalid == if k == |s| then None else Some(s[k].sequenceNo)
    ensures valid <==> Accepted(H, es)
    ensures DistinctlyNumbered(es) ==> Verdict(H, es, valid, firstInvalid)
  {
    if DistinctlyNumbered(es) {
      SortStrictly(es);
      SortedVerdict(H, es, s, k);
    }
  }

  /** The number reported belongs to the first bad position, repeated numbers or not. */
  ghost predicate ReportsAt(H: Hash, s: seq<Entry>, number: nat) {
    exists k :: 0 <= k < |s| && StopsAt(H, s, k) && s[k].sequenceNo == number
  }

  /**
   The chain verifier: one pass over the entries in sequence order, carrying the hash the next
   entry must name.
   */
  method Verify(H: Hash, entries: seq<Entry>) returns (valid: bool, firstInvalid: Option<nat>)
    ensures valid <==> Accepted(H, entries)
    ensures DistinctlyNumbered(entries) ==> Verdict(H, entries, valid, firstInvalid)
    ensures firstInvalid.Some? ==> ReportsAt(H, SortBySequence(entries), firstInvalid.value)
  {
    if entries == [] {
      ListVerdict(H, entries, [], 0, true, None);
      return true, None;
    }
    var sorted := SortBySequence(entries);
    var expectedPrev: string := GENESIS_HASH;
    for k := 0 to |sorted|
      invariant forall i :: 0 <= i < k ==> SoundAt(H, sorted, i)
      invariant k < |sorted| ==> expectedPrev == PrevHashAt(sorted, k)
    {
      var entry := sorted[k];
      if !HashConsistent(H, entry) || entry.prevHash != expectedPrev {
        assert StopsAt(H, sorted, k);
        ListVerdict(H, entries, sorted, k, false, Some(entry.sequenceNo));
        return false, Some(entry.sequenceNo);
      }
      expectedPrev := entry.entryHash;
    }
    ListVerdict(H, entries, sorted, |sorted|, true, None);
    return true, None;
  }

  // ---------------------------------------------------------------------------------------------
  // What the verifier accepts
  // ---------------------------------------------------------------------------------------------

  /** `r` is `es` with other sequence numbers, escrow and timestamps. */
  ghost predicate Renumbered(es: seq<Entry>, r: seq<Entry>) {
    && |r| == |es|
    && forall i :: 0 <= i < |es| ==>
         && r[i].eventType == es[i].eventType
         && r[i].payloadJson == es[i].payloadJson
         && r[i].prevHash == es[i].prevHash
         && r[i].entryHash == es[i].entryHash
  }

  /**
   Any prefix of a chain, renumbered by any strictly increasing numbers and handed over in any
   order, is accepted: neither the escrow nor the sequence number is hashed.
   */
  lemma RenumberedPrefixAccepted(H: Hash, es: seq<Entry>, k: nat, r: seq<Entry>, shuffled: seq<Entry>)
    requires Chain(H, es) && k <= |es|
    requires Renumbered(es[..k], r) && StrictlyNumbered(r)
    requires multiset(shuffled) == multiset(r)
    ensures Accepted(H, shuffled)
  {
    SortRestores(r, shuffled);
    forall i | 0 <= i < |r|
      ensures SoundAt(H, r, i)
    {
      assert SoundAt(H, es, i);
      assert r[i].prevHash == es[..k][i].prevHash;
      assert i > 0 ==> r[i - 1].entryHash == es[..k][i - 1].entryHash;
    }
  }

  // ---------------------------------------------------------------------------------------------
  // Tamper evidence
  // ---------------------------------------------------------------------------------------------

  ghost function HashedTexts(es: seq<Entry>): set<string> {
    set i | 0 <= i < |es| :: PreimageOf(es[i])
  }

  /** On these texts the hash has no collision and never returns the genesis value. */
  ghost predicate CollisionFree(H: Hash, texts: set<string>) {
    && (forall x, y :: x in texts && y in texts && H(x) == H(y) ==> x == y)
    && (forall x :: x in texts ==> H(x) != GENESIS_HASH)
  }

  lemma ChainPrevLength(H: Hash, es: seq<Entry>, i: nat)
    requires Chain(H, es) && i < |es|
    ensures |es[i].prevHash| == 64
    ensures es[i].entryHash == H(PreimageOf(es[i]))
  {
    assert SoundAt(H, es, i);
    if i > 0 {
      assert SoundAt(H, es, i - 1);
    }
  }

  /** Two chained entries share a hash exactly when the texts hashed are the same. */
  lemma HashMeetsText(H: Hash, a: seq<Entry>, b: seq<Entry>, i: nat, j: nat)
    requires Chain(H, a) && Chain(H, b) && i < |a| && j < |b|
    requires CollisionFree(H, HashedTexts(a) + HashedTexts(b))
    ensures a[i].entryHash == b[j].entryHash
       <==> && a[i].prevHash == b[j].prevHash
            && a[i].eventType + "|" + a[i].payloadJson == b[j].eventType + "|" + b[j].payloadJson
    ensures a[i].entryHash != GENESIS_HASH
  {
    ChainPrevLength(H, a, i);
    ChainPrevLength(H, b, j);
    assert PreimageOf(a[i]) in HashedTexts(a) && PreimageOf(b[j]) in HashedTexts(b);
    PreimageHead(a[i].prevHash, a[i].eventType, a[i].payloadJson,
                 b[j].prevHash, b[j].eventType, b[j].payloadJson);
  }

  /** Event and payload, joined as they are hashed, agree at every position up to `n`. */
  ghost predicate SameTextsUpTo(a: seq<Entry>, b: seq<Entry>, n: nat) {
    && n < |a| && n < |b|
    && forall k :: 0 <= k <= n ==>
         a[k].eventType + "|" + a[k].payloadJson == b[k].eventType + "|" + b[k].payloadJson
  }

  /** Event and payload agree at every position up to `n`. */
  ghost predicate SameHistory(a: seq<Entry>, b: seq<Entry>, n: nat) {
    && n < |a| && n < |b|
    && forall k :: 0 <= k <= n ==> a[k].eventType == b[k].eventType && a[k].payloadJson == b[k].payloadJson
  }

  ghost predicate BalancedPayloads(es: seq<Entry>) {
    forall i :: 0 <= i < |es| ==> Balanced(es[i].payloadJson)
  }

  /** A genesis-linked entry shares its hash with no entry further along. */
  lemma FirstEntryApart(H: Hash, a: seq<Entry>, b: seq<Entry>, j: nat)
    requires Chain(H, a) && Chain(H, b) && a != [] && 0 < j < |b|
    requires CollisionFree(H, HashedTexts(a) + HashedTexts(b))
    ensures a[0].entryHash != b[j].entryHash
  {
    HashMeetsText(H, a, b, 0, j);
    assert SoundAt(H, a, 0) && SoundAt(H, b, j);
    assert HashedTexts(b) + HashedTexts(a) == HashedTexts(a) + HashedTexts(b);
    HashMeetsText(H, b, a, j - 1, 0);
  }

  /** Two chained entries share a hash exactly when position and all hashed text so far agree. */
  lemma {:induction false} HashMeetsTexts(H: Hash, a: seq<Entry>, b: seq<Entry>, i: nat, j: nat)
    requires Chain(H, a) && Chain(H, b) && i < |a| && j < |b|
    requires CollisionFree(H, HashedTexts(a) + HashedTexts(b))
    ensures a[i].entryHash == b[j].entryHash <==> i == j && SameTextsUpTo(a, b, i)
    decreases i
  {
    if i == 0 && j == 0 {
      HashMeetsText(H, a, b, 0, 0);
      ChainLink(H, a, 0);
      ChainLink(H, b, 0);
    } else if i == 0 {
      FirstEntryApart(H, a, b, j);
    } else if j == 0 {
      assert HashedTexts(b) + HashedTexts(a) == HashedTexts(a) + HashedTexts(b);
      FirstEntryApart(H, b, a, i);
    } else {
      HashMeetsTexts(H, a, b, i - 1, j - 1);
      NextHashMeetsTexts(H, a, b, i, j);
    }
  }

  /** From one position to the next. */
  lemma NextHashMeetsTexts(H: Hash, a: seq<Entry>, b: seq<Entry>, i: nat, j: nat)
    requires Chain(H, a) && Chain(H, b) && 0 < i < |a| && 0 < j < |b|
    requires CollisionFree(H, HashedTexts(a) + HashedTexts(b))
    requires a[i - 1].entryHash == b[j - 1].entryHash <==> i == j && SameTextsUpTo(a, b, i - 1)
    ensures a[i].entryHash == b[j].entryHash <==> i == j && SameTextsUpTo(a, b, i)
  {
    HashMeetsText(H, a, b, i, j);
    ChainLink(H, a, i);
    ChainLink(H, b, j);
    if i == j {
      SameTextsStep(a, b, i);
    }
  }

  lemma SameTextsStep(a: seq<Entry>, b: seq<Entry>, i: nat)
    requires 0 < i < |a| && i < |b|
    ensures SameTextsUpTo(a, b, i) <==>
      && SameTextsUpTo(a, b, i - 1)
      && a[i].eventType + "|" + a[i].payloadJson == b[i].eventType + "|" + b[i].payloadJson
  {
  }

  lemma ChainLink(H: Hash, es: seq<Entry>, i: nat)
    requires Chain(H, es) && i < |es|
    ensures es[i].prevHash == PrevHashAt(es, i)
  {
    assert SoundAt(H, es, i);
  }

  /**
   Entry hashes identify histories: two chained entries with balanced payloads share a hash exactly
   when they stand at the same position after identical events and payloads.
   */
  lemma HashMeetsHistory(H: Hash, a: seq<Entry>, b: seq<Entry>, i: nat, j: nat)
    requires Chain(H, a) && Chain(H, b) && i < |a| && j < |b|
    requires BalancedPayloads(a) && BalancedPayloads(b)
    requires CollisionFree(H, HashedTexts(a) + HashedTexts(b))
    ensures a[i].entryHash == b[j].entryHash <==> i == j && SameHistory(a, b, i)
  {
    HashMeetsTexts(H, a, b, i, j);
    if i == j && SameTextsUpTo(a, b, i) {
      forall k | 0 <= k <= i
        ensures a[k].eventType == b[k].eventType && a[k].payloadJson == b[k].payloadJson
      {
        BodyUnique(a[k].eventType, a[k].payloadJson, b[k].eventType, b[k].payloadJson);
      }
    }
  }

  /**
   Two chains that end in the same hash have the same length, the same links and hashes, and the same
   hashed body at every position, whatever their payload texts are.
   */
  lemma SameFinalHashSameTexts(H: Hash, a: seq<Entry>, b: seq<Entry>)
    requires Chain(H, a) && Chain(H, b) && a != [] && b != []
    requires CollisionFree(H, HashedTexts(a) + HashedTexts(b))
    requires a[|a| - 1].entryHash == b[|b| - 1].entryHash
    ensures |a| == |b| && SameTextsUpTo(a, b, |a| - 1)
    ensures forall k :: 0 <= k < |a| ==> a[k].prevHash == b[k].prevHash && a[k].entryHash == b[k].entryHash
  {
    HashMeetsTexts(H, a, b, |a| - 1, |b| - 1);
    forall k | 0 <= k < |a|
      ensures a[k].prevHash == b[k].prevHash && a[k].entryHash == b[k].entryHash
    {
      assert SameTextsUpTo(a, b, k);
      HashMeetsTexts(H, a, b, k, k);
      HashMeetsText(H, a, b, k, k);
    }
  }

  /** Equal bodies under balanced payloads are equal events and payloads; under others they need not be. */
  lemma BalanceDecidesHistory(a: seq<Entry>, b: seq<Entry>)
    requires a != [] && |a| == |b| && SameTextsUpTo(a, b, |a| - 1) && BalancedPayloads(a)
    ensures SameHistory(a, b, |a| - 1) <==> BalancedPayloads(b)
  {
    if BalancedPayloads(b) {
      forall k | 0 <= k < |a|
        ensures a[k].eventType == b[k].eventType && a[k].payloadJson == b[k].payloadJson
      {
        BodyUnique(a[k].eventType, a[k].payloadJson, b[k].eventType, b[k].payloadJson);
      }
    }
  }

  /**
   A printed chain and any chain that ends in its last hash agree on length, links, hashes and hashed
   bodies. They agree on every event and payload exactly when the other's payloads are balanced too.
   */
  lemma SameFinalHashSameLog(H: Hash, a: seq<Entry>, b: seq<Entry>)
    requires Chain(H, a) && Chain(H, b) && a != [] && b != []
    requires BalancedPayloads(a)
    requires CollisionFree(H, HashedTexts(a) + HashedTexts(b))
    requires a[|a| - 1].entryHash == b[|b| - 1].entryHash
    ensures |a| == |b|
    ensures forall k :: 0 <= k < |a| ==> a[k].prevHash == b[k].prevHash && a[k].entryHash == b[k].entryHash
    ensures SameHistory(a, b, |a| - 1) <==> BalancedPayloads(b)
  {
    SameFinalHashSameTexts(H, a, b);
    BalanceDecidesHistory(a, b);
  }

  /** The last hash of a list as the verifier orders it. */
  function FinalHash(es: seq<Entry>): string {
    LastHash(SortBySequence(es))
  }

  /** Some hash of the two lists ties their ends together, and the hash has no collision on what they hash. */
  ghost predicate SameEnd(H: Hash, a: seq<Entry>, b: seq<Entry>) {
    && FinalHash(a) == FinalHash(b)
    && CollisionFree(H, HashedTexts(SortBySequence(a)) + HashedTexts(SortBySequence(b)))
  }

  /** What two accepted lists with one final hash always share: length, links, hashes and hashed bodies. */
  lemma AcceptedSameTexts(H: Hash, a: seq<Entry>, b: seq<Entry>)
    requires Accepted(H, a) && Accepted(H, b) && a != [] && b != [] && SameEnd(H, a, b)
    ensures |a| == |b| && SameTextsUpTo(SortBySequence(a), SortBySequence(b), |a| - 1)
    ensures var s, t := SortBySequence(a), SortBySequence(b);
      forall k :: 0 <= k < |a| ==> s[k].prevHash == t[k].prevHash && s[k].entryHash == t[k].entryHash
  {
    SameFinalHashSameTexts(H, SortBySequence(a), SortBySequence(b));
  }

  /**
   Tamper evidence. Against a list whose payloads a printer wrote, any list that the verifier accepts
   and that ends in the same hash holds the same events and payloads in the same order exactly when
   its own payloads are balanced, so a reader who checks that has the whole history.
   */
  lemma TamperEvidence(H: Hash, a: seq<Entry>, b: seq<Entry>)
    requires Accepted(H, a) && Accepted(H, b) && a != [] && b != [] && SameEnd(H, a, b)
    requires BalancedPayloads(a)
    ensures |a| == |b|
    ensures SameHistory(SortBySequence(a), SortBySequence(b), |a| - 1) <==> BalancedPayloads(b)
  {
    AcceptedSameTexts(H, a, b);
    SortedBalanced(a);
    SortedBalanced(b);
    BalanceDecidesHistory(SortBySequence(a), SortBySequence(b));
  }

  lemma SortedBalanced(a: seq<Entry>)
    ensures BalancedPayloads(SortBySequence(a)) <==> BalancedPayloads(a)
  {
    var s := SortBySequence(a);
    SameMembers(s, a);
    forall i | 0 <= i < |s|
      ensures s[i] in a
    {
      assert s[i] in s;
    }
    forall i | 0 <= i < |a|
      ensures a[i] in s
    {
      assert a[i] in a;
    }
  }

  // ---------------------------------------------------------------------------------------------
  // What the verifier alone cannot notice
  // ---------------------------------------------------------------------------------------------

  predicate BarFree(e: Entry) {
    '|' !in e.eventType && '|' !in e.payloadJson
  }

  ghost predicate BarFreeLog(es: seq<Entry>) {
    forall e :: e in es ==> BarFree(e)
  }

  /** A body with one bar splits one way. */
  lemma OneBarSplitsOneWay(e: string, j: string, e': string, j': string)
    requires '|' !in e && '|' !in j
    requires e + "|" + j == e' + "|" + j'
    ensures e == e' && j == j'
  {
    var whole := e + "|" + j;
    assert whole[|e|] == '|';
    assert whole == e' + "|" + j' && whole[|e'|] == '|';
    assert forall k :: 0 <= k < |e| ==> whole[k] == e[k];
    assert forall k :: |e| < k < |whole| ==> whole[k] == j[k - |e| - 1];
    assert |e| == |e'|;
    assert e == whole[..|e|] && e' == whole[..|e'|];
    assert j == whole[|e| + 1..] && j' == whole[|e'| + 1..];
  }

  /** A body with a further bar splits another way as well. */
  lemma FurtherBarSplitsAgain(e: Entry) returns (f: Entry)
    requires !BarFree(e)
    ensures f == e.(eventType := f.eventType, payloadJson := f.payloadJson)
    ensures f.eventType != e.eventType && f.payloadJson != e.payloadJson
    ensures f.eventType + "|" + f.payloadJson == e.eventType + "|" + e.payloadJson
  {
    if '|' in e.eventType {
      var k :| 0 <= k < |e.eventType| && e.eventType[k] == '|';
      f := e.(eventType := e.eventType[..k], payloadJson := e.eventType[k + 1..] + "|" + e.payloadJson);
      assert e.eventType == e.eventType[..k] + "|" + e.eventType[k + 1..];
    } else {
      var k :| 0 <= k < |e.payloadJson| && e.payloadJson[k] == '|';
      f := e.(eventType := e.eventType + "|" + e.payloadJson[..k], payloadJson := e.payloadJson[k + 1..]);
      assert e.payloadJson == e.payloadJson[..k] + "|" + e.payloadJson[k + 1..];
    }
    assert |f.eventType| != |e.eventType| && |f.payloadJson| != |e.payloadJson|;
  }

  /** Splitting one body another way leaves the chain, its numbers, hashes and hashed texts as they were. */
  lemma ResplitChain(H: Hash, s: seq<Entry>, i: nat, f: Entry)
    requires Chain(H, s) && i < |s|
    requires f == s[i].(eventType := f.eventType, payloadJson := f.payloadJson)
    requires f.eventType + "|" + f.payloadJson == s[i].eventType + "|" + s[i].payloadJson
    ensures Chain(H, s[i := f]) && HashedTexts(s[i := f]) == HashedTexts(s)
    ensures LastHash(s[i := f]) == LastHash(s)
  {
    var t := s[i := f];
    PreimageHead(f.prevHash, f.eventType, f.payloadJson, s[i].prevHash, s[i].eventType, s[i].payloadJson);
    assert forall k :: 0 <= k < |s| ==> PreimageOf(t[k]) == PreimageOf(s[k]);
    forall k | 0 <= k < |t|
      ensures SoundAt(H, t, k)
    {
      assert SoundAt(H, s, k);
    }
  }

  /** The verifier and the final hash alone fix every event and payload of the list. */
  ghost predicate Tamperproof(H: Hash, a: seq<Entry>) {
    forall b: seq<Entry> :: b != [] && Accepted(H, b) && SameEnd(H, a, b) ==>
      |a| == |b| && SameHistory(SortBySequence(a), SortBySequence(b), |a| - 1)
  }

  lemma BarFreeMatches(H: Hash, a: seq<Entry>, b: seq<Entry>)
    requires Accepted(H, a) && a != [] && BarFreeLog(a)
    requires b != [] && Accepted(H, b) && SameEnd(H, a, b)
    ensures |a| == |b| && SameHistory(SortBySequence(a), SortBySequence(b), |a| - 1)
  {
    var s, t := SortBySequence(a), SortBySequence(b);
    AcceptedSameTexts(H, a, b);
    SameMembers(s, a);
    forall k | 0 <= k < |s|
      ensures s[k].eventType == t[k].eventType && s[k].payloadJson == t[k].payloadJson
    {
      assert s[k] in s;
      OneBarSplitsOneWay(s[k].eventType, s[k].payloadJson, t[k].eventType, t[k].payloadJson);
    }
  }

  /** Sorting keeps a list that is in order already, equal numbers included. */
  lemma {:induction false} SortFixed(s: seq<Entry>)
    requires SortedBy(s, BySequence)
    ensures SortBySequence(s) == s
  {
    if s != [] {
      SortFixed(s[1..]);
      assert s == [s[0]] + s[1..];
      assert s[1..] != [] ==> BySequence(s[0], s[1..][0]);
    }
  }

  lemma ResplitSorted(s: seq<Entry>, i: nat, f: Entry)
    requires SortedBy(s, BySequence) && i < |s| && f.sequenceNo == s[i].sequenceNo
    ensures SortBySequence(s[i := f]) == s[i := f]
  {
    var t := s[i := f];
    forall k, l | 0 <= k < l < |t|
      ensures BySequence(t[k], t[l])
    {
      assert BySequence(s[k], s[l]);
    }
    SortFixed(t);
  }

  /** Splitting one body of an accepted list another way gives an accepted list with the same end. */
  lemma ResplitAlsoAccepted(H: Hash, a: seq<Entry>, s: seq<Entry>, i: nat, f: Entry)
    requires Accepted(H, a) && s == SortBySequence(a) && CollisionFree(H, HashedTexts(s)) && i < |s|
    requires f == s[i].(eventType := f.eventType, payloadJson := f.payloadJson)
    requires f.eventType + "|" + f.payloadJson == s[i].eventType + "|" + s[i].payloadJson
    ensures SortBySequence(s[i := f]) == s[i := f]
    ensures Accepted(H, s[i := f]) && SameEnd(H, a, s[i := f])
  {
    ResplitChain(H, s, i, f);
    ResplitSorted(s, i, f);
    assert HashedTexts(s) + HashedTexts(s[i := f]) == HashedTexts(s);
  }

  lemma HistoriesDifferAt(s: seq<Entry>, t: seq<Entry>, i: nat)
    requires i < |s| == |t| && s[i].eventType != t[i].eventType
    ensures !SameHistory(s, t, |s| - 1)
  {
  }

  /** A list with a further bar somewhere has an accepted double that differs there. */
  lemma BarredDouble(H: Hash, a: seq<Entry>) returns (b: seq<Entry>)
    requires Accepted(H, a) && !BarFreeLog(a) && CollisionFree(H, HashedTexts(SortBySequence(a)))
    ensures b != [] && |a| == |b| && Accepted(H, b) && SameEnd(H, a, b)
    ensures !SameHistory(SortBySequence(a), SortBySequence(b), |a| - 1)
  {
    var s := SortBySequence(a);
    SameMembers(s, a);
    var e :| e in a && !BarFree(e);
    assert e in s;
    var i :| 0 <= i < |s| && s[i] == e;
    var f := FurtherBarSplitsAgain(e);
    b := s[i := f];
    ResplitAlsoAccepted(H, a, s, i, f);
    HistoriesDifferAt(s, b, i);
  }

  /**
   Exactly when the verifier and the final hash are enough by themselves: when no event and no
   payload of the list contains a '|'. Otherwise another accepted list ends in the same hash.
   */
  lemma TamperproofIff(H: Hash, a: seq<Entry>)
    requires Accepted(H, a) && a != [] && CollisionFree(H, HashedTexts(SortBySequence(a)))
    ensures Tamperproof(H, a) <==> BarFreeLog(a)
  {
    if BarFreeLog(a) {
      forall b: seq<Entry> | b != [] && Accepted(H, b) && SameEnd(H, a, b)
        ensures |a| == |b| && SameHistory(SortBySequence(a), SortBySequence(b), |a| - 1)
      {
        BarFreeMatches(H, a, b);
      }
    } else {
      var b := BarredDouble(H, a);
    }
  }

  /**
   A genuine log that is not tamperproof: its one entry records the payload `{"k": "x|y"}`, and an
   accepted entry with the same hash carries another event and another payload text.
   */
  lemma UnbalancedPayloadsConfuse(H: Hash, escrowId: Uuid) returns (e: Entry, f: Entry)
    ensures e == CreateEntry(H, escrowId, 0, "A", [Member("k", Str("x|y"))], GENESIS_HASH, 0)
    ensures f.eventType == "A|{\"k\":\"x" && f.payloadJson == "y\"}"
    ensures Accepted(H, [e]) && Accepted(H, [f]) && e.entryHash == f.entryHash
    ensures e.eventType != f.eventType && e.payloadJson != f.payloadJson
    ensures BalancedPayloads([e]) && !BalancedPayloads([f])
  {
    e := SmallEntry(H, escrowId);
    f := e.(eventType := "A|{\"k\":\"x", payloadJson := "y\"}");
    SmallResplit();
    ResplitAccepted(H, e, f);
  }

  lemma SmallEntry(H: Hash, escrowId: Uuid) returns (e: Entry)
    ensures e == CreateEntry(H, escrowId, 0, "A", [Member("k", Str("x|y"))], GENESIS_HASH, 0)
    ensures e.eventType == "A" && e.payloadJson == "{\"k\":\"x|y\"}" && e.prevHash == GENESIS_HASH
    ensures HashConsistent(H, e) && Balanced(e.payloadJson)
  {
    var payload: Dict := [Member("k", Str("x|y"))];
    SmallPayloadText(payload);
    e := Recorded(H, escrowId, "A", payload, "{\"k\":\"x|y\"}");
  }

  /** A first entry, its payload's text known. */
  lemma Recorded(H: Hash, escrowId: Uuid, eventType: string, payload: Dict, text: string) returns (e: Entry)
    requires Dumps(payload) == text
    ensures e == CreateEntry(H, escrowId, 0, eventType, payload, GENESIS_HASH, 0)
    ensures e.eventType == eventType && e.payloadJson == text && e.prevHash == GENESIS_HASH
    ensures HashConsistent(H, e) && Balanced(e.payloadJson)
  {
    DumpsBalanced(payload);
    e := CreateEntry(H, escrowId, 0, eventType, payload, GENESIS_HASH, 0);
  }

  lemma SmallResplit()
    ensures "A|{\"k\":\"x" + "|" + "y\"}" == "A" + "|" + "{\"k\":\"x|y\"}"
  {
  }

  /** A first entry and the same entry with its body split another way. */
  lemma ResplitAccepted(H: Hash, e: Entry, f: Entry)
    requires HashConsistent(H, e) && e.prevHash == GENESIS_HASH && Balanced(e.payloadJson)
    requires f == e.(eventType := f.eventType, payloadJson := f.payloadJson)
    requires f.eventType + "|" + f.payloadJson == e.eventType + "|" + e.payloadJson
    requires |f.eventType| != |e.eventType|
    ensures Accepted(H, [e]) && Accepted(H, [f])
    ensures e.eventType != f.eventType && e.payloadJson != f.payloadJson
    ensures BalancedPayloads([e]) && !BalancedPayloads([f])
  {
    PreimageHead(GENESIS_HASH, e.eventType, e.payloadJson, GENESIS_HASH, f.eventType, f.payloadJson);
    SingleAccepted(H, e);
    SingleAccepted(H, f);
    assert |f.eventType| + |f.payloadJson| == |e.eventType| + |e.payloadJson|;
    if Balanced(f.payloadJson) {
      BodyUnique(e.eventType, e.payloadJson, f.eventType, f.payloadJson);
    }
    assert !Balanced([f][0].payloadJson);
  }

  lemma SmallPayloadText(payload: Dict)
    requires payload == [Member("k", Str("x|y"))]
    ensures Dumps(payload) == "{\"k\":\"x|y\"}"
  {
    SmallQuotes();
    SmallDumps(payload, "k", "x|y", "\"k\"", "\"x|y\"");
    SmallConcat();
  }

  lemma SmallConcat()
    ensures "{" + "\"k\"" + ":" + "\"x|y\"" + "}" == "{\"k\":\"x|y\"}"
  {
  }

  lemma SmallDumps(payload: Dict, key: string, text: string, k: string, t: string)
    requires payload == [Member(key, Str(text))] && Quote(key) == k && Quote(text) == t
    ensures Dumps(payload) == "{" + k + ":" + t + "}"
  {
    SmallCanon(key, text);
    SmallRender(key, text, k, t);
  }

  /** One string member is already in canonical form. */
  lemma SmallCanon(key: string, text: string)
    ensures Canon(Obj([Member(key, Str(text))])) == Obj([Member(key, Str(text))])
  {
    var ms := [Member(key, Str(text))];
    assert CanonMembers(ms) == ms;
    assert SortMembers(ms) == ms by {
      assert multiset(SortMembers(ms)) == multiset(ms);
      assert SortMembers(ms)[0] in multiset(ms);
    }
  }

  lemma SmallRender(key: string, text: string, k: string, t: string)
    requires Quote(key) == k && Quote(text) == t
    ensures Render(Obj([Member(key, Str(text))])) == "{" + k + ":" + t + "}"
  {
    var ms := [Member(key, Str(text))];
    assert ms[1..] == [];
    assert Render(Str(text)) == t;
    assert Render(Obj(ms)) == "{" + Quote(key) + ":" + Render(Str(text)) + RenderMembers(ms[1..]);
  }

  lemma SmallQuotes()
    ensures Quote("k") == "\"k\"" && Quote("x|y") == "\"x|y\""
  {
    assert "k"[1..] == "" && "x|y"[1..] == "|y" && "|y"[1..] == "y" && "y"[1..] == "";
    assert Escape("k") == "k";
    assert Escape("y") == "y";
    assert Escape("|y") == "|y";
    assert Escape("x|y") == "x|y";
  }

  lemma SingleAccepted(H: Hash, e: Entry)
    requires HashConsistent(H, e) && e.prevHash == GENESIS_HASH
    ensures Accepted(H, [e])
  {
    SortRestores([e], [e]);
    assert SoundAt(H, [e], 0);
  }
}
