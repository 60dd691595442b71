/**
 Headers-first sync (p2p/sync.go): the server's answer, the common-ancestor search, the header
 gate, and the header half of a sync round. A peer is whatever it answers.
 */
module Sync {
  import opened Types
  import opened Transition
  import opened Chain
  import opened ForkChoice
  import Pow

  const MAX_HEADERS: nat := 256

  const MAX_SYNC_MESSAGE: nat := 16 * 1024 * 1024

  /** An answer as it arrives: its size on the wire, and headers, some of which may be null. */
  datatype Answer = Answer(bytes: nat, headers: seq<Option<Header>>)

  /** First height and number asked for; an answer, or none. */
  type Peer = (nat, nat) -> Option<Answer>

  type Canon = map<nat, Header>

  datatype SyncError = BadAnswer | HeaderChain | Unlinked | FutureHeader

  // ----- serving -----

  /** Consecutive canonical headers, up to the first height that is missing. */
  function Served(canon: Canon, from: nat, n: nat): (r: seq<Option<Header>>)
    ensures |r| <= n && forall k :: from <= k < from + |r| ==> k in canon && r[k - from] == Some(canon[k])
    ensures n > 0 && from in canon ==> r != []
    decreases n
  {
    if n == 0 || from !in canon then [] else [Some(canon[from])] + Served(canon, from + 1, n - 1)
  }

  function Clamped(max: nat): nat { if max == 0 || max > MAX_HEADERS then MAX_HEADERS else max }

  method Serve(canon: Canon, from: nat, max: nat) returns (headers: seq<Option<Header>>)
    ensures headers == Served(canon, from, Clamped(max))
  {
    hide Clamped, Served;
    var n := Clamped(max);
    headers := [];
    ghost var all := Served(canon, from, n);
    ServedEnds(canon, from, n);
    for i := 0 to n
      invariant i <= |all| && headers == all[..i]
    {
      if from + i !in canon { return; }
      assert all[from + i - from] == Some(canon[from + i]);
      headers := headers + [Some(canon[from + i])];
    }
  }

  /** A peer that answers from the branch of one tip, within the message limit. */
  ghost predicate Honest(peer: Peer, tip: Header) {
    forall from, max :: peer(from, max).Some? && peer(from, max).value.bytes <= MAX_SYNC_MESSAGE &&
                        peer(from, max).value.headers == Served(CanonOf(tip), from, Clamped(max))
  }

  // ----- asking -----

  predicate NoNulls(hs: seq<Option<Header>>) { forall i :: 0 <= i < |hs| ==> hs[i].Some? }

  /** An answer that is not refused out of hand. */
  predicate Usable(answer: Option<Answer>) {
    && answer.Some? && answer.value.bytes <= MAX_SYNC_MESSAGE
    && |answer.value.headers| <= MAX_HEADERS && NoNulls(answer.value.headers)
  }

  ghost predicate Carries(answer: Option<Answer>, headers: Option<seq<Header>>) {
    && (headers.Some? <==> Usable(answer))
    && (headers.Some? ==>
          && |headers.value| == |answer.value.headers|
          && forall i :: 0 <= i < |headers.value| ==> answer.value.headers[i] == Some(headers.value[i]))
  }

  method GetHeaders(peer: Peer, start: nat) returns (headers: Option<seq<Header>>)
    ensures Carries(peer(start, MAX_HEADERS), headers)
  {
    var answer := peer(start, MAX_HEADERS);
    if answer.None? || answer.value.bytes > MAX_SYNC_MESSAGE || |answer.value.headers| > MAX_HEADERS { return None; }
    var got, out := answer.value.headers, [];
    for i := 0 to |got|
      invariant |out| == i && forall j :: 0 <= j < i ==> got[j] == Some(out[j])
    {
      if got[i].None? { return None; }
      out := out + [got[i].value];
    }
    return Some(out);
  }

  // ----- agreement -----

  /** Both branches have the same block at this height. */
  ghost predicate SharedAt(ours: Header, theirs: Header, n: nat) {
    n in CanonOf(ours) && n in CanonOf(theirs) && CanonOf(ours)[n] == CanonOf(theirs)[n]
  }

  /** A branch's block at height m determines the branch below it. */
  lemma {:induction false} BelowIsFixed(genesis: Header, h: Header, n: nat, m: nat)
    requires Linked(genesis, h) && n <= m <= h.height
    ensures m in CanonOf(h) && n in CanonOf(CanonOf(h)[m]) && n in CanonOf(h)
    ensures CanonOf(h)[n] == CanonOf(CanonOf(h)[m])[n]
  {
    LinkedCanon(genesis, h);
    if m < h.height { BelowIsFixed(genesis, h.parentHash.parent, n, m); }
  }

  /** Agreement is downward closed. */
  lemma SharedBelow(genesis: Header, ours: Header, theirs: Header, n: nat, m: nat)
    requires Linked(genesis, ours) && Linked(genesis, theirs) && n <= m && SharedAt(ours, theirs, m)
    ensures SharedAt(ours, theirs, n)
  {
    LinkedCanon(genesis, ours);
    LinkedCanon(genesis, theirs);
    BelowIsFixed(genesis, ours, n, m);
    BelowIsFixed(genesis, theirs, n, m);
  }

  /** The peer's one header at a height; anything else is an error. */
  function HeaderAt(peer: Peer, height: nat): Option<Header> {
    var answer := peer(height, 1);
    if answer.None? || answer.value.bytes > MAX_SYNC_MESSAGE then None
    else
      var hs := answer.value.headers;
      if hs == [] || hs[0].None? || hs[0].value.height != height then None else hs[0]
  }

  /** Whether the peer's block at a height is ours; None when either side has none to compare. */
  function AgreesAt(peer: Peer, canon: Canon, height: nat): Option<bool> {
    var h := HeaderAt(peer, height);
    if h.None? || height !in canon then None else Some(h.value == canon[height])
  }

  /** An honest peer's answers tell where the branches agree. */
  lemma HonestAgreement(genesis: Header, peer: Peer, ours: Header, theirs: Header, n: nat)
    requires Linked(genesis, ours) && Linked(genesis, theirs) && Honest(peer, theirs) && n <= ours.height
    requires n <= theirs.height
    ensures AgreesAt(peer, CanonOf(ours), n) == Some(SharedAt(ours, theirs, n))
  {
    hide Linked;
    LinkedCanon(genesis, ours);
    LinkedCanon(genesis, theirs);
    assert peer(n, 1).Some? && peer(n, 1).value.headers == Served(CanonOf(theirs), n, 1);
  }

  datatype Search = Failed | TooDeep | Found(height: nat)

  function Floor(head: nat, retention: nat): nat { if head > retention then head - retention else 0 }

  /**
   Binary search for the highest height at which the peer's branch is ours, not below the retention
   window. Whatever the peer answers, a height that is found was agreed on. Against an honest peer
   on a fork, it is the highest shared one, and the search gives up exactly when there is none.
   */
  method FindCommonAncestor(peer: Peer, canon: Canon, head: nat, retention: nat, ghost genesis: Header,
                            ghost ours: Header, ghost theirs: Header)
    returns (r: Search)
    ensures r.Found? ==> Floor(head, retention) <= r.height <= head && AgreesAt(peer, canon, r.height) == Some(true)
    ensures OnFork(genesis, peer, canon, head, ours, theirs) ==>
              && (r == TooDeep <==> !SharedAt(ours, theirs, Floor(head, retention))) && r != Failed
              && (r.Found? ==>
                    && SharedAt(ours, theirs, r.height)
                    && forall n :: r.height < n <= head ==> !SharedAt(ours, theirs, n))
  {
    hide Linked, Honest, SharedAt, AgreesAt;
    ghost var fork := OnFork(genesis, peer, canon, head, ours, theirs);
    var lo: nat := Floor(head, retention);
    if fork { HonestAgreement(genesis, peer, ours, theirs, lo); }
    var agree := AgreesAt(peer, canon, lo);
    if agree.None? { return Failed; }
    if !agree.value { return TooDeep; }
    var hi := head;
    while lo + 1 < hi
      invariant Floor(head, retention) <= lo <= hi <= head && AgreesAt(peer, canon, lo) == Some(true)
      invariant fork ==>
                  && SharedAt(ours, theirs, lo) && !SharedAt(ours, theirs, hi)
                  && SharedAt(ours, theirs, Floor(head, retention))
    {
      var mid := (lo + hi) / 2;
      if fork { HonestAgreement(genesis, peer, ours, theirs, mid); }
      agree := AgreesAt(peer, canon, mid);
      if agree.None? { return Failed; }
      if agree.value { lo := mid; } else { hi := mid; }
    }
    if fork { NothingAbove(genesis, ours, theirs, lo, hi); }
    return Found(lo);
  }

  /** An honest peer that reaches our height on another branch. */
  ghost predicate OnFork(genesis: Header, peer: Peer, canon: Canon, head: nat, ours: Header, theirs: Header) {
    && Linked(genesis, ours) && Linked(genesis, theirs) && Honest(peer, theirs)
    && canon == CanonOf(ours) && head == ours.height <= theirs.height && !SharedAt(ours, theirs, head)
  }

  lemma NothingAbove(genesis: Header, ours: Header, theirs: Header, lo: nat, hi: nat)
    requires Linked(genesis, ours) && Linked(genesis, theirs) && lo <= hi <= lo + 1
    requires SharedAt(ours, theirs, lo) && !SharedAt(ours, theirs, hi)
    ensures forall n :: lo < n ==> !SharedAt(ours, theirs, n)
  {
    forall n | lo < n ensures !SharedAt(ours, theirs, n) {
      if SharedAt(ours, theirs, n) { SharedBelow(genesis, ours, theirs, hi, n); }
    }
  }

  // ----- agreement and the fork -----

  lemma {:induction false} HigherIsAbove(genesis: Header, anc: Header, x: Header, tip: Header)
    requires Linked(genesis, tip) && Within(anc, tip) && Within(x, tip) && x.height > anc.height
    ensures Above(x, anc, tip)
  {
    HeightsFall(genesis, x, tip);
    if x != tip { HigherIsAbove(genesis, anc, x, tip.parentHash.parent); }
  }

  /** Two branches share exactly the heights up to their fork. */
  lemma SharedUpToFork(genesis: Header, ours: Header, theirs: Header, n: nat)
    requires Linked(genesis, ours) && Linked(genesis, theirs)
    ensures SharedAt(ours, theirs, n) <==> n <= ForkOf(ours, theirs).height
  {
    hide Linked, CanonOf;
    var anc := ForkOf(ours, theirs);
    ForkFacts(genesis, ours, theirs);
    LinkedCanon(genesis, ours);
    LinkedCanon(genesis, theirs);
    assert SharedAt(ours, theirs, anc.height);
    if n <= anc.height {
      SharedBelow(genesis, ours, theirs, n, anc.height);
    } else if SharedAt(ours, theirs, n) {
      HigherIsAbove(genesis, anc, CanonOf(theirs)[n], theirs);
    }
  }

  // ----- the header gate -----

  /** The first header is a child of the block we hold below it. */
  predicate Attached(headers: seq<Header>, start: nat, canon: Canon)
    requires headers != [] && start >= 1
  {
    start - 1 in canon && headers[0].parentHash == Child(canon[start - 1])
  }

  predicate Follows(headers: seq<Header>, i: nat)
    requires i < |headers|
  {
    i > 0 ==> headers[i].height == headers[i - 1].height + 1 && headers[i].parentHash == Child(headers[i - 1])
  }

  /** The work the header claims was done. */
  predicate Worked(digest: Digest, h: Header) {
    h.difficulty >= Pow.MIN_DIFFICULTY && digest(h) <= Pow.PowTarget(h.difficulty)
  }

  predicate DatedAhead(now: int, h: Header) { h.timestamp > now + MAX_FUTURE_DRIFT_MS }

  predicate Fine(headers: seq<Header>, i: nat, digest: Digest, now: int)
    requires i < |headers|
  {
    Follows(headers, i) && !DatedAhead(now, headers[i]) && Worked(digest, headers[i])
  }

  /** A batch worth fetching bodies for: it starts where asked, hangs on our chain, links, and shows its work. */
  ghost predicate Acceptable(headers: seq<Header>, start: nat, canon: Canon, digest: Digest, now: int)
    requires headers != [] && start >= 1
  {
    && headers[0].height == start && Attached(headers, start, canon)
    && forall i :: 0 <= i < |headers| ==> Fine(headers, i, digest, now)
  }

  /** What passes extends our chain: each header lies on a branch from genesis through our block below the batch. */
  lemma {:induction false} AcceptableExtends(genesis: Header, ours: Header, headers: seq<Header>, start: nat,
                                             digest: Digest, now: int, i: nat)
    requires Linked(genesis, ours) && 1 <= start <= ours.height + 1 && i < |headers|
    requires Acceptable(headers, start, CanonOf(ours), digest, now)
    ensures start - 1 in CanonOf(ours) && Within(CanonOf(ours)[start - 1], headers[i])
    ensures Linked(genesis, headers[i]) && headers[i].height == start + i && headers[i].timestamp <= now + 15_000
    ensures headers[i].difficulty >= 1 && digest(headers[i]) <= Pow.PowTarget(headers[i].difficulty)
  {
    hide CanonOf;
    LinkedCanon(genesis, ours);
    assert Fine(headers, i, digest, now);
    var base := CanonOf(ours)[start - 1];
    if i == 0 {
      HeightsFall(genesis, base, ours);
      assert Within(base, base);
    } else {
      AcceptableExtends(genesis, ours, headers, start, digest, now, i - 1);
    }
  }

  /** The first header at fault links but is dated ahead. */
  ghost predicate AheadFirst(headers: seq<Header>, digest: Digest, now: int) {
    exists i :: 0 <= i < |headers| && Follows(headers, i) && DatedAhead(now, headers[i]) &&
                forall j :: 0 <= j < i ==> Fine(headers, j, digest, now)
  }

  /**
   Passes exactly what is acceptable. Three kinds of fault are told apart: a batch that does not attach
   to our block, one whose first fault is a header dated ahead, and every other.
   */
  method CheckHeaderChain(headers: seq<Header>, start: nat, canon: Canon, digest: Digest, now: int)
    returns (err: Option<SyncError>)
    requires headers != [] && start >= 1
    ensures err.None? <==> Acceptable(headers, start, canon, digest, now)
    ensures err == Some(Unlinked) <==> headers[0].height == start && !Attached(headers, start, canon)
    ensures err == Some(FutureHeader) <==>
              headers[0].height == start && Attached(headers, start, canon) && AheadFirst(headers, digest, now)
    ensures err.None? || err.value in {Unlinked, FutureHeader, HeaderChain}
  {
    hide Follows, Worked, AheadFirst;
    if headers[0].height != start { return Some(HeaderChain); }
    if start - 1 !in canon { return Some(Unlinked); }
    if headers[0].parentHash != Child(canon[start - 1]) { return Some(Unlinked); }
    for i := 0 to |headers|
      invariant forall j :: 0 <= j < i ==> Fine(headers, j, digest, now)
    {
      var linked := Links(headers, i);
      FirstFault(headers, i, digest, now);
      assert Fine(headers, i, digest, now) ==> linked;
      if !linked { return Some(HeaderChain); }
      if headers[i].timestamp > now + MAX_FUTURE_DRIFT_MS { return Some(FutureHeader); }
      var worked := VerifyHeaderPoW(headers[i], digest);
      if !worked { return Some(HeaderChain); }
    }
    NoFault(headers, digest, now);
    return None;
  }

  /** Linkage to the header before: height first, then hash. */
  method Links(headers: seq<Header>, i: nat) returns (ok: bool)
    requires i < |headers|
    ensures ok == Follows(headers, i)
  {
    if i > 0 {
      if headers[i].height != headers[i - 1].height + 1 { return false; }
      if headers[i].parentHash != Child(headers[i - 1]) { return false; }
    }
    return true;
  }

  method VerifyHeaderPoW(h: Header, digest: Digest) returns (ok: bool)
    ensures ok == Worked(digest, h)
  {
    if h.difficulty < Pow.MIN_DIFFICULTY { return false; }
    return digest(h) <= Pow.PowTarget(h.difficulty);
  }

  /** The first header at fault decides. */
  lemma FirstFault(headers: seq<Header>, i: nat, digest: Digest, now: int)
    requires i < |headers| && forall j :: 0 <= j < i ==> Fine(headers, j, digest, now)
    ensures !Fine(headers, i, digest, now) ==>
              (AheadFirst(headers, digest, now) <==> Follows(headers, i) && DatedAhead(now, headers[i]))
  {
    hide Follows, Worked, DatedAhead;
    if !Fine(headers, i, digest, now) && AheadFirst(headers, digest, now) {
      var k :| 0 <= k < |headers| && Follows(headers, k) && DatedAhead(now, headers[k]) &&
               forall j :: 0 <= j < k ==> Fine(headers, j, digest, now);
      assert !Fine(headers, k, digest, now);
    }
  }

  lemma NoFault(headers: seq<Header>, digest: Digest, now: int)
    requires forall j :: 0 <= j < |headers| ==> Fine(headers, j, digest, now)
    ensures !AheadFirst(headers, digest, now)
  {
    hide Follows, Worked, DatedAhead;
    forall k | 0 <= k < |headers| ensures !DatedAhead(now, headers[k]) {
      assert Fine(headers, k, digest, now);
    }
  }

  // ----- the header half of a round -----

  /** Nothing to do, no answer, a future tip, a fork too deep, a lie, or a batch to fetch bodies for. */
  datatype Round = CaughtUp | NoAnswer | Deferred | ForkTooDeep | Penalised | Fetch(start: nat, headers: seq<Header>)

  /** Every header of the branch above genesis shows its work. */
  ghost predicate Mined(tip: Header, digest: Digest) {
    forall n :: n in CanonOf(tip) && n > 0 ==> Worked(digest, CanonOf(tip)[n])
  }

  /** One of the headers that a request for those above `from` brings is dated ahead of our clock. */
  ghost predicate Late(tip: Header, from: nat, now: int) {
    exists n :: from < n <= from + MAX_HEADERS && n in CanonOf(tip) && DatedAhead(now, CanonOf(tip)[n])
  }

  /** All of the branch from a height on, up to its tip or the limit. */
  ghost predicate Everything(headers: seq<Header>, tip: Header, start: nat) {
    && |headers| == (if tip.height + 1 - start < 256 then tip.height + 1 - start else 256)
    && forall n :: start <= n < start + |headers| ==> n in CanonOf(tip) && headers[n - start] == CanonOf(tip)[n]
  }

  /**
   Asks for what is above our head; if that does not attach, looks for the common ancestor and asks
   again from there. Whoever the peer is, what is fetched hangs on our chain and shows its work. For an
   honest peer, the outcome is decided by where the branches fork and whether the batch above the
   fork holds a header dated ahead: on our own head that is deferred, on a fork it is penalised.
   */
  method HeaderRound(peer: Peer, ours: Header, retention: nat, digest: Digest, now: int,
                     ghost genesis: Header, ghost theirs: Header)
    returns (r: Round)
    ensures r.Fetch? ==> r.headers != [] && r.start >= 1 && Acceptable(r.headers, r.start, CanonOf(ours), digest, now)
    ensures Linked(genesis, ours) && Linked(genesis, theirs) && Honest(peer, theirs) && Mined(theirs, digest) ==>
              var fork, ahead := ForkOf(ours, theirs).height, theirs.height > ours.height;
              && r != NoAnswer
              && (r == CaughtUp <==> !ahead)
              && (r == ForkTooDeep <==> ahead && fork + retention < ours.height)
              && (r == Deferred <==> ahead && fork == ours.height && Late(theirs, fork, now))
              && (r == Penalised <==>
                    ahead && fork < ours.height <= fork + retention && Late(theirs, fork, now))
              && (r.Fetch? <==> ahead && ours.height <= fork + retention && !Late(theirs, fork, now))
              && (r.Fetch? ==> r.start == fork + 1 && Everything(r.headers, theirs, fork + 1))
  {
    hide Linked, Honest, SharedAt, Acceptable, Mined, Attached, Late, AheadFirst, Carries, Everything;
    ghost var linked := Linked(genesis, ours) && Linked(genesis, theirs);
    ghost var honest := linked && Honest(peer, theirs) && Mined(theirs, digest);
    var canon := CanonOf(ours);
    var start: nat := ours.height + 1;
    var answer := GetHeaders(peer, start);
    if honest {
      ForkBelow(genesis, ours, theirs, retention);
      HonestHeaders(genesis, peer, ours, theirs, start, answer, digest, now);
    }
    if answer.None? { return NoAnswer; }
    if answer.value == [] { return CaughtUp; }
    var err := CheckHeaderChain(answer.value, start, canon, digest, now);
    if err.None? { return Fetch(start, answer.value); }
    if err == Some(FutureHeader) { return Deferred; }
    if err != Some(Unlinked) { return Penalised; }
    var anc := FindCommonAncestor(peer, canon, start - 1, retention, genesis, ours, theirs);
    if anc.Failed? { return NoAnswer; }
    if anc.TooDeep? { return ForkTooDeep; }
    start := anc.height + 1;
    answer := GetHeaders(peer, start);
    if honest {
      FoundIsFork(genesis, ours, theirs, anc.height);
      HonestHeaders(genesis, peer, ours, theirs, start, answer, digest, now);
    }
    if answer.None? { return NoAnswer; }
    if answer.value == [] { return CaughtUp; }
    err := CheckHeaderChain(answer.value, start, canon, digest, now);
    if err.Some? { return Penalised; }
    return Fetch(start, answer.value);
  }

  /** The fork is not above our head, and decides what is shared. */
  lemma ForkBelow(genesis: Header, ours: Header, theirs: Header, retention: nat)
    requires Linked(genesis, ours) && Linked(genesis, theirs)
    ensures ForkOf(ours, theirs).height <= ours.height && ForkOf(ours, theirs).height <= theirs.height
    ensures forall n: nat :: SharedAt(ours, theirs, n) <==> n <= ForkOf(ours, theirs).height
  {
    ForkFacts(genesis, ours, theirs);
    HeightsFall(genesis, ForkOf(ours, theirs), ours);
    HeightsFall(genesis, ForkOf(ours, theirs), theirs);
    forall n: nat ensures SharedAt(ours, theirs, n) <==> n <= ForkOf(ours, theirs).height {
      SharedUpToFork(genesis, ours, theirs, n);
    }
  }

  lemma FoundIsFork(genesis: Header, ours: Header, theirs: Header, n: nat)
    requires Linked(genesis, ours) && Linked(genesis, theirs) && SharedAt(ours, theirs, n) && n <= ours.height
    requires forall k :: n < k <= ours.height ==> !SharedAt(ours, theirs, k)
    ensures n == ForkOf(ours, theirs).height
  {
    hide SharedAt, Linked;
    ForkBelow(genesis, ours, theirs, 0);
    assert SharedAt(ours, theirs, ForkOf(ours, theirs).height);
  }

  /** An honest answer from just above the fork or below attaches; its only possible fault is a late header. */
  lemma HonestHeaders(genesis: Header, peer: Peer, ours: Header, theirs: Header, start: nat,
                      answer: Option<seq<Header>>,
                      digest: Digest, now: int)
    requires Linked(genesis, ours) && Linked(genesis, theirs) && Honest(peer, theirs) && Mined(theirs, digest)
    requires 1 <= start <= ours.height + 1 && Carries(peer(start, MAX_HEADERS), answer)
    ensures answer.Some? && (answer.value == [] <==> theirs.height < start)
    ensures answer.value != [] ==> Everything(answer.value, theirs, start)
    ensures answer.value != [] ==>
              var attached := SharedAt(ours, theirs, start - 1);
              && answer.value[0].height == start && (Attached(answer.value, start, CanonOf(ours)) <==> attached)
              && (Acceptable(answer.value, start, CanonOf(ours), digest, now) <==>
                    attached && !Late(theirs, start - 1, now))
              && (AheadFirst(answer.value, digest, now) <==> Late(theirs, start - 1, now))
  {
    hide Linked, Mined, CanonOf, Served, SharedAt, Attached, Acceptable, Slice, Late, AheadFirst, Everything;
    var served := Served(CanonOf(theirs), start, MAX_HEADERS);
    assert peer(start, MAX_HEADERS).Some? && peer(start, MAX_HEADERS).value.headers == served;
    AnswerIsSlice(served, answer, CanonOf(theirs), start);
    LinkedCanon(genesis, theirs);
    if answer.value != [] {
      SliceIsAll(theirs, start, answer.value);
      SliceFaults(genesis, ours, theirs, start, answer.value, digest, now);
    }
  }

  /** Consecutive blocks of a height map: as many as there are, up to the limit. */
  ghost predicate Slice(headers: seq<Header>, canon: Canon, start: nat) {
    && (forall k :: start <= k < start + |headers| ==> k in canon && headers[k - start] == canon[k])
    && |headers| <= MAX_HEADERS && (|headers| < MAX_HEADERS ==> start + |headers| !in canon)
  }

  lemma SliceIsAll(tip: Header, start: nat, headers: seq<Header>)
    requires Slice(headers, CanonOf(tip), start) && headers != []
    requires forall n: nat :: n in CanonOf(tip) <==> n <= tip.height
    ensures Everything(headers, tip, start)
  {
    hide CanonOf;
    assert start + |headers| - 1 in CanonOf(tip);
  }

  lemma {:induction false} ServedEnds(canon: Canon, from: nat, n: nat)
    ensures |Served(canon, from, n)| < n ==> from + |Served(canon, from, n)| !in canon
    decreases n
  {
    if n > 0 && from in canon { ServedEnds(canon, from + 1, n - 1); }
  }

  lemma AnswerIsSlice(served: seq<Option<Header>>, answer: Option<seq<Header>>, canon: Canon, start: nat)
    requires served == Served(canon, start, MAX_HEADERS)
    requires answer.Some? <==> |served| <= MAX_HEADERS && NoNulls(served)
    requires answer.Some? ==> |answer.value| == |served| && forall i :: 0 <= i < |answer.value| ==>
               served[i] == Some(answer.value[i])
    ensures answer.Some? && Slice(answer.value, canon, start) && (answer.value == [] <==> start !in canon)
  {
    ServedEnds(canon, start, MAX_HEADERS);
    hide Served;
    assert forall k :: start <= k < start + |served| ==> k in canon && served[k - start] == Some(canon[k]);
    forall i | 0 <= i < |served| ensures served[i].Some? {
      assert start + i in canon;
    }
  }

  lemma SliceFaults(genesis: Header, ours: Header, theirs: Header, start: nat, headers: seq<Header>, digest: Digest,
                    now: int)
    requires Linked(genesis, ours) && Linked(genesis, theirs) && Mined(theirs, digest)
    requires 1 <= start <= ours.height + 1 && headers != [] && Slice(headers, CanonOf(theirs), start)
    ensures headers[0].height == start
    ensures Attached(headers, start, CanonOf(ours)) <==> SharedAt(ours, theirs, start - 1)
    ensures var attached := SharedAt(ours, theirs, start - 1);
            Acceptable(headers, start, CanonOf(ours), digest, now) <==> attached && !Late(theirs, start - 1, now)
    ensures AheadFirst(headers, digest, now) <==> Late(theirs, start - 1, now)
  {
    hide Linked, CanonOf, Worked, DatedAhead, Late, AheadFirst, Fine;
    LinkedCanon(genesis, ours);
    LinkedCanon(genesis, theirs);
    assert start in CanonOf(theirs);
    ParentAt(genesis, theirs, start);
    forall i | 0 <= i < |headers| ensures Follows(headers, i) && Worked(digest, headers[i]) {
      assert start + i in CanonOf(theirs);
      if i > 0 {
        assert start + i - 1 in CanonOf(theirs);
        ParentAt(genesis, theirs, start + i);
      }
    }
    LateInSlice(theirs, start, headers, now);
    OnlyLate(headers, digest, now);
  }

  /** Where nothing else is wrong, a late header is the only fault. */
  lemma OnlyLate(headers: seq<Header>, digest: Digest, now: int)
    requires forall i :: 0 <= i < |headers| ==> Follows(headers, i) && Worked(digest, headers[i])
    ensures (forall i :: 0 <= i < |headers| ==> Fine(headers, i, digest, now)) <==>
              !exists i :: 0 <= i < |headers| && DatedAhead(now, headers[i])
    ensures AheadFirst(headers, digest, now) <==> exists i :: 0 <= i < |headers| && DatedAhead(now, headers[i])
  {
    hide Worked, DatedAhead, Follows, AheadFirst;
    if i :| 0 <= i < |headers| && DatedAhead(now, headers[i]) {
      assert !Fine(headers, i, digest, now);
      FirstAhead(headers, i, digest, now);
    } else {
      NoFault(headers, digest, now);
    }
  }

  lemma LateInSlice(theirs: Header, start: nat, headers: seq<Header>, now: int)
    requires start >= 1 && Slice(headers, CanonOf(theirs), start)
    requires forall n: nat :: n in CanonOf(theirs) <==> n <= theirs.height
    ensures Late(theirs, start - 1, now) <==> exists i :: 0 <= i < |headers| && DatedAhead(now, headers[i])
  {
    hide CanonOf, DatedAhead;
    var canon := CanonOf(theirs);
    if Late(theirs, start - 1, now) {
      var n :| start - 1 < n <= start - 1 + MAX_HEADERS && n in canon && DatedAhead(now, canon[n]);
      assert n < start + |headers|;
      assert DatedAhead(now, headers[n - start]);
    }
    if i :| 0 <= i < |headers| && DatedAhead(now, headers[i]) {
      assert start + i in canon && headers[start + i - start] == canon[start + i];
    }
  }

  /** Of several late headers there is a first. */
  lemma {:induction false} FirstAhead(headers: seq<Header>, k: nat, digest: Digest, now: int)
    requires forall i :: 0 <= i < |headers| ==> Follows(headers, i) && Worked(digest, headers[i])
    requires k < |headers| && DatedAhead(now, headers[k])
    ensures AheadFirst(headers, digest, now)
    decreases k
  {
    hide Worked, DatedAhead, Follows;
    if j :| 0 <= j < k && DatedAhead(now, headers[j]) {
      FirstAhead(headers, j, digest, now);
    } else {
      assert forall j :: 0 <= j < k ==> Fine(headers, j, digest, now);
    }
  }

  /** On a linked branch, each block's parent is the block one below. */
  lemma {:induction false} ParentAt(genesis: Header, h: Header, n: nat)
    requires Linked(genesis, h) && 1 <= n <= h.height
    ensures n in CanonOf(h) && n - 1 in CanonOf(h) && CanonOf(h)[n].parentHash == Child(CanonOf(h)[n - 1])
  {
    if n == h.height {
      LinkedCanon(genesis, h.parentHash.parent);
    } else {
      ParentAt(genesis, h.parentHash.parent, n);
    }
  }

  // ----- an honest peer that is penalised -----

  /** A peer that serves one branch. */
  function Server(tip: Header): Peer {
    (from: nat, max: nat) => Some(Answer(0, Served(CanonOf(tip), from, Clamped(max))))
  }

  function EmptyBlock(parent: Header, timestamp: int, miner: Address): Header {
    Header(Child(parent), parent.height + 1, timestamp, [], 0, 0, 0, MIN_BLOCK_GAS_LIMIT, miner, 1, 0)
  }

  /**
   We stand on one block above genesis, an honest peer on two others, whose tip is dated a minute ahead
   of our clock. The peer is penalised, although a late header is meant to be deferred without a penalty.
   The hash function is any that meets difficulty 1 on the peer's two headers.
   */
  method HonestForkPenalised(digest: Digest, now: int) returns (r: Round)
    requires var genesis := Header(Origin(1), 0, 0, [], 0, 0, 0, MIN_BLOCK_GAS_LIMIT, 0, 1, 0);
             var first := EmptyBlock(genesis, now - 1, 2);
             digest(first) < TWO_256 && digest(EmptyBlock(first, now + 60_000, 2)) < TWO_256
    ensures r == Penalised
  {
    hide Served, Pow.PowTarget;
    var genesis := Header(Origin(1), 0, 0, [], 0, 0, 0, MIN_BLOCK_GAS_LIMIT, 0, 1, 0);
    var ours, first := EmptyBlock(genesis, now - 1, 1), EmptyBlock(genesis, now - 1, 2);
    var theirs := EmptyBlock(first, now + 60_000, 2);
    assert Linked(genesis, genesis) && Linked(genesis, ours) && Linked(genesis, first) && Linked(genesis, theirs);
    assert !Within(first, genesis) && !Within(theirs, genesis) && first.proposer != ours.proposer;
    assert !Within(theirs, ours) && !Within(first, ours) && Within(genesis, ours);
    assert ForkOf(ours, first) == genesis;
    assert ForkOf(ours, theirs) == genesis;
    assert CanonOf(genesis) == map[0 := genesis] && CanonOf(first) == map[0 := genesis, 1 := first];
    assert CanonOf(theirs) == map[0 := genesis, 1 := first, 2 := theirs];
    assert Worked(digest, first) && Worked(digest, theirs) by { EasyTarget(); }
    assert DatedAhead(now, CanonOf(theirs)[2]);
    r := HeaderRound(Server(theirs), ours, 128, digest, now, genesis, theirs);
  }

  lemma EasyTarget()
    ensures Pow.PowTarget(1) == TWO_256 - 1
  {
  }
}
