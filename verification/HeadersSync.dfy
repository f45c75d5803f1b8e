/** Download-twice headers synchronisation: the protocol state, one transition per message of the peer, and
    the two theorems about whole runs. The header hash, the proof of a header, the difficulty rule and the
    salted hash bit are left open. */
module HeadersSync {

  const PERIOD := 584
  const BUFFER := 13959
  const WORK_MODULUS := 0x1_0000000000000000_0000000000000000_0000000000000000_0000000000000000

  type Hash = nat

  datatype Header = Header(version: int, prev: Hash, merkle: Hash, time: nat, bits: nat, nonce: nat)

  /** A header without the hash of its predecessor. */
  datatype Compressed = Compressed(version: int, merkle: Hash, time: nat, bits: nat, nonce: nat) {
    function Full(prev: Hash): Header {
      Header(version, prev, merkle, time, bits, nonce)
    }
  }

  function Compress(h: Header): Compressed {
    Compressed(h.version, h.merkle, h.time, h.bits, h.nonce)
  }

  const NULL := Header(0, 0, 0, 0, 0, 0)

  /** The fixed surroundings of one synchronisation. */
  datatype Config = Config(
    hash: Header -> Hash,
    proof: nat -> nat,
    permitted: (nat, nat, nat) -> bool,
    bit: Hash -> bool,
    start: Header,
    startHeight: nat,
    startWork: nat,
    offset: nat,
    minWork: nat,
    maxCommitments: nat)

  datatype Phase = Presync | Redownload | Final

  datatype State = State(
    phase: Phase,
    commitments: seq<bool>,
    currentWork: nat,
    lastReceived: Header,
    currentHeight: nat,
    buffer: seq<Compressed>,
    lastHeight: nat,
    lastHash: Hash,
    firstPrev: Hash,
    redownloadWork: nat,
    processAll: bool)

  datatype Result = Result(released: seq<Header>, success: bool, requestMore: bool)

  datatype Message = Message(headers: seq<Header>, full: bool)

  function Plus(a: nat, b: nat): nat {
    (a + b) % WORK_MODULUS
  }

  predicate Commits(c: Config, height: nat) {
    height % PERIOD == c.offset
  }

  function Initial(c: Config): State {
    State(Presync, [], c.startWork, c.start, c.startHeight, [], 0, 0, 0, 0, false)
  }

  // ---------- one message ----------

  function Finalized(s: State): State {
    s.(phase := Final, commitments := [], lastReceived := NULL, buffer := [], lastHash := 0, firstPrev := 0,
       processAll := false, currentHeight := 0)
  }

  function PresyncOne(c: Config, s: State, h: Header): (State, bool) {
    var next := s.currentHeight + 1;
    if !c.permitted(next, s.lastReceived.bits, h.bits) then (s, false)
    else
      var commitments := if Commits(c, next) then s.commitments + [c.bit(c.hash(h))] else s.commitments;
      if Commits(c, next) && |commitments| > c.maxCommitments then (s.(commitments := commitments), false)
      else (s.(commitments := commitments, currentWork := Plus(s.currentWork, c.proof(h.bits)),
               lastReceived := h, currentHeight := next), true)
  }

  function PresyncAll(c: Config, s: State, headers: seq<Header>): (State, bool)
    decreases |headers|
  {
    if headers == [] then (s, true)
    else
      var (t, ok) := PresyncOne(c, s, headers[0]);
      if ok then PresyncAll(c, t, headers[1..]) else (t, false)
  }

  function StartRedownload(c: Config, s: State): State {
    s.(phase := Redownload, buffer := [], lastHeight := c.startHeight, firstPrev := c.hash(c.start),
       lastHash := c.hash(c.start), redownloadWork := c.startWork)
  }

  /** The first phase: minimal validation, commitments, and the switch to the second phase. */
  function StoreCommitments(c: Config, s: State, headers: seq<Header>): (State, bool)
    requires headers != []
  {
    if headers[0].prev != c.hash(s.lastReceived) then (s, false)
    else
      var (t, ok) := PresyncAll(c, s, headers);
      if ok && t.currentWork >= c.minWork then (StartRedownload(c, t), true) else (t, ok)
  }

  /** The second phase, one header. */
  function RedownloadOne(c: Config, s: State, h: Header): (State, bool) {
    var next := s.lastHeight + 1;
    var bits := if s.buffer != [] then s.buffer[|s.buffer| - 1].bits else c.start.bits;
    if h.prev != s.lastHash || !c.permitted(next, bits, h.bits) then (s, false)
    else
      var work := Plus(s.redownloadWork, c.proof(h.bits));
      var t := s.(redownloadWork := work, processAll := s.processAll || work >= c.minWork);
      if !t.processAll && Commits(c, next) then
        if t.commitments == [] then (t, false)
        else
          var u := t.(commitments := t.commitments[1..]);
          if c.bit(c.hash(h)) != t.commitments[0] then (u, false) else (Stored(c, u, h), true)
      else (Stored(c, t, h), true)
  }

  function Stored(c: Config, s: State, h: Header): State {
    s.(buffer := s.buffer + [Compress(h)], lastHeight := s.lastHeight + 1, lastHash := c.hash(h))
  }

  function RedownloadAll(c: Config, s: State, headers: seq<Header>): (State, bool)
    decreases |headers|
  {
    if headers == [] then (s, true)
    else
      var (t, ok) := RedownloadOne(c, s, headers[0]);
      if ok then RedownloadAll(c, t, headers[1..]) else (t, false)
  }

  /** Restores the hashes that compression left out, given the one before the first header. */
  function Expand(c: Config, prev: Hash, buffer: seq<Compressed>): (r: seq<Header>)
    ensures |r| == |buffer|
    decreases |buffer|
  {
    if buffer == [] then []
    else
      var h := buffer[0].Full(prev);
      [h] + Expand(c, c.hash(h), buffer[1..])
  }

  /** How many headers leave the buffer. */
  function Ready(s: State): (n: nat)
    ensures n <= |s.buffer|
  {
    if s.processAll then |s.buffer| else if |s.buffer| > BUFFER then |s.buffer| - BUFFER else 0
  }

  function HashAfter(c: Config, prev: Hash, headers: seq<Header>): Hash {
    if headers == [] then prev else c.hash(headers[|headers| - 1])
  }

  function Pop(c: Config, s: State): (State, seq<Header>) {
    var released := Expand(c, s.firstPrev, s.buffer[..Ready(s)]);
    (s.(buffer := s.buffer[Ready(s)..], firstPrev := HashAfter(c, s.firstPrev, released)), released)
  }

  function Process(c: Config, s: State, m: Message): (State, Result) {
    if m.headers == [] || s.phase.Final? then (s, Result([], false, false))
    else
      var (t, r) :=
        if s.phase.Presync? then
          var (t, ok) := StoreCommitments(c, s, m.headers);
          (t, Result([], ok, ok && (m.full || t.phase.Redownload?)))
        else
          var (t, ok) := RedownloadAll(c, s, m.headers);
          if !ok then (t, Result([], false, false))
          else
            var (u, released) := Pop(c, t);
            (u, Result(released, true, !(u.buffer == [] && u.processAll) && m.full));
      (if r.success && r.requestMore then t else Finalized(t), r)
  }

  // ---------- what the messages are about ----------

  /** The last header of a chain that starts above the fork point. */
  function Last(c: Config, chain: seq<Header>): Header {
    if chain == [] then c.start else chain[|chain| - 1]
  }

  function Work(c: Config, chain: seq<Header>): nat {
    if chain == [] then c.startWork
    else Plus(Work(c, chain[..|chain| - 1]), c.proof(chain[|chain| - 1].bits))
  }

  /** The bits of the headers at commitment heights. */
  function CommitBits(c: Config, chain: seq<Header>): seq<bool> {
    if chain == [] then []
    else
      var b := if Commits(c, c.startHeight + |chain|) then [c.bit(c.hash(chain[|chain| - 1]))] else [];
      CommitBits(c, chain[..|chain| - 1]) + b
  }

  ghost predicate Linked(c: Config, chain: seq<Header>) {
    forall i :: 0 <= i < |chain| ==> chain[i].prev == c.hash(Last(c, chain[..i]))
  }

  ghost predicate Permitted(c: Config, chain: seq<Header>) {
    forall i :: 0 <= i < |chain| ==> PermittedAt(c, chain, i)
  }

  predicate PermittedAt(c: Config, chain: seq<Header>, i: nat)
    requires i < |chain|
  {
    c.permitted(c.startHeight + i + 1, Last(c, chain[..i]).bits, chain[i].bits)
  }

  /** The chain had enough work at one of its headers. */
  ghost predicate Reached(c: Config, chain: seq<Header>) {
    exists i :: 0 < i <= |chain| && Work(c, chain[..i]) >= c.minWork
  }

  lemma {:induction false} Grow(c: Config, chain: seq<Header>, h: Header)
    ensures Work(c, chain + [h]) == Plus(Work(c, chain), c.proof(h.bits))
    ensures CommitBits(c, chain + [h])
      == CommitBits(c, chain) + (if Commits(c, c.startHeight + |chain| + 1) then [c.bit(c.hash(h))] else [])
    ensures Last(c, chain + [h]) == h
  {
    hide Plus, Commits;
    assert (chain + [h])[..|chain|] == chain;
  }

  lemma {:induction false} GrowLinked(c: Config, chain: seq<Header>, h: Header)
    ensures Linked(c, chain + [h]) <==> Linked(c, chain) && h.prev == c.hash(Last(c, chain))
  {
    Prefixes(c, chain, h);
    assert (chain + [h])[|chain|] == h;
    if Linked(c, chain + [h]) {
      forall i | 0 <= i < |chain| ensures chain[i].prev == c.hash(Last(c, chain[..i])) {
        assert (chain + [h])[..i] == chain[..i];
        assert (chain + [h])[i] == chain[i];
      }
    }
  }

  lemma {:induction false} Prefixes(c: Config, chain: seq<Header>, h: Header)
    ensures forall i :: 0 <= i <= |chain| ==> (chain + [h])[..i] == chain[..i]
    ensures chain[..|chain|] == chain
  {
  }

  lemma {:induction false} GrowPermitted(c: Config, chain: seq<Header>, h: Header)
    ensures Permitted(c, chain + [h]) <==>
      Permitted(c, chain) && c.permitted(c.startHeight + |chain| + 1, Last(c, chain).bits, h.bits)
  {
    hide Last;
    var longer := chain + [h];
    forall i | 0 <= i < |chain| ensures PermittedAt(c, longer, i) == PermittedAt(c, chain, i) {
      assert longer[..i] == chain[..i];
      assert longer[i] == chain[i];
    }
    assert longer[..|chain|] == chain && longer[|chain|] == h;
    hide PermittedAt;
    if Permitted(c, longer) {
      forall i | 0 <= i < |chain| ensures PermittedAt(c, chain, i) {
        assert PermittedAt(c, longer, i);
      }
      assert PermittedAt(c, longer, |chain|);
    }
  }

  lemma {:induction false} GrowReached(c: Config, chain: seq<Header>, h: Header)
    ensures Reached(c, chain + [h]) <==> Reached(c, chain) || Work(c, chain + [h]) >= c.minWork
  {
    hide Plus, Work;
    Prefixes(c, chain, h);
    var longer := chain + [h];
    assert longer[..|longer|] == longer;
    if Reached(c, chain) {
      var i :| 0 < i <= |chain| && Work(c, chain[..i]) >= c.minWork;
      assert longer[..i] == chain[..i];
      assert Work(c, longer[..i]) >= c.minWork;
    }
    if Reached(c, longer) {
      var i :| 0 < i <= |longer| && Work(c, longer[..i]) >= c.minWork;
      assert i <= |chain| ==> longer[..i] == chain[..i];
    }
  }

  lemma {:induction false} ReachedMore(c: Config, chain: seq<Header>, longer: seq<Header>)
    requires chain <= longer && Reached(c, chain)
    ensures Reached(c, longer)
  {
    var i :| 0 < i <= |chain| && Work(c, chain[..i]) >= c.minWork;
    assert longer[..i] == chain[..i];
    assert Work(c, longer[..i]) >= c.minWork;
  }

  lemma {:induction false} BitsPrefix(c: Config, chain: seq<Header>, n: nat)
    requires n <= |chain|
    ensures CommitBits(c, chain[..n]) <= CommitBits(c, chain)
  {
    if n < |chain| {
      BitsPrefix(c, chain[..|chain| - 1], n);
      assert chain[..|chain| - 1][..n] == chain[..n];
    } else {
      assert chain[..n] == chain;
    }
  }

  /** The number of commitment heights up to a height. */
  function Marks(c: Config, height: nat): int {
    (height + PERIOD - c.offset) / PERIOD
  }

  lemma {:induction false} MarksStep(c: Config, height: nat)
    requires c.offset < PERIOD && height > 0
    ensures Marks(c, height) == Marks(c, height - 1) + if Commits(c, height) then 1 else 0
  {
  }

  lemma {:induction false} BitsCount(c: Config, chain: seq<Header>)
    requires c.offset < PERIOD
    ensures |CommitBits(c, chain)| == Marks(c, c.startHeight + |chain|) - Marks(c, c.startHeight)
  {
    if chain != [] {
      BitsCount(c, chain[..|chain| - 1]);
      MarksStep(c, c.startHeight + |chain|);
    }
  }

  // ---------- the first phase ----------

  ghost predicate Presynced(c: Config, s: State, chain: seq<Header>) {
    && s.phase.Presync? && !s.processAll
    && s.commitments == CommitBits(c, chain)
    && s.currentWork == Work(c, chain)
    && s.lastReceived == Last(c, chain)
    && s.currentHeight == c.startHeight + |chain|
    && Permitted(c, chain)
  }

  lemma {:induction false} PresyncOneKeeps(c: Config, s: State, chain: seq<Header>, h: Header)
    requires Presynced(c, s, chain) && PresyncOne(c, s, h).1
    ensures Presynced(c, PresyncOne(c, s, h).0, chain + [h])
  {
    hide Plus, Commits, Work, CommitBits, Permitted;
    Grow(c, chain, h);
    GrowPermitted(c, chain, h);
  }

  lemma {:induction false} PresyncAllKeeps(c: Config, s: State, chain: seq<Header>, headers: seq<Header>)
    requires Presynced(c, s, chain) && PresyncAll(c, s, headers).1
    ensures Presynced(c, PresyncAll(c, s, headers).0, chain + headers)
    decreases |headers|
  {
    hide Presynced, PresyncOne;
    if headers == [] {
      assert chain + headers == chain;
    } else {
      PresyncOneKeeps(c, s, chain, headers[0]);
      PresyncAllKeeps(c, PresyncOne(c, s, headers[0]).0, chain + [headers[0]], headers[1..]);
      assert chain + [headers[0]] + headers[1..] == chain + headers;
    }
  }

  // ---------- the second phase ----------

  /** What the caller has been given: a prefix of an accepted chain, all of it once the work is reached,
      and before that only what lies a full buffer below its tip, with every commitment matched. */
  ghost predicate Released(c: Config, presync: seq<Header>, accepted: seq<Header>, released: seq<Header>) {
    && Linked(c, accepted) && Permitted(c, accepted)
    && released <= accepted
    && (Reached(c, accepted) ==> released == accepted)
    && (!Reached(c, accepted) ==>
      && CommitBits(c, accepted) <= CommitBits(c, presync)
      && (released == [] || |released| + BUFFER <= |accepted|))
  }

  ghost predicate Buffered(buffer: seq<Compressed>, headers: seq<Header>) {
    |buffer| == |headers| && forall i :: 0 <= i < |buffer| ==> buffer[i] == Compress(headers[i])
  }

  /** The redownload state, also in the middle of a message. */
  ghost predicate Redownloading(c: Config, s: State, presync: seq<Header>, accepted: seq<Header>, n: nat) {
    && s.phase.Redownload?
    && Linked(c, accepted) && Permitted(c, accepted)
    && n <= |accepted| && (accepted != [] ==> n < |accepted|)
    && s.lastHeight == c.startHeight + |accepted|
    && s.lastHash == c.hash(Last(c, accepted))
    && s.redownloadWork == Work(c, accepted)
    && (s.processAll <==> Reached(c, accepted))
    && (!s.processAll ==> CommitBits(c, presync) == CommitBits(c, accepted) + s.commitments)
    && s.firstPrev == c.hash(Last(c, accepted[..n]))
    && Buffered(s.buffer, accepted[n..])
  }

  lemma {:induction false} BufferBits(c: Config, s: State, presync: seq<Header>, accepted: seq<Header>, n: nat)
    requires Redownloading(c, s, presync, accepted, n)
    ensures (if s.buffer != [] then s.buffer[|s.buffer| - 1].bits else c.start.bits) == Last(c, accepted).bits
  {
    if accepted != [] {
      assert accepted[n..][|accepted| - n - 1] == accepted[|accepted| - 1];
    }
  }

  lemma {:induction false} StoredKeeps(c: Config, buffer: seq<Compressed>, accepted: seq<Header>, n: nat, h: Header)
    requires n <= |accepted| && Buffered(buffer, accepted[n..])
    ensures Buffered(buffer + [Compress(h)], (accepted + [h])[n..])
    ensures (accepted + [h])[..n] == accepted[..n]
  {
    assert (accepted + [h])[n..] == accepted[n..] + [h];
  }

  lemma {:induction false} RedownloadOneKeeps(c: Config, s: State, presync: seq<Header>, accepted: seq<Header>, n: nat, h: Header)
    requires Redownloading(c, s, presync, accepted, n) && RedownloadOne(c, s, h).1
    ensures Redownloading(c, RedownloadOne(c, s, h).0, presync, accepted + [h], n)
  {
    hide Linked, Permitted, Reached, Buffered;
    Grow(c, accepted, h);
    GrowLinked(c, accepted, h);
    GrowPermitted(c, accepted, h);
    GrowReached(c, accepted, h);
    BufferBits(c, s, presync, accepted, n);
    StoredKeeps(c, s.buffer, accepted, n, h);
    var t := RedownloadOne(c, s, h).0;
    if !t.processAll && Commits(c, s.lastHeight + 1) {
      assert s.commitments == [s.commitments[0]] + t.commitments;
    }
  }

  lemma {:induction false} RedownloadAllKeeps(c: Config, s: State, presync: seq<Header>, accepted: seq<Header>, n: nat, headers: seq<Header>)
    requires Redownloading(c, s, presync, accepted, n) && RedownloadAll(c, s, headers).1
    ensures Redownloading(c, RedownloadAll(c, s, headers).0, presync, accepted + headers, n)
    decreases |headers|
  {
    hide Redownloading, RedownloadOne;
    if headers == [] {
      assert accepted + headers == accepted;
    } else {
      RedownloadOneKeeps(c, s, presync, accepted, n, headers[0]);
      RedownloadAllKeeps(c, RedownloadOne(c, s, headers[0]).0, presync, accepted + [headers[0]], n, headers[1..]);
      assert accepted + [headers[0]] + headers[1..] == accepted + headers;
    }
  }

  /** Decompressing a stretch of a linked chain gives it back, field for field. */
  lemma {:induction false} ExpandExact(c: Config, chain: seq<Header>, n: nat, m: nat, buffer: seq<Compressed>)
    requires Linked(c, chain) && n <= m <= |chain| && Buffered(buffer, chain[n..m])
    ensures Expand(c, c.hash(Last(c, chain[..n])), buffer) == chain[n..m]
    decreases m - n
  {
    if n < m {
      var h := buffer[0].Full(c.hash(Last(c, chain[..n])));
      assert chain[n..m][0] == chain[n];
      assert h == chain[n];
      assert Last(c, chain[..n + 1]) == h;
      assert chain[n..m][1..] == chain[n + 1..m];
      ExpandExact(c, chain, n + 1, m, buffer[1..]);
      assert chain[n..m] == [h] + chain[n + 1..m];
    }
  }

  lemma {:induction false} PopKeeps(c: Config, s: State, presync: seq<Header>, accepted: seq<Header>, n: nat)
    requires Redownloading(c, s, presync, accepted, n)
    ensures var (t, released) := Pop(c, s); var k := n + Ready(s);
      && k <= |accepted| && released == accepted[n..k]
      && t.firstPrev == c.hash(Last(c, accepted[..k]))
      && Buffered(t.buffer, accepted[k..])
  {
    hide Linked, Permitted, Reached, CommitBits, Work;
    var k := n + Ready(s);
    BufferedParts(s.buffer, accepted, n, Ready(s));
    ExpandExact(c, accepted, n, k, s.buffer[..Ready(s)]);
    if k > n {
      assert accepted[n..k][k - n - 1] == accepted[k - 1] == accepted[..k][k - 1];
    }
  }

  lemma {:induction false} BufferedParts(buffer: seq<Compressed>, chain: seq<Header>, n: nat, m: nat)
    requires n <= |chain| && Buffered(buffer, chain[n..]) && m <= |buffer|
    ensures n + m <= |chain| && Buffered(buffer[..m], chain[n..n + m]) && Buffered(buffer[m..], chain[n + m..])
  {
    assert chain[n..][..m] == chain[n..n + m];
    assert chain[n..][m..] == chain[n + m..];
  }

  // ---------- whole runs ----------

  /** What the peer sent and what came of it: the headers of the first phase, the headers of the successful
      messages of the second, and the headers released. */
  datatype History = History(presync: seq<Header>, accepted: seq<Header>, released: seq<Header>)

  function Recorded(h: History, s: State, m: Message, r: Result): History {
    if !r.success then h
    else if s.phase.Presync? then h.(presync := h.presync + m.headers)
    else h.(accepted := h.accepted + m.headers, released := h.released + r.released)
  }

  function Run(c: Config, s: State, h: History, messages: seq<Message>): (State, History)
    decreases |messages|
  {
    if messages == [] then (s, h)
    else
      var (t, r) := Process(c, s, messages[0]);
      Run(c, t, Recorded(h, s, messages[0], r), messages[1..])
  }

  ghost predicate Inv(c: Config, s: State, h: History) {
    && Released(c, h.presync, h.accepted, h.released)
    && (s.phase.Presync? ==>
      Presynced(c, s, h.presync) && h.accepted == [] && (h.presync != [] ==> Work(c, h.presync) < c.minWork))
    && (s.phase.Redownload? ==>
      && Redownloading(c, s, h.presync, h.accepted, |h.released|)
      && !s.processAll && h.presync != [] && Work(c, h.presync) >= c.minWork && Permitted(c, h.presync))
  }

  lemma {:induction false} NothingYet(c: Config, presync: seq<Header>)
    ensures Released(c, presync, [], [])
    ensures !Reached(c, []) && Linked(c, []) && Permitted(c, [])
  {
  }

  lemma {:induction false} PresyncMessage(c: Config, s: State, h: History, m: Message)
    requires Inv(c, s, h) && s.phase.Presync? && m.headers != []
    ensures var (t, r) := Process(c, s, m); Inv(c, t, Recorded(h, s, m, r))
  {
    hide Redownloading, Released, PresyncAll, PresyncOne, Linked, Permitted, Reached, Presynced;
    NothingYet(c, h.presync + m.headers);
    var (t, ok) := StoreCommitments(c, s, m.headers);
    if ok {
      PresyncAllKeeps(c, s, h.presync, m.headers);
      var u := PresyncAll(c, s, m.headers).0;
      SwitchOk(c, u, h.presync + m.headers);
    }
    assert h.released == [] by { ReleasedNothing(c, h); }
  }

  lemma {:induction false} ReleasedNothing(c: Config, h: History)
    requires Released(c, h.presync, h.accepted, h.released) && h.accepted == []
    ensures h.released == []
  {
  }

  lemma {:induction false} SwitchOk(c: Config, s: State, presync: seq<Header>)
    requires Presynced(c, s, presync)
    ensures Redownloading(c, StartRedownload(c, s), presync, [], 0)
    ensures s.currentWork == Work(c, presync) && !s.processAll && s.phase.Presync? && Permitted(c, presync)
  {
    NothingYet(c, presync);
  }

  lemma {:induction false} RedownloadMessage(c: Config, s: State, h: History, m: Message)
    requires Inv(c, s, h) && s.phase.Redownload? && m.headers != []
    ensures var (t, r) := Process(c, s, m); Inv(c, t, Recorded(h, s, m, r))
  {
    hide Redownloading, Released, RedownloadAll, Pop, Presynced, Work;
    var (t, ok) := RedownloadAll(c, s, m.headers);
    Depth(c, s, h);
    if ok {
      var accepted, n := h.accepted + m.headers, |h.released|;
      RedownloadAllKeeps(c, s, h.presync, h.accepted, n, m.headers);
      AfterPop(c, t, h, accepted);
    }
  }

  lemma {:induction false} AfterPop(c: Config, t: State, h: History, accepted: seq<Header>)
    requires h.released <= h.accepted <= accepted && accepted != []
    requires h.released == [] || |h.released| + BUFFER <= |h.accepted|
    requires Redownloading(c, t, h.presync, accepted, |h.released|)
    ensures var (u, released) := Pop(c, t); var all := h.released + released;
      && Released(c, h.presync, accepted, all)
      && u.phase.Redownload? && (t.processAll ==> u.buffer == [] && u.processAll)
      && (!t.processAll ==> Redownloading(c, u, h.presync, accepted, |all|) && !u.processAll && u.buffer != [])
  {
    hide Linked, Permitted, Reached, Buffered, CommitBits, Work, Expand;
    var n, k := |h.released|, |h.released| + Ready(t);
    PopKeeps(c, t, h.presync, accepted, n);
    var (u, released) := Pop(c, t);
    BufferLength(t.buffer, accepted, n);
    assert h.released == accepted[..n];
    assert h.released + released == accepted[..k];
    if t.processAll {
      assert accepted[..k] == accepted;
    }
  }

  lemma {:induction false} BufferLength(buffer: seq<Compressed>, chain: seq<Header>, n: nat)
    requires n <= |chain| && Buffered(buffer, chain[n..])
    ensures |buffer| == |chain| - n
  {
  }

  lemma {:induction false} ProcessKeeps(c: Config, s: State, h: History, m: Message)
    requires Inv(c, s, h)
    ensures var (t, r) := Process(c, s, m); Inv(c, t, Recorded(h, s, m, r))
  {
    hide Inv, StoreCommitments, RedownloadAll, Pop;
    if m.headers != [] && s.phase.Presync? {
      PresyncMessage(c, s, h, m);
    } else if m.headers != [] && s.phase.Redownload? {
      RedownloadMessage(c, s, h, m);
    }
  }

  lemma {:induction false} RunKeeps(c: Config, s: State, h: History, messages: seq<Message>)
    requires Inv(c, s, h)
    ensures var (t, g) := Run(c, s, h, messages); Inv(c, t, g)
    decreases |messages|
  {
    hide Inv, Process;
    if messages != [] {
      var (t, r) := Process(c, s, messages[0]);
      ProcessKeeps(c, s, h, messages[0]);
      RunKeeps(c, t, Recorded(h, s, messages[0], r), messages[1..]);
    }
  }

  // ---------- memory ----------

  /** The commitments stay below their limit, and between messages the buffer does. */
  ghost predicate Bounded(c: Config, s: State) {
    |s.commitments| <= c.maxCommitments && |s.buffer| <= BUFFER
  }

  lemma {:induction false} PresyncBounded(c: Config, s: State, headers: seq<Header>)
    requires |s.commitments| <= c.maxCommitments
    ensures var (t, ok) := PresyncAll(c, s, headers);
      t.buffer == s.buffer && t.phase == s.phase && (ok ==> |t.commitments| <= c.maxCommitments)
    decreases |headers|
  {
    hide Plus, Commits;
    if headers != [] && PresyncOne(c, s, headers[0]).1 {
      PresyncBounded(c, PresyncOne(c, s, headers[0]).0, headers[1..]);
    }
  }

  lemma {:induction false} RedownloadBounded(c: Config, s: State, headers: seq<Header>)
    ensures |RedownloadAll(c, s, headers).0.commitments| <= |s.commitments|
    decreases |headers|
  {
    hide Plus, Commits;
    if headers != [] && RedownloadOne(c, s, headers[0]).1 {
      RedownloadBounded(c, RedownloadOne(c, s, headers[0]).0, headers[1..]);
    }
  }

  lemma {:induction false} ProcessBounded(c: Config, s: State, m: Message)
    requires Bounded(c, s)
    ensures Bounded(c, Process(c, s, m).0)
  {
    hide PresyncAll, RedownloadAll, Expand;
    PresyncBounded(c, s, m.headers);
    RedownloadBounded(c, s, m.headers);
  }

  /** In every run the memory used for a peer is bounded, whatever the peer sends. */
  lemma {:induction false} RunBounded(c: Config, s: State, h: History, messages: seq<Message>)
    requires Bounded(c, s)
    ensures Bounded(c, Run(c, s, h, messages).0)
    decreases |messages|
  {
    hide Process, Bounded;
    if messages != [] {
      ProcessBounded(c, s, messages[0]);
      var (t, r) := Process(c, s, messages[0]);
      RunBounded(c, t, Recorded(h, s, messages[0], r), messages[1..]);
    }
  }

  /** Over every run of a synchronisation the released headers are, field for field, a prefix of one
      hash-linked chain that starts at the fork point. */
  lemma {:induction false} ReleasedChain(c: Config, messages: seq<Message>)
    ensures var h := Run(c, Initial(c), History([], [], []), messages).1;
      Released(c, h.presync, h.accepted, h.released)
  {
    NothingYet(c, []);
    RunKeeps(c, Initial(c), History([], [], []), messages);
  }

  /** A header released before the work target is met has 13959 accepted headers and 23 matched commitments
      above it. */
  lemma {:induction false} DeepEnough(c: Config, presync: seq<Header>, accepted: seq<Header>, released: seq<Header>, i: nat)
    requires c.offset < PERIOD && Released(c, presync, accepted, released)
    requires i < |released| && !Reached(c, accepted)
    ensures |accepted| - (i + 1) >= BUFFER
    ensures |CommitBits(c, accepted)| >= |CommitBits(c, accepted[..i + 1])| + 23
    ensures CommitBits(c, accepted) <= CommitBits(c, presync)
    ensures CommitBits(c, accepted[..i + 1]) <= CommitBits(c, accepted)
  {
    hide Linked, Permitted, Reached;
    BitsCount(c, accepted);
    BitsCount(c, accepted[..i + 1]);
    BitsPrefix(c, accepted, i + 1);
  }

  // ---------- an honest peer ----------

  /** One redownloaded header of the chain that the peer sent before, possibly longer by now. */
  lemma {:induction false} ReplayOne(c: Config, s: State, presync: seq<Header>, accepted: seq<Header>, n: nat, chain: seq<Header>, h: Header)
    requires Redownloading(c, s, presync, accepted, n) && Reached(c, presync)
    requires presync <= chain && Linked(c, chain) && Permitted(c, chain) && accepted + [h] <= chain
    ensures RedownloadOne(c, s, h).1
  {
    hide Linked, Permitted, Reached, Buffered;
    var j := |accepted|;
    assert chain[j] == h && chain[..j] == accepted;
    BufferBits(c, s, presync, accepted, n);
    NextInChain(c, chain, j);
    Grow(c, accepted, h);
    GrowReached(c, accepted, h);
    if !Reached(c, accepted + [h]) && Commits(c, c.startHeight + j + 1) {
      NextCommitment(c, s, presync, accepted, chain, h);
    }
  }

  lemma {:induction false} NextInChain(c: Config, chain: seq<Header>, j: nat)
    requires Linked(c, chain) && Permitted(c, chain) && j < |chain|
    ensures chain[j].prev == c.hash(Last(c, chain[..j]))
    ensures c.permitted(c.startHeight + j + 1, Last(c, chain[..j]).bits, chain[j].bits)
  {
    assert PermittedAt(c, chain, j);
  }

  /** The commitment queue holds exactly the bits of the commitment heights that are still to come. */
  lemma {:induction false} NextCommitment(c: Config, s: State, presync: seq<Header>, accepted: seq<Header>, chain: seq<Header>, h: Header)
    requires Reached(c, presync) && !Reached(c, accepted + [h])
    requires presync <= chain && accepted + [h] <= chain && Commits(c, c.startHeight + |accepted| + 1)
    requires CommitBits(c, presync) == CommitBits(c, accepted) + s.commitments
    ensures s.commitments != [] && s.commitments[0] == c.bit(c.hash(h))
  {
    hide Reached;
    var j := |accepted| + 1;
    if |presync| <= j {
      assert presync <= accepted + [h];
      ReachedMore(c, presync, accepted + [h]);
    }
    assert presync[..j] == accepted + [h];
    BitsPrefix(c, presync, j);
    Grow(c, accepted, h);
    var a := CommitBits(c, accepted);
    assert a + [c.bit(c.hash(h))] <= a + s.commitments;
    assert (a + s.commitments)[|a|] == s.commitments[0];
  }

  lemma {:induction false} ReplayAll(c: Config, s: State, presync: seq<Header>, accepted: seq<Header>, n: nat, chain: seq<Header>, headers: seq<Header>)
    requires Redownloading(c, s, presync, accepted, n) && Reached(c, presync)
    requires presync <= chain && Linked(c, chain) && Permitted(c, chain) && accepted + headers <= chain
    ensures RedownloadAll(c, s, headers).1
    decreases |headers|
  {
    hide Redownloading, RedownloadOne, Linked, Permitted, Reached;
    if headers != [] {
      var h := headers[0];
      assert accepted + [h] + headers[1..] == accepted + headers;
      ReplayOne(c, s, presync, accepted, n, chain, h);
      RedownloadOneKeeps(c, s, presync, accepted, n, h);
      ReplayAll(c, RedownloadOne(c, s, h).0, presync, accepted + [h], n, chain, headers[1..]);
    }
  }

  /** One message of the replay: it never fails. With the work target reached it ends the synchronisation
      and everything is released, whether or not the message is full; before that a full message has the peer
      asked for more, and one that is not full ends the synchronisation with headers left over. */
  lemma {:induction false} ReplayMessage(c: Config, s: State, h: History, chain: seq<Header>, m: Message)
    requires Inv(c, s, h) && s.phase.Redownload? && m.headers != []
    requires h.presync <= chain && Linked(c, chain) && Permitted(c, chain) && h.accepted + m.headers <= chain
    ensures var (t, r) := Process(c, s, m);
      && r.success
      && (Reached(c, h.accepted + m.headers) ==> t.phase.Final? && h.released + r.released == h.accepted + m.headers)
      && (!Reached(c, h.accepted + m.headers) && m.full ==> t.phase.Redownload? && r.requestMore)
      && (!Reached(c, h.accepted + m.headers) && !m.full ==> t.phase.Final? && h.released + r.released < h.accepted + m.headers)
  {
    hide Redownloading, Released, RedownloadAll, RedownloadOne, Linked, Permitted, Reached, Pop, Work;
    PresyncReached(c, h.presync);
    ReplayAll(c, s, h.presync, h.accepted, |h.released|, chain, m.headers);
    var (t, ok) := RedownloadAll(c, s, m.headers);
    RedownloadAllKeeps(c, s, h.presync, h.accepted, |h.released|, m.headers);
    Depth(c, s, h);
    AfterPop(c, t, h, h.accepted + m.headers);
    Everything(c, t, h, h.accepted + m.headers);
    if !Reached(c, h.accepted + m.headers) {
      NotEverything(c, h, Pop(c, t).0, h.accepted + m.headers, h.released + Pop(c, t).1);
    }
  }

  lemma {:induction false} NotEverything(c: Config, h: History, u: State, accepted: seq<Header>, released: seq<Header>)
    requires accepted != [] && Redownloading(c, u, h.presync, accepted, |released|)
    requires Released(c, h.presync, accepted, released)
    ensures released < accepted
  {
  }

  lemma {:induction false} Depth(c: Config, s: State, h: History)
    requires Inv(c, s, h) && s.phase.Redownload?
    ensures h.released <= h.accepted && (h.released == [] || |h.released| + BUFFER <= |h.accepted|)
  {
  }

  lemma {:induction false} Everything(c: Config, t: State, h: History, accepted: seq<Header>)
    requires Redownloading(c, t, h.presync, accepted, |h.released|)
    requires Released(c, h.presync, accepted, h.released + Pop(c, t).1)
    ensures t.processAll <==> Reached(c, accepted)
    ensures t.phase.Redownload? && Pop(c, t).0.phase.Redownload? && Pop(c, t).0.processAll == t.processAll
    ensures Reached(c, accepted) ==> h.released + Pop(c, t).1 == accepted
  {
  }

  lemma {:induction false} PresyncReached(c: Config, presync: seq<Header>)
    requires presync != [] && Work(c, presync) >= c.minWork
    ensures Reached(c, presync)
  {
    assert presync[..|presync|] == presync;
  }

  function Concat(messages: seq<Message>): seq<Header> {
    if messages == [] then [] else messages[0].headers + Concat(messages[1..])
  }

  /** Every message up to the one that reaches the work target is full, so that the peer is asked for more. */
  ghost predicate FullUntilReached(c: Config, accepted: seq<Header>, messages: seq<Message>) {
    forall i :: 0 <= i < |messages| ==> FullAt(c, accepted, messages, i)
  }

  ghost predicate FullAt(c: Config, accepted: seq<Header>, messages: seq<Message>, i: nat)
    requires i < |messages|
  {
    !Reached(c, accepted + Concat(messages[..i + 1])) ==> messages[i].full
  }

  lemma {:induction false} ConcatFirst(messages: seq<Message>, i: nat)
    requires 0 < i <= |messages|
    ensures Concat(messages[..i]) == messages[0].headers + Concat(messages[1..][..i - 1])
  {
    assert messages[..i][0] == messages[0];
    assert messages[..i][1..] == messages[1..][..i - 1];
  }

  lemma {:induction false} FullFirst(c: Config, accepted: seq<Header>, messages: seq<Message>)
    requires messages != []
    ensures var more := accepted + messages[0].headers;
      FullUntilReached(c, accepted, messages) <==>
        (Reached(c, more) || messages[0].full) && FullUntilReached(c, more, messages[1..])
  {
    hide FullAt, Reached;
    var more, rest := accepted + messages[0].headers, messages[1..];
    FullShift(c, accepted, messages, 0);
    if FullUntilReached(c, accepted, messages) {
      forall i | 0 <= i < |rest| ensures FullAt(c, more, rest, i) {
        FullShift(c, accepted, messages, i + 1);
      }
    }
    if FullUntilReached(c, more, rest) {
      forall i | 0 < i < |messages| ensures FullAt(c, accepted, messages, i) {
        FullShift(c, accepted, messages, i);
      }
    }
  }

  lemma {:induction false} FullShift(c: Config, accepted: seq<Header>, messages: seq<Message>, i: nat)
    requires i < |messages|
    ensures var more := accepted + messages[0].headers;
      FullAt(c, accepted, messages, i) <==>
        if i == 0 then Reached(c, more) || messages[0].full else FullAt(c, more, messages[1..], i - 1)
  {
    ConcatFirst(messages, i + 1);
    var more, rest := accepted + messages[0].headers, messages[1..];
    assert accepted + (messages[0].headers + Concat(rest[..i])) == more + Concat(rest[..i]);
    if i == 0 {
      assert more + Concat(rest[..0]) == more;
    } else {
      assert rest[..(i - 1) + 1] == rest[..i];
    }
  }

  /** A peer that sends again the continuous chain of its first phase, cut in any way into non-empty messages,
      and possibly more headers on top of it, is never turned away as long as its messages are full up to the
      one that reaches the work target: after some number of messages the synchronisation is complete and all
      headers sent so far have been released. */
  lemma {:induction false} HonestReplay(c: Config, s: State, h: History, chain: seq<Header>, messages: seq<Message>) returns (k: nat)
    requires Inv(c, s, h) && s.phase.Redownload? && !Reached(c, h.accepted)
    requires h.presync <= chain && Linked(c, chain) && Permitted(c, chain)
    requires h.accepted + Concat(messages) == chain
    requires forall i :: 0 <= i < |messages| ==> messages[i].headers != []
    requires FullUntilReached(c, h.accepted, messages)
    ensures k <= |messages|
    ensures var (t, g) := Run(c, s, h, messages[..k]);
      t.phase.Final? && g.accepted == h.accepted + Concat(messages[..k]) && g.released == g.accepted && Reached(c, g.accepted)
    decreases |messages|
  {
    hide Inv, Linked, Permitted, Reached, Process, Work, FullUntilReached;
    PresyncDone(c, s, h);
    if messages == [] {
      assert h.accepted == chain;
      ReachedMore(c, h.presync, chain);
    }
    var m := messages[0];
    var accepted := h.accepted + m.headers;
    assert accepted + Concat(messages[1..]) == chain;
    ReplayMessage(c, s, h, chain, m);
    ProcessKeeps(c, s, h, m);
    FullFirst(c, h.accepted, messages);
    var (t, r) := Process(c, s, m);
    var g := Recorded(h, s, m, r);
    if Reached(c, accepted) {
      k := 1;
      assert messages[..1] == [m];
      assert Concat([m]) == m.headers;
    } else {
      k := HonestReplay(c, t, g, chain, messages[1..]);
      k := k + 1;
      ConcatFirst(messages, k);
      assert messages[..k][1..] == messages[1..][..k - 1];
      assert messages[..k][0] == m;
      assert h.accepted + Concat(messages[..k]) == accepted + Concat(messages[1..][..k - 1]);
    }
  }

  lemma {:induction false} RunFinal(c: Config, s: State, h: History, messages: seq<Message>)
    requires s.phase.Final?
    ensures Run(c, s, h, messages) == (s, h)
    decreases |messages|
  {
    if messages != [] {
      RunFinal(c, s, h, messages[1..]);
    }
  }

  /** The replay completes exactly if every message is full up to the one that reaches the work target. If one
      of them is not, the synchronisation is given up with headers left over. */
  lemma {:induction false} ReplayExact(c: Config, s: State, h: History, chain: seq<Header>, messages: seq<Message>)
    requires Inv(c, s, h) && s.phase.Redownload? && !Reached(c, h.accepted)
    requires h.presync <= chain && Linked(c, chain) && Permitted(c, chain)
    requires h.accepted + Concat(messages) == chain
    requires forall i :: 0 <= i < |messages| ==> messages[i].headers != []
    ensures var (t, g) := Run(c, s, h, messages);
      && t.phase.Final?
      && (g.released == g.accepted && Reached(c, g.accepted) <==> FullUntilReached(c, h.accepted, messages))
      && (g.released < g.accepted && !Reached(c, g.accepted) <==> !FullUntilReached(c, h.accepted, messages))
    decreases |messages|
  {
    hide Inv, Linked, Permitted, Reached, Process, Work, FullUntilReached;
    PresyncDone(c, s, h);
    if messages == [] {
      assert h.accepted == chain;
      ReachedMore(c, h.presync, chain);
    }
    var m := messages[0];
    var accepted := h.accepted + m.headers;
    assert accepted + Concat(messages[1..]) == chain;
    ReplayMessage(c, s, h, chain, m);
    ProcessKeeps(c, s, h, m);
    FullFirst(c, h.accepted, messages);
    var (t, r) := Process(c, s, m);
    var g := Recorded(h, s, m, r);
    if Reached(c, accepted) {
      AlreadyFull(c, accepted, messages[1..]);
      RunFinal(c, t, g, messages[1..]);
    } else if m.full {
      ReplayExact(c, t, g, chain, messages[1..]);
    } else {
      RunFinal(c, t, g, messages[1..]);
    }
  }

  lemma {:induction false} AlreadyFull(c: Config, accepted: seq<Header>, messages: seq<Message>)
    requires Reached(c, accepted)
    ensures FullUntilReached(c, accepted, messages)
  {
    hide Reached;
    forall i | 0 <= i < |messages| ensures FullAt(c, accepted, messages, i) {
      ReachedMore(c, accepted, accepted + Concat(messages[..i + 1]));
    }
  }

  lemma {:induction false} PresyncDone(c: Config, s: State, h: History)
    requires Inv(c, s, h) && s.phase.Redownload?
    ensures Reached(c, h.presync) && Permitted(c, h.presync) && s.phase.Redownload?
  {
    PresyncReached(c, h.presync);
  }

  lemma {:induction false} RunAppend(c: Config, s: State, h: History, a: seq<Message>, b: seq<Message>)
    ensures var (t, g) := Run(c, s, h, a); Run(c, s, h, a + b) == Run(c, t, g, b)
    decreases |a|
  {
    hide Process;
    if a == [] {
      assert a + b == b;
    } else {
      var (t, r) := Process(c, s, a[0]);
      RunAppend(c, t, Recorded(h, s, a[0], r), a[1..], b);
      assert (a + b)[1..] == a[1..] + b;
    }
  }

  lemma {:induction false} InitialOk(c: Config)
    ensures Inv(c, Initial(c), History([], [], []))
  {
    NothingYet(c, []);
  }
}
