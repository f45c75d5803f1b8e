/** The synchronisation object: its fields, and methods that push and pop its queues as messages arrive. Each
    does what the corresponding function of the protocol model says. */
module HeadersSyncClass {
  import opened HeadersSync

  class HeadersSyncState {
    const config: Config
    var phase: Phase
    var commitments: seq<bool>
    var currentWork: nat
    var lastReceived: Header
    var currentHeight: nat
    var buffer: seq<Compressed>
    var lastHeight: nat
    var lastHash: Hash
    var firstPrev: Hash
    var redownloadWork: nat
    var processAll: bool

    ghost function View(): State
      reads this
    {
      State(phase, commitments, currentWork, lastReceived, currentHeight, buffer, lastHeight, lastHash, firstPrev,
            redownloadWork, processAll)
    }

    constructor (config: Config)
      ensures this.config == config && View() == Initial(config)
    {
      this.config := config;
      phase, commitments, currentWork, lastReceived := Presync, [], config.startWork, config.start;
      currentHeight, buffer, lastHeight, lastHash := config.startHeight, [], 0, 0;
      firstPrev, redownloadWork, processAll := 0, 0, false;
    }

    method Finalize()
      modifies this
      ensures View() == Finalized(old(View()))
    {
      commitments, lastReceived, buffer := [], NULL, [];
      lastHash, firstPrev, processAll, currentHeight := 0, 0, false, 0;
      phase := Final;
    }

    method ValidateAndProcessSingleHeader(h: Header) returns (ok: bool)
      modifies this
      ensures (View(), ok) == PresyncOne(config, old(View()), h)
    {
      hide Plus, Commits;
      var next := currentHeight + 1;
      if !config.permitted(next, lastReceived.bits, h.bits) {
        return false;
      }
      if Commits(config, next) {
        commitments := commitments + [config.bit(config.hash(h))];
        if |commitments| > config.maxCommitments {
          return false;
        }
      }
      currentWork := Plus(currentWork, config.proof(h.bits));
      lastReceived := h;
      currentHeight := next;
      return true;
    }

    method ValidateAndStoreHeadersCommitments(headers: seq<Header>) returns (ok: bool)
      requires headers != []
      modifies this
      ensures (View(), ok) == StoreCommitments(config, old(View()), headers)
    {
      hide PresyncOne;
      if headers[0].prev != config.hash(lastReceived) {
        return false;
      }
      ghost var s := View();
      var i := 0;
      assert headers[0..] == headers;
      while i < |headers|
        invariant 0 <= i <= |headers|
        invariant PresyncAll(config, s, headers) == PresyncAll(config, View(), headers[i..])
      {
        assert headers[i..][1..] == headers[i + 1..];
        ok := ValidateAndProcessSingleHeader(headers[i]);
        if !ok {
          return;
        }
        i := i + 1;
      }
      ok := true;
      if currentWork >= config.minWork {
        buffer := [];
        lastHeight := config.startHeight;
        firstPrev := config.hash(config.start);
        lastHash := config.hash(config.start);
        redownloadWork := config.startWork;
        phase := Redownload;
      }
    }

    method ValidateAndStoreRedownloadedHeader(h: Header) returns (ok: bool)
      modifies this
      ensures (View(), ok) == RedownloadOne(config, old(View()), h)
    {
      hide Plus, Commits;
      var next := lastHeight + 1;
      if h.prev != lastHash {
        return false;
      }
      var bits := config.start.bits;
      if buffer != [] {
        bits := buffer[|buffer| - 1].bits;
      }
      if !config.permitted(next, bits, h.bits) {
        return false;
      }
      redownloadWork := Plus(redownloadWork, config.proof(h.bits));
      if redownloadWork >= config.minWork {
        processAll := true;
      }
      if !processAll && Commits(config, next) {
        if commitments == [] {
          return false;
        }
        var expected := commitments[0];
        commitments := commitments[1..];
        if config.bit(config.hash(h)) != expected {
          return false;
        }
      }
      buffer := buffer + [Compress(h)];
      lastHeight := next;
      lastHash := config.hash(h);
      return true;
    }

    method PopOne() returns (h: Header)
      requires buffer != []
      modifies this`buffer, this`firstPrev
      ensures h == old(buffer)[0].Full(old(firstPrev)) && buffer == old(buffer)[1..] && firstPrev == config.hash(h)
    {
      h := buffer[0].Full(firstPrev);
      buffer := buffer[1..];
      firstPrev := config.hash(h);
    }

    static lemma {:induction false} ExpandFirst(c: Config, prev: Hash, buffer: seq<Compressed>)
      requires buffer != []
      ensures var h := buffer[0].Full(prev); Expand(c, prev, buffer) == [h] + Expand(c, c.hash(h), buffer[1..])
    {
    }

    method PopHeadersReadyForAcceptance() returns (released: seq<Header>)
      modifies this
      ensures (View(), released) == Pop(config, old(View()))
    {
      hide Expand;
      released := [];
      ghost var s, n := View(), 0;
      assert s.buffer[0..Ready(s)] == s.buffer[..Ready(s)];
      while |buffer| > BUFFER || (|buffer| > 0 && processAll)
        invariant n <= Ready(s) && buffer == s.buffer[n..]
        invariant View() == s.(buffer := buffer, firstPrev := HashAfter(config, s.firstPrev, released))
        invariant released + Expand(config, firstPrev, s.buffer[n..Ready(s)]) == Expand(config, s.firstPrev, s.buffer[..Ready(s)])
        decreases |buffer|
      {
        ExpandFirst(config, firstPrev, s.buffer[n..Ready(s)]);
        assert s.buffer[n..Ready(s)][0] == buffer[0];
        assert s.buffer[n..Ready(s)][1..] == s.buffer[n + 1..Ready(s)];
        var h := PopOne();
        released := released + [h];
        n := n + 1;
      }
      assert n == Ready(s);
      assert s.buffer[n..Ready(s)] == [];
      assert released + Expand(config, firstPrev, []) == released;
      assert released == Expand(config, s.firstPrev, s.buffer[..Ready(s)]);
    }

    method ProcessNextHeaders(m: Message) returns (r: Result)
      modifies this
      ensures (View(), r) == Process(config, old(View()), m)
    {
      hide StoreCommitments, RedownloadAll, Pop, RedownloadOne;
      r := Result([], false, false);
      if m.headers == [] || phase.Final? {
        return;
      }
      if phase.Presync? {
        var ok := ValidateAndStoreHeadersCommitments(m.headers);
        r := Result([], ok, ok && (m.full || phase.Redownload?));
      } else {
        var ok := RedownloadEach(m.headers);
        if ok {
          var released := PopHeadersReadyForAcceptance();
          r := Result(released, true, !(buffer == [] && processAll) && m.full);
        }
      }
      if !(r.success && r.requestMore) {
        Finalize();
      }
    }

    method RedownloadEach(headers: seq<Header>) returns (ok: bool)
      modifies this
      ensures (View(), ok) == RedownloadAll(config, old(View()), headers)
    {
      hide RedownloadOne;
      ghost var s := View();
      ok := true;
      assert headers[0..] == headers;
      for i := 0 to |headers|
        invariant ok
        invariant RedownloadAll(config, s, headers) == RedownloadAll(config, View(), headers[i..])
      {
        assert headers[i..][1..] == headers[i + 1..];
        ok := ValidateAndStoreRedownloadedHeader(headers[i]);
        if !ok {
          return;
        }
      }
    }
  }
}
