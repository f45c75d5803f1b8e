/** The second phase of the headers synchronisation: which messages it accepts, and what each of them releases. */
module HeadersSyncRedownload {
  import opened HeadersSync
  import opened HeadersSyncPresync

  /** Enough work has been shown, or the bits at the commitment heights are those of the first phase so far. */
  ghost predicate Matches(c: Config, presync: seq<Header>, chain: seq<Header>) {
    Reached(c, chain) || CommitBits(c, chain) <= CommitBits(c, presync)
  }

  /** What the second phase asks of headers on top of those accepted: a linked chain that the difficulty rule permits
      and that matches the first phase at every new header. */
  ghost predicate Rebuilds(c: Config, presync: seq<Header>, accepted: seq<Header>, headers: seq<Header>) {
    var all := accepted + headers;
    && Linked(c, all) && Permitted(c, all)
    && forall k :: |accepted| < k <= |all| ==> Matches(c, presync, all[..k])
  }

  lemma {:induction false} CommitmentHead(a: seq<bool>, queue: seq<bool>, b: bool)
    ensures a + [b] <= a + queue <==> queue != [] && queue[0] == b
  {
    if a + [b] <= a + queue {
      assert (a + [b])[|a|] == b && (a + queue)[|a|] == queue[0];
    }
    if queue != [] && queue[0] == b {
      assert a + queue == a + [b] + queue[1..];
    }
  }

  /** One header is accepted exactly if it links, is permitted and matches. */
  lemma {:induction false} RedownloadOneExact(c: Config, s: State, presync: seq<Header>, accepted: seq<Header>, n: nat, h: Header)
    requires Redownloading(c, s, presync, accepted, n)
    ensures RedownloadOne(c, s, h).1 <==>
      Linked(c, accepted + [h]) && Permitted(c, accepted + [h]) && Matches(c, presync, accepted + [h])
  {
    hide Linked, Permitted, Reached, Buffered, Plus, Work, CommitBits, Commits;
    Grow(c, accepted, h);
    GrowLinked(c, accepted, h);
    GrowPermitted(c, accepted, h);
    GrowReached(c, accepted, h);
    BufferBits(c, s, presync, accepted, n);
    CommitmentHead(CommitBits(c, accepted), s.commitments, c.bit(c.hash(h)));
  }

  lemma {:induction false} RebuildsFirst(c: Config, presync: seq<Header>, accepted: seq<Header>, headers: seq<Header>)
    requires headers != []
    ensures var more := accepted + [headers[0]];
      Rebuilds(c, presync, accepted, headers) <==>
        && Linked(c, more) && Permitted(c, more) && Matches(c, presync, more)
        && Rebuilds(c, presync, more, headers[1..])
  {
    hide Linked, Permitted, Matches;
    var all, more := accepted + headers, accepted + [headers[0]];
    assert more + headers[1..] == all && all[..|more|] == more;
    if Rebuilds(c, presync, accepted, headers) {
      LinkedPrefix(c, all, |more|);
      PermittedPrefix(c, all, |more|);
    }
  }

  /** The headers of a message are accepted exactly if they rebuild the chain. */
  lemma {:induction false} RedownloadAllExact(c: Config, s: State, presync: seq<Header>, accepted: seq<Header>, n: nat, headers: seq<Header>)
    requires Redownloading(c, s, presync, accepted, n)
    ensures RedownloadAll(c, s, headers).1 <==> Rebuilds(c, presync, accepted, headers)
    decreases |headers|
  {
    hide Rebuilds, RedownloadOne, Redownloading, Linked, Permitted, Matches;
    if headers == [] {
      NothingToRebuild(c, s, presync, accepted, n);
    } else {
      RebuildsFirst(c, presync, accepted, headers);
      RedownloadOneExact(c, s, presync, accepted, n, headers[0]);
      if RedownloadOne(c, s, headers[0]).1 {
        RedownloadOneKeeps(c, s, presync, accepted, n, headers[0]);
        RedownloadAllExact(c, RedownloadOne(c, s, headers[0]).0, presync, accepted + [headers[0]], n, headers[1..]);
      }
    }
  }

  lemma {:induction false} NothingToRebuild(c: Config, s: State, presync: seq<Header>, accepted: seq<Header>, n: nat)
    requires Redownloading(c, s, presync, accepted, n)
    ensures Rebuilds(c, presync, accepted, [])
  {
    hide Linked, Permitted, Matches;
    assert accepted + [] == accepted;
  }

  /** All headers once the work is reached, and before that all but as many as the buffer keeps. */
  ghost function Due(c: Config, accepted: seq<Header>): seq<Header> {
    if Reached(c, accepted) then accepted
    else if |accepted| > BUFFER then accepted[..|accepted| - BUFFER]
    else []
  }

  lemma {:induction false} DueCount(c: Config, t: State, presync: seq<Header>, accepted: seq<Header>, n: nat)
    requires Redownloading(c, t, presync, accepted, n) && (n == 0 || n + BUFFER <= |accepted|)
    ensures n + Ready(t) <= |accepted| && Due(c, accepted) == accepted[..n + Ready(t)]
  {
    hide Linked, Permitted, Reached, Buffered, CommitBits, Work;
    BufferLength(t.buffer, accepted, n);
    assert accepted[..|accepted|] == accepted;
  }

  lemma {:induction false} PopDue(c: Config, t: State, h: History, accepted: seq<Header>)
    requires h.released <= h.accepted <= accepted
    requires h.released == [] || |h.released| + BUFFER <= |h.accepted|
    requires Redownloading(c, t, h.presync, accepted, |h.released|)
    ensures h.released + Pop(c, t).1 == Due(c, accepted)
  {
    hide Redownloading, Due, Ready, Pop;
    var n := |h.released|;
    PopKeeps(c, t, h.presync, accepted, n);
    DueCount(c, t, h.presync, accepted, n);
    assert h.released == accepted[..n];
    assert accepted[..n] + accepted[n..n + Ready(t)] == accepted[..n + Ready(t)];
  }

  /** A message of the second phase succeeds exactly if it rebuilds the chain. Then all headers that are due have been
      released, and more is requested exactly if the work is not reached and the message is full. In all other cases
      the synchronisation ends, and a message that fails releases nothing. */
  lemma {:induction false} RedownloadMessageExact(c: Config, s: State, h: History, m: Message)
    requires Inv(c, s, h) && s.phase.Redownload? && m.headers != []
    ensures var (t, r) := Process(c, s, m); var all := h.accepted + m.headers;
      && (r.success <==> Rebuilds(c, h.presync, h.accepted, m.headers))
      && (t.phase.Redownload? <==> r.success && !Reached(c, all) && m.full)
      && r.requestMore == t.phase.Redownload? && (t.phase.Redownload? || t.phase.Final?)
      && (if r.success then h.released + r.released == Due(c, all) else r.released == [])
  {
    hide Redownloading, Released, RedownloadAll, Rebuilds, Linked, Permitted, Reached, Pop, Work, Due;
    RedownloadAllExact(c, s, h.presync, h.accepted, |h.released|, m.headers);
    var (t, ok) := RedownloadAll(c, s, m.headers);
    if ok {
      RedownloadAllKeeps(c, s, h.presync, h.accepted, |h.released|, m.headers);
      Depth(c, s, h);
      AfterPop(c, t, h, h.accepted + m.headers);
      PopDue(c, t, h, h.accepted + m.headers);
      Everything(c, t, h, h.accepted + m.headers);
    }
  }

  /** Nothing is kept for a synchronisation that has ended. */
  ghost predicate Tidy(s: State) {
    s.phase.Final? ==> s.commitments == [] && s.buffer == []
  }

  lemma {:induction false} RunTidy(c: Config, s: State, h: History, messages: seq<Message>)
    requires Tidy(s)
    ensures Tidy(Run(c, s, h, messages).0)
    decreases |messages|
  {
    if messages != [] {
      var (t, r) := Process(c, s, messages[0]);
      ProcessTidy(c, s, messages[0]);
      RunTidy(c, t, Recorded(h, s, messages[0], r), messages[1..]);
    }
  }

  lemma {:induction false} ProcessTidy(c: Config, s: State, m: Message)
    requires Tidy(s)
    ensures Tidy(Process(c, s, m).0)
  {
    hide PresyncAll, RedownloadAll, Expand;
    if s.phase.Presync? {
      PresyncPhase(c, s, m.headers);
    } else if s.phase.Redownload? {
      RedownloadPhase(c, s, m.headers);
    }
  }

  lemma {:induction false} PresyncPhase(c: Config, s: State, headers: seq<Header>)
    ensures PresyncAll(c, s, headers).0.phase == s.phase
    decreases |headers|
  {
    if headers != [] {
      PresyncPhase(c, PresyncOne(c, s, headers[0]).0, headers[1..]);
    }
  }

  lemma {:induction false} RedownloadPhase(c: Config, s: State, headers: seq<Header>)
    ensures RedownloadAll(c, s, headers).0.phase == s.phase
    decreases |headers|
  {
    if headers != [] {
      RedownloadPhase(c, RedownloadOne(c, s, headers[0]).0, headers[1..]);
    }
  }

  /** In every run from construction the memory is given back at the end. */
  lemma {:induction false} EndForgets(c: Config, messages: seq<Message>)
    ensures var t := Run(c, Initial(c), History([], [], []), messages).0;
      t.phase.Final? ==> t.commitments == [] && t.buffer == []
  {
    RunTidy(c, Initial(c), History([], [], []), messages);
  }
}
