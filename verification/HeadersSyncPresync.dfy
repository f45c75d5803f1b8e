/** The first phase of the headers synchronisation: which messages it accepts, and how far a peer gets with a
    chain. Together with the second phase this gives the synchronisation of an honest peer from beginning to end. */
module HeadersSyncPresync {
  import opened HeadersSync

  // ---------- one message ----------

  lemma {:induction false} PresyncOneExact(c: Config, s: State, chain: seq<Header>, h: Header)
    requires Presynced(c, s, chain) && |s.commitments| <= c.maxCommitments
    ensures PresyncOne(c, s, h).1 <==>
      && c.permitted(c.startHeight + |chain| + 1, Last(c, chain).bits, h.bits)
      && |CommitBits(c, chain + [h])| <= c.maxCommitments
    ensures PresyncOne(c, s, h).1 ==> |PresyncOne(c, s, h).0.commitments| <= c.maxCommitments
  {
    hide Plus, Commits, Work, CommitBits, Permitted;
    Grow(c, chain, h);
  }

  lemma {:induction false} PermittedPrefix(c: Config, chain: seq<Header>, n: nat)
    requires Permitted(c, chain) && n <= |chain|
    ensures Permitted(c, chain[..n])
  {
    hide Last;
    var front := chain[..n];
    forall i | 0 <= i < n ensures PermittedAt(c, front, i) {
      assert PermittedAt(c, chain, i);
      assert front[..i] == chain[..i] && front[i] == chain[i];
    }
  }

  /** The headers of a message are accepted exactly if the difficulty rule permits every step and the commitments
      do not become too many. */
  lemma {:induction false} PresyncAllExact(c: Config, s: State, chain: seq<Header>, headers: seq<Header>)
    requires Presynced(c, s, chain) && |s.commitments| <= c.maxCommitments
    ensures PresyncAll(c, s, headers).1 <==>
      Permitted(c, chain + headers) && |CommitBits(c, chain + headers)| <= c.maxCommitments
    decreases |headers|
  {
    hide Plus, Commits, Work, CommitBits, PermittedAt, PresyncOne, Permitted;
    if headers == [] {
      assert chain + headers == chain;
      AcceptedSoFar(c, s, chain);
    } else {
      var h, all := headers[0], chain + headers;
      var more := chain + [h];
      assert more + headers[1..] == all && all[..|more|] == more;
      PresyncOneExact(c, s, chain, h);
      AcceptedSoFar(c, s, chain);
      GrowPermitted(c, chain, h);
      BitsPrefix(c, all, |more|);
      if PresyncOne(c, s, h).1 {
        PresyncOneKeeps(c, s, chain, h);
        PresyncAllExact(c, PresyncOne(c, s, h).0, more, headers[1..]);
      } else if Permitted(c, all) {
        PermittedPrefix(c, all, |more|);
      }
    }
  }

  lemma {:induction false} AcceptedSoFar(c: Config, s: State, chain: seq<Header>)
    requires Presynced(c, s, chain)
    ensures Permitted(c, chain) && s.commitments == CommitBits(c, chain)
  {
  }

  /** What the first phase asks of a message, given the headers before it: it connects to them, the difficulty rule
      permits every step, and the commitments stay within their number. */
  ghost predicate Acceptable(c: Config, chain: seq<Header>, headers: seq<Header>)
    requires headers != []
  {
    && headers[0].prev == c.hash(Last(c, chain))
    && Permitted(c, chain + headers)
    && |CommitBits(c, chain + headers)| <= c.maxCommitments
  }

  ghost predicate Enough(c: Config, chain: seq<Header>) {
    Work(c, chain) >= c.minWork
  }

  /** A message of the first phase succeeds exactly if it is acceptable. Then the second phase starts exactly if the
      work suffices, and otherwise more is requested exactly if the message is full. In all other cases the
      synchronisation ends. Nothing is released. */
  lemma {:induction false} PresyncMessageExact(c: Config, s: State, h: History, m: Message)
    requires Inv(c, s, h) && s.phase.Presync? && |s.commitments| <= c.maxCommitments && m.headers != []
    ensures var (t, r) := Process(c, s, m); var all := h.presync + m.headers;
      && (r.success <==> Acceptable(c, h.presync, m.headers))
      && (t.phase.Redownload? <==> Acceptable(c, h.presync, m.headers) && Enough(c, all))
      && (t.phase.Presync? <==> Acceptable(c, h.presync, m.headers) && !Enough(c, all) && m.full)
      && r.requestMore == !t.phase.Final? && r.released == []
      && Recorded(h, s, m, r) == (if r.success then h.(presync := all) else h)
      && |t.commitments| <= c.maxCommitments
  {
    hide Redownloading, Released, PresyncAll, PresyncOne, Linked, Permitted, Reached, Work, CommitBits;
    PresyncAllExact(c, s, h.presync, m.headers);
    PresyncBounded(c, s, m.headers);
    var (t, ok) := PresyncAll(c, s, m.headers);
    if ok {
      PresyncAllKeeps(c, s, h.presync, m.headers);
    }
  }

  // ---------- all messages of the first phase ----------

  /** Each message connects to the headers before it. */
  ghost predicate Connecting(c: Config, chain: seq<Header>, messages: seq<Message>)
    decreases |messages|
  {
    messages == [] ||
    (messages[0].headers != [] && messages[0].headers[0].prev == c.hash(Last(c, chain))
     && Connecting(c, chain + messages[0].headers, messages[1..]))
  }

  lemma {:induction false} LinkedConnects(c: Config, chain: seq<Header>, messages: seq<Message>)
    requires Linked(c, chain + Concat(messages)) && forall i :: 0 <= i < |messages| ==> messages[i].headers != []
    ensures Connecting(c, chain, messages)
    decreases |messages|
  {
    hide Last;
    if messages != [] {
      var m, all := messages[0], chain + Concat(messages);
      assert all == chain + m.headers + Concat(messages[1..]);
      assert all[|chain|] == m.headers[0] && all[..|chain|] == chain;
      LinkedConnects(c, chain + m.headers, messages[1..]);
    }
  }

  /** No message but the last brings enough work. */
  ghost predicate NotBefore(c: Config, chain: seq<Header>, messages: seq<Message>)
    decreases |messages|
  {
    |messages| <= 1 ||
    (!Enough(c, chain + messages[0].headers) && NotBefore(c, chain + messages[0].headers, messages[1..]))
  }

  ghost predicate FullButLast(messages: seq<Message>) {
    forall i :: 0 <= i < |messages| - 1 ==> messages[i].full
  }

  lemma {:induction false} FullButLastFirst(messages: seq<Message>)
    requires |messages| > 1
    ensures FullButLast(messages) <==> messages[0].full && FullButLast(messages[1..])
  {
    var rest := messages[1..];
    if FullButLast(messages) {
      forall i | 0 <= i < |rest| - 1 ensures rest[i].full {
        assert messages[i + 1].full;
      }
    }
    if messages[0].full && FullButLast(rest) {
      forall i | 0 <= i < |messages| - 1 ensures messages[i].full {
        assert i > 0 ==> rest[i - 1].full;
      }
    }
  }

  /** A permitted chain with few enough commitments, cut into connecting messages of which no earlier one brings
      enough work: all of it is accepted exactly if all messages but the last are full. Then the second phase starts
      exactly if the work suffices, and the first goes on exactly if it does not and the last message is full. */
  lemma {:induction false} FirstPhaseExact(c: Config, s: State, h: History, messages: seq<Message>)
    requires Inv(c, s, h) && s.phase.Presync? && |s.commitments| <= c.maxCommitments && messages != []
    requires Connecting(c, h.presync, messages) && NotBefore(c, h.presync, messages)
    requires var all := h.presync + Concat(messages); Permitted(c, all) && |CommitBits(c, all)| <= c.maxCommitments
    ensures var (t, g) := Run(c, s, h, messages); var all := h.presync + Concat(messages);
      && Inv(c, t, g)
      && (g == h.(presync := all) <==> FullButLast(messages))
      && (t.phase.Redownload? <==> FullButLast(messages) && Enough(c, all))
      && (t.phase.Presync? <==> FullButLast(messages) && !Enough(c, all) && messages[|messages| - 1].full)
      && g.accepted == h.accepted && g.released == h.released
    decreases |messages|
  {
    hide Inv, Process, Permitted, CommitBits, Work, Enough, FullButLast;
    var m, rest, all := messages[0], messages[1..], h.presync + Concat(messages);
    var more := h.presync + m.headers;
    assert all == more + Concat(rest) && all[..|more|] == more;
    PermittedPrefix(c, all, |more|);
    BitsPrefix(c, all, |more|);
    PresyncMessageExact(c, s, h, m);
    ProcessKeeps(c, s, h, m);
    var (t, r) := Process(c, s, m);
    var g := Recorded(h, s, m, r);
    if rest == [] {
      OneIsFull(messages);
      assert Run(c, t, g, rest) == (t, g);
    } else {
      FullButLastFirst(messages);
      if m.full {
        FirstPhaseExact(c, t, g, rest);
      } else {
        RunFinal(c, t, g, rest);
        MoreThan(more, rest, all);
      }
    }
  }

  lemma {:induction false} OneIsFull(messages: seq<Message>)
    requires |messages| == 1
    ensures FullButLast(messages)
  {
  }

  lemma {:induction false} MoreThan(more: seq<Header>, rest: seq<Message>, all: seq<Header>)
    requires all == more + Concat(rest) && rest != [] && rest[0].headers != []
    ensures all != more
  {
  }

  // ---------- from beginning to end ----------

  /** An honest peer: it has a linked, permitted chain with few enough commitments up to the point where the work
      suffices, sends it up to there, and then sends it again, or a longer one. However both are cut into messages,
      the synchronisation ends, and it ends with all accepted headers released and the target reached exactly if
      the messages of the first phase are full but for the last, and those of the second up to the target. */
  lemma {:induction false} HonestPeer(c: Config, first: seq<Message>, second: seq<Message>)
    requires first != [] && Enough(c, Concat(first)) && NotBefore(c, [], first)
    requires |CommitBits(c, Concat(first))| <= c.maxCommitments
    requires Concat(first) <= Concat(second) && Linked(c, Concat(second)) && Permitted(c, Concat(second))
    requires forall i :: 0 <= i < |first| ==> first[i].headers != []
    requires forall i :: 0 <= i < |second| ==> second[i].headers != []
    ensures var (t, g) := Run(c, Initial(c), History([], [], []), first + second);
      && t.phase.Final?
      && (g.released == g.accepted && Reached(c, g.accepted) <==> FullButLast(first) && FullUntilReached(c, [], second))
      && (FullButLast(first) && FullUntilReached(c, [], second) ==>
        exists k :: 0 <= k <= |second| && g.accepted == Concat(second[..k]))
  {
    hide Linked, Permitted, Reached, Process, Inv, Work, FullUntilReached, FullButLast, CommitBits, Enough, NotBefore;
    var s, h := Initial(c), History([], [], []);
    InitialOk(c);
    var p, chain := Concat(first), Concat(second);
    assert h.presync + p == p && chain[..|p|] == p;
    PermittedPrefix(c, chain, |p|);
    LinkedPrefix(c, chain, |p|);
    LinkedConnects(c, [], first);
    FirstPhaseExact(c, s, h, first);
    RunAppend(c, s, h, first, second);
    var (t, g) := Run(c, s, h, first);
    NothingYet(c, []);
    if FullButLast(first) {
      SecondPhase(c, t, g, second);
    } else {
      RunFinal(c, t, g, second);
    }
  }

  lemma {:induction false} LinkedPrefix(c: Config, chain: seq<Header>, n: nat)
    requires Linked(c, chain) && n <= |chain|
    ensures Linked(c, chain[..n])
  {
    hide Last;
    var front := chain[..n];
    forall i | 0 <= i < n ensures front[i].prev == c.hash(Last(c, front[..i])) {
      assert front[..i] == chain[..i] && front[i] == chain[i];
    }
  }

  /** The second phase from its beginning, for a peer that sends the chain of the first again, or a longer one. */
  lemma {:induction false} SecondPhase(c: Config, s: State, h: History, second: seq<Message>)
    requires Inv(c, s, h) && s.phase.Redownload? && h.accepted == []
    requires h.presync <= Concat(second) && Linked(c, Concat(second)) && Permitted(c, Concat(second))
    requires forall i :: 0 <= i < |second| ==> second[i].headers != []
    ensures var (t, g) := Run(c, s, h, second);
      && t.phase.Final?
      && (g.released == g.accepted && Reached(c, g.accepted) <==> FullUntilReached(c, [], second))
      && (FullUntilReached(c, [], second) ==> exists k :: 0 <= k <= |second| && g.accepted == Concat(second[..k]))
  {
    hide Linked, Permitted, Reached, Process, Inv, Work, FullUntilReached;
    NothingYet(c, []);
    var chain := Concat(second);
    assert h.accepted + chain == chain;
    ReplayExact(c, s, h, chain, second);
    if FullUntilReached(c, [], second) {
      var k := HonestReplay(c, s, h, chain, second);
      assert second[..k] + second[k..] == second;
      RunAppend(c, s, h, second[..k], second[k..]);
      var (t, g) := Run(c, s, h, second[..k]);
      RunFinal(c, t, g, second[k..]);
      assert h.accepted + Concat(second[..k]) == Concat(second[..k]);
    }
  }
}
