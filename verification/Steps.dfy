/** Every step keeps the invariant, so it holds in every run. */
module Steps {
  import opened Transport
  import opened Protocol
  import opened Invariant
  import opened Address

  // -------------------------------------------------------- what calls add to history

  lemma PostHistory(level: Level, l: Link, c: nat)
    requires c < |l.rx|
    ensures var l' := Post(level, l, c);
            && |l'.rx| == |l.rx| && |l'.tx| == |l.tx|
            && (forall d: nat :: d < |l.rx| ==>
                  && l'.rx[d].sent == l.rx[d].sent && l'.rx[d].taken == l.rx[d].taken
                  && l'.rx[d].posts == l.rx[d].posts + B(d == c))
            && (forall d: nat :: d < |l.tx| ==> l'.tx[d].reaped == l.tx[d].reaped)
  {
  }

  lemma SendHistory(l: Link, c: nat)
    requires c < |l.rx| && c < |l.tx|
    ensures var l' := Send(l, c, c);
            && |l'.rx| == |l.rx| && |l'.tx| == |l.tx|
            && (forall d: nat :: d < |l.rx| ==>
                  && l'.rx[d].sent == l.rx[d].sent + (if d == c then [Msg(c, l.txBuf)] else [])
                  && l'.rx[d].taken == l.rx[d].taken && l'.rx[d].posts == l.rx[d].posts
                  && l'.rx[d].log == l.rx[d].log)
            && (forall d: nat :: d < |l.tx| ==> l'.tx[d].reaped == l.tx[d].reaped)
  {
  }

  lemma TakeTxHistory(l: Link, c: nat)
    requires c < |l.tx| && l.tx[c].ready > 0
    ensures var l' := TakeTx(l, c);
            && l'.rx == l.rx && |l'.tx| == |l.tx|
            && (forall d: nat :: d < |l.tx| ==> l'.tx[d].reaped == l.tx[d].reaped + B(d == c))
  {
  }

  lemma TakeRxHistory(l: Link, c: nat)
    requires c < |l.rx| && l.rx[c].unread > 0
    ensures var l' := TakeRx(l, c);
            && l'.tx == l.tx && |l'.rx| == |l.rx|
            && (forall d: nat :: d < |l.rx| ==>
                  && l'.rx[d].sent == l.rx[d].sent && l'.rx[d].posts == l.rx[d].posts && l'.rx[d].log == l.rx[d].log
                  && l'.rx[d].taken == l.rx[d].taken + B(d == c))
  {
  }

  // -------------------------------------------------- ledgers after a client's step

  /** The client's sends and reads of transmit queues are the same at both places. */
  ghost predicate SameUp(p: Pc, q: Pc, n: nat) {
    forall c: nat :: c < n ==> UpSent(p, n, c) == UpSent(q, n, c) && UpReaped(p, n, c) == UpReaped(q, n, c)
  }

  ghost predicate SameDown(p: Pc, q: Pc) {
    ReplyTaken(p) == ReplyTaken(q) && forall c: nat :: Posts(p, c) == Posts(q, c)
  }

  lemma UpSame(n: nat, l: Link, l': Link, p: Pc, q: Pc, server: Pc)
    requires |l.rx| == |l.tx| == n && UpLedger(n, l, p, server) && SameUp(p, q, n)
    requires l'.rx == l.rx && l'.tx == l.tx
    ensures UpLedger(n, l', q, server)
  {
    forall c: nat | c < n ensures UpLane(n, l', q, server, c) {
      assert UpLane(n, l, p, server, c);
    }
  }

  lemma DownSame(n: nat, l: Link, p: Pc, q: Pc, server: Pc)
    requires |l.rx| == |l.tx| == n && DownLedger(n, l, p, server) && SameDown(p, q)
    ensures DownLedger(n, l, q, server)
  {
    forall c: nat | c < n ensures DownLane(l, q, server, c) {
      assert DownLane(l, p, server, c);
    }
  }

  lemma DownPosted(n: nat, level: Level, l: Link, p: Pc, q: Pc, server: Pc, c: nat)
    requires |l.rx| == |l.tx| == n && c < n && DownLedger(n, l, p, server)
    requires || (p == Binding(c) && q == if c + 1 < n then Binding(c + 1) else InsertingPeer)
             || (p == Reposting && q == AwaitingTx && c == 0)
    ensures |Post(level, l, c).rx| == |Post(level, l, c).tx| == n
    ensures DownLedger(n, Post(level, l, c), q, server)
  {
    PostHistory(level, l, c);
    var l' := Post(level, l, c);
    forall d: nat | d < n ensures DownLane(l', q, server, d) {
      assert DownLane(l, p, server, d);
    }
  }

  lemma DownTaken(n: nat, l: Link, server: Pc)
    requires |l.rx| == |l.tx| == n && 0 < n && l.rx[0].unread > 0 && DownLedger(n, l, AwaitingReply, server)
    ensures DownLedger(n, TakeRx(l, 0), FillingAddrs, server)
  {
    TakeRxHistory(l, 0);
    forall c: nat | c < n ensures DownLane(TakeRx(l, 0), FillingAddrs, server, c) {
      assert DownLane(l, AwaitingReply, server, c);
    }
  }

  lemma UpSendsName(n: nat, l: Link, server: Pc)
    requires |l.rx| == |l.tx| == n && 0 < n && l.txBuf == ClientName && UpLedger(n, l, SendingName, server)
    ensures UpLedger(n, Send(l, 0, 0), AwaitingReply, server)
  {
    SendHistory(l, 0);
    forall c: nat | c < n ensures UpLane(n, Send(l, 0, 0), AwaitingReply, server, c) {
      assert UpLane(n, l, SendingName, server, c);
    }
  }

  lemma UpSendsData(n: nat, l: Link, i: nat, server: Pc)
    requires |l.rx| == |l.tx| == n && i < n && l.txBuf == Word(DATA + i) && UpLedger(n, l, Sending(i), server)
    ensures UpLedger(n, Send(l, i, i), AwaitingSent(i), server)
  {
    SendHistory(l, i);
    forall c: nat | c < n ensures UpLane(n, Send(l, i, i), AwaitingSent(i), server, c) {
      assert UpLane(n, l, Sending(i), server, c);
    }
  }

  lemma UpReaps(n: nat, l: Link, p: Pc, q: Pc, server: Pc, c: nat)
    requires |l.rx| == |l.tx| == n && c < n && l.tx[c].ready > 0 && UpLedger(n, l, p, server)
    requires || (p == AwaitingTx && q == Writing(0) && c == 0)
             || (p == AwaitingSent(c) && q == if c + 1 < n then Writing(c + 1) else Done)
    ensures UpLedger(n, TakeTx(l, c), q, server)
  {
    TakeTxHistory(l, c);
    forall d: nat | d < n ensures UpLane(n, TakeTx(l, c), q, server, d) {
      assert UpLane(n, l, p, server, d);
    }
  }

  // ------------------------------------------------------------ client, one by one

  /** The client moves to the party p, changing the links to up and down. */
  lemma ClientMoves(cfg: Cfg, s: State, p: Party, up: Link, down: Link)
    requires Inv(cfg, s) && ClientPc(p.pc, cfg.n)
    requires LinkOk(cfg.level, up, cfg.n) && LinkOk(cfg.level, down, cfg.n)
    requires UpLedger(cfg.n, up, p.pc, s.server.pc) && DownLedger(cfg.n, down, p.pc, s.server.pc)
    requires ProgramsOk(cfg, s.(client := p, up := up, down := down))
    requires OrderOk(cfg.level, up)
    ensures Inv(cfg, s.(client := p, up := up, down := down))
  {
  }

  /** The client moves to q in a step that changes only the link down. */
  lemma ClientMovesDown(cfg: Cfg, s: State, q: Pc, l: Link)
    requires Inv(cfg, s) && ClientPc(q, cfg.n) && !q.SendingName? && !q.Sending?
    requires PeerKnown(q) ==> PeerKnown(s.client.pc)
    requires q.Reposting? || Reposted(q) ==> s.client.pc.Reposting? || Reposted(s.client.pc)
    requires SameUp(s.client.pc, q, cfg.n)
    requires LinkOk(cfg.level, l, cfg.n) && DownLedger(cfg.n, l, q, s.server.pc) && l.txBuf == s.down.txBuf
    ensures Inv(cfg, s.(client := s.client.(pc := q), down := l))
  {
    UpSame(cfg.n, s.up, s.up, s.client.pc, q, s.server.pc);
  }

  lemma PostKeepsTxBuf(level: Level, l: Link, c: nat)
    requires c < |l.rx|
    ensures Post(level, l, c).txBuf == l.txBuf
  {
  }

  lemma ClientPostsOn(cfg: Cfg, s: State, c: nat, q: Pc)
    requires Inv(cfg, s) && c < cfg.n
    requires || (s.client.pc == Binding(c) && q == if c + 1 < cfg.n then Binding(c + 1) else InsertingPeer)
             || (s.client.pc == Reposting && q == AwaitingTx && c == 0)
    ensures Inv(cfg, s.(client := s.client.(pc := q), down := Post(cfg.level, s.down, c)))
  {
    PostOk(cfg.level, s.down, cfg.n, c);
    PostKeepsTxBuf(cfg.level, s.down, c);
    DownPosted(cfg.n, cfg.level, s.down, s.client.pc, q, s.server.pc, c);
    ClientMovesDown(cfg, s, q, Post(cfg.level, s.down, c));
  }

  lemma ClientPostForm(cfg: Cfg, s: State, c: nat, q: Pc)
    requires c < |s.down.rx|
    requires || (s.client.pc == Binding(c) && q == if c + 1 < cfg.n then Binding(c + 1) else InsertingPeer)
             || (s.client.pc == Reposting && q == AwaitingTx && c == 0)
    ensures ClientCanStep(cfg, s)
    ensures ClientStep(cfg, s) == s.(client := s.client.(pc := q), down := Post(cfg.level, s.down, c))
  {
  }

  lemma ClientPosts(cfg: Cfg, s: State)
    requires Inv(cfg, s) && (s.client.pc.Binding? || s.client.pc.Reposting?)
    ensures ClientCanStep(cfg, s) && Inv(cfg, ClientStep(cfg, s))
  {
    var c := if s.client.pc.Reposting? then 0 else s.client.pc.i;
    var q := if s.client.pc.Reposting? then AwaitingTx else if c + 1 < cfg.n then Binding(c + 1) else InsertingPeer;
    ClientPostsOn(cfg, s, c, q);
    ClientPostForm(cfg, s, c, q);
    Same(cfg, s.(client := s.client.(pc := q), down := Post(cfg.level, s.down, c)), ClientStep(cfg, s));
  }

  lemma ClientLocal(cfg: Cfg, s: State)
    requires Inv(cfg, s) && (s.client.pc.InsertingPeer? || s.client.pc.FillingAddrs?)
    ensures Inv(cfg, ClientStep(cfg, s))
  {
    var s' := ClientStep(cfg, s);
    UpSame(cfg.n, s.up, s.up, s.client.pc, s'.client.pc, s.server.pc);
    DownSame(cfg.n, s.down, s.client.pc, s'.client.pc, s.server.pc);
    ClientMoves(cfg, s, s'.client, s.up, s.down);
  }

  lemma ClientWritesTo(cfg: Cfg, s: State, p: Payload, q: Pc)
    requires Inv(cfg, s)
    requires || (s.client.pc == Naming && p == ClientName && q == SendingName)
             || (s.client.pc.Writing? && p == Word(DATA + s.client.pc.i) && q == Sending(s.client.pc.i))
    ensures Inv(cfg, s.(client := s.client.(pc := q), up := s.up.(txBuf := p)))
  {
    ClientQuiet(cfg, s);
    WriteOk(cfg.level, s.up, cfg.n, p);
    SameLogs(cfg.level, s.up, s.up.(txBuf := p));
    UpSame(cfg.n, s.up, s.up.(txBuf := p), s.client.pc, q, s.server.pc);
    DownSame(cfg.n, s.down, s.client.pc, q, s.server.pc);
    ClientMoves(cfg, s, s.client.(pc := q), s.up.(txBuf := p), s.down);
  }

  lemma ClientWriteForm(cfg: Cfg, s: State, p: Payload, q: Pc)
    requires || (s.client.pc == Naming && p == ClientName && q == SendingName)
             || (s.client.pc.Writing? && p == Word(DATA + s.client.pc.i) && q == Sending(s.client.pc.i))
    ensures ClientStep(cfg, s) == s.(client := s.client.(pc := q), up := s.up.(txBuf := p))
  {
  }

  lemma ClientWrites(cfg: Cfg, s: State)
    requires Inv(cfg, s) && (s.client.pc.Naming? || s.client.pc.Writing?)
    ensures Inv(cfg, ClientStep(cfg, s))
  {
    var p := if s.client.pc.Naming? then ClientName else Word(DATA + s.client.pc.i);
    var q := if s.client.pc.Naming? then SendingName else Sending(s.client.pc.i);
    ClientWritesTo(cfg, s, p, q);
    ClientWriteForm(cfg, s, p, q);
    Same(cfg, s.(client := s.client.(pc := q), up := s.up.(txBuf := p)), ClientStep(cfg, s));
  }

  lemma ClientSends(cfg: Cfg, s: State, c: nat)
    requires Inv(cfg, s) && c < cfg.n
    requires s.client.pc == Sending(c) || (s.client.pc == SendingName && c == 0)
    ensures s.up.pend == [] && |s.up.rx[c].sent| == |s.up.rx[c].log|
    ensures LinkOk(cfg.level, Send(s.up, c, c), cfg.n) && OrderOk(cfg.level, Send(s.up, c, c))
  {
    ClientQuiet(cfg, s);
    Causality(cfg, s);
    Lanes(cfg, s, c);
    SendOk(cfg.level, s.up, cfg.n, c);
    SendHistory(s.up, c);
    SameLogs(cfg.level, s.up, Send(s.up, c, c));
  }

  lemma ClientSendsName(cfg: Cfg, s: State)
    requires Inv(cfg, s) && s.client.pc.SendingName?
    ensures Inv(cfg, ClientStep(cfg, s))
  {
    RouteOfBase(cfg, cfg.serverHandle);
    ClientSends(cfg, s, 0);
    UpSendsName(cfg.n, s.up, s.server.pc);
    DownSame(cfg.n, s.down, s.client.pc, AwaitingReply, s.server.pc);
    ClientMoves(cfg, s, s.client.(pc := AwaitingReply), Send(s.up, 0, 0), s.down);
  }

  lemma ClientSendsData(cfg: Cfg, s: State)
    requires Inv(cfg, s) && s.client.pc.Sending?
    ensures ClientCanStep(cfg, s) && Inv(cfg, ClientStep(cfg, s))
  {
    var i := s.client.pc.i;
    RouteOfRxAddr(cfg, cfg.serverHandle, i);
    ClientSends(cfg, s, i);
    UpSendsData(cfg.n, s.up, i, s.server.pc);
    DownSame(cfg.n, s.down, s.client.pc, AwaitingSent(i), s.server.pc);
    ClientMoves(cfg, s, s.client.(pc := AwaitingSent(i)), Send(s.up, i, i), s.down);
  }

  lemma ClientTakesReply(cfg: Cfg, s: State)
    requires Inv(cfg, s) && s.client.pc.AwaitingReply? && ClientCanStep(cfg, s)
    ensures Inv(cfg, ClientStep(cfg, s))
  {
    TakeRxOk(cfg.level, s.down, cfg.n, 0);
    DownTaken(cfg.n, s.down, s.server.pc);
    UpSame(cfg.n, s.up, s.up, s.client.pc, FillingAddrs, s.server.pc);
    ClientMoves(cfg, s, s.client.(pc := FillingAddrs), s.up, TakeRx(s.down, 0));
  }

  lemma ClientReapsFrom(cfg: Cfg, s: State, c: nat, q: Pc)
    requires Inv(cfg, s) && c < cfg.n && s.up.tx[c].ready > 0
    requires || (s.client.pc == AwaitingTx && q == Writing(0) && c == 0)
             || (s.client.pc == AwaitingSent(c) && q == if c + 1 < cfg.n then Writing(c + 1) else Done)
    ensures Inv(cfg, s.(client := s.client.(pc := q), up := TakeTx(s.up, c)))
  {
    TakeTxOk(cfg.level, s.up, cfg.n, c);
    SameLogs(cfg.level, s.up, TakeTx(s.up, c));
    UpReaps(cfg.n, s.up, s.client.pc, q, s.server.pc, c);
    DownSame(cfg.n, s.down, s.client.pc, q, s.server.pc);
    ClientMoves(cfg, s, s.client.(pc := q), TakeTx(s.up, c), s.down);
  }

  lemma ClientReapForm(cfg: Cfg, s: State, c: nat, q: Pc)
    requires c < |s.up.tx| && s.up.tx[c].ready > 0
    requires || (s.client.pc == AwaitingTx && q == Writing(0) && c == 0)
             || (s.client.pc == AwaitingSent(c) && q == if c + 1 < cfg.n then Writing(c + 1) else Done)
    ensures ClientCanStep(cfg, s)
    ensures ClientStep(cfg, s) == s.(client := s.client.(pc := q), up := TakeTx(s.up, c))
  {
  }

  lemma ClientReaps(cfg: Cfg, s: State)
    requires Inv(cfg, s) && (s.client.pc.AwaitingTx? || s.client.pc.AwaitingSent?) && ClientCanStep(cfg, s)
    ensures Inv(cfg, ClientStep(cfg, s))
  {
    var c := if s.client.pc.AwaitingTx? then 0 else s.client.pc.i;
    var q := if s.client.pc.AwaitingTx? then Writing(0) else if c + 1 < cfg.n then Writing(c + 1) else Done;
    ClientReapsFrom(cfg, s, c, q);
    ClientReapForm(cfg, s, c, q);
    Same(cfg, s.(client := s.client.(pc := q), up := TakeTx(s.up, c)), ClientStep(cfg, s));
  }

  lemma InvClient(cfg: Cfg, s: State)
    requires Inv(cfg, s) && ClientCanStep(cfg, s)
    ensures Inv(cfg, ClientStep(cfg, s))
  {
    match s.client.pc
    case Binding(_) | Reposting => ClientPosts(cfg, s);
    case InsertingPeer | FillingAddrs => ClientLocal(cfg, s);
    case Naming | Writing(_) => ClientWrites(cfg, s);
    case SendingName => ClientSendsName(cfg, s);
    case AwaitingReply => ClientTakesReply(cfg, s);
    case AwaitingTx | AwaitingSent(_) => ClientReaps(cfg, s);
    case Sending(_) => ClientSendsData(cfg, s);
  }

  // -------------------------------------------------- ledgers after a server's step

  /** The server's receives and reads of receive queues are the same at both places. */
  ghost predicate ServerSameUp(p: Pc, q: Pc, n: nat) {
    forall c: nat :: c < n ==> Posts(p, c) == Posts(q, c) && UpTaken(p, n, c) == UpTaken(q, n, c)
  }

  lemma ServerUpSame(n: nat, l: Link, client: Pc, p: Pc, q: Pc)
    requires |l.rx| == |l.tx| == n && UpLedger(n, l, client, p) && ServerSameUp(p, q, n)
    ensures UpLedger(n, l, client, q)
  {
    forall c: nat | c < n ensures UpLane(n, l, client, q, c) {
      assert UpLane(n, l, client, p, c);
    }
  }

  predicate ServerSameDown(p: Pc, q: Pc) {
    ReplySent(p) == ReplySent(q) && InTest(p) == InTest(q)
  }

  lemma ServerDownSame(n: nat, l: Link, client: Pc, p: Pc, q: Pc)
    requires |l.rx| == |l.tx| == n && DownLedger(n, l, client, p) && ServerSameDown(p, q)
    ensures DownLedger(n, l, client, q)
  {
    forall c: nat | c < n ensures DownLane(l, client, q, c) {
      assert DownLane(l, client, p, c);
    }
  }

  lemma UpPosted(n: nat, level: Level, l: Link, client: Pc, p: Pc, q: Pc, c: nat)
    requires |l.rx| == |l.tx| == n && c < n && UpLedger(n, l, client, p)
    requires || (p == Binding(c) && q == if c + 1 < n then Binding(c + 1) else AwaitingName)
             || (p == Reposting && q == AwaitingTx && c == 0)
    ensures |Post(level, l, c).rx| == |Post(level, l, c).tx| == n
    ensures UpLedger(n, Post(level, l, c), client, q)
  {
    PostHistory(level, l, c);
    var l' := Post(level, l, c);
    forall d: nat | d < n ensures UpLane(n, l', client, q, d) {
      assert UpLane(n, l, client, p, d);
    }
  }

  lemma UpTakes(n: nat, l: Link, client: Pc, p: Pc, q: Pc, c: nat)
    requires |l.rx| == |l.tx| == n && c < n && l.rx[c].unread > 0 && UpLedger(n, l, client, p)
    requires (p == AwaitingName && q == InsertingPeer && c == 0) || (p == AwaitingData(c) && q == Comparing(c))
    ensures UpLedger(n, TakeRx(l, c), client, q)
  {
    TakeRxHistory(l, c);
    forall d: nat | d < n ensures UpLane(n, TakeRx(l, c), client, q, d) {
      assert UpLane(n, l, client, p, d);
    }
  }

  lemma DownSendsReply(n: nat, l: Link, client: Pc)
    requires |l.rx| == |l.tx| == n && 0 < n && l.txBuf == Zero && DownLedger(n, l, client, Replying)
    ensures DownLedger(n, Send(l, 0, 0), client, FillingAddrs)
  {
    SendHistory(l, 0);
    forall c: nat | c < n ensures DownLane(Send(l, 0, 0), client, FillingAddrs, c) {
      assert DownLane(l, client, Replying, c);
    }
  }

  lemma DownReaps(n: nat, l: Link, client: Pc)
    requires |l.rx| == |l.tx| == n && 0 < n && l.tx[0].ready > 0 && DownLedger(n, l, client, AwaitingTx)
    ensures DownLedger(n, TakeTx(l, 0), client, AwaitingData(0))
  {
    TakeTxHistory(l, 0);
    forall c: nat | c < n ensures DownLane(TakeTx(l, 0), client, AwaitingData(0), c) {
      assert DownLane(l, client, AwaitingTx, c);
    }
  }

  // ------------------------------------------------------------ server, one by one

  lemma ServerMoves(cfg: Cfg, s: State, p: Party, up: Link, down: Link)
    requires Inv(cfg, s) && ServerPc(p.pc, cfg.n) && Compared(p.pc, cfg.n) == |s.seen|
    requires LinkOk(cfg.level, up, cfg.n) && LinkOk(cfg.level, down, cfg.n)
    requires UpLedger(cfg.n, up, s.client.pc, p.pc) && DownLedger(cfg.n, down, s.client.pc, p.pc)
    requires ProgramsOk(cfg, s.(server := p, up := up, down := down))
    requires OrderOk(cfg.level, up)
    ensures Inv(cfg, s.(server := p, up := up, down := down))
  {
  }

  /** The server moves to q, changing only the link up. */
  lemma ServerMovesUp(cfg: Cfg, s: State, q: Pc, l: Link)
    requires Inv(cfg, s) && ServerPc(q, cfg.n) && Compared(q, cfg.n) == |s.seen|
    requires PeerKnown(q) ==> PeerKnown(s.server.pc)
    requires LinkOk(cfg.level, l, cfg.n) && UpLedger(cfg.n, l, s.client.pc, q) && OrderOk(cfg.level, l)
    requires l.txBuf == s.up.txBuf
    requires ServerSameDown(s.server.pc, q)
    ensures Inv(cfg, s.(server := s.server.(pc := q), up := l))
  {
    ServerDownSame(cfg.n, s.down, s.client.pc, s.server.pc, q);
  }

  lemma UpAfterPost(cfg: Cfg, s: State, c: nat, q: Pc)
    requires Inv(cfg, s) && c < cfg.n
    requires || (s.server.pc == Binding(c) && q == if c + 1 < cfg.n then Binding(c + 1) else AwaitingName)
             || (s.server.pc == Reposting && q == AwaitingTx && c == 0)
    ensures LinkOk(cfg.level, Post(cfg.level, s.up, c), cfg.n)
    ensures UpLedger(cfg.n, Post(cfg.level, s.up, c), s.client.pc, q)
    ensures OrderOk(cfg.level, Post(cfg.level, s.up, c))
    ensures Post(cfg.level, s.up, c).txBuf == s.up.txBuf
  {
    PostOk(cfg.level, s.up, cfg.n, c);
    PostOrder(cfg, s, c);
    PostKeepsTxBuf(cfg.level, s.up, c);
    UpPosted(cfg.n, cfg.level, s.up, s.client.pc, s.server.pc, q, c);
  }

  lemma ServerPostsOn(cfg: Cfg, s: State, c: nat, q: Pc)
    requires Inv(cfg, s) && c < cfg.n
    requires || (s.server.pc == Binding(c) && q == if c + 1 < cfg.n then Binding(c + 1) else AwaitingName)
             || (s.server.pc == Reposting && q == AwaitingTx && c == 0)
    ensures Inv(cfg, s.(server := s.server.(pc := q), up := Post(cfg.level, s.up, c)))
  {
    UpAfterPost(cfg, s, c, q);
    ServerMovesUp(cfg, s, q, Post(cfg.level, s.up, c));
  }

  lemma ServerPostForm(cfg: Cfg, s: State, c: nat, q: Pc)
    requires c < |s.up.rx|
    requires || (s.server.pc == Binding(c) && q == if c + 1 < cfg.n then Binding(c + 1) else AwaitingName)
             || (s.server.pc == Reposting && q == AwaitingTx && c == 0)
    ensures ServerCanStep(cfg, s)
    ensures ServerStep(cfg, s) == s.(server := s.server.(pc := q), up := Post(cfg.level, s.up, c))
  {
  }

  lemma ServerPosts(cfg: Cfg, s: State)
    requires Inv(cfg, s) && (s.server.pc.Binding? || s.server.pc.Reposting?)
    ensures ServerCanStep(cfg, s) && Inv(cfg, ServerStep(cfg, s))
  {
    var c := if s.server.pc.Reposting? then 0 else s.server.pc.i;
    var q := if s.server.pc.Reposting? then AwaitingTx else if c + 1 < cfg.n then Binding(c + 1) else AwaitingName;
    ServerPostsOn(cfg, s, c, q);
    ServerPostForm(cfg, s, c, q);
    Same(cfg, s.(server := s.server.(pc := q), up := Post(cfg.level, s.up, c)), ServerStep(cfg, s));
  }

  lemma ServerTakesFrom(cfg: Cfg, s: State, c: nat, q: Pc)
    requires Inv(cfg, s) && c < cfg.n && s.up.rx[c].unread > 0
    requires || (s.server.pc == AwaitingName && q == InsertingPeer && c == 0)
             || (s.server.pc == AwaitingData(c) && q == Comparing(c))
    ensures Inv(cfg, s.(server := s.server.(pc := q), up := TakeRx(s.up, c)))
  {
    TakeRxOk(cfg.level, s.up, cfg.n, c);
    TakeRxHistory(s.up, c);
    SameLogs(cfg.level, s.up, TakeRx(s.up, c));
    UpTakes(cfg.n, s.up, s.client.pc, s.server.pc, q, c);
    ServerMovesUp(cfg, s, q, TakeRx(s.up, c));
  }

  lemma ServerTakeForm(cfg: Cfg, s: State, c: nat, q: Pc)
    requires c < |s.up.rx| && s.up.rx[c].unread > 0
    requires || (s.server.pc == AwaitingName && q == InsertingPeer && c == 0)
             || (s.server.pc == AwaitingData(c) && q == Comparing(c))
    ensures ServerCanStep(cfg, s)
    ensures ServerStep(cfg, s) == s.(server := s.server.(pc := q), up := TakeRx(s.up, c))
  {
  }

  lemma ServerTakes(cfg: Cfg, s: State)
    requires Inv(cfg, s) && (s.server.pc.AwaitingName? || s.server.pc.AwaitingData?) && ServerCanStep(cfg, s)
    ensures Inv(cfg, ServerStep(cfg, s))
  {
    var c := if s.server.pc.AwaitingName? then 0 else s.server.pc.i;
    var q := if s.server.pc.AwaitingName? then InsertingPeer else Comparing(c);
    ServerTakesFrom(cfg, s, c, q);
    ServerTakeForm(cfg, s, c, q);
    Same(cfg, s.(server := s.server.(pc := q), up := TakeRx(s.up, c)), ServerStep(cfg, s));
  }

  /** The bytes passed to ft_av_insert are the client's address. */
  lemma ServerInserts(cfg: Cfg, s: State)
    requires Inv(cfg, s) && s.server.pc.InsertingPeer?
    ensures s.up.rxBuf == ClientName
    ensures Inv(cfg, ServerStep(cfg, s))
  {
    Causality(cfg, s);
    AddressFirst(cfg, s);
    ServerUpSame(cfg.n, s.up, s.client.pc, s.server.pc, Replying);
    ServerDownSame(cfg.n, s.down, s.client.pc, s.server.pc, Replying);
    ServerMoves(cfg, s, s.server.(pc := Replying, peer := cfg.clientHandle), s.up, s.down);
  }

  lemma ServerReplies(cfg: Cfg, s: State)
    requires Inv(cfg, s) && s.server.pc.Replying?
    ensures Inv(cfg, ServerStep(cfg, s))
  {
    RouteOfBase(cfg, cfg.clientHandle);
    ServerQuiet(cfg, s);
    Lanes(cfg, s, 0);
    SendOk(cfg.level, s.down, cfg.n, 0);
    DownSendsReply(cfg.n, s.down, s.client.pc);
    ServerUpSame(cfg.n, s.up, s.client.pc, s.server.pc, FillingAddrs);
    ServerMoves(cfg, s, s.server.(pc := FillingAddrs), s.up, Send(s.down, 0, 0));
  }

  lemma ServerFills(cfg: Cfg, s: State)
    requires Inv(cfg, s) && s.server.pc.FillingAddrs?
    ensures Inv(cfg, ServerStep(cfg, s))
  {
    ServerUpSame(cfg.n, s.up, s.client.pc, s.server.pc, Reposting);
    ServerDownSame(cfg.n, s.down, s.client.pc, s.server.pc, Reposting);
    ServerMoves(cfg, s, s.server.(pc := Reposting, addrs := Addrs(cfg, s.server.peer)), s.up, s.down);
  }

  lemma ServerReaps(cfg: Cfg, s: State)
    requires Inv(cfg, s) && s.server.pc.AwaitingTx? && ServerCanStep(cfg, s)
    ensures Inv(cfg, ServerStep(cfg, s))
  {
    TakeTxOk(cfg.level, s.down, cfg.n, 0);
    DownReaps(cfg.n, s.down, s.client.pc);
    ServerUpSame(cfg.n, s.up, s.client.pc, s.server.pc, AwaitingData(0));
    ServerMoves(cfg, s, s.server.(pc := AwaitingData(0)), s.up, TakeTx(s.down, 0));
  }

  /** The last message of a lane that has its data is that data. */
  lemma LastOfLane(cfg: Cfg, s: State, j: nat)
    requires Inv(cfg, s) && j < cfg.n && DataIn(s.up, j)
    ensures var log := s.up.rx[j].log; log[|log| - 1] == Msg(j, Word(DATA + j))
  {
    Lanes(cfg, s, j);
    var q := s.up.rx[j];
    assert q.log == q.sent[..|q.log|];
    assert q.sent == UpSent(s.client.pc, cfg.n, j);
    assert |q.sent| == |q.log| && q.log == q.sent;
  }

  lemma ReadMeansIn(cfg: Cfg, s: State, i: nat)
    requires Inv(cfg, s) && i < cfg.n && i < DataTaken(s.server.pc, cfg.n)
    ensures DataIn(s.up, i)
  {
    Lanes(cfg, s, i);
  }

  lemma LastAfterData(level: Level, l: Link, i: nat)
    requires OrderOk(level, l) && i < |l.rx| && DataIn(l, i)
    ensures 0 <= l.last < |l.rx| && DataIn(l, l.last) && (level == OnDelivery ==> i <= l.last)
  {
  }

  lemma BufferIsLast(l: Link)
    requires BufOk(l) && l.last >= 0
    ensures var log := l.rx[l.last].log; log != [] && l.rxBuf == log[|log| - 1].body
  {
  }

  /** At a comparison rx_buf holds the data message received last. */
  lemma BufferAtComparison(cfg: Cfg, s: State)
    requires Inv(cfg, s) && s.server.pc.Comparing?
    ensures 0 <= s.up.last < cfg.n && s.up.rxBuf == Word(DATA + s.up.last)
    ensures cfg.level == OnDelivery ==> s.server.pc.i <= s.up.last
  {
    ReadMeansIn(cfg, s, s.server.pc.i);
    LastAfterData(cfg.level, s.up, s.server.pc.i);
    LastOfLane(cfg, s, s.up.last);
    BufferIsLast(s.up);
  }

  lemma ServerComparesTo(cfg: Cfg, s: State, q: Pc)
    requires Inv(cfg, s) && s.server.pc.Comparing? && SeenOk(cfg, s.server.pc.i, s.up.rxBuf)
    requires q == if s.server.pc.i + 1 < cfg.n then AwaitingData(s.server.pc.i + 1) else Done
    ensures Inv(cfg, s.(server := s.server.(pc := q), seen := s.seen + [s.up.rxBuf]))
  {
    ServerUpSame(cfg.n, s.up, s.client.pc, s.server.pc, q);
    ServerDownSame(cfg.n, s.down, s.client.pc, s.server.pc, q);
  }

  lemma ServerCompares(cfg: Cfg, s: State)
    requires Inv(cfg, s) && s.server.pc.Comparing?
    ensures Inv(cfg, ServerStep(cfg, s))
  {
    var q := if s.server.pc.i + 1 < cfg.n then AwaitingData(s.server.pc.i + 1) else Done;
    BufferAtComparison(cfg, s);
    ServerComparesTo(cfg, s, q);
    Same(cfg, s.(server := s.server.(pc := q), seen := s.seen + [s.up.rxBuf]), ServerStep(cfg, s));
  }

  lemma InvServer(cfg: Cfg, s: State)
    requires Inv(cfg, s) && ServerCanStep(cfg, s)
    ensures Inv(cfg, ServerStep(cfg, s))
  {
    match s.server.pc
    case Binding(_) | Reposting => ServerPosts(cfg, s);
    case AwaitingName | AwaitingData(_) => ServerTakes(cfg, s);
    case InsertingPeer => ServerInserts(cfg, s);
    case Replying => ServerReplies(cfg, s);
    case FillingAddrs => ServerFills(cfg, s);
    case AwaitingTx => ServerReaps(cfg, s);
    case Comparing(_) => ServerCompares(cfg, s);
  }

  // -------------------------------------------------------------------- every run

  lemma InvStep(cfg: Cfg, s: State, e: Step)
    requires Inv(cfg, s) && Enabled(cfg, s, e)
    ensures Inv(cfg, Apply(cfg, s, e))
  {
    match e
    case Client => InvClient(cfg, s);
    case Server => InvServer(cfg, s);
    case Transmits(up, k) => InvTransmits(cfg, s, up, k);
    case Arrives(up, c, m) => InvArrives(cfg, s, up, c, m);
    case Completes(up, c) => InvCompletes(cfg, s, up, c);
  }

  lemma {:induction false} InvRun(cfg: Cfg, s: State, steps: seq<Step>, s': State)
    requires Inv(cfg, s) && Leads(cfg, s, steps, s')
    ensures Inv(cfg, s')
    decreases |steps|
  {
    if steps != [] {
      InvStep(cfg, s, steps[0]);
      InvRun(cfg, Apply(cfg, s, steps[0]), steps[1..], s');
    }
  }

  lemma InvReachable(cfg: Cfg, s: State)
    requires ValidCfg(cfg) && Reachable(cfg, s)
    ensures Inv(cfg, s)
  {
    var steps :| Leads(cfg, Init(cfg), steps, s);
    InitInv(cfg);
    InvRun(cfg, Init(cfg), steps, s);
  }
}
