/** A network of quorum-ledger nodes: proposals run concurrently, one vote request at a time;
    messages may be lost, late or repeated, but only sent commits are ever delivered. */
module MeshNetwork {
  import opened Common
  import opened Mesh

  /** Who marked whom faulty when a ballot was cast: the proposer the peer, the peer the proposer. */
  datatype Marks = Marks(peer: bool, proposer: bool)

  /** One proposal; ballot i is the proposer's peer i's, cast under marks i. */
  datatype Round = Round(proposer: string, key: string, value: string, ballots: seq<Ballot>, marks: seq<Marks>, done: bool)

  datatype Net = Net(nodes: map<string, Node>, rounds: seq<Round>, sent: set<Commit>)

  datatype Event =
    | Propose(id: string, key: string, value: string)
    | Ask(r: nat, arrives: bool)
    | Finish(r: nat)
    | Deliver(commit: Commit)
    | SetPolicy(id: string, peer: string, policy: Policy)

  // ----- steps; an event that is not enabled changes nothing -----

  /** What the proposer hears: the peer's handler's answer, or nothing. */
  function Reply(net: Net, proposer: string, peer: Peer, arrives: bool): Option<bool> {
    if arrives && peer.id in net.nodes then Some(!MarkedFaulty(net.nodes[peer.id].policies, proposer)) else None
  }

  predicate Open(net: Net, r: nat) {
    r < |net.rounds| && !net.rounds[r].done && net.rounds[r].proposer in net.nodes
  }

  function MarksNow(net: Net, proposer: string, peer: string): Marks {
    Marks(proposer in net.nodes && MarkedFaulty(net.nodes[proposer].policies, peer),
          peer in net.nodes && MarkedFaulty(net.nodes[peer].policies, proposer))
  }

  /** The round with one more ballot. */
  function Cast(round: Round, b: Ballot, k: Marks): Round {
    round.(ballots := round.ballots + [b], marks := round.marks + [k])
  }

  function AskNext(net: Net, r: nat, arrives: bool): Net
    requires Open(net, r)
  {
    var round := net.rounds[r];
    var n := net.nodes[round.proposer];
    if |round.ballots| >= |n.peers| then net
    else
      var peer := n.peers[|round.ballots|];
      var b := BallotOf(n, peer, Reply(net, round.proposer, peer, arrives));
      net.(rounds := net.rounds[r := Cast(round, b, MarksNow(net, round.proposer, peer.id))],
           nodes := net.nodes[round.proposer := n.(byzantine := n.byzantine + (if b == No then 1 else 0))])
  }

  function Decide(net: Net, r: nat): Net
    requires Open(net, r)
  {
    var round := net.rounds[r];
    var n := net.nodes[round.proposer];
    var rounds := net.rounds[r := round.(done := true)];
    if |round.ballots| != |n.peers| then net
    else if Votes(round.ballots) >= Quorum(|n.peers|) then
      Net(net.nodes[round.proposer := Record(n, round.key, round.value)], rounds,
          net.sent + Broadcast(n, |n.peers|, round.key, round.value))
    else
      net.(nodes := net.nodes[round.proposer := n.(rejections := n.rejections + 1)], rounds := rounds)
  }

  /** One vote request: the ballot, what the two sides thought of each other then, and the count. */
  lemma {:induction false} AskIff(net: Net, r: nat, arrives: bool)
    requires Open(net, r) && var round := net.rounds[r]; |round.ballots| < |net.nodes[round.proposer].peers|
    ensures var round := net.rounds[r]; var k := |round.ballots|; var n := net.nodes[round.proposer];
      var peer := n.peers[k];
      var distrusted := peer.id in n.policies && n.policies[peer.id] == Faulty;
      var refused := peer.id in net.nodes && round.proposer in net.nodes[peer.id].policies
                     && net.nodes[peer.id].policies[round.proposer] == Faulty;
      var dialable := peer.uri.Some? && peer.uri.value != "";
      var b := if distrusted then No else if !dialable then Unasked
               else if arrives && peer.id in net.nodes && !refused then Yes else No;
      AskNext(net, r, arrives) == Net(
        net.nodes[round.proposer := n.(byzantine := n.byzantine + (if b == No then 1 else 0))],
        net.rounds[r := round.(ballots := round.ballots + [b], marks := round.marks + [Marks(distrusted, refused)])],
        net.sent)
  {}

  /** A policy can be set for registered peers only, and changes nothing else. */
  lemma {:induction false} PolicyIff(net: Net, id: string, peer: string, policy: Policy)
    requires id in net.nodes
    ensures var n, now := net.nodes[id], Step(net, SetPolicy(id, peer, policy));
      var known := exists i :: 0 <= i < |n.peers| && n.peers[i].id == peer;
      && now.rounds == net.rounds && now.sent == net.sent
      && now.nodes == net.nodes[id := if known then n.(policies := n.policies[peer := policy]) else n]
  {
    assert net.nodes[id := net.nodes[id]] == net.nodes;
  }

  /** A proposal whose every peer has been asked commits exactly on a strict majority: its value
      goes into its own ledger and to every dialable peer; otherwise it only counts as rejected. */
  lemma {:induction false} DecideIff(net: Net, r: nat)
    requires Open(net, r) && var round := net.rounds[r]; |round.ballots| == |net.nodes[round.proposer].peers|
    ensures var round := net.rounds[r]; var n := net.nodes[round.proposer]; var now := Decide(net, r);
      var m := now.nodes[round.proposer];
      var won := 2 * (1 + Count(round.ballots, Yes)) > |n.peers| + 1;
      && now.rounds == net.rounds[r := round.(done := true)] && now.nodes == net.nodes[round.proposer := m]
      && m.ledger == (if won then n.ledger[round.key := round.value] else n.ledger)
      && m.commits == n.commits + (if won then 1 else 0) && m.rejections == n.rejections + (if won then 0 else 1)
      && m.id == n.id && m.peers == n.peers && m.policies == n.policies && m.byzantine == n.byzantine
      && forall c :: c in now.sent <==> c in net.sent || (won && IsNotice(c, n.id, n.peers, round.key, round.value))
  {
    var round := net.rounds[r];
    var n := net.nodes[round.proposer];
    QuorumIsMajority(|n.peers|, Votes(round.ballots));
    BroadcastIsNotices(n, round.key, round.value);
  }

  /** A commit that was sent changes exactly the receiver's entry, and only if the receiver has
      registered the sender. */
  lemma {:induction false} DeliverIff(net: Net, c: Commit)
    requires c in net.sent && c.to in net.nodes
    ensures var n, now := net.nodes[c.to], Step(net, Deliver(c)); var m := now.nodes[c.to];
      var known := exists i :: 0 <= i < |n.peers| && n.peers[i].id == c.sender;
      && now.rounds == net.rounds && now.sent == net.sent && now.nodes == net.nodes[c.to := m]
      && m == (if known then n.(ledger := n.ledger[c.key := c.value], commits := n.commits + 1) else n)
  {
    assert net.nodes[c.to := net.nodes[c.to]] == net.nodes;
  }

  function Step(net: Net, e: Event): Net {
    match e
    case Propose(id, key, value) =>
      if id in net.nodes then net.(rounds := net.rounds + [Round(id, key, value, [], [], false)]) else net
    case Ask(r, arrives) => if Open(net, r) then AskNext(net, r, arrives) else net
    case Finish(r) => if Open(net, r) then Decide(net, r) else net
    case Deliver(c) =>
      if c in net.sent && c.to in net.nodes then
        net.(nodes := net.nodes[c.to := ApplyCommit(net.nodes[c.to], c.key, c.value, c.sender)])
      else net
    case SetPolicy(id, peer, policy) =>
      if id in net.nodes && Registered(net.nodes[id].peers, peer) then
        net.(nodes := net.nodes[id := net.nodes[id].(policies := net.nodes[id].policies[peer := policy])])
      else net
  }

  function Run(net: Net, events: seq<Event>): Net
    decreases |events|
  {
    if events == [] then net else Run(Step(net, events[0]), events[1..])
  }

  lemma {:induction false} RunConcat(net: Net, xs: seq<Event>, ys: seq<Event>)
    ensures Run(net, xs + ys) == Run(Run(net, xs), ys)
    decreases |xs|
  {
    if xs == [] {
      assert xs + ys == ys;
    } else {
      assert (xs + ys)[0] == xs[0] && (xs + ys)[1..] == xs[1..] + ys;
      RunConcat(Step(net, xs[0]), xs[1..], ys);
    }
  }

  /** A network at rest: nothing proposed, nothing recorded, membership as configured. */
  ghost predicate Fresh(net: Net) {
    && net.rounds == [] && net.sent == {}
    && forall id :: id in net.nodes ==> FreshNode(id, net.nodes[id])
  }

  ghost predicate FreshNode(id: string, n: Node) {
    n.id == id && n.ledger == map[] && Distinct(n.peers)
  }

  // ----- what every reachable state satisfies; m is the configured membership -----

  ghost predicate SameMember(a: Node, b: Node) {
    a.id == b.id && a.peers == b.peers
  }

  ghost predicate Members(m: map<string, Node>, nodes: map<string, Node>) {
    nodes.Keys == m.Keys && forall id :: id in nodes ==> SameMember(m[id], nodes[id])
  }

  /** What a ballot says: no for a marked peer, unasked exactly without mark and address, and a
      yes comes from a node of the network when neither side marked the other. */
  ghost predicate SoundBallot(m: map<string, Node>, peer: Peer, b: Ballot, k: Marks) {
    && (k.peer ==> b == No)
    && (b == Unasked <==> !k.peer && !Addressed(peer))
    && (b == Yes ==> Addressed(peer) && peer.id in m && !k.peer && !k.proposer)
  }

  ghost predicate SoundRound(m: map<string, Node>, round: Round) {
    && round.proposer in m && |round.ballots| == |round.marks| <= |m[round.proposer].peers|
    && (round.done ==> |round.ballots| == |m[round.proposer].peers|)
    && forall i :: 0 <= i < |round.ballots| ==>
      SoundBallot(m, m[round.proposer].peers[i], round.ballots[i], round.marks[i])
  }

  /** The proposal ended with a quorum. */
  ghost predicate Won(m: map<string, Node>, round: Round) {
    round.done && round.proposer in m && Votes(round.ballots) >= Quorum(|m[round.proposer].peers|)
  }

  /** Some won round put this value up for this key. */
  ghost predicate BackedBy(m: map<string, Node>, round: Round, proposer: string, key: string, value: string) {
    Won(m, round) && round.proposer == proposer && round.key == key && round.value == value
  }

  ghost predicate Backed(m: map<string, Node>, rounds: seq<Round>, proposer: string, key: string, value: string) {
    exists r :: 0 <= r < |rounds| && BackedBy(m, rounds[r], proposer, key, value)
  }

  ghost predicate SentBacked(m: map<string, Node>, rounds: seq<Round>, c: Commit) {
    c.sender in m && Registered(m[c.sender].peers, c.to) && Backed(m, rounds, c.sender, c.key, c.value)
  }

  /** A ledger entry comes from a won round of the node's own or of one of its registered peers. */
  ghost predicate EntryBacked(m: map<string, Node>, rounds: seq<Round>, n: Node, key: string, value: string) {
    exists p :: (p == n.id || Registered(n.peers, p)) && Backed(m, rounds, p, key, value)
  }

  ghost predicate LedgerBacked(m: map<string, Node>, rounds: seq<Round>, n: Node) {
    forall key :: key in n.ledger ==> EntryBacked(m, rounds, n, key, n.ledger[key])
  }

  ghost predicate AllSound(m: map<string, Node>, rounds: seq<Round>) {
    forall r :: 0 <= r < |rounds| ==> SoundRound(m, rounds[r])
  }

  ghost predicate Inv(m: map<string, Node>, net: Net) {
    && Members(m, net.nodes)
    && AllSound(m, net.rounds)
    && (forall c :: c in net.sent ==> SentBacked(m, net.rounds, c))
    && (forall id :: id in net.nodes ==> LedgerBacked(m, net.rounds, net.nodes[id]))
  }

  /** Finished rounds are never touched again. */
  ghost predicate Extends(rounds: seq<Round>, later: seq<Round>) {
    |rounds| <= |later| && forall r :: 0 <= r < |rounds| && rounds[r].done ==> later[r] == rounds[r]
  }

  lemma {:induction false} StaysBacked(m: map<string, Node>, rounds: seq<Round>, later: seq<Round>, p: string,
                                       key: string, value: string)
    requires Extends(rounds, later) && Backed(m, rounds, p, key, value)
    ensures Backed(m, later, p, key, value)
  {
    var r :| 0 <= r < |rounds| && BackedBy(m, rounds[r], p, key, value);
    assert BackedBy(m, later[r], p, key, value);
  }

  lemma {:induction false} LedgerStaysBacked(m: map<string, Node>, rounds: seq<Round>, later: seq<Round>, n: Node)
    requires Extends(rounds, later) && LedgerBacked(m, rounds, n)
    ensures LedgerBacked(m, later, n)
  {
    forall key | key in n.ledger ensures EntryBacked(m, later, n, key, n.ledger[key]) {
      assert EntryBacked(m, rounds, n, key, n.ledger[key]);
      var p :| (p == n.id || Registered(n.peers, p)) && Backed(m, rounds, p, key, n.ledger[key]);
      StaysBacked(m, rounds, later, p, key, n.ledger[key]);
    }
  }

  /** One more backed entry. */
  lemma {:induction false} RecordStaysBacked(m: map<string, Node>, rounds: seq<Round>, n: Node, p: string, key: string,
                                             value: string)
    requires LedgerBacked(m, rounds, n) && Backed(m, rounds, p, key, value)
    requires p == n.id || Registered(n.peers, p)
    ensures LedgerBacked(m, rounds, Record(n, key, value))
  {
    var after := Record(n, key, value);
    forall k | k in after.ledger ensures EntryBacked(m, rounds, after, k, after.ledger[k]) {
      if k == key {
        assert EntryBacked(m, rounds, n, key, value);
      } else {
        assert EntryBacked(m, rounds, n, k, n.ledger[k]);
      }
      var q :| (q == n.id || Registered(n.peers, q)) && Backed(m, rounds, q, k, after.ledger[k]);
    }
  }

  /** Replacing one node and extending the rounds keeps everything that was backed. */
  lemma {:induction false} UpdateInv(m: map<string, Node>, net: Net, id: string, n: Node, rounds: seq<Round>,
                                     sent: set<Commit>)
    requires Inv(m, net) && id in net.nodes && SameMember(m[id], n)
    requires Extends(net.rounds, rounds)
    requires AllSound(m, rounds) && LedgerBacked(m, rounds, n)
    requires forall c :: c in sent - net.sent ==> SentBacked(m, rounds, c)
    ensures Inv(m, Net(net.nodes[id := n], rounds, sent))
  {
    forall c | c in sent ensures SentBacked(m, rounds, c) {
      if c in net.sent {
        assert SentBacked(m, net.rounds, c);
        StaysBacked(m, net.rounds, rounds, c.sender, c.key, c.value);
      }
    }
    forall x | x in net.nodes ensures LedgerBacked(m, rounds, net.nodes[x := net.nodes[x]][x]) {
      assert LedgerBacked(m, net.rounds, net.nodes[x]);
      LedgerStaysBacked(m, net.rounds, rounds, net.nodes[x]);
    }
  }

  lemma {:induction false} CastIsSound(m: map<string, Node>, net: Net, r: nat, arrives: bool)
    requires Inv(m, net) && Open(net, r)
    requires var round := net.rounds[r]; |round.ballots| < |net.nodes[round.proposer].peers|
    ensures var round := net.rounds[r]; var n := net.nodes[round.proposer]; var peer := n.peers[|round.ballots|];
      SoundBallot(m, peer, BallotOf(n, peer, Reply(net, round.proposer, peer, arrives)), MarksNow(net, round.proposer, peer.id))
  {}

  lemma {:induction false} SoundOneMore(m: map<string, Node>, round: Round, b: Ballot, k: Marks)
    requires SoundRound(m, round) && !round.done && |round.ballots| < |m[round.proposer].peers|
    requires SoundBallot(m, m[round.proposer].peers[|round.ballots|], b, k)
    ensures SoundRound(m, Cast(round, b, k))
  {
    var more := Cast(round, b, k);
    forall i | 0 <= i < |more.ballots| ensures SoundBallot(m, m[round.proposer].peers[i], more.ballots[i], more.marks[i]) {
      assert i < |round.ballots| ==> SoundBallot(m, m[round.proposer].peers[i], round.ballots[i], round.marks[i]);
    }
  }

  /** Only the counters and policies of a node change, and one open round. */
  lemma {:induction false} QuietUpdateInv(m: map<string, Node>, net: Net, id: string, after: Node, rounds: seq<Round>)
    requires Inv(m, net) && id in net.nodes
    requires SameMember(net.nodes[id], after) && after.ledger == net.nodes[id].ledger
    requires Extends(net.rounds, rounds) && AllSound(m, rounds)
    ensures Inv(m, Net(net.nodes[id := after], rounds, net.sent))
  {
    var n := net.nodes[id];
    assert SameMember(m[id], n) && LedgerBacked(m, net.rounds, n);
    LedgerStaysBacked(m, net.rounds, rounds, n);
    SameLedger(m, rounds, n, after);
    UpdateInv(m, net, id, after, rounds, net.sent);
  }

  lemma {:induction false} ReplaceRound(m: map<string, Node>, rounds: seq<Round>, r: nat, round: Round)
    requires AllSound(m, rounds) && r < |rounds| && !rounds[r].done && SoundRound(m, round)
    ensures AllSound(m, rounds[r := round]) && Extends(rounds, rounds[r := round])
  {}

  lemma {:induction false} AskInv(m: map<string, Node>, net: Net, r: nat, arrives: bool)
    requires Inv(m, net) && Open(net, r)
    ensures Inv(m, AskNext(net, r, arrives))
  {
    var round := net.rounds[r];
    var n := net.nodes[round.proposer];
    assert SoundRound(m, round) && SameMember(m[round.proposer], n);
    if |round.ballots| < |n.peers| {
      var peer := n.peers[|round.ballots|];
      var b, k := BallotOf(n, peer, Reply(net, round.proposer, peer, arrives)), MarksNow(net, round.proposer, peer.id);
      CastIsSound(m, net, r, arrives);
      SoundOneMore(m, round, b, k);
      ReplaceRound(m, net.rounds, r, Cast(round, b, k));
      QuietUpdateInv(m, net, round.proposer, n.(byzantine := n.byzantine + (if b == No then 1 else 0)),
                     net.rounds[r := Cast(round, b, k)]);
    }
  }

  lemma {:induction false} SameLedger(m: map<string, Node>, rounds: seq<Round>, n: Node, after: Node)
    requires LedgerBacked(m, rounds, n) && SameMember(n, after) && n.ledger == after.ledger
    ensures LedgerBacked(m, rounds, after)
  {
    forall key | key in after.ledger ensures EntryBacked(m, rounds, after, key, after.ledger[key]) {
      assert EntryBacked(m, rounds, n, key, n.ledger[key]);
      var p :| (p == n.id || Registered(n.peers, p)) && Backed(m, rounds, p, key, n.ledger[key]);
    }
  }

  lemma {:induction false} DecideInv(m: map<string, Node>, net: Net, r: nat)
    requires Inv(m, net) && Open(net, r)
    requires forall id :: id in m ==> m[id].id == id
    ensures Inv(m, Decide(net, r))
  {
    var round := net.rounds[r];
    var p := round.proposer;
    var n := net.nodes[p];
    assert SoundRound(m, round) && SameMember(m[p], n);
    if |round.ballots| == |n.peers| {
      var closed := round.(done := true);
      var rounds := net.rounds[r := closed];
      ReplaceRound(m, net.rounds, r, closed);
      assert LedgerBacked(m, net.rounds, n);
      LedgerStaysBacked(m, net.rounds, rounds, n);
      if Votes(round.ballots) >= Quorum(|n.peers|) {
        assert BackedBy(m, rounds[r], p, round.key, round.value);
        RecordStaysBacked(m, rounds, n, p, round.key, round.value);
        var news := Broadcast(n, |n.peers|, round.key, round.value);
        forall c | c in news ensures SentBacked(m, rounds, c) {
          var i :| 0 <= i < |n.peers| && Addressed(n.peers[i]) && c == Commit(n.id, n.peers[i].id, round.key, round.value);
          assert m[p].peers[i].id == c.to;
        }
        UpdateInv(m, net, p, Record(n, round.key, round.value), rounds, net.sent + news);
      } else {
        QuietUpdateInv(m, net, p, n.(rejections := n.rejections + 1), rounds);
      }
    }
  }

  lemma {:induction false} StepInv(m: map<string, Node>, net: Net, e: Event)
    requires Inv(m, net)
    requires forall id :: id in m ==> m[id].id == id
    ensures Inv(m, Step(net, e))
  {
    match e
    case Propose(id, key, value) =>
      if id in net.nodes {
        var rounds := net.rounds + [Round(id, key, value, [], [], false)];
        QuietUpdateInv(m, net, id, net.nodes[id], rounds);
        assert net.nodes[id := net.nodes[id]] == net.nodes;
      }
    case Ask(r, arrives) => if Open(net, r) { AskInv(m, net, r, arrives); }
    case Finish(r) => if Open(net, r) { DecideInv(m, net, r); }
    case Deliver(c) =>
      if c in net.sent && c.to in net.nodes {
        var n := net.nodes[c.to];
        assert SameMember(m[c.to], n) && SentBacked(m, net.rounds, c) && LedgerBacked(m, net.rounds, n);
        if Registered(n.peers, c.sender) {
          RecordStaysBacked(m, net.rounds, n, c.sender, c.key, c.value);
        }
        UpdateInv(m, net, c.to, ApplyCommit(n, c.key, c.value, c.sender), net.rounds, net.sent);
      }
    case SetPolicy(id, peer, policy) =>
      if id in net.nodes && Registered(net.nodes[id].peers, peer) {
        var n := net.nodes[id];
        QuietUpdateInv(m, net, id, n.(policies := n.policies[peer := policy]), net.rounds);
      }
  }

  lemma {:induction false} RunInv(m: map<string, Node>, net: Net, events: seq<Event>)
    requires Inv(m, net)
    requires forall id :: id in m ==> m[id].id == id
    ensures Inv(m, Run(net, events))
    decreases |events|
  {
    if events != [] {
      StepInv(m, net, events[0]);
      RunInv(m, Step(net, events[0]), events[1..]);
    }
  }

  lemma {:induction false} FreshInv(net: Net, events: seq<Event>)
    requires Fresh(net)
    ensures Inv(net.nodes, Run(net, events))
    ensures forall id :: id in net.nodes ==> net.nodes[id].id == id && Distinct(net.nodes[id].peers)
  {
    forall id | id in net.nodes
      ensures net.nodes[id].id == id && Distinct(net.nodes[id].peers) && LedgerBacked(net.nodes, [], net.nodes[id])
    {
      assert FreshNode(id, net.nodes[id]);
    }
    RunInv(net.nodes, net, events);
  }

  // ----- main results -----

  /** A member that was asked and accepted; when its ballot was cast, neither side marked the
      other faulty. */
  ghost predicate AcceptedVoter(m: map<string, Node>, round: Round, v: string)
    requires round.proposer in m
  {
    && v in m && |round.marks| == |round.ballots| <= |m[round.proposer].peers|
    && exists i :: (
      0 <= i < |round.ballots| && m[round.proposer].peers[i].id == v
      && round.ballots[i] == Yes && round.marks[i] == Marks(false, false))
  }

  /** A quorum of real votes, every member of the round accounted for exactly once. */
  ghost predicate Certified(m: map<string, Node>, round: Round) {
    && round.proposer in m
    && var n := m[round.proposer];
    && |round.ballots| == |round.marks| == |n.peers|
    && Votes(round.ballots) >= Quorum(|n.peers|)
    && Votes(round.ballots) + Count(round.ballots, No) + Count(round.ballots, Unasked) == |n.peers| + 1
    && (forall i :: 0 <= i < |n.peers| ==> (round.ballots[i] == Unasked <==> !round.marks[i].peer && !Addressed(n.peers[i])))
    && (forall v :: v in Voters(n.peers, round.ballots) ==> AcceptedVoter(m, round, v))
    && (n.id !in Voters(n.peers, round.ballots) ==> |Backers(n, round.ballots)| == Votes(round.ballots))
  }

  lemma {:induction false} CountsPartition(ballots: seq<Ballot>)
    ensures Count(ballots, Yes) + Count(ballots, No) + Count(ballots, Unasked) == |ballots|
  {
    if ballots != [] {
      CountsPartition(ballots[..|ballots| - 1]);
    }
  }

  lemma {:induction false} WonIsCertified(m: map<string, Node>, round: Round)
    requires SoundRound(m, round) && Won(m, round) && Distinct(m[round.proposer].peers)
    ensures Certified(m, round)
  {
    var n := m[round.proposer];
    CountsPartition(round.ballots);
    VotesAreBackers(n, round.ballots);
    VotersAreMembers(n.peers, round.ballots);
    forall i | 0 <= i < |n.peers| ensures round.ballots[i] == Unasked <==> !round.marks[i].peer && !Addressed(n.peers[i]) {
      assert SoundBallot(m, n.peers[i], round.ballots[i], round.marks[i]);
    }
    forall v | v in Voters(n.peers, round.ballots) ensures AcceptedVoter(m, round, v) {
      var i :| 0 <= i < |round.ballots| && round.ballots[i] == Yes && n.peers[i].id == v;
      assert SoundBallot(m, n.peers[i], round.ballots[i], round.marks[i]);
    }
  }

  /** The round behind a value: certified, and put up by the node or one of its registered peers. */
  ghost predicate Source(m: map<string, Node>, round: Round, n: Node, key: string, value: string) {
    && Certified(m, round) && round.key == key && round.value == value
    && (round.proposer == n.id || Registered(n.peers, round.proposer))
  }

  /** Whatever is lost, late, repeated or interleaved: every ledger entry anywhere was backed by
      a quorum of accepted votes of its proposer. */
  lemma {:induction false} EntriesHaveQuorums(net: Net, events: seq<Event>, id: string, key: string)
    requires Fresh(net)
    requires var now := Run(net, events); id in now.nodes && key in now.nodes[id].ledger
    ensures id in net.nodes
    ensures var now := Run(net, events);
      exists r :: 0 <= r < |now.rounds| && Source(net.nodes, now.rounds[r], net.nodes[id], key, now.nodes[id].ledger[key])
  {
    FreshInv(net, events);
    var m, now := net.nodes, Run(net, events);
    var n := now.nodes[id];
    assert SameMember(m[id], n) && LedgerBacked(m, now.rounds, n);
    assert EntryBacked(m, now.rounds, n, key, n.ledger[key]);
    var p :| (p == n.id || Registered(n.peers, p)) && Backed(m, now.rounds, p, key, n.ledger[key]);
    var r :| 0 <= r < |now.rounds| && BackedBy(m, now.rounds[r], p, key, n.ledger[key]);
    assert SoundRound(m, now.rounds[r]);
    WonIsCertified(m, now.rounds[r]);
    assert Source(m, now.rounds[r], m[id], key, n.ledger[key]);
  }

  /** The same for a commit in flight: its sender won the quorum before sending it. */
  lemma {:induction false} CommitsHaveQuorums(net: Net, events: seq<Event>, c: Commit)
    requires Fresh(net) && c in Run(net, events).sent
    ensures c.sender in net.nodes && Registered(net.nodes[c.sender].peers, c.to)
    ensures var now := Run(net, events);
      exists r :: 0 <= r < |now.rounds| && Certified(net.nodes, now.rounds[r]) && now.rounds[r].proposer == c.sender
        && now.rounds[r].key == c.key && now.rounds[r].value == c.value
  {
    FreshInv(net, events);
    var m, now := net.nodes, Run(net, events);
    assert SentBacked(m, now.rounds, c);
    var r :| 0 <= r < |now.rounds| && BackedBy(m, now.rounds[r], c.sender, c.key, c.value);
    assert SoundRound(m, now.rounds[r]);
    WonIsCertified(m, now.rounds[r]);
  }

  function Ids(n: Node): set<string> {
    {n.id} + set i | 0 <= i < |n.peers| :: n.peers[i].id
  }

  /** Two certified rounds of one membership, wherever they were put up, share a voter -
      provided no proposer is registered as its own peer. */
  lemma {:induction false} CertifiedRoundsShareAVoter(m: map<string, Node>, a: Round, b: Round)
    requires Certified(m, a) && Certified(m, b)
    requires Ids(m[a.proposer]) == Ids(m[b.proposer])
    requires Distinct(m[a.proposer].peers) && Distinct(m[b.proposer].peers)
    requires !Registered(m[a.proposer].peers, m[a.proposer].id) && !Registered(m[b.proposer].peers, m[b.proposer].id)
    ensures exists v :: v in Backers(m[a.proposer], a.ballots) && v in Backers(m[b.proposer], b.ballots)
  {
    var x, y := m[a.proposer], m[b.proposer];
    Membership(x, a.ballots);
    Membership(y, b.ballots);
    QuorumsIntersect(Ids(x), |x.peers|, Backers(x, a.ballots), Backers(y, b.ballots));
  }

  lemma {:induction false} Membership(n: Node, ballots: seq<Ballot>)
    requires Distinct(n.peers) && !Registered(n.peers, n.id) && |ballots| <= |n.peers|
    ensures |Ids(n)| == |n.peers| + 1 && Backers(n, ballots) <= Ids(n)
    ensures n.id !in Voters(n.peers, ballots)
  {
    var ids := MemberIds(n.peers);
    forall v ensures v in ids <==> v in set i | 0 <= i < |n.peers| :: n.peers[i].id {
      if v in ids {
        assert Registered(n.peers, v);
      }
    }
    assert Ids(n) == {n.id} + ids;
    VotersAreMembers(n.peers, ballots);
  }

  // ----- exactly when ledgers can still end up different -----

  /** A commit in flight that its receiver would apply to the key. */
  ghost predicate Acceptable(net: Net, c: Commit, id: string, key: string) {
    c in net.sent && c.to == id && c.key == key && id in net.nodes && Registered(net.nodes[id].peers, c.sender)
  }

  predicate Holds(net: Net, id: string, key: string, value: string) {
    id in net.nodes && key in net.nodes[id].ledger && net.nodes[id].ledger[key] == value
  }

  /** The node has this value for the key, or a commit in flight could still give it. */
  ghost predicate CanHold(net: Net, id: string, key: string, value: string) {
    id in net.nodes && (Holds(net, id, key, value) || exists c :: Acceptable(net, c, id, key) && c.value == value)
  }

  ghost predicate Agree(net: Net, key: string) {
    forall i, j, u, v :: Holds(net, i, key, u) && Holds(net, j, key, v) ==> u == v
  }

  ghost predicate Deliveries(events: seq<Event>) {
    forall e :: e in events ==> e.Deliver?
  }

  /** Two different nodes never stand to hold different values. */
  ghost predicate Settled(net: Net, key: string) {
    forall i, j, u, v :: i != j && CanHold(net, i, key, u) && CanHold(net, j, key, v) ==> u == v
  }

  /** Delivering adds nothing to what a node can hold, and changes no other node. */
  lemma {:induction false} DeliverCanHold(net: Net, c: Commit, id: string, key: string, value: string)
    requires CanHold(Step(net, Deliver(c)), id, key, value)
    ensures CanHold(net, id, key, value)
  {
    var now := Step(net, Deliver(c));
    if Holds(now, id, key, value) {
      if now.nodes[id] != net.nodes[id] && c.key == key {
        assert Acceptable(net, c, id, key) && c.value == value;
      }
    } else {
      var d :| Acceptable(now, d, id, key) && d.value == value;
      assert Acceptable(net, d, id, key);
    }
  }

  lemma {:induction false} DeliveriesCanHold(net: Net, events: seq<Event>, id: string, key: string, value: string)
    requires Deliveries(events) && CanHold(Run(net, events), id, key, value)
    ensures CanHold(net, id, key, value)
    decreases |events|
  {
    if events != [] {
      assert events[0] in events;
      assert forall e :: e in events[1..] ==> e in events;
      DeliveriesCanHold(Step(net, events[0]), events[1..], id, key, value);
      DeliverCanHold(net, events[0].commit, id, key, value);
    }
  }

  /** At most one delivery makes a node hold a value that it can hold; no other node changes. */
  lemma {:induction false} Hold(net: Net, id: string, key: string, value: string) returns (events: seq<Event>)
    requires CanHold(net, id, key, value)
    ensures Deliveries(events)
    ensures var now := Run(net, events);
      && now.sent == net.sent && now.nodes.Keys == net.nodes.Keys
      && Holds(now, id, key, value)
      && forall x :: x in net.nodes && x != id ==> now.nodes[x] == net.nodes[x]
  {
    if Holds(net, id, key, value) {
      events := [];
    } else {
      var c :| Acceptable(net, c, id, key) && c.value == value;
      events := [Deliver(c)];
      assert events[1..] == [];
      assert Run(net, events) == Run(Step(net, Deliver(c)), []);
    }
  }

  /** Two nodes that can hold different values can be made to. */
  lemma {:induction false} Disagreement(net: Net, i: string, j: string, key: string, u: string,
                                        v: string) returns (events: seq<Event>)
    requires i != j && u != v && CanHold(net, i, key, u) && CanHold(net, j, key, v)
    ensures Deliveries(events) && !Agree(Run(net, events), key)
  {
    var first := Hold(net, i, key, u);
    var mid := Run(net, first);
    assert CanHold(mid, j, key, v) by {
      if !Holds(net, j, key, v) {
        var c :| Acceptable(net, c, j, key) && c.value == v;
        assert Acceptable(mid, c, j, key);
      }
    }
    var second := Hold(mid, j, key, v);
    events := first + second;
    RunConcat(net, first, second);
    var now := Run(net, events);
    assert Holds(now, i, key, u) && Holds(now, j, key, v);
  }

  /** Every way of delivering the commits in flight leaves all ledgers agreeing on the key if
      and only if no two nodes stand to hold different values - readable off ledgers and
      messages before any of them is delivered. */
  lemma {:induction false} AgreementIff(net: Net, key: string)
    ensures (forall events :: Deliveries(events) ==> Agree(Run(net, events), key)) <==> Settled(net, key)
  {
    if Settled(net, key) {
      forall events | Deliveries(events) ensures Agree(Run(net, events), key) {
        var now := Run(net, events);
        forall i, j, u, v | Holds(now, i, key, u) && Holds(now, j, key, v) ensures u == v {
          DeliveriesCanHold(net, events, i, key, u);
          DeliveriesCanHold(net, events, j, key, v);
        }
      }
    } else {
      var i, j, u, v :| i != j && CanHold(net, i, key, u) && CanHold(net, j, key, v) && u != v;
      var events := Disagreement(net, i, j, key, u, v);
    }
  }

  /** A key on which every certified round carries one value is settled in every reachable
      state: what the network can hold comes from certified rounds. */
  lemma {:induction false} UncontendedKeysSettle(net: Net, events: seq<Event>, key: string, value: string)
    requires Fresh(net)
    requires var now := Run(net, events);
      forall r :: 0 <= r < |now.rounds| && now.rounds[r].key == key && Certified(net.nodes, now.rounds[r]) ==>
        now.rounds[r].value == value
    ensures Settled(Run(net, events), key)
    ensures forall id, v :: CanHold(Run(net, events), id, key, v) ==> v == value
  {
    var now := Run(net, events);
    forall id, v | CanHold(now, id, key, v) ensures v == value {
      if Holds(now, id, key, v) {
        EntriesHaveQuorums(net, events, id, key);
      } else {
        var c :| Acceptable(now, c, id, key) && c.value == v;
        CommitsHaveQuorums(net, events, c);
      }
    }
  }

  // ----- the counters -----

  function Noes(round: Round): nat {
    Count(round.ballots, No)
  }

  function Lost(round: Round, quorum: nat): nat {
    if round.done && Votes(round.ballots) < quorum then 1 else 0
  }

  /** Summed over one proposer's rounds: the no ballots, and the rounds that missed the quorum. */
  function Totals(rounds: seq<Round>, p: string, quorum: nat): (nat, nat) {
    if rounds == [] then (0, 0)
    else
      var r := rounds[|rounds| - 1];
      var t := Totals(rounds[..|rounds| - 1], p, quorum);
      if r.proposer == p then (t.0 + Noes(r), t.1 + Lost(r, quorum)) else t
  }

  lemma {:induction false} TotalsUpdate(rounds: seq<Round>, r: nat, round: Round, p: string, quorum: nat)
    requires r < |rounds| && round.proposer == rounds[r].proposer
    ensures var a, b := Totals(rounds, p, quorum), Totals(rounds[r := round], p, quorum);
      if round.proposer == p
      then b.0 + Noes(rounds[r]) == a.0 + Noes(round) && b.1 + Lost(rounds[r], quorum) == a.1 + Lost(round, quorum)
      else a == b
  {
    var k := |rounds| - 1;
    if r < k {
      assert rounds[r := round][..k] == rounds[..k][r := round];
      TotalsUpdate(rounds[..k], r, round, p, quorum);
    } else {
      assert rounds[r := round][..k] == rounds[..k];
    }
  }

  /** id's counters grow exactly with the totals of its own rounds. */
  ghost predicate CountersAdd(net: Net, now: Net, id: string) {
    && id in net.nodes && id in now.nodes && now.nodes[id].peers == net.nodes[id].peers
    && var q := Quorum(|net.nodes[id].peers|);
       var a, b := Totals(net.rounds, id, q), Totals(now.rounds, id, q);
       && now.nodes[id].byzantine + a.0 == net.nodes[id].byzantine + b.0
       && now.nodes[id].rejections + a.1 == net.nodes[id].rejections + b.1
  }

  lemma {:induction false} AskCounters(net: Net, r: nat, arrives: bool, id: string)
    requires id in net.nodes && Open(net, r)
    ensures CountersAdd(net, AskNext(net, r, arrives), id)
  {
    if |net.rounds[r].ballots| < |net.nodes[net.rounds[r].proposer].peers| {
      var round := AskNext(net, r, arrives).rounds[r];
      assert round.ballots[..|round.ballots| - 1] == net.rounds[r].ballots;
      TotalsUpdate(net.rounds, r, round, id, Quorum(|net.nodes[id].peers|));
    }
  }

  lemma {:induction false} DecideCounters(net: Net, r: nat, id: string)
    requires id in net.nodes && Open(net, r)
    ensures CountersAdd(net, Decide(net, r), id)
  {
    TotalsUpdate(net.rounds, r, net.rounds[r].(done := true), id, Quorum(|net.nodes[id].peers|));
  }

  lemma {:induction false} StepCounters(net: Net, e: Event, id: string)
    requires id in net.nodes
    ensures CountersAdd(net, Step(net, e), id)
  {
    match e
    case Propose(p, key, value) =>
      var more := net.rounds + [Round(p, key, value, [], [], false)];
      assert more[..|net.rounds|] == net.rounds;
    case Ask(r, arrives) => if Open(net, r) { AskCounters(net, r, arrives, id); }
    case Finish(r) => if Open(net, r) { DecideCounters(net, r, id); }
    case Deliver(_) =>
    case SetPolicy(_, _, _) =>
  }

  /** Over every run: a node's Byzantine counter has grown by exactly the no ballots of its own
      rounds, and its rejection counter by exactly its own rounds that missed the quorum. */
  lemma {:induction false} RunCounters(net: Net, events: seq<Event>, id: string)
    requires id in net.nodes
    ensures CountersAdd(net, Run(net, events), id)
    decreases |events|
  {
    if events != [] {
      StepCounters(net, events[0], id);
      RunCounters(Step(net, events[0]), events[1..], id);
    }
  }

  // ----- contended keys -----

  function Pair(id: string, other: string): Node {
    Node(id, [Peer(other, Some("ws"))], map[other := Honest], map[], 0, 0, 0)
  }

  lemma {:induction false} RunTwo(net: Net, e: Event, f: Event)
    ensures Run(net, [e, f]) == Step(Step(net, e), f)
  {
    assert [e, f][1..] == [f] && [f][1..] == [];
    assert Run(Step(net, e), [f]) == Run(Step(Step(net, e), f), []);
  }

  /** The two rounds of the contended run, with the given ballots. */
  function Rivals(key: string, ballots: seq<Ballot>, marks: seq<Marks>, done: bool): seq<Round> {
    [Round("a", key, "1", ballots, marks, done), Round("b", key, "2", ballots, marks, done)]
  }

  const TRUST := Marks(false, false)

  /** Two nodes, each the other's only peer, with these rounds. */
  function Idle(rounds: seq<Round>): Net {
    Net(map["a" := Pair("a", "b"), "b" := Pair("b", "a")], rounds, {})
  }

  /** Both rivals have won and told each other. */
  function BothWon(key: string): Net {
    Net(map["a" := Record(Pair("a", "b"), key, "1"), "b" := Record(Pair("b", "a"), key, "2")],
        Rivals(key, [Yes], [TRUST], true), {Commit("a", "b", key, "1"), Commit("b", "a", key, "2")})
  }

  lemma {:induction false} RivalsPropose(key: string)
    ensures Run(Idle([]), [Propose("a", key, "1"), Propose("b", key, "2")]) == Idle(Rivals(key, [], [], false))
  {
    RunTwo(Idle([]), Propose("a", key, "1"), Propose("b", key, "2"));
    var two := Step(Step(Idle([]), Propose("a", key, "1")), Propose("b", key, "2"));
    assert two.rounds == Rivals(key, [], [], false);
  }

  lemma {:induction false} RivalsAsk(key: string)
    ensures Run(Idle(Rivals(key, [], [], false)), [Ask(0, true), Ask(1, true)]) == Idle(Rivals(key, [Yes], [TRUST], false))
  {
    var net := Idle(Rivals(key, [], [], false));
    RunTwo(net, Ask(0, true), Ask(1, true));
    var one := Step(net, Ask(0, true));
    assert one.nodes == net.nodes;
    assert [] + [Yes] == [Yes] && [] + [TRUST] == [TRUST];
    assert one.rounds[0] == Round("a", key, "1", [] + [Yes], [] + [TRUST], false);
    assert one.rounds == [Round("a", key, "1", [Yes], [TRUST], false), net.rounds[1]];
    var two := Step(one, Ask(1, true));
    assert two.rounds[1] == Round("b", key, "2", [] + [Yes], [] + [TRUST], false);
    assert two.nodes == net.nodes && two.rounds == Rivals(key, [Yes], [TRUST], false);
  }

  lemma {:induction false} OneBroadcast(id: string, other: string, key: string, value: string)
    ensures Broadcast(Pair(id, other), 1, key, value) == {Commit(id, other, key, value)}
  {
    assert Addressed(Pair(id, other).peers[0]);
  }

  lemma {:induction false} RivalsFinish(key: string)
    ensures Run(Idle(Rivals(key, [Yes], [TRUST], false)), [Finish(0), Finish(1)]) == BothWon(key)
  {
    var net := Idle(Rivals(key, [Yes], [TRUST], false));
    RunTwo(net, Finish(0), Finish(1));
    assert [Yes][..0] == [] && Votes([Yes]) == 2;
    OneBroadcast("a", "b", key, "1");
    OneBroadcast("b", "a", key, "2");
    var one := Step(net, Finish(0));
    assert one == Net(map["a" := Record(Pair("a", "b"), key, "1"), "b" := Pair("b", "a")],
                      [Round("a", key, "1", [Yes], [TRUST], true), net.rounds[1]], {Commit("a", "b", key, "1")});
    var two := Step(one, Finish(1));
    assert two.nodes == BothWon(key).nodes && two.rounds == Rivals(key, [Yes], [TRUST], true);
  }

  lemma {:induction false} RivalsDeliver(key: string)
    ensures var end := Run(BothWon(key), [Deliver(Commit("a", "b", key, "1")), Deliver(Commit("b", "a", key, "2"))]);
      && end.nodes.Keys == {"a", "b"} && end.sent == BothWon(key).sent
      && end.nodes["a"].ledger == map[key := "2"] && end.nodes["b"].ledger == map[key := "1"]
  {
    var a, b := Pair("a", "b"), Pair("b", "a");
    var c1, c2 := Commit("a", "b", key, "1"), Commit("b", "a", key, "2");
    RunTwo(BothWon(key), Deliver(c1), Deliver(c2));
    assert Registered(b.peers, "a") by { assert b.peers[0].id == "a"; }
    assert Registered(a.peers, "b") by { assert a.peers[0].id == "b"; }
    var one := Step(BothWon(key), Deliver(c1));
    assert one.nodes == map["a" := Record(a, key, "1"), "b" := Record(Record(b, key, "2"), key, "1")];
  }

  /** So the rivals' state is one that deliveries can still leave in disagreement. */
  lemma {:induction false} RivalsAreUnsettled(key: string)
    ensures !Settled(BothWon(key), key)
  {
    assert CanHold(BothWon(key), "a", key, "1") by { assert Holds(BothWon(key), "a", key, "1"); }
    assert CanHold(BothWon(key), "b", key, "2") by { assert Holds(BothWon(key), "b", key, "2"); }
  }

  lemma {:induction false} RunPhases(net: Net, p: seq<Event>, q: seq<Event>, r: seq<Event>, s: seq<Event>)
    ensures Run(net, p + q + r + s) == Run(Run(Run(Run(net, p), q), r), s)
  {
    RunConcat(net, p + q + r, s);
    RunConcat(net, p + q, r);
    RunConcat(net, p, q);
  }

  function Contention(key: string): seq<Event> {
    [Propose("a", key, "1"), Propose("b", key, "2")] + [Ask(0, true), Ask(1, true)]
    + [Finish(0), Finish(1)] + [Deliver(Commit("a", "b", key, "1")), Deliver(Commit("b", "a", key, "2"))]
  }

  lemma {:induction false} IdleIsFresh()
    ensures Fresh(Idle([]))
  {}

  /** Votes are not exclusive: two nodes that trust each other, both proposing, every message
      delivered, end with each other's value. Quorums intersect and the ledgers still differ. */
  lemma {:induction false} ContendedKeysDisagree(key: string)
    ensures Fresh(Idle([]))
    ensures var now := Run(Idle([]), Contention(key));
      && now.nodes.Keys == {"a", "b"}
      && now.nodes["a"].ledger == map[key := "2"]
      && now.nodes["b"].ledger == map[key := "1"]
      && now.sent == {Commit("a", "b", key, "1"), Commit("b", "a", key, "2")}
  {
    IdleIsFresh();
    RunPhases(Idle([]), [Propose("a", key, "1"), Propose("b", key, "2")], [Ask(0, true), Ask(1, true)],
              [Finish(0), Finish(1)], [Deliver(Commit("a", "b", key, "1")), Deliver(Commit("b", "a", key, "2"))]);
    RivalsPropose(key);
    RivalsAsk(key);
    RivalsFinish(key);
    RivalsDeliver(key);
  }
}
