/** One node of the quorum ledger: its membership, its vote loop and its ledger. */
module Mesh {
  import opened Common

  datatype Policy = Honest | Faulty

  /** A registered peer; its address is optional. */
  datatype Peer = Peer(id: string, uri: Option<string>)

  datatype Node = Node(
    id: string, peers: seq<Peer>, policies: map<string, Policy>, ledger: map<string, string>,
    commits: nat, rejections: nat, byzantine: nat)

  /** What asking one peer amounts to. */
  datatype Ballot = Yes | No | Unasked

  /** A missing or empty address cannot be dialled. */
  predicate Addressed(peer: Peer) {
    peer.uri.Some? && peer.uri.value != ""
  }

  predicate Registered(peers: seq<Peer>, id: string) {
    exists i :: 0 <= i < |peers| && peers[i].id == id
  }

  /** Peers come from a dictionary: no id twice. */
  ghost predicate Distinct(peers: seq<Peer>) {
    forall i, j :: 0 <= i < j < |peers| ==> peers[i].id != peers[j].id
  }

  function Quorum(n: nat): nat {
    (n + 1) / 2 + 1
  }

  predicate MarkedFaulty(policies: map<string, Policy>, id: string) {
    id in policies && policies[id] == Faulty
  }

  /** The vote loop's body for one peer; reply is None for a lost or malformed exchange. */
  function BallotOf(n: Node, peer: Peer, reply: Option<bool>): Ballot {
    if MarkedFaulty(n.policies, peer.id) then No
    else if !Addressed(peer) then Unasked
    else if reply == Some(true) then Yes
    else No
  }

  function Count(ballots: seq<Ballot>, b: Ballot): (c: nat)
    ensures c <= |ballots|
  {
    if ballots == [] then 0 else Count(ballots[..|ballots| - 1], b) + (if ballots[|ballots| - 1] == b then 1 else 0)
  }

  function Votes(ballots: seq<Ballot>): nat {
    1 + Count(ballots, Yes)
  }

  /** The ids behind the yes ballots; ballot i is peer i's. */
  function Voters(peers: seq<Peer>, ballots: seq<Ballot>): set<string>
    requires |ballots| <= |peers|
  {
    if ballots == [] then {}
    else
      var k := |ballots| - 1;
      Voters(peers, ballots[..k]) + (if ballots[k] == Yes then {peers[k].id} else {})
  }

  /** Never asked: not marked faulty, and without an address. */
  predicate HonestWithoutUri(n: Node, peer: Peer) {
    !MarkedFaulty(n.policies, peer.id) && !Addressed(peer)
  }

  function UnaskedPeers(n: Node, k: nat): nat
    requires k <= |n.peers|
  {
    if k == 0 then 0 else UnaskedPeers(n, k - 1) + (if HonestWithoutUri(n, n.peers[k - 1]) then 1 else 0)
  }

  // ----- one round of votes -----

  /** Some reply makes the loop body cast this ballot. */
  ghost predicate Possible(n: Node, peer: Peer, b: Ballot) {
    exists reply :: b == BallotOf(n, peer, reply)
  }

  ghost predicate Tallied(n: Node, ballots: seq<Ballot>) {
    |ballots| <= |n.peers| && forall i :: 0 <= i < |ballots| ==> Possible(n, n.peers[i], ballots[i])
  }

  lemma {:induction false} OneMoreBallot(n: Node, ballots: seq<Ballot>, b: Ballot, reply: Option<bool>)
    requires Tallied(n, ballots) && |ballots| < |n.peers| && b == BallotOf(n, n.peers[|ballots|], reply)
    ensures Tallied(n, ballots + [b])
    ensures Votes(ballots + [b]) == Votes(ballots) + (if b == Yes then 1 else 0)
    ensures Count(ballots + [b], No) == Count(ballots, No) + (if b == No then 1 else 0)
  {
    assert Possible(n, n.peers[|ballots|], b);
    assert (ballots + [b])[..|ballots|] == ballots;
  }

  /** Votes, new Byzantine counts and honest peers without an address add up to the members
      asked so far: every member is accounted for exactly once. */
  lemma {:induction false} RoundAccounting(n: Node, ballots: seq<Ballot>)
    requires Tallied(n, ballots)
    ensures Votes(ballots) + Count(ballots, No) + UnaskedPeers(n, |ballots|) == |ballots| + 1
    ensures Count(ballots, Unasked) == UnaskedPeers(n, |ballots|)
  {
    if ballots != [] {
      var k := |ballots| - 1;
      assert forall i :: 0 <= i < k ==> ballots[..k][i] == ballots[i];
      RoundAccounting(n, ballots[..k]);
      assert Possible(n, n.peers[k], ballots[k]);
    }
  }

  lemma {:induction false} VotersAreMembers(peers: seq<Peer>, ballots: seq<Ballot>)
    requires |ballots| <= |peers|
    ensures forall v :: v in Voters(peers, ballots) <==> exists i :: 0 <= i < |ballots| && ballots[i] == Yes && peers[i].id == v
  {
    if ballots != [] {
      var k := |ballots| - 1;
      VotersAreMembers(peers, ballots[..k]);
      forall v
        ensures v in Voters(peers, ballots) <==> exists i :: 0 <= i < |ballots| && ballots[i] == Yes && peers[i].id == v
      {
        if i :| 0 <= i < |ballots| && ballots[i] == Yes && peers[i].id == v {
          assert i < k ==> ballots[..k][i] == Yes;
        }
        if v in Voters(peers, ballots[..k]) {
          var i :| 0 <= i < k && ballots[..k][i] == Yes && peers[i].id == v;
          assert ballots[i] == Yes;
        }
      }
    }
  }

  /** Distinct peers: as many voters as yes ballots. */
  lemma {:induction false} VotersAreCounted(peers: seq<Peer>, ballots: seq<Ballot>)
    requires |ballots| <= |peers| && Distinct(peers)
    ensures |Voters(peers, ballots)| == Count(ballots, Yes)
  {
    if ballots != [] {
      var k := |ballots| - 1;
      VotersAreCounted(peers, ballots[..k]);
      VotersAreMembers(peers, ballots[..k]);
      assert peers[k].id !in Voters(peers, ballots[..k]);
    }
  }

  /** The members behind a node's votes, itself included. */
  function Backers(n: Node, ballots: seq<Ballot>): set<string>
    requires |ballots| <= |n.peers|
  {
    {n.id} + Voters(n.peers, ballots)
  }

  lemma {:induction false} VotesAreBackers(n: Node, ballots: seq<Ballot>)
    requires |ballots| <= |n.peers| && Distinct(n.peers)
    ensures |Backers(n, ballots)| == Votes(ballots) <==> n.id !in Voters(n.peers, ballots)
    ensures |Backers(n, ballots)| + 1 >= Votes(ballots)
  {
    VotersAreCounted(n.peers, ballots);
    var voters := Voters(n.peers, ballots);
    if n.id in voters {
      assert Backers(n, ballots) == voters;
    }
  }

  /** The node has registered itself as a peer that it would ask. */
  ghost predicate AsksItself(n: Node) {
    exists i :: 0 <= i < |n.peers| && SelfPeer(n, n.peers[i])
  }

  predicate SelfPeer(n: Node, peer: Peer) {
    peer.id == n.id && Addressed(peer) && !MarkedFaulty(n.policies, n.id)
  }

  /** A whole round of votes in which every distinct backer has one vote. */
  ghost predicate OneVoteEach(n: Node, ballots: seq<Ballot>)
    requires |ballots| <= |n.peers|
  {
    |Backers(n, ballots)| == Votes(ballots)
  }

  /** The round in which everybody who is asked agrees. */
  function AllAgree(n: Node): (ballots: seq<Ballot>)
    ensures |ballots| == |n.peers|
  {
    seq(|n.peers|, i requires 0 <= i < |n.peers| => BallotOf(n, n.peers[i], Some(true)))
  }

  lemma {:induction false} SelfVoteIsAsked(n: Node, ballots: seq<Ballot>)
    requires Tallied(n, ballots) && n.id in Voters(n.peers, ballots)
    ensures AsksItself(n)
  {
    VotersAreMembers(n.peers, ballots);
    var i :| 0 <= i < |ballots| && ballots[i] == Yes && n.peers[i].id == n.id;
    assert Possible(n, n.peers[i], Yes);
    assert SelfPeer(n, n.peers[i]);
  }

  /** One node, one vote, in every round that can happen - exactly when the node is not among
      the peers that it asks. Registration does not prevent that; its vote then counts twice. */
  lemma {:induction false} OneNodeOneVote(n: Node)
    requires Distinct(n.peers)
    ensures (forall ballots :: Tallied(n, ballots) && |ballots| == |n.peers| ==> OneVoteEach(n, ballots)) <==> !AsksItself(n)
  {
    if AsksItself(n) {
      var i :| 0 <= i < |n.peers| && SelfPeer(n, n.peers[i]);
      var ballots := AllAgree(n);
      forall j | 0 <= j < |ballots| ensures Possible(n, n.peers[j], ballots[j]) {
        assert ballots[j] == BallotOf(n, n.peers[j], Some(true));
      }
      VotersAreMembers(n.peers, ballots);
      assert ballots[i] == Yes;
      VotesAreBackers(n, ballots);
      assert Tallied(n, ballots) && !OneVoteEach(n, ballots);
    } else {
      forall ballots | Tallied(n, ballots) && |ballots| == |n.peers| ensures OneVoteEach(n, ballots) {
        VotesAreBackers(n, ballots);
        if n.id in Voters(n.peers, ballots) {
          SelfVoteIsAsked(n, ballots);
        }
      }
    }
  }

  /** A node registered as its own only peer commits with itself as the only backer. */
  lemma {:induction false} SelfPeerDoubleVote(n: Node)
    requires n.peers == [Peer(n.id, Some("ws://self"))] && n.policies == map[n.id := Honest]
    ensures var ballots := [BallotOf(n, n.peers[0], Some(true))];
      Votes(ballots) >= Quorum(|n.peers|) && Backers(n, ballots) == {n.id}
  {
    var ballots := [BallotOf(n, n.peers[0], Some(true))];
    assert ballots == [Yes] && ballots[..0] == [];
    assert Count(ballots, Yes) == Count(ballots[..0], Yes) + 1;
    assert Voters(n.peers, ballots) == Voters(n.peers, ballots[..0]) + {n.id};
  }

  lemma {:induction false} MemberIds(peers: seq<Peer>) returns (ids: set<string>)
    requires Distinct(peers)
    ensures |ids| == |peers| && forall v :: v in ids <==> Registered(peers, v)
  {
    if peers == [] {
      ids := {};
    } else {
      var k := |peers| - 1;
      var front := MemberIds(peers[..k]);
      assert peers[k].id !in front;
      ids := front + {peers[k].id};
      forall v ensures v in ids <==> Registered(peers, v) {
        if v in front {
          var i :| 0 <= i < k && peers[..k][i].id == v;
          assert peers[i].id == v;
        }
        if i :| 0 <= i < |peers| && peers[i].id == v {
          assert i < k ==> peers[..k][i].id == v;
        }
      }
    }
  }

  /** A quorum is a strict majority of the members, the node itself included, and any strict
      majority is one. */
  lemma {:induction false} QuorumIsMajority(n: nat, votes: nat)
    ensures votes >= Quorum(n) <==> 2 * votes > n + 1
  {}

  /** Which ballot a peer's exchange is: no when marked faulty, unasked without a usable address,
      yes exactly for an unmarked, addressed peer that answers yes. */
  lemma {:induction false} BallotIff(n: Node, peer: Peer, reply: Option<bool>)
    ensures var b := BallotOf(n, peer, reply);
      var marked := peer.id in n.policies && n.policies[peer.id] == Faulty;
      var dialable := peer.uri.Some? && peer.uri.value != "";
      && (b == Yes <==> !marked && dialable && reply == Some(true))
      && (b == Unasked <==> !marked && !dialable)
      && (b == No <==> marked || (dialable && reply != Some(true)))
  {}

  /** Any two quorums of one membership share a voter. */
  lemma {:induction false} QuorumsIntersect(members: set<string>, n: nat, a: set<string>, b: set<string>)
    requires |members| == n + 1 && a <= members && b <= members
    requires |a| >= Quorum(n) && |b| >= Quorum(n)
    ensures exists v :: v in a && v in b
  {
    if a * b == {} {
      assert |a + b| == |a| + |b|;
      SubsetSize(a + b, members);
    }
    assert a * b != {};
    var v :| v in a * b;
  }

  lemma {:induction false} SubsetSize<T>(a: set<T>, b: set<T>)
    requires a <= b
    ensures |a| <= |b|
    decreases b
  {
    if b != {} {
      var x :| x in b;
      SubsetSize(a - {x}, b - {x});
    }
  }

  // ----- the node object -----

  /** What the transport is asked to deliver. */
  datatype Commit = Commit(sender: string, to: string, key: string, value: string)

  function Broadcast(n: Node, k: nat, key: string, value: string): set<Commit>
    requires k <= |n.peers|
  {
    set i | 0 <= i < k && Addressed(n.peers[i]) :: Commit(n.id, n.peers[i].id, key, value)
  }

  /** The commit message for one dialable peer. */
  ghost predicate IsNotice(c: Commit, id: string, peers: seq<Peer>, key: string, value: string) {
    && c.sender == id && c.key == key && c.value == value
    && exists i :: 0 <= i < |peers| && peers[i].id == c.to && peers[i].uri.Some? && peers[i].uri.value != ""
  }

  lemma {:induction false} BroadcastIsNotices(n: Node, key: string, value: string)
    ensures forall c :: c in Broadcast(n, |n.peers|, key, value) <==> IsNotice(c, n.id, n.peers, key, value)
  {
    forall c ensures c in Broadcast(n, |n.peers|, key, value) <==> IsNotice(c, n.id, n.peers, key, value) {
      if IsNotice(c, n.id, n.peers, key, value) {
        var i :| 0 <= i < |n.peers| && n.peers[i].id == c.to && n.peers[i].uri.Some? && n.peers[i].uri.value != "";
        assert Addressed(n.peers[i]) && c == Commit(n.id, n.peers[i].id, key, value);
      }
    }
  }

  function Record(n: Node, key: string, value: string): Node {
    n.(ledger := n.ledger[key := value], commits := n.commits + 1)
  }

  function ApplyCommit(n: Node, key: string, value: string, sender: string): Node {
    if Registered(n.peers, sender) then Record(n, key, value) else n
  }

  function Register(n: Node, id: string, uri: Option<string>): Node {
    if !Registered(n.peers, id) then
      n.(peers := n.peers + [Peer(id, uri)], policies := n.policies[id := Honest])
    else if uri.Some? then n.(peers := WithUri(n.peers, id, uri))
    else n
  }

  function WithUri(peers: seq<Peer>, id: string, uri: Option<string>): (r: seq<Peer>)
    ensures |r| == |peers|
    ensures forall i :: 0 <= i < |r| ==> r[i] == if peers[i].id == id then Peer(id, uri) else peers[i]
  {
    seq(|peers|, i requires 0 <= i < |peers| => if peers[i].id == id then Peer(id, uri) else peers[i])
  }

  class BFTNode {
    const id: string
    var peers: seq<Peer>
    var policies: map<string, Policy>
    var ledger: map<string, string>
    var commits: nat
    var rejections: nat
    var byzantine: nat

    ghost function Value(): Node
      reads this
    {
      Node(id, peers, policies, ledger, commits, rejections, byzantine)
    }

    ghost predicate Valid()
      reads this
    {
      Distinct(peers) && forall i :: 0 <= i < |peers| ==> peers[i].id in policies
    }

    constructor (id: string)
      ensures Valid() && Value() == Node(id, [], map[], map[], 0, 0, 0)
    {
      this.id := id;
      peers, policies, ledger := [], map[], map[];
      commits, rejections, byzantine := 0, 0, 0;
    }

    method RegisterPeer(peer: string, uri: Option<string>)
      requires Valid()
      modifies this`peers, this`policies
      ensures Valid() && Value() == Register(old(Value()), peer, uri)
      ensures !Registered(old(peers), peer) ==>
        peers == old(peers) + [Peer(peer, uri)] && policies == old(policies)[peer := Honest]
      ensures Registered(old(peers), peer) ==> policies == old(policies) && |peers| == |old(peers)|
      ensures Registered(old(peers), peer) ==> forall i :: 0 <= i < |peers| ==>
        peers[i] == if old(peers)[i].id == peer && uri.Some? then Peer(peer, uri) else old(peers)[i]
    {
      if !Registered(peers, peer) {
        peers := peers + [Peer(peer, uri)];
        policies := policies[peer := Honest];
      } else if uri.Some? {
        peers := WithUri(peers, peer, uri);
      }
    }

    /** False stands for the KeyError of an unregistered peer. */
    method SetPeerPolicy(peer: string, policy: Policy) returns (ok: bool)
      requires Valid()
      modifies this`policies
      ensures Valid()
      ensures ok <==> Registered(peers, peer)
      ensures policies == if ok then old(policies)[peer := policy] else old(policies)
    {
      if !Registered(peers, peer) {
        return false;
      }
      policies := policies[peer := policy];
      return true;
    }

    method ReceiveCommit(key: string, value: string, sender: string) returns (applied: bool)
      requires Valid()
      modifies this`ledger, this`commits
      ensures Valid() && Value() == ApplyCommit(old(Value()), key, value, sender)
      ensures applied <==> exists i :: 0 <= i < |peers| && peers[i].id == sender
      ensures ledger == if applied then old(ledger)[key := value] else old(ledger)
      ensures commits == old(commits) + (if applied then 1 else 0)
    {
      if Registered(peers, sender) {
        ledger := ledger[key := value];
        commits := commits + 1;
        return true;
      }
      return false;
    }

    /** The inbound handler's answer to a vote request. */
    method AnswerVoteRequest(proposer: string) returns (vote: bool)
      ensures vote <==> !MarkedFaulty(policies, proposer)
      ensures !vote <==> proposer in policies && policies[proposer] == Faulty
    {
      vote := !(proposer in policies && policies[proposer] == Faulty);
    }

    /** The vote loop; replies[i] is what peer i's exchange returns, if it is asked. */
    method CollectVotes(replies: seq<Option<bool>>) returns (votes: nat, ghost ballots: seq<Ballot>)
      requires Valid() && |replies| == |peers|
      modifies this`byzantine
      ensures Valid() && |ballots| == |peers| && Tallied(old(Value()), ballots)
      ensures forall i :: 0 <= i < |peers| ==> ballots[i] == BallotOf(old(Value()), peers[i], replies[i])
      ensures votes == Votes(ballots)
      ensures byzantine == old(byzantine) + Count(ballots, No)
    {
      votes := 1;
      ballots := [];
      ghost var n := Value();
      for i := 0 to |peers|
        invariant Valid() && |ballots| == i && votes == Votes(ballots)
        invariant byzantine == n.byzantine + Count(ballots, No)
        invariant forall j :: 0 <= j < i ==> ballots[j] == BallotOf(n, peers[j], replies[j])
        invariant Tallied(n, ballots)
      {
        var peer := peers[i];
        ghost var b := BallotOf(n, peer, replies[i]);
        OneMoreBallot(n, ballots, b, replies[i]);
        if peer.id in policies && policies[peer.id] == Faulty {
          byzantine := byzantine + 1;
        } else if !Addressed(peer) {
        } else if replies[i] == Some(true) {
          votes := votes + 1;
        } else {
          byzantine := byzantine + 1;
        }
        ballots := ballots + [b];
      }
    }

    /** One commit message for every dialable peer. */
    method BroadcastCommit(key: string, value: string) returns (sent: set<Commit>)
      ensures sent == Broadcast(Value(), |peers|, key, value)
      ensures forall c :: c in sent <==> IsNotice(c, id, peers, key, value)
    {
      BroadcastIsNotices(Value(), key, value);
      sent := {};
      for i := 0 to |peers|
        invariant sent == Broadcast(Value(), i, key, value)
      {
        if Addressed(peers[i]) {
          sent := sent + {Commit(id, peers[i].id, key, value)};
        }
      }
    }

    /** Live mode: commits exactly on a strict majority of the members, and then tells every
        addressed peer. */
    method ProposeLive(key: string, value: string, replies: seq<Option<bool>>)
      returns (ok: bool, sent: set<Commit>, ghost ballots: seq<Ballot>)
      requires Valid() && |replies| == |peers|
      modifies this`ledger, this`commits, this`rejections, this`byzantine
      ensures Valid() && |ballots| == |peers| && Tallied(old(Value()), ballots)
      ensures forall i :: 0 <= i < |peers| ==> ballots[i] == BallotOf(old(Value()), peers[i], replies[i])
      ensures ok <==> 2 * Votes(ballots) > |peers| + 1
      ensures Votes(ballots) == 1 + |Voters(peers, ballots)|
      ensures ledger == (if ok then old(ledger)[key := value] else old(ledger))
      ensures commits == old(commits) + (if ok then 1 else 0) && rejections == old(rejections) + (if ok then 0 else 1)
      ensures forall c :: c in sent <==> ok && IsNotice(c, id, peers, key, value)
      ensures var n := old(Value()).(byzantine := old(byzantine) + Count(ballots, No));
        Value() == if ok then Record(n, key, value) else n.(rejections := n.rejections + 1)
      ensures sent == if ok then Broadcast(old(Value()), |peers|, key, value) else {}
    {
      var votes;
      votes, ballots := CollectVotes(replies);
      QuorumIsMajority(|peers|, votes);
      VotersAreCounted(peers, ballots);
      sent := {};
      if votes >= Quorum(|peers|) {
        ledger := ledger[key := value];
        commits := commits + 1;
        sent := BroadcastCommit(key, value);
        return true, sent, ballots;
      }
      rejections := rejections + 1;
      return false, sent, ballots;
    }

    /** Simulation mode assumes that every peer agrees, which is a quorum for any membership:
        the source's rejection branch is dead here. */
    method ProposeSimulated(key: string, value: string) returns (ok: bool)
      requires Valid()
      modifies this`ledger, this`commits
      ensures ok && Value() == Record(old(Value()), key, value)
    {
      var votes := 1 + |peers|;
      if votes >= Quorum(|peers|) {
        ledger := ledger[key := value];
        commits := commits + 1;
        return true;
      }
      assert false;
    }
  }
}
