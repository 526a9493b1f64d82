/** A gossip node (src/blockchain/gossipsub.rs): which messages reach the inbox and who is in the mesh. */
module GossipNode {
  import opened Common
  import opened GossipCodec

  type PeerKey = nat

  datatype GossipConfig = GossipConfig(d: nat, dLow: nat, dHigh: nat, history: nat, maxMsgSize: nat, heartbeatMs: nat,
                                       evictTimeoutMs: nat)
  {
    predicate Valid()
    {
      0 < dLow <= d <= dHigh && history > 0 && maxMsgSize >= 1024 && heartbeatMs > 0
    }
  }

  datatype Peer = Peer(topics: set<Topic>, mesh: set<Topic>, score: int, seenMs: nat)

  type Mesh = map<Topic, set<PeerKey>>

  // ---------------------------------------------------------------------------
  // The window of recent message ids
  // ---------------------------------------------------------------------------

  /** The last `history` ids. */
  function Window(records: seq<nat>, history: nat): (r: seq<nat>)
    ensures |r| == Min(|records|, history)
  {
    records[|records| - Min(|records|, history)..]
  }

  /** Drop the oldest id when the queue is full, and add the new one. */
  function Recorded(seen: seq<nat>, history: nat, id: nat): seq<nat>
  {
    (if |seen| >= history && |seen| > 0 then seen[1..] else seen) + [id]
  }

  lemma WindowSlides(records: seq<nat>, history: nat, id: nat)
    requires history > 0
    ensures Recorded(Window(records, history), history, id) == Window(records + [id], history)
  {
  }

  lemma EmptyWindow(records: seq<nat>, history: nat)
    requires records == []
    ensures Window(records, history) == []
  {
  }

  /** Record `j` is the only one of its id among the `history` records before it and itself. */
  ghost predicate FreshAt(records: seq<nat>, history: nat, j: nat)
  {
    j < |records| && forall i :: 0 <= i < j && j <= i + history ==> records[i] != records[j]
  }

  lemma NotInWindow(records: seq<nat>, history: nat, id: nat)
    requires id !in Window(records, history)
    ensures FreshAt(records + [id], history, |records|)
  {
    var w := Window(records, history);
    forall i | 0 <= i < |records| && |records| <= i + history ensures records[i] != id {
      assert w[i - (|records| - |w|)] == records[i];
    }
  }

  lemma StaysFresh(records: seq<nat>, history: nat, j: nat, id: nat)
    requires FreshAt(records, history, j)
    ensures FreshAt(records + [id], history, j)
  {
  }

  // ---------------------------------------------------------------------------
  // The mesh
  // ---------------------------------------------------------------------------

  ghost predicate MeshOk(cfg: GossipConfig, mesh: Mesh)
  {
    forall t :: t in mesh ==> |mesh[t]| <= cfg.dHigh
  }

  /** The peer, if it is known, with one topic more or less in its subscriptions or in its mesh. */
  function Following(peers: map<PeerKey, Peer>, key: PeerKey, topic: Topic): map<PeerKey, Peer>
  {
    if key in peers then peers[key := peers[key].(topics := peers[key].topics + {topic})] else peers
  }

  function Unfollowing(peers: map<PeerKey, Peer>, key: PeerKey, topic: Topic): map<PeerKey, Peer>
  {
    if key in peers then peers[key := peers[key].(topics := peers[key].topics - {topic})] else peers
  }

  function Joined(peers: map<PeerKey, Peer>, key: PeerKey, topic: Topic): map<PeerKey, Peer>
  {
    if key in peers then peers[key := peers[key].(mesh := peers[key].mesh + {topic})] else peers
  }

  function Parted(peers: map<PeerKey, Peer>, key: PeerKey, topic: Topic): map<PeerKey, Peer>
  {
    if key in peers then peers[key := peers[key].(mesh := peers[key].mesh - {topic})] else peers
  }

  /** The mesh of the topic, if there is one, without the peer. */
  function Dropped(mesh: Mesh, key: PeerKey, topic: Topic): Mesh
  {
    if topic in mesh then mesh[topic := mesh[topic] - {key}] else mesh
  }

  function MeshOf(mesh: Mesh, topic: Topic): set<PeerKey> { if topic in mesh then mesh[topic] else {} }

  /** Peers that follow the topic and are not in its mesh yet. */
  function Candidates(peers: map<PeerKey, Peer>, mesh: Mesh, topic: Topic): set<PeerKey>
  {
    set k | k in peers && topic in peers[k].topics && k !in MeshOf(mesh, topic)
  }

  /** A known peer that subscribes to a topic becomes a candidate for its mesh unless it is in it, one that
      unsubscribes is none; nothing changes for other peers and topics, nor when a peer joins or parts. */
  lemma CandidacyLaw(peers: map<PeerKey, Peer>, mesh: Mesh, from: PeerKey, topic: Topic, k: PeerKey, t: Topic)
    ensures k in Candidates(Following(peers, from, topic), mesh, t)
            <==> (k in Candidates(peers, mesh, t) || (k == from && t == topic && k in peers && k !in MeshOf(mesh, t)))
    ensures k in Candidates(Unfollowing(peers, from, topic), mesh, t)
            <==> k in Candidates(peers, mesh, t) && !(k == from && t == topic)
    ensures Candidates(Joined(peers, from, topic), mesh, t) == Candidates(peers, mesh, t)
    ensures Candidates(Parted(peers, from, topic), mesh, t) == Candidates(peers, mesh, t)
    ensures k in MeshOf(Dropped(mesh, from, topic), t) <==> k in MeshOf(mesh, t) && !(k == from && t == topic)
  {
  }

  /** What the node notes about a peer that joins or parts. */
  lemma MembershipNoted(peers: map<PeerKey, Peer>, from: PeerKey, topic: Topic, k: PeerKey, t: Topic)
    requires k in peers
    ensures k in Joined(peers, from, topic) && k in Parted(peers, from, topic)
    ensures t in Joined(peers, from, topic)[k].mesh <==> t in peers[k].mesh || (k == from && t == topic)
    ensures t in Parted(peers, from, topic)[k].mesh <==> t in peers[k].mesh && !(k == from && t == topic)
  {
  }

  /** The mesh has its lower degree, or there is nobody left to join it. */
  predicate Filled(cfg: GossipConfig, peers: map<PeerKey, Peer>, mesh: Mesh, topic: Topic)
  {
    |MeshOf(mesh, topic)| >= cfg.dLow || Candidates(peers, mesh, topic) == {}
  }

  /** The peers follow the same topics and were last seen at the same time. */
  predicate SameTopics(peers: map<PeerKey, Peer>, peers': map<PeerKey, Peer>)
  {
    && peers'.Keys == peers.Keys
    && forall k :: k in peers ==> peers'[k].topics == peers[k].topics && peers'[k].seenMs == peers[k].seenMs
                                  && peers'[k].score == peers[k].score
  }

  /** The best candidates have joined: either enough of them, or all. */
  lemma GraftFills(cfg: GossipConfig, peers: map<PeerKey, Peer>, mesh: Mesh, topic: Topic, chosen: set<PeerKey>,
                   peers': map<PeerKey, Peer>, mesh': Mesh)
    requires cfg.Valid() && |MeshOf(mesh, topic)| < cfg.dLow && SameTopics(peers, peers')
    requires IsChoice(peers, Candidates(peers, mesh, topic), cfg.d - |MeshOf(mesh, topic)|, chosen)
    requires MeshOf(mesh', topic) == MeshOf(mesh, topic) + chosen
    ensures Filled(cfg, peers', mesh', topic)
  {
    var was, candidates := MeshOf(mesh, topic), Candidates(peers, mesh, topic);
    assert was !! chosen && |was + chosen| == |was| + |chosen|;
    if |chosen| == |candidates| {
      SubsetSame(chosen, candidates);
    }
  }

  lemma SubsetSame<T>(a: set<T>, b: set<T>)
    requires a <= b && |a| == |b|
    ensures a == b
  {
    assert b == a + (b - a);
    assert |b| == |a| + |b - a|;
  }

  /** The best `count` candidates: nobody left out has a higher score than somebody chosen. */
  ghost predicate IsChoice(peers: map<PeerKey, Peer>, candidates: set<PeerKey>, count: nat, chosen: set<PeerKey>)
  {
    && chosen <= candidates && candidates <= peers.Keys && |chosen| == Min(count, |candidates|)
    && forall a, b :: a in chosen && b in candidates && b !in chosen ==> peers[b].score <= peers[a].score
  }

  method Best(peers: map<PeerKey, Peer>, candidates: set<PeerKey>) returns (best: PeerKey)
    requires candidates != {} && candidates <= peers.Keys
    ensures best in candidates && forall k :: k in candidates ==> peers[k].score <= peers[best].score
  {
    best :| best in candidates;
    var todo := candidates;
    while todo != {}
      invariant todo <= candidates && best in candidates
      invariant forall k :: k in candidates && k !in todo ==> peers[k].score <= peers[best].score
      decreases |todo|
    {
      var k :| k in todo;
      if peers[k].score > peers[best].score {
        best := k;
      }
      todo := todo - {k};
    }
  }

  /** Sorting by score and cutting off, one best candidate after the other. */
  method Choose(peers: map<PeerKey, Peer>, candidates: set<PeerKey>, count: nat) returns (chosen: set<PeerKey>)
    requires candidates <= peers.Keys
    ensures IsChoice(peers, candidates, count, chosen)
  {
    chosen := {};
    var rest := candidates;
    while |chosen| < count && rest != {}
      invariant chosen + rest == candidates && chosen !! rest && |chosen| <= count
      invariant forall a, b :: a in chosen && b in rest ==> peers[b].score <= peers[a].score
      decreases |rest|
    {
      var best := Best(peers, rest);
      chosen := chosen + {best};
      rest := rest - {best};
    }
    assert |candidates| == |chosen| + |rest|;
  }

  // ---------------------------------------------------------------------------
  // The node
  // ---------------------------------------------------------------------------

  class GossipNode {
    const config: GossipConfig
    var peers: map<PeerKey, Peer>
    var subscriptions: set<Topic>
    var mesh: Mesh
    var seen: seq<nat>
    var inbox: seq<(Topic, seq<byte>)>
    var lastHeartbeatMs: nat

    /** Every id that was ever recorded, and the positions of those whose message went to the inbox. */
    ghost var records: seq<nat>
    ghost var deliveries: set<nat>

    /** Every message that ever went to the inbox, and those that were taken from it. */
    ghost var accepted: seq<(Topic, seq<byte>)>
    ghost var taken: seq<(Topic, seq<byte>)>

    ghost predicate Valid()
      reads this
    {
      && config.Valid() && MeshOk(config, mesh) && seen == Window(records, config.history)
      && accepted == taken + inbox && |accepted| == |deliveries|
      && forall j :: j in deliveries ==> FreshAt(records, config.history, j)
    }

    constructor (config: GossipConfig)
      requires config.Valid()
      ensures Valid() && this.config == config && records == [] && inbox == []
    {
      this.config := config;
      peers := map[];
      subscriptions := {};
      mesh := map[];
      seen := [];
      inbox := [];
      lastHeartbeatMs := 0;
      records := [];
      deliveries := {};
      accepted := [];
      taken := [];
      new;
      EmptyWindow(records, config.history);
    }

    method RecordSeen(id: nat)
      requires Valid()
      modifies `seen, `records
      ensures Valid() && records == old(records) + [id]
    {
      WindowSlides(records, config.history, id);
      forall j | j in deliveries ensures FreshAt(records + [id], config.history, j) {
        StaysFresh(records, config.history, j, id);
      }
      if |seen| >= config.history {
        seen := seen[1..];
      }
      seen := seen + [id];
      records := records + [id];
    }

    /** `id` is the hash of topic and data. */
    method DoPublish(topic: Topic, data: seq<byte>, id: nat) returns (r: Option<nat>)
      requires Valid()
      modifies `seen, `records
      ensures Valid()
      ensures r.Some? <==> topic in subscriptions && |data| <= config.maxMsgSize
      ensures records == if r.Some? then old(records) + [id] else old(records)
    {
      if topic !in subscriptions || |data| > config.maxMsgSize {
        return None;
      }
      RecordSeen(id);
      return Some(id);
    }

    /** A message goes to the inbox, and is recorded, when its topic is followed and its id is not among
        the last `history` ones. */
    method HandlePublish(m: Message)
      requires Valid()
      modifies `seen, `records, `inbox, `deliveries, `accepted
      ensures Valid()
      ensures var fresh' := m.topic in subscriptions && m.msgId !in Window(old(records), config.history);
              && inbox == (if fresh' then old(inbox) + [(m.topic, m.data)] else old(inbox))
              && records == (if fresh' then old(records) + [m.msgId] else old(records))
              && deliveries == (if fresh' then old(deliveries) + {|old(records)|} else old(deliveries))
              && accepted == (if fresh' then old(accepted) + [(m.topic, m.data)] else old(accepted))
    {
      if m.topic !in subscriptions {
        return;
      }
      if m.msgId in seen {
        return;
      }
      NotInWindow(records, config.history, m.msgId);
      RecordSeen(m.msgId);
      assert |records| - 1 !in deliveries;
      accepted := accepted + [(m.topic, m.data)];
      inbox := inbox + [(m.topic, m.data)];
      deliveries := deliveries + {|records| - 1};
    }

    /** Messages are taken in the order in which they went to the inbox, each of them once. */
    method Recv() returns (r: Option<(Topic, seq<byte>)>)
      requires Valid()
      modifies `inbox, `taken
      ensures Valid()
      ensures r.None? <==> |old(taken)| == |accepted|
      ensures r.None? ==> taken == old(taken)
      ensures r.Some? ==> taken == old(taken) + [r.value] && r.value == accepted[|old(taken)|]
    {
      if inbox == [] {
        return None;
      }
      r := Some(inbox[0]);
      taken := taken + [inbox[0]];
      inbox := inbox[1..];
      assert accepted == taken + inbox;
    }

    method AddPeer(key: PeerKey)
      requires Valid()
      modifies `peers
      ensures Valid() && peers.Keys == old(peers).Keys + {key}
      ensures forall k :: k in old(peers) ==> peers[k] == old(peers)[k]
      ensures key !in old(peers) ==> peers[key] == Peer({}, {}, 0, 0)
    {
      if key !in peers {
        peers := peers[key := Peer({}, {}, 0, 0)];
      }
    }

    method DoSubscribe(topic: Topic)
      requires Valid()
      modifies `subscriptions, `mesh
      ensures Valid() && subscriptions == old(subscriptions) + {topic}
      ensures forall t :: MeshOf(mesh, t) == MeshOf(old(mesh), t)
    {
      if topic !in subscriptions {
        subscriptions := subscriptions + {topic};
        mesh := mesh[topic := MeshOf(mesh, topic)];
      }
    }

    method DoUnsubscribe(topic: Topic)
      requires Valid()
      modifies `subscriptions, `mesh
      ensures Valid() && subscriptions == old(subscriptions) - {topic}
      ensures mesh == if topic in old(subscriptions) then old(mesh) - {topic} else old(mesh)
    {
      if topic in subscriptions {
        subscriptions := subscriptions - {topic};
        mesh := mesh - {topic};
      }
    }

    /** A graft is accepted while the mesh is below its upper degree. */
    method HandleGraft(topic: Topic, from: PeerKey)
      requires Valid()
      modifies `mesh, `peers
      ensures Valid()
      ensures var was := MeshOf(old(mesh), topic);
              && mesh == old(mesh)[topic := if |was| < config.dHigh then was + {from} else was]
              && peers == if |was| < config.dHigh then Joined(old(peers), from, topic) else old(peers)
    {
      var was := MeshOf(mesh, topic);
      mesh := mesh[topic := was];
      if |was| < config.dHigh {
        mesh := mesh[topic := was + {from}];
        if from in peers {
          peers := peers[from := peers[from].(mesh := peers[from].mesh + {topic})];
        }
      }
    }

    method Forget(topic: Topic, from: PeerKey)
      requires Valid()
      modifies `mesh
      ensures Valid()
      ensures mesh == Dropped(old(mesh), from, topic)
    {
      if topic in mesh {
        SubsetSize(mesh[topic] - {from}, mesh[topic]);
        mesh := mesh[topic := mesh[topic] - {from}];
      }
    }

    method MarkMesh(chosen: set<PeerKey>, topic: Topic)
      requires Valid()
      modifies `peers
      ensures Valid() && peers.Keys == old(peers).Keys
      ensures forall k :: k in peers ==>
                peers[k] == if k in chosen then old(peers)[k].(mesh := old(peers)[k].mesh + {topic}) else old(peers)[k]
    {
      peers := map k | k in peers :: if k in chosen then peers[k].(mesh := peers[k].mesh + {topic}) else peers[k];
    }

    /** The best candidates join the mesh. */
    method GraftPeers(topic: Topic, count: nat) returns (chosen: set<PeerKey>)
      requires Valid() && |MeshOf(mesh, topic)| + count <= config.dHigh
      modifies `mesh, `peers
      ensures Valid() && SameTopics(old(peers), peers)
      ensures IsChoice(old(peers), Candidates(old(peers), old(mesh), topic), count, chosen)
      ensures mesh == if chosen == {} then old(mesh) else old(mesh)[topic := MeshOf(old(mesh), topic) + chosen]
    {
      var was := MeshOf(mesh, topic);
      var candidates := Candidates(peers, mesh, topic);
      chosen := Choose(peers, candidates, count);
      JoinedSize(was, chosen);
      MarkMesh(chosen, topic);
      if chosen != {} {
        mesh := mesh[topic := was + chosen];
      }
    }

    /** One topic of the heartbeat. The branch that prunes is never taken. */
    method Balance(topic: Topic)
      requires Valid()
      modifies `mesh, `peers
      ensures Valid() && SameTopics(old(peers), peers) && Filled(config, peers, mesh, topic)
      ensures forall t :: t != topic ==> MeshOf(mesh, t) == MeshOf(old(mesh), t)
      ensures forall k :: k in MeshOf(mesh, topic) && k !in MeshOf(old(mesh), topic) ==>
                k in Candidates(old(peers), old(mesh), topic)
      ensures |MeshOf(old(mesh), topic)| >= config.dLow ==> mesh == old(mesh)
      ensures |MeshOf(mesh, topic)| <= Max(config.d, |MeshOf(old(mesh), topic)|)
      ensures MeshOf(old(mesh), topic) <= MeshOf(mesh, topic)
    {
      var size := |MeshOf(mesh, topic)|;
      if size < config.dLow {
        var chosen := GraftPeers(topic, config.d - size);
        JoinedSize(MeshOf(old(mesh), topic), chosen);
        GraftFills(config, old(peers), old(mesh), topic, chosen, peers, mesh);
      } else {
        assert size <= config.dHigh;
      }
    }

    /** The mesh of every topic that is followed gets members, and nobody leaves a mesh. */
    method BalanceAll()
      requires Valid()
      modifies `mesh, `peers
      ensures Valid() && SameTopics(old(peers), peers)
      ensures forall t :: MeshOf(old(mesh), t) <= MeshOf(mesh, t)
      ensures forall t :: t !in subscriptions ==> MeshOf(mesh, t) == MeshOf(old(mesh), t)
      ensures forall t :: t in subscriptions ==> Filled(config, peers, mesh, t)
    {
      var todo := subscriptions;
      while todo != {}
        invariant Valid() && SameTopics(old(peers), peers) && todo <= subscriptions
        invariant forall t :: MeshOf(old(mesh), t) <= MeshOf(mesh, t)
        invariant forall t :: t !in subscriptions ==> MeshOf(mesh, t) == MeshOf(old(mesh), t)
        invariant forall t :: t in subscriptions && t !in todo ==> Filled(config, peers, mesh, t)
        decreases |todo|
      {
        var topic :| topic in todo;
        Balance(topic);
        todo := todo - {topic};
      }
    }

    /** When its time has come: the meshes are balanced, and the peers that were not seen for too long go. */
    method Heartbeat(now: nat)
      requires Valid()
      modifies `mesh, `peers, `lastHeartbeatMs
      ensures Valid()
      ensures forall t :: MeshOf(old(mesh), t) <= MeshOf(mesh, t)
      ensures forall t :: t !in subscriptions ==> MeshOf(mesh, t) == MeshOf(old(mesh), t)
      ensures now < old(lastHeartbeatMs) + config.heartbeatMs ==>
                peers == old(peers) && mesh == old(mesh) && lastHeartbeatMs == old(lastHeartbeatMs)
      ensures now >= old(lastHeartbeatMs) + config.heartbeatMs ==>
                && lastHeartbeatMs == now && (forall t :: t in subscriptions ==> Filled(config, peers, mesh, t))
                && peers.Keys == set k | k in old(peers) && !(0 < old(peers)[k].seenMs < now - config.evictTimeoutMs)
    {
      if now < lastHeartbeatMs + config.heartbeatMs {
        return;
      }
      lastHeartbeatMs := now;
      BalanceAll();
      var threshold := SaturatingSub(now, config.evictTimeoutMs);
      peers := map k | k in peers && !(0 < peers[k].seenMs < threshold) :: peers[k];
    }

    method UpdatePeer(key: PeerKey, now: nat)
      requires Valid()
      modifies `peers
      ensures Valid()
      ensures peers == old(peers)[key := if key in old(peers)
                                         then old(peers)[key].(seenMs := now, score := old(peers)[key].score + 1)
                                         else Peer({}, {}, 0, now)]
    {
      if key in peers {
        peers := peers[key := peers[key].(seenMs := now, score := peers[key].score + 1)];
      } else {
        peers := peers[key := Peer({}, {}, 0, now)];
      }
    }

    /** What each kind of message does to the peers and to the meshes; only a published one goes further. */
    method HandleMessage(m: Message, from: PeerKey)
      requires Valid()
      modifies this
      ensures subscriptions == old(subscriptions) && lastHeartbeatMs == old(lastHeartbeatMs)
      ensures peers == match m.msgType
                       case Subscribe => Following(old(peers), from, m.topic)
                       case Unsubscribe => Unfollowing(old(peers), from, m.topic)
                       case Graft => if |MeshOf(old(mesh), m.topic)| < config.dHigh
                                     then Joined(old(peers), from, m.topic) else old(peers)
                       case Prune => Parted(old(peers), from, m.topic)
                       case _ => old(peers)
      ensures mesh == match m.msgType
                      case Unsubscribe => Dropped(old(mesh), from, m.topic)
                      case Prune => Dropped(old(mesh), from, m.topic)
                      case Graft =>
                        var was := MeshOf(old(mesh), m.topic);
                        old(mesh)[m.topic := if |was| < config.dHigh then was + {from} else was]
                      case _ => old(mesh)
      ensures !m.msgType.Publish? ==> records == old(records) && inbox == old(inbox)
      ensures m.msgType.Publish? ==>
                var fresh' := m.topic in subscriptions && m.msgId !in Window(old(records), config.history);
                && inbox == (if fresh' then old(inbox) + [(m.topic, m.data)] else old(inbox))
                && records == (if fresh' then old(records) + [m.msgId] else old(records))
      ensures Valid() && |old(records)| <= |records| <= |old(records)| + 1 && old(records) <= records
      ensures old(deliveries) <= deliveries && |inbox| - |old(inbox)| == |deliveries - old(deliveries)|
      ensures old(accepted) <= accepted && taken == old(taken)
      ensures forall j :: j in deliveries && j < |old(records)| ==> j in old(deliveries)
    {
      match m.msgType
      case Publish =>
        HandlePublish(m);
        assert deliveries - old(deliveries) == {} || deliveries - old(deliveries) == {|old(records)|} by {
          assert forall j :: j in old(deliveries) ==> j < |old(records)|;
        }
      case Subscribe =>
        if from in peers {
          peers := peers[from := peers[from].(topics := peers[from].topics + {m.topic})];
        }
      case Unsubscribe =>
        if from in peers {
          peers := peers[from := peers[from].(topics := peers[from].topics - {m.topic})];
        }
        Forget(m.topic, from);
      case Graft =>
        HandleGraft(m.topic, from);
      case Prune =>
        Forget(m.topic, from);
        if from in peers {
          peers := peers[from := peers[from].(mesh := peers[from].mesh - {m.topic})];
        }
      case IHave =>
      case IWant =>
      case Control =>
    }

    /** Any bytes from the network: they are refused, or handled. */
    method Poll(raw: seq<byte>, from: PeerKey, now: nat) returns (ok: bool)
      requires Valid()
      modifies this
      ensures Valid() && ok == Deserialize(raw, config.maxMsgSize).Ok?
      ensures !ok ==> records == old(records) && deliveries == old(deliveries)
      ensures !ok ==> mesh == old(mesh) && inbox == old(inbox) && peers == old(peers)
      ensures ok ==> from in peers && peers[from].seenMs == now
                     && peers[from].score == if from in old(peers) then old(peers)[from].score + 1 else 0
      ensures ok ==> var m := Deserialize(raw, config.maxMsgSize).value;
                     var delivers := m.msgType.Publish? && m.topic in subscriptions
                                     && m.msgId !in Window(old(records), config.history);
                     && inbox == (if delivers then old(inbox) + [(m.topic, m.data)] else old(inbox))
                     && records == (if delivers then old(records) + [m.msgId] else old(records))
      ensures old(records) <= records && old(deliveries) <= deliveries && old(accepted) <= accepted
      ensures taken == old(taken) && forall j :: j in deliveries && j < |old(records)| ==> j in old(deliveries)
    {
      var parsed := Deserialize(raw, config.maxMsgSize);
      if parsed.Err? {
        return false;
      }
      UpdatePeer(from, now);
      HandleMessage(parsed.value, from);
      return true;
    }

    /** Between two deliveries of one id, more than `history` steps of the record: at least `history` other
        records lie between them. And no mesh is ever above its upper degree. */
    lemma DeliveredApart(i: nat, j: nat, topic: Topic)
      requires Valid() && i in deliveries && j in deliveries && i < j
      ensures i < |records| && j < |records| && (records[i] == records[j] ==> j - i - 1 >= config.history)
      ensures |MeshOf(mesh, topic)| <= config.dHigh && |seen| <= config.history
    {
      assert FreshAt(records, config.history, i) && FreshAt(records, config.history, j);
    }
  }

  lemma JoinedSize(s: set<PeerKey>, t: set<PeerKey>)
    ensures |s + t| <= |s| + |t|
  {
    assert s + t == s + (t - s);
    SubsetSize(t - s, t);
  }

  // ---------------------------------------------------------------------------
  // Every run
  // ---------------------------------------------------------------------------

  datatype Event =
    | Packet(raw: seq<byte>, from: PeerKey, now: nat)
    | Send(topic: Topic, data: seq<byte>, id: nat)
    | Follow(topic: Topic)
    | Leave(topic: Topic)
    | Tick(now: nat)
    | Take
    | Learn(peer: PeerKey)

  /** Whatever arrives and whatever is asked of the node, in any order: what was recorded, delivered,
      accepted and taken stays so, nothing earlier is delivered later, and deliveries of one id are apart. */
  method Drive(node: GossipNode, events: seq<Event>)
    requires node.Valid()
    modifies node
    ensures node.Valid()
    ensures old(node.records) <= node.records && old(node.accepted) <= node.accepted && old(node.taken) <= node.taken
    ensures old(node.deliveries) <= node.deliveries
    ensures forall j :: j in node.deliveries && j < |old(node.records)| ==> j in old(node.deliveries)
    ensures forall i, j :: i in node.deliveries && j in node.deliveries && i < j < |node.records| ==>
              node.records[i] == node.records[j] ==> j - i - 1 >= node.config.history
  {
    for i := 0 to |events|
      invariant node.Valid()
      invariant old(node.records) <= node.records && old(node.deliveries) <= node.deliveries
      invariant old(node.accepted) <= node.accepted && old(node.taken) <= node.taken
      invariant forall j :: j in node.deliveries && j < |old(node.records)| ==> j in old(node.deliveries)
    {
      match events[i]
      case Packet(raw, from, now) =>
        var _ := node.Poll(raw, from, now);
      case Send(topic, data, id) =>
        var _ := node.DoPublish(topic, data, id);
      case Follow(topic) =>
        node.DoSubscribe(topic);
      case Leave(topic) =>
        node.DoUnsubscribe(topic);
      case Tick(now) =>
        node.Heartbeat(now);
      case Take =>
        var _ := node.Recv();
      case Learn(peer) =>
        node.AddPeer(peer);
    }
  }
}
