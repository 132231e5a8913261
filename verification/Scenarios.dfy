/**
 One policy with rules of every sort, and exactly which packets it lets through, out of all there are.
 It ties what policies mean to literal labels, ports and addresses.
 */
module Scenarios {
  import opened Basics
  import opened Netfilter
  import opened IpBlocks
  import opened BlockUnion
  import opened Policies
  import opened Enforcement

  const WEB := Pod("shop", "web", Some(1), "node", map["app" := "web"],
                   [ContainerPort("http", "tcp", "8080"), ContainerPort("metrics", "tcp", "9090")])
  const API := Pod("back", "api", Some(2), "node", map["app" := "api"], [])
  const OWN_API := Pod("shop", "api", Some(3), "node", map["app" := "api"], [])
  const DB := Pod("shop", "db", Some(4), "far", map["app" := "db"], [])
  const OTHER_DB := Pod("back", "db", Some(5), "far", map["app" := "db"], [])
  const OTHER_WEB := Pod("back", "web", Some(6), "node", map["app" := "web"], [])
  const NAMELESS := Pod("shop", "new", None, "node", map["app" := "web"], [])

  const HALL := IpBlock(Net(0x0A00_0000, 8), [Net(0x0A01_0000, 16)])

  /** From the pods "api" of the namespaces of team "x", on the port "http". */
  const FROM_API := RuleSpec([Peer(Some(map["app" := "api"]), Some(map["team" := "x"]), None)],
                             [PortSpec("tcp", Named("http"))])

  /** From a network without a part of it, on a port by number and on all ports of a protocol. */
  const FROM_HALL := RuleSpec([Peer(None, None, Some(HALL))],
                              [PortSpec("udp", Number("53")), PortSpec("sctp", AnyPort)])

  /** To the pods "db" of the own namespace. */
  const TO_DB := RuleSpec([Peer(Some(map["app" := "db"]), None, None)], [])

  const SHOP := Policy("shop", "web", map["app" := "web"], [Ingress, Egress], Some([FROM_API, FROM_HALL]),
                       Some([TO_DB]))

  function Shops(): Cluster {
    Cluster([WEB, API, OWN_API, DB, OTHER_DB, OTHER_WEB, NAMELESS],
            [Namespace("shop", map["team" := "y"]), Namespace("back", map["team" := "x"])], [SHOP])
  }

  lemma Members(pod: Pod)
    ensures pod in Shops().pods <==> pod in {WEB, API, OWN_API, DB, OTHER_DB, OTHER_WEB, NAMELESS}
  {
    var pods := Shops().pods;
    assert pods[0] == WEB && pods[1] == API && pods[2] == OWN_API && pods[3] == DB && pods[4] == OTHER_DB
        && pods[5] == OTHER_WEB && pods[6] == NAMELESS;
  }

  /** Only labels that are there with the wanted value are selected. */
  lemma SelectsOne(key: string, value: string, labels: Labels)
    ensures Selects(map[key := value], labels) <==> key in labels && labels[key] == value
  {
    assert key in map[key := value];
  }

  lemma TargetsOfShop(pod: Pod)
    ensures IsTarget(Shops(), SHOP, pod) <==> pod == WEB || pod == NAMELESS
  {
    Members(pod);
    SelectsOne("app", "web", pod.labels);
    hide Shops, Selects;
  }

  lemma TargetIsWeb(a: Addr)
    ensures TargetAddr(Shops(), SHOP, a) <==> a == 1
  {
    TargetsOfShop(WEB);
    TargetsOfShop(NAMELESS);
    forall pod
      ensures IsTarget(Shops(), SHOP, pod) <==> pod == WEB || pod == NAMELESS
    {
      TargetsOfShop(pod);
    }
    hide IsTarget;
  }

  lemma TeamX(name: string)
    ensures (exists n :: n in Shops().namespaces && n.name == name && Selects(map["team" := "x"], n.labels)) <==>
            name == "back"
  {
    var spaces := Shops().namespaces;
    assert spaces[0].name == "shop" && spaces[1].name == "back" && spaces[1] in spaces;
    SelectsOne("team", "x", spaces[0].labels);
    SelectsOne("team", "x", spaces[1].labels);
  }

  lemma PeersOfApi(pod: Pod)
    ensures IsPeer(Shops(), "shop", FROM_API.peers, pod) <==> pod == API
  {
    var peer := FROM_API.peers[0];
    assert peer in FROM_API.peers && forall x :: x in FROM_API.peers ==> x == peer;
    Members(pod);
    SelectsOne("app", "api", pod.labels);
    TeamX(pod.namespace);
    hide Shops, Selects;
  }

  lemma PeersOfDb(pod: Pod)
    ensures IsPeer(Shops(), "shop", TO_DB.peers, pod) <==> pod == DB
  {
    var peer := TO_DB.peers[0];
    assert peer in TO_DB.peers && forall x :: x in TO_DB.peers ==> x == peer;
    Members(pod);
    SelectsOne("app", "db", pod.labels);
    hide Shops, Selects;
  }

  lemma PeerAddresses(a: Addr)
    ensures PeerAddr(Shops(), "shop", FROM_API.peers, a) <==> a == 2
    ensures PeerAddr(Shops(), "shop", TO_DB.peers, a) <==> a == 4
    ensures !PeerAddr(Shops(), "shop", FROM_HALL.peers, a)
  {
    PeersOfApi(API);
    PeersOfDb(DB);
    forall pod
      ensures IsPeer(Shops(), "shop", FROM_API.peers, pod) <==> pod == API
      ensures IsPeer(Shops(), "shop", TO_DB.peers, pod) <==> pod == DB
      ensures !IsPeer(Shops(), "shop", FROM_HALL.peers, pod)
    {
      PeersOfApi(pod);
      PeersOfDb(pod);
    }
    hide IsPeer;
  }

  lemma Blocks(a: Addr)
    ensures BlocksOf(FROM_API.peers) == [] && BlocksOf(TO_DB.peers) == [] && BlocksOf(FROM_HALL.peers) == [HALL]
    ensures !BlocksAdmit([], a)
    ensures BlocksAdmit([HALL], a) <==> InNet(a, Net(0x0A00_0000, 8)) && !InNet(a, Net(0x0A01_0000, 16))
  {
    var peers := FROM_HALL.peers;
    assert peers[..0] == [] && BlocksOf(peers) == [HALL];
    assert BlocksOf([]) == [];
    hide InNet;
    assert ValidBlock(HALL);
    SingleBlock(peers, HALL, a);
    assert Net(0x0A01_0000, 16) in HALL.except;
  }

  lemma HttpOfWeb(p: Packet)
    requires p.dst == 1
    ensures PortAllowed(FROM_API.ports, Scope(Shops(), SHOP, Ingress, FROM_API), p) <==>
            p.proto == "tcp" && p.dport == "8080"
  {
    var scope, ps := Scope(Shops(), SHOP, Ingress, FROM_API), FROM_API.ports[0];
    assert ps in FROM_API.ports && forall x :: x in FROM_API.ports ==> x == ps;
    forall pod
      ensures pod in scope <==> pod == WEB || pod == NAMELESS
    {
      TargetsOfShop(pod);
    }
    hide Shops, IsTarget, Scope;
    var key := PortKey("http", p.proto, p.dport);
    assert WEB.ports[0] in WEB.ports;
    assert Offers(WEB, key, 1) <==> p.proto == "tcp" && p.dport == "8080";
    assert !Offers(NAMELESS, key, 1);
    assert NamedPortAt(scope, "http", p) <==> Offers(WEB, key, 1);
  }

  lemma PortsOfHall(scope: iset<Pod>, p: Packet)
    ensures PortAllowed(FROM_HALL.ports, scope, p) <==> (p.proto == "udp" && p.dport == "53") || p.proto == "sctp"
  {
    assert FROM_HALL.ports[0] in FROM_HALL.ports && FROM_HALL.ports[1] in FROM_HALL.ports;
  }

  lemma RulesOfShop(p: Packet)
    ensures SpecAllows(Shops(), SHOP, Ingress, FROM_API, p) <==>
            p.dst == 1 && p.src == 2 && p.proto == "tcp" && p.dport == "8080"
    ensures SpecAllows(Shops(), SHOP, Ingress, FROM_HALL, p) <==>
            && p.dst == 1 && InNet(p.src, Net(0x0A00_0000, 8)) && !InNet(p.src, Net(0x0A01_0000, 16))
            && ((p.proto == "udp" && p.dport == "53") || p.proto == "sctp")
    ensures SpecAllows(Shops(), SHOP, Egress, TO_DB, p) <==> p.src == 1 && p.dst == 4
  {
    TargetIsWeb(p.dst);
    TargetIsWeb(p.src);
    PeerAddresses(p.src);
    PeerAddresses(p.dst);
    Blocks(p.src);
    Blocks(p.dst);
    if p.dst == 1 {
      HttpOfWeb(p);
    }
    PortsOfHall(Scope(Shops(), SHOP, Ingress, FROM_HALL), p);
    assert PortAllowed(TO_DB.ports, Scope(Shops(), SHOP, Egress, TO_DB), p);
    hide TargetAddr, PeerAddr, BlocksAdmit, PortAllowed, InNet, Scope, BlocksOf, Shops;
  }

  /** What the policy says of a packet, in so many words. */
  predicate ShopAllows(p: Packet) {
    || (p.src == 2 && p.dst == 1 && p.proto == "tcp" && p.dport == "8080")
    || (&& p.dst == 1 && InNet(p.src, Net(0x0A00_0000, 8)) && !InNet(p.src, Net(0x0A01_0000, 16))
        && ((p.proto == "udp" && p.dport == "53") || p.proto == "sctp"))
    || (p.src == 1 && p.dst == 4)
  }

  lemma NothingUnresolved(dir: Direction, spec: RuleSpec)
    requires (dir == Ingress && (spec == FROM_API || spec == FROM_HALL)) || (dir == Egress && spec == TO_DB)
    ensures !Unresolved(Shops(), SHOP, dir, spec)
  {
    if spec == FROM_API {
      TargetsOfShop(WEB);
      assert WEB.ports[0] in WEB.ports && Exposes(WEB, "http", "tcp");
      assert FROM_API.ports[0] in FROM_API.ports && WEB in Scope(Shops(), SHOP, dir, spec);
    } else if spec == FROM_HALL {
      assert FROM_HALL.ports[0] in FROM_HALL.ports;
    }
  }

  lemma ShopRules(dir: Direction, spec: RuleSpec)
    ensures spec in RulesOf(SHOP, dir) <==>
            (dir == Ingress && (spec == FROM_API || spec == FROM_HALL)) || (dir == Egress && spec == TO_DB)
  {
    assert SHOP.ingress.value[0] == FROM_API && SHOP.ingress.value[1] == FROM_HALL && SHOP.egress.value[0] == TO_DB;
  }

  /** The policy lets through exactly what it says, for every packet. */
  lemma ShopPasses(p: Packet)
    ensures PolicyPasses(Shops(), SHOP, p) <==> ShopAllows(p)
    ensures PolicyAllows(Shops(), SHOP, p) <==> ShopAllows(p)
  {
    RulesOfShop(p);
    PolicyAllowsExactly(Shops(), SHOP, p);
    assert SHOP.ingress.value[0] == FROM_API && SHOP.ingress.value[1] == FROM_HALL && SHOP.egress.value[0] == TO_DB;
    forall dir, spec | spec in RulesOf(SHOP, dir)
      ensures !Unresolved(Shops(), SHOP, dir, spec)
    {
      ShopRules(dir, spec);
      NothingUnresolved(dir, spec);
    }
    hide SpecAllows, Unresolved, InNet, Shops, RulesOf, PolicyAllows;
  }

  /** On the node "node" it isolates the pod "web" of its namespace in both directions, and nothing else. */
  lemma ShopIsolates(dir: Direction, ip: Addr)
    ensures Isolated(Shops(), "node", dir, ip) <==> ip == 1
    ensures !Isolated(Shops(), "far", dir, ip)
  {
    var cl := Shops();
    TargetIsWeb(ip);
    Members(WEB);
    assert cl.policies[0] == SHOP && SHOP in cl.policies && forall pol :: pol in cl.policies ==> pol == SHOP;
    assert HasType(SHOP, dir) by {
      assert SHOP.types[0] == Ingress && SHOP.types[1] == Egress;
    }
    forall pod
      ensures pod in cl.pods && pod.ip == Some(1) ==> pod == WEB
    {
      Members(pod);
    }
    hide TargetAddr, HasType;
    if ip == 1 {
      assert Isolates(cl, "node", dir, 1, WEB, SHOP);
    }
  }

  // Two pods that share an address, as pods on the host network do.

  const GUEST := Pod("back", "guest", Some(7), "node", map[], [])
  const FAR_WEB := Pod("shop", "far", Some(7), "far", map["app" := "web"], [])

  /** A policy isolates an address only on a node where a pod of its own namespace has it. */
  lemma SharedAddress(dir: Direction)
    ensures var cl := Cluster([GUEST, FAR_WEB], [], [SHOP]);
            Isolated(cl, "far", dir, 7) && !Isolated(cl, "node", dir, 7)
  {
    var cl := Cluster([GUEST, FAR_WEB], [], [SHOP]);
    assert cl.pods[0] == GUEST && cl.pods[1] == FAR_WEB && FAR_WEB in cl.pods;
    assert cl.policies[0] == SHOP && SHOP in cl.policies && forall pol :: pol in cl.policies ==> pol == SHOP;
    assert SHOP.types[0] == Ingress && SHOP.types[1] == Egress;
    assert HasType(SHOP, dir);
    assert IsTarget(cl, SHOP, FAR_WEB) by {
      SelectsOne("app", "web", FAR_WEB.labels);
    }
    assert TargetAddr(cl, SHOP, 7);
    hide TargetAddr, HasType;
    assert Isolates(cl, "far", dir, 7, FAR_WEB, SHOP);
  }

  /** So once the policies are enforced, the chain of that pod decides every packet in these words. */
  lemma ShopVerdict(p: Packet)
    ensures Due(Shops(), 1, true, p) ==
            if p.established || (p.fromLocal && p.dst == 1) || ShopAllows(p) then Accepted else Rejected
  {
    var cl := Shops();
    TargetIsWeb(1);
    ShopPasses(p);
    assert cl.policies[0] == SHOP && SHOP in cl.policies && forall pol :: pol in cl.policies ==> pol == SHOP;
    hide TargetAddr, PolicyPasses, ShopAllows;
  }

  lemma SpecsValid()
    ensures ValidSpec(FROM_API) && ValidSpec(FROM_HALL) && ValidSpec(TO_DB)
  {
    assert ValidBlock(HALL);
  }

  /** The API accepts this policy, so that the results on enforcement are about it too. */
  lemma ShopValid()
    ensures ValidInput(Shops())
  {
    var cl := Shops();
    assert cl.policies[0] == SHOP && forall pol :: pol in cl.policies ==> pol == SHOP;
    forall dir, spec | spec in RulesOf(SHOP, dir)
      ensures ValidSpec(spec)
    {
      ShopRules(dir, spec);
      SpecsValid();
    }
    forall pod, c | pod in cl.pods && c in pod.ports
      ensures c.protocol != "" && c.port != ""
    {
      Members(pod);
    }
    hide ValidSpec, RulesOf;
  }
}
