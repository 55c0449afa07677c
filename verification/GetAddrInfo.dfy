/**
 `getaddrinfo` and `freeaddrinfo` of the resolver bridge (sections 6.1 of RFC 3493): the checks of the request and the
 chain of results. What the service and host look-ups answer comes from outside.
*/
module GetAddrInfo {
  import opened AddrInfo
  import opened Ipv4Text
  import opened Numerals
  import opened Sequences

  const AF_UNSPEC := 0
  const AF_INET := 2
  const SOCK_STREAM := 1
  const SOCK_DGRAM := 2
  const SOCK_RAW := 3
  const IPPROTO_TCP := 6
  const IPPROTO_UDP := 17

  /** The caller's hints; `otherFlags` says that a flag outside the allowed ones is set. */
  datatype Hints = Hints(
    family: int, socktype: int, protocol: int, passive: bool, canonname: bool, numericHost: bool, otherFlags: bool)

  datatype Request = Request(node: Option<string>, service: Option<string>, hints: Option<Hints>)

  const NO_HINTS := Hints(AF_UNSPEC, 0, 0, false, false, false, false)

  function HintsOf(r: Request): Hints { if r.hints.Some? then r.hints.value else NO_HINTS }

  datatype Status =
    | Success | BadPointer | HostNotFound | BadFlags | BadFamily | BadSocktype | ServiceNotFound | NoRecovery
    | ResolverError(code: int) | NoMemory

  /** What `gethostbyname` answers for the node. */
  datatype HostAnswer =
    | NoResolver
    | NoHost(error: int)
    | Host(family: int, length: int, addresses: seq<seq<nat>>, name: Option<string>)

  /** `port(p)`: what the service resolves to for protocol `p`. */
  datatype Answers = Answers(port: int -> Option<nat>, host: HostAnswer)

  datatype Variant = Variant(socktype: int, protocol: int, port: nat)

  // ----- what a request asks for -----

  /** The socket types and protocols that fit the hints, not yet with a port. */
  function Variants(socktype: int, protocol: int): seq<Variant> {
    if socktype == 0 then
      (if protocol == 0 || protocol == IPPROTO_TCP then [Variant(SOCK_STREAM, IPPROTO_TCP, 0)] else [])
      + (if protocol == 0 || protocol == IPPROTO_UDP then [Variant(SOCK_DGRAM, IPPROTO_UDP, 0)] else [])
    else
      [Variant(socktype,
        if protocol != 0 then protocol else if socktype == SOCK_STREAM then IPPROTO_TCP
        else if socktype == SOCK_DGRAM then IPPROTO_UDP else 0, 0)]
  }

  /**
   Every variant fits the hints, streams go with TCP and datagrams with UDP unless told otherwise, and none is left
   out.
  */
  lemma VariantsFit(socktype: int, protocol: int)
    ensures forall v :: v in Variants(socktype, protocol) ==>
      && (if socktype == 0 then v.socktype in {SOCK_STREAM, SOCK_DGRAM} else v.socktype == socktype)
      && (protocol != 0 ==> v.protocol == protocol)
      && (protocol == 0 && v.socktype == SOCK_STREAM ==> v.protocol == IPPROTO_TCP)
      && (protocol == 0 && v.socktype == SOCK_DGRAM ==> v.protocol == IPPROTO_UDP)
      && (protocol == 0 && v.socktype == SOCK_RAW ==> v.protocol == 0)
      && (socktype == 0 ==> (v.socktype == SOCK_STREAM <==> v.protocol == IPPROTO_TCP))
    ensures Variants(0, 0) == [Variant(SOCK_STREAM, IPPROTO_TCP, 0), Variant(SOCK_DGRAM, IPPROTO_UDP, 0)]
    ensures Variants(socktype, protocol) == [] <==> socktype == 0 && protocol !in {0, IPPROTO_TCP, IPPROTO_UDP}
    ensures |Variants(socktype, protocol)| > 1 <==> socktype == 0 && protocol == 0
  {
    var v := Variants(socktype, protocol);
    if socktype != 0 { assert |v| == 1; }
  }

  /** A result is what the hints ask for, with the protocol that goes with its socket type. */
  predicate Fits(info: Info, h: Hints) {
    && (if h.socktype == 0 then info.socktype in {SOCK_STREAM, SOCK_DGRAM} else info.socktype == h.socktype)
    && (h.protocol != 0 ==> info.protocol == h.protocol)
    && (h.protocol == 0 && info.socktype == SOCK_STREAM ==> info.protocol == IPPROTO_TCP)
    && (h.protocol == 0 && info.socktype == SOCK_DGRAM ==> info.protocol == IPPROTO_UDP)
    && (h.protocol == 0 && info.socktype == SOCK_RAW ==> info.protocol == 0)
    && (h.socktype == 0 ==> (info.socktype == SOCK_STREAM <==> info.protocol == IPPROTO_TCP))
  }

  function PortOf(service: Option<string>, a: Answers, protocol: int): Option<nat> {
    if service == None then Some(0) else a.port(protocol)
  }

  predicate AllPorts(v: seq<Variant>, service: Option<string>, a: Answers) {
    forall k :: 0 <= k < |v| ==> PortOf(service, a, v[k].protocol).Some?
  }

  function Ported(v: seq<Variant>, service: Option<string>, a: Answers): (r: seq<Variant>)
    requires AllPorts(v, service, a)
    ensures |r| == |v|
  {
    seq(|v|, k requires 0 <= k < |v| => v[k].(port := PortOf(service, a, v[k].protocol).value))
  }

  datatype Addresses = Refused(status: Status) | Found(addresses: seq<seq<nat>>, canonical: Option<string>)

  /** The addresses of the node and the name to report: none given, spelled out, or looked up. */
  function AddressesOf(r: Request, a: Answers): Addresses {
    var h := HintsOf(r);
    if r.node == None then Found([if h.passive then [0, 0, 0, 0] else [127, 0, 0, 1]], None)
    else if Parse(r.node.value, 4).Some? then
      Found([Parse(r.node.value, 4).value], if h.canonname then r.node else None)
    else if h.numericHost then Refused(HostNotFound)
    else match a.host
      case NoResolver => Refused(NoRecovery)
      case NoHost(error) => Refused(if error == 0 then HostNotFound else ResolverError(error))
      case Host(family, length, addresses, name) =>
        if family != AF_INET || length != 4 || addresses == [] then Refused(BadFamily)
        else Found(addresses, if !h.canonname then None else if name.Some? then name else r.node)
  }

  // ----- the results, in order -----

  function Row(address: seq<nat>, v: seq<Variant>, canonical: Option<string>): (r: seq<Info>)
    ensures |r| == |v|
  {
    seq(|v|, j requires 0 <= j < |v| =>
      Info(address, v[j].port, v[j].socktype, v[j].protocol, if j == 0 then canonical else None))
  }

  /** The rows of the first `n` addresses; only the very first row gets the canonical name. */
  function Rows(addresses: seq<seq<nat>>, v: seq<Variant>, canonical: Option<string>, n: nat): seq<Info>
    requires n <= |addresses|
  {
    if n == 0 then []
    else Rows(addresses, v, canonical, n - 1) + Row(addresses[n - 1], v, if n == 1 then canonical else None)
  }

  /** Address-major: the result for address `i` and variant `j` stands at `i * |v| + j`, and only result 0 is named. */
  lemma {:induction false} ProductAt(
    addresses: seq<seq<nat>>, v: seq<Variant>, canonical: Option<string>, n: nat, i: nat, j: nat)
    requires i < n <= |addresses| && j < |v|
    ensures |Rows(addresses, v, canonical, n)| == n * |v| && i * |v| + j < n * |v|
    ensures Rows(addresses, v, canonical, n)[i * |v| + j]
      == Info(addresses[i], v[j].port, v[j].socktype, v[j].protocol, if i == 0 && j == 0 then canonical else None)
  {
    RowsLength(addresses, v, canonical, n - 1);
    assert n * |v| == (n - 1) * |v| + |v|;
    if i < n - 1 { ProductAt(addresses, v, canonical, n - 1, i, j); }
  }

  lemma {:induction false} RowsLength(addresses: seq<seq<nat>>, v: seq<Variant>, canonical: Option<string>, n: nat)
    requires n <= |addresses|
    ensures |Rows(addresses, v, canonical, n)| == n * |v|
  {
    if n > 0 {
      RowsLength(addresses, v, canonical, n - 1);
      assert n * |v| == (n - 1) * |v| + |v|;
    }
  }

  /** What a request comes to, before any node is allocated. */
  datatype Plan = Fail(status: Status) | Build(infos: seq<Info>)

  function PlanOf(resultGiven: bool, r: Request, a: Answers): Plan {
    var h := HintsOf(r);
    var v := Variants(h.socktype, h.protocol);
    if !resultGiven then Fail(BadPointer)
    else if r.node == None && r.service == None then Fail(HostNotFound)
    else if h.otherFlags then Fail(BadFlags)
    else if h.family != AF_UNSPEC && h.family != AF_INET then Fail(BadFamily)
    else if h.socktype !in {0, SOCK_STREAM, SOCK_DGRAM, SOCK_RAW} then Fail(BadSocktype)
    else if v == [] then Fail(BadSocktype)
    else if !AllPorts(v, r.service, a) then Fail(ServiceNotFound)
    else match AddressesOf(r, a)
      case Refused(status) => Fail(status)
      case Found(addresses, canonical) =>
        Build(Rows(addresses, Ported(v, r.service, a), canonical, |addresses|))
  }

  lemma {:induction false} RowsFit(
    addresses: seq<seq<nat>>, v: seq<Variant>, canonical: Option<string>, n: nat, h: Hints)
    requires n <= |addresses|
    requires forall j :: 0 <= j < |v| ==> Fits(Info([], 0, v[j].socktype, v[j].protocol, None), h)
    ensures forall info :: info in Rows(addresses, v, canonical, n) ==> Fits(info, h)
  {
    if n > 0 { RowsFit(addresses, v, canonical, n - 1, h); }
  }

  /** Every planned result fits the hints, and there is at least one, or two for each address without any hint. */
  lemma PlanFits(resultGiven: bool, r: Request, a: Answers)
    requires PlanOf(resultGiven, r, a).Build?
    ensures var h, infos := HintsOf(r), PlanOf(resultGiven, r, a).infos;
      && (forall info :: info in infos ==> Fits(info, h))
      && AddressesOf(r, a).Found?
      && |infos| == |AddressesOf(r, a).addresses| * (if h.socktype == 0 && h.protocol == 0 then 2 else 1)
  {
    hide Rows, AddressesOf;
    var h := HintsOf(r);
    var v := Variants(h.socktype, h.protocol);
    VariantsFit(h.socktype, h.protocol);
    var ported := Ported(v, r.service, a);
    var Found(addresses, canonical) := AddressesOf(r, a);
    forall j | 0 <= j < |v| ensures Fits(Info([], 0, ported[j].socktype, ported[j].protocol, None), h) {
      assert v[j] in v && ported[j].socktype == v[j].socktype && ported[j].protocol == v[j].protocol;
    }
    RowsFit(addresses, ported, canonical, |addresses|, h);
    RowsLength(addresses, ported, canonical, |addresses|);
  }

  // ----- what a caller is promised -----

  /** The text is four dot-separated digit runs, each worth at most 255. */
  ghost predicate Spelled(text: string) {
    exists parts: seq<string> :: |parts| == 4 && Parts(parts) && text == Join(parts)
  }

  /** A pair of socket type and protocol that the hints ask for. */
  predicate Wanted(socktype: int, protocol: int, h: Hints) { Fits(Info([], 0, socktype, protocol, None), h) }

  /** Every wanted protocol has a port for the service, if there is one. */
  ghost predicate PortsKnown(r: Request, a: Answers) {
    r.service == None || forall s: int, p: int :: Wanted(s, p, HintsOf(r)) ==> a.port(p).Some?
  }

  predicate Named(r: Request) { r.node.Some? || r.service.Some? }

  predicate FamilyOk(h: Hints) { h.family == AF_UNSPEC || h.family == AF_INET }

  predicate SocktypeOk(h: Hints) {
    && h.socktype in {0, SOCK_STREAM, SOCK_DGRAM, SOCK_RAW}
    && (h.socktype == 0 ==> h.protocol in {0, IPPROTO_TCP, IPPROTO_UDP})
  }

  /** Everything about the request but its node is in order. */
  ghost predicate InOrder(resultGiven: bool, r: Request, a: Answers) {
    var h := HintsOf(r);
    resultGiven && Named(r) && !h.otherFlags && FamilyOk(h) && SocktypeOk(h) && PortsKnown(r, a)
  }

  /** The node has to be looked up, and may be. */
  ghost predicate LooksUp(r: Request) {
    r.node.Some? && !Spelled(r.node.value) && !HintsOf(r).numericHost
  }

  predicate Answered(host: HostAnswer) {
    host.Host? && host.family == AF_INET && host.length == 4 && host.addresses != []
  }

  ghost predicate Resolvable(resultGiven: bool, r: Request, a: Answers) {
    && InOrder(resultGiven, r, a)
    && (r.node == None || Spelled(r.node.value) || (LooksUp(r) && Answered(a.host)))
  }

  /** How many results each address gets. */
  function Width(h: Hints): nat { if h.socktype == 0 && h.protocol == 0 then 2 else 1 }

  /** How many results the request comes to. */
  ghost function Count(r: Request, a: Answers): nat {
    Width(HintsOf(r)) * if LooksUp(r) && a.host.Host? then |a.host.addresses| else 1
  }

  /** The name on the first result. */
  ghost predicate NameIs(name: Option<string>, r: Request, a: Answers) {
    if r.node == None || !HintsOf(r).canonname then name == None
    else if Spelled(r.node.value) then name == r.node
    else a.host.Host? && name == if a.host.name.Some? then a.host.name else r.node
  }

  /** The address of result `k`: no node, a spelled one, or the host's addresses in order. */
  ghost predicate AddressIs(address: seq<nat>, k: nat, r: Request, a: Answers) {
    if r.node == None then address == if HintsOf(r).passive then [0, 0, 0, 0] else [127, 0, 0, 1]
    else if Spelled(r.node.value) then
      exists parts: seq<string> ::
        |parts| == 4 && Parts(parts) && r.node.value == Join(parts) && address == Values(parts)
    else
      && a.host.Host? && k / Width(HintsOf(r)) < |a.host.addresses|
      && address == a.host.addresses[k / Width(HintsOf(r))]
  }

  /** The results a caller finds in the chain, in terms of what was asked and answered. */
  ghost predicate Promised(infos: seq<Info>, r: Request, a: Answers) {
    var h := HintsOf(r);
    && |infos| == Count(r, a) > 0
    && (forall k :: 0 <= k < |infos| ==>
      && Fits(infos[k], h) && AddressIs(infos[k].address, k, r, a)
      && (if r.service == None then infos[k].port == 0 else a.port(infos[k].protocol) == Some(infos[k].port))
      && (Width(h) == 2 ==> infos[k].socktype == if k % 2 == 0 then SOCK_STREAM else SOCK_DGRAM)
      && (k > 0 ==> infos[k].canonical == None))
    && NameIs(infos[0].canonical, r, a)
  }

  /** What each status says about the request, the answers and the memory. */
  ghost predicate Because(status: Status, resultGiven: bool, r: Request, a: Answers, memory: bool) {
    var h := HintsOf(r);
    match status
    case BadPointer => !resultGiven
    case BadFlags => resultGiven && Named(r) && h.otherFlags
    case BadSocktype => resultGiven && Named(r) && !h.otherFlags && FamilyOk(h) && !SocktypeOk(h)
    case ServiceNotFound =>
      resultGiven && Named(r) && !h.otherFlags && FamilyOk(h) && SocktypeOk(h) && !PortsKnown(r, a)
    case BadFamily =>
      || (resultGiven && Named(r) && !h.otherFlags && !FamilyOk(h))
      || (InOrder(resultGiven, r, a) && LooksUp(r) && a.host.Host? && !Answered(a.host))
    case HostNotFound =>
      || (resultGiven && !Named(r))
      || (InOrder(resultGiven, r, a) && r.node.Some? && !Spelled(r.node.value)
        && (h.numericHost || a.host == NoHost(0)))
    case NoRecovery => InOrder(resultGiven, r, a) && LooksUp(r) && a.host == NoResolver
    case ResolverError(code) => InOrder(resultGiven, r, a) && LooksUp(r) && a.host == NoHost(code) && code != 0
    case NoMemory => Resolvable(resultGiven, r, a) && !memory
    case Success => Resolvable(resultGiven, r, a) && memory
  }

  /** The statuses exclude one another. */
  lemma OneStatus(s: Status, t: Status, resultGiven: bool, r: Request, a: Answers, memory: bool)
    requires Because(s, resultGiven, r, a, memory) && Because(t, resultGiven, r, a, memory)
    ensures s == t
  {
    hide Spelled, PortsKnown;
  }

  lemma SpelledParses(text: string)
    ensures Spelled(text) <==> Parse(text, 4).Some?
    ensures forall parts: seq<string> :: |parts| == 4 && Parts(parts) && text == Join(parts) ==>
      Parse(text, 4) == Some(Values(parts))
  {
    hide Parse, Parts, Join, Values;
    forall parts: seq<string> | |parts| == 4 && Parts(parts) && text == Join(parts)
      ensures Parse(text, 4) == Some(Values(parts))
    {
      ParseAccepts(parts);
    }
    if Parse(text, 4).Some? {
      var parts := ParseSpells(text, 4);
    }
  }

  lemma ParsedAddress(r: Request, a: Answers, k: nat)
    requires r.node.Some? && Spelled(r.node.value)
    ensures Parse(r.node.value, 4).Some? && AddressIs(Parse(r.node.value, 4).value, k, r, a)
  {
    hide Parse, Parts, Join, Values;
    SpelledParses(r.node.value);
    var parts: seq<string> :| |parts| == 4 && Parts(parts) && r.node.value == Join(parts);
  }

  /** The variants are the wanted pairs, so their ports are known exactly when all wanted ones are. */
  lemma PortsAreKnown(r: Request, a: Answers)
    requires SocktypeOk(HintsOf(r))
    ensures AllPorts(Variants(HintsOf(r).socktype, HintsOf(r).protocol), r.service, a) <==> PortsKnown(r, a)
  {
    var h := HintsOf(r);
    var v := Variants(h.socktype, h.protocol);
    forall k | 0 <= k < |v| ensures Wanted(v[k].socktype, v[k].protocol, h) {}
    forall s: int, p: int | Wanted(s, p, h) ensures exists k :: 0 <= k < |v| && v[k].protocol == p {
      assert v[0].protocol == p || (|v| == 2 && v[1].protocol == p);
    }
  }

  /** The plan is what is promised, and it fails for the reasons listed. */
  lemma PlanExplained(resultGiven: bool, r: Request, a: Answers, memory: bool)
    ensures match PlanOf(resultGiven, r, a)
      case Fail(status) => Because(status, resultGiven, r, a, memory)
      case Build(infos) => Resolvable(resultGiven, r, a) && Promised(infos, r, a)
  {
    hide Spelled, PortsKnown, AllPorts, Ported, Parse, Rows, Promised, Variants;
    var h := HintsOf(r);
    VariantsFit(h.socktype, h.protocol);
    if SocktypeOk(h) { PortsAreKnown(r, a); }
    if r.node.Some? { SpelledParses(r.node.value); }
    if PlanOf(resultGiven, r, a).Build? { PlanPromises(resultGiven, r, a); }
  }

  lemma PlanPromises(resultGiven: bool, r: Request, a: Answers)
    requires PlanOf(resultGiven, r, a).Build?
    ensures Promised(PlanOf(resultGiven, r, a).infos, r, a)
  {
    hide Spelled, Parse, Rows, NameIs, AddressIs, Count, AddressesOf, Fits;
    var h, infos := HintsOf(r), PlanOf(resultGiven, r, a).infos;
    var Found(addresses, canonical) := AddressesOf(r, a);
    PlanFits(resultGiven, r, a);
    AddressesPromised(r, a);
    forall k | 0 <= k < |infos| { ResultIs(resultGiven, r, a, k); }
  }

  /** Result `k` of the plan, by its row and column. */
  lemma ResultIs(resultGiven: bool, r: Request, a: Answers, k: nat)
    requires PlanOf(resultGiven, r, a).Build? && k < |PlanOf(resultGiven, r, a).infos|
    ensures AddressesOf(r, a).Found?
    ensures var info, w := PlanOf(resultGiven, r, a).infos[k], Width(HintsOf(r));
      var Found(addresses, canonical) := AddressesOf(r, a);
      && k / w < |addresses| && info.address == addresses[k / w]
      && info.canonical == (if k == 0 then canonical else None)
      && (if r.service == None then info.port == 0 else a.port(info.protocol) == Some(info.port))
      && (w == 2 ==> info.socktype == if k % 2 == 0 then SOCK_STREAM else SOCK_DGRAM)
  {
    hide Parse, Rows, AddressesOf;
    var h := HintsOf(r);
    var Found(addresses, canonical) := AddressesOf(r, a);
    var v := Variants(h.socktype, h.protocol);
    var ported := Ported(v, r.service, a);
    VariantsFit(h.socktype, h.protocol);
    PlanFits(resultGiven, r, a);
    hide Variants;
    RowColumn(k, |addresses|, |v|);
    ProductAt(addresses, ported, canonical, |addresses|, k / |v|, k % |v|);
  }

  /** Row and column of a place in the product. */
  lemma RowColumn(k: nat, n: nat, width: nat)
    requires 0 < width <= 2 && k < n * width
    ensures k / width < n && k % width < width && k / width * width + k % width == k
    ensures k / width == 0 && k % width == 0 <==> k == 0
  {
  }

  lemma AddressesPromised(r: Request, a: Answers)
    requires AddressesOf(r, a).Found?
    ensures var Found(addresses, canonical) := AddressesOf(r, a);
      && Count(r, a) == Width(HintsOf(r)) * |addresses| && addresses != [] && NameIs(canonical, r, a)
      && forall k: nat :: k / Width(HintsOf(r)) < |addresses| ==>
        AddressIs(addresses[k / Width(HintsOf(r))], k, r, a)
  {
    hide Spelled, Parse;
    var Found(addresses, canonical) := AddressesOf(r, a);
    if r.node.Some? { SpelledParses(r.node.value); }
    forall k: nat | k / Width(HintsOf(r)) < |addresses|
      ensures AddressIs(addresses[k / Width(HintsOf(r))], k, r, a)
    {
      if r.node.Some? && Spelled(r.node.value) { ParsedAddress(r, a, k); }
    }
  }

  // ----- the loops -----

  method ResolvePorts(v: seq<Variant>, service: Option<string>, a: Answers) returns (r: Option<seq<Variant>>)
    ensures r == if AllPorts(v, service, a) then Some(Ported(v, service, a)) else None
  {
    var ported: seq<Variant> := [];
    for k := 0 to |v|
      invariant forall j :: 0 <= j < k ==> PortOf(service, a, v[j].protocol).Some?
      invariant |ported| == k
      invariant forall j :: 0 <= j < k ==> ported[j] == v[j].(port := PortOf(service, a, v[j].protocol).value)
    {
      var port := PortOf(service, a, v[k].protocol);
      if port == None { return None; }
      ported := ported + [v[k].(port := port.value)];
    }
    assert ported == Ported(v, service, a);
    return Some(ported);
  }

  /** Every allocation for the first `n` results is granted. */
  ghost predicate Granted(grants: nat -> bool, from: nat, n: nat) {
    forall k :: from <= k < from + n ==> grants(k)
  }

  /** The state of the two loops: `nodes` are chained up, live, new to the heap, and all that was asked for. */
  ghost predicate Building(heap: Heap, head: Node?, tail: Node?, nodes: seq<Node>, live: set<Node>, asked: nat)
    reads heap, nodes
  {
    && Chain(head, nodes) && tail == (if nodes == [] then null else nodes[|nodes| - 1])
    && heap.live == live + Elements(nodes) && Elements(nodes) !! live
    && heap.asked == asked + |nodes| && Granted(heap.grants, asked, |nodes|)
  }

  lemma InfosSnoc(nodes: seq<Node>, more: seq<Node>)
    requires |more| == |nodes| + 1 && more[..|nodes|] == nodes
    ensures Infos(more) == Infos(nodes) + [more[|nodes|].info]
    ensures Elements(more) == Elements(nodes) + {more[|nodes|]}
    ensures forall n :: n in more ==> n in nodes || n == more[|nodes|]
  {
    assert more == nodes + [more[|nodes|]];
    assert Infos(more)[..|nodes|] == Infos(nodes);
  }

  /** One more result at the end of the chain, or nothing left of the chain at all. */
  method AppendOrUndo(
    heap: Heap, head: Node?, tail: Node?, info: Info, ghost nodes: seq<Node>, ghost live: set<Node>, ghost asked: nat)
    returns (ok: bool, head': Node?, tail': Node?, ghost nodes': seq<Node>)
    requires Building(heap, head, tail, nodes, live, asked)
    modifies heap`live, heap`asked, tail
    ensures ok == heap.grants(asked + |nodes|)
    ensures ok ==> Building(heap, head', tail', nodes', live, asked) && Infos(nodes') == Infos(nodes) + [info]
    ensures ok ==> forall n :: n in nodes' ==> n in nodes || fresh(n)
    ensures !ok ==> head' == null && nodes' == [] && heap.live == live
  {
    hide Chain, Infos;
    ok, head', tail', nodes' := AppendResult(heap, head, tail, info, nodes);
    if !ok {
      FreeAddrinfoChain(heap, head', nodes');
      return false, null, null, [];
    }
    InfosSnoc(nodes, nodes');
  }

  /** The nested loops over addresses and variants. A refused allocation undoes the whole chain. */
  method BuildChain(heap: Heap, addresses: seq<seq<nat>>, v: seq<Variant>, name: Option<string>)
    returns (ok: bool, head: Node?, ghost nodes: seq<Node>)
    modifies heap`live, heap`asked
    ensures ok <==> Granted(heap.grants, old(heap.asked), |addresses| * |v|)
    ensures ok ==> Chain(head, nodes) && Infos(nodes) == Rows(addresses, v, name, |addresses|)
    ensures ok ==> heap.live == old(heap.live) + Elements(nodes) && Elements(nodes) !! old(heap.live)
    ensures !ok ==> head == null && heap.live == old(heap.live)
  {
    hide Chain, Infos, Row, Building;
    ghost var live, asked := heap.live, heap.asked;
    var tail: Node? := null;
    head, nodes := null, [];
    NothingBuilt(heap);
    for i := 0 to |addresses|
      invariant Building(heap, head, tail, nodes, live, asked)
      invariant forall n :: n in nodes ==> fresh(n)
      invariant Infos(nodes) == Rows(addresses, v, name, i)
    {
      var canonical := if i == 0 then name else None;
      ghost var row := Row(addresses[i], v, canonical);
      for j := 0 to |v|
        invariant Building(heap, head, tail, nodes, live, asked)
        invariant forall n :: n in nodes ==> fresh(n)
        invariant Infos(nodes) == Rows(addresses, v, name, i) + row[..j]
        invariant canonical == if i == 0 && j == 0 then name else None
      {
        var info := Info(addresses[i], v[j].port, v[j].socktype, v[j].protocol, canonical);
        assert row[j] == info by { RowAt(addresses[i], v, if i == 0 then name else None, j); }
        StillEarlier(addresses, v, name, i, j, nodes);
        BuiltSoFar(heap, head, tail, nodes, live, asked);
        ok, head, tail, nodes := AppendOrUndo(heap, head, tail, info, nodes, live, asked);
        if !ok { return; }
        assert row[..j + 1] == row[..j] + [row[j]];
        canonical := None;
      }
      assert row[..|v|] == row;
    }
    RowsLength(addresses, v, name, |addresses|);
    BuiltSoFar(heap, head, tail, nodes, live, asked);
    ok := true;
  }

  /** Before its last node the chain is shorter than the whole product. */
  lemma StillEarlier(
    addresses: seq<seq<nat>>, v: seq<Variant>, name: Option<string>, i: nat, j: nat, nodes: seq<Node>)
    requires i < |addresses| && j < |v|
    requires |Infos(nodes)| == |Rows(addresses, v, name, i)| + j
    ensures |nodes| < |addresses| * |v|
  {
    RowsLength(addresses, v, name, i);
    EarlierEnd(i, j, |addresses|, |v|);
  }

  lemma NothingBuilt(heap: Heap)
    ensures Building(heap, null, null, [], heap.live, heap.asked) && Infos([]) == []
  {
  }

  lemma BuiltSoFar(heap: Heap, head: Node?, tail: Node?, nodes: seq<Node>, live: set<Node>, asked: nat)
    requires Building(heap, head, tail, nodes, live, asked)
    ensures Chain(head, nodes) && (tail != null ==> tail in nodes) && |Infos(nodes)| == |nodes|
    ensures heap.live == live + Elements(nodes) && Elements(nodes) !! live
    ensures Granted(heap.grants, asked, |nodes|)
  {
  }

  lemma RowAt(address: seq<nat>, v: seq<Variant>, canonical: Option<string>, j: nat)
    requires j < |v|
    ensures Row(address, v, canonical)[j]
      == Info(address, v[j].port, v[j].socktype, v[j].protocol, if j == 0 then canonical else None)
  {
  }

  lemma EarlierEnd(i: nat, j: nat, n: nat, width: nat)
    requires i < n && j < width
    ensures i * width + j < n * width
  {
    assert n * width == i * width + (n - i) * width;
    assert (n - i) * width >= width by { AtLeastOnce(n - i, width); }
  }

  lemma AtLeastOnce(k: nat, width: nat)
    requires k >= 1
    ensures k * width >= width
  {
  }

  /**
   `getaddrinfo`. Each status is returned for its own reasons and no other, success exactly when the request can be
   resolved and every allocation is granted. Then the chain lists the promised results in order and is all that was
   added to the heap; otherwise the result is null and the heap holds what it held.
  */
  method GetAddrInfo(heap: Heap, resultGiven: bool, r: Request, a: Answers)
    returns (status: Status, result: Node?, ghost nodes: seq<Node>)
    requires r.node.Some? ==> '\0' !in r.node.value
    modifies heap`live, heap`asked
    ensures status == Success <==>
      PlanOf(resultGiven, r, a).Build? && Granted(heap.grants, old(heap.asked), |PlanOf(resultGiven, r, a).infos|)
    ensures status == Success ==>
      Chain(result, nodes) && Infos(nodes) == PlanOf(resultGiven, r, a).infos && result != null
      && heap.live == old(heap.live) + Elements(nodes) && Elements(nodes) !! old(heap.live)
    ensures status == Success ==> Promised(Infos(nodes), r, a)
    ensures forall s: Status ::
      status == s <==> Because(s, resultGiven, r, a, Granted(heap.grants, old(heap.asked), Count(r, a)))
    ensures status != Success ==> result == null && heap.live == old(heap.live)
    ensures status != Success ==> status == match PlanOf(resultGiven, r, a)
      case Fail(why) => why
      case Build(_) => NoMemory
  {
    hide Chain, Infos, Rows, Row, Parse, Ported, AllPorts, Variants, Granted, Because, Promised, Count;
    StatusExplained(resultGiven, r, a, Granted(heap.grants, heap.asked, Count(r, a)));
    result, nodes := null, [];
    if !resultGiven { return BadPointer, null, []; }
    if r.node == None && r.service == None { return HostNotFound, null, []; }
    var h := HintsOf(r);
    if h.otherFlags { return BadFlags, null, []; }
    if h.family != AF_UNSPEC && h.family != AF_INET { return BadFamily, null, []; }
    if h.socktype !in {0, SOCK_STREAM, SOCK_DGRAM, SOCK_RAW} { return BadSocktype, null, []; }
    var variants := Variants(h.socktype, h.protocol);
    if variants == [] { return BadSocktype, null, []; }
    var ported := ResolvePorts(variants, r.service, a);
    if ported == None { return ServiceNotFound, null, []; }
    var addresses: seq<seq<nat>> := [[if h.passive then 0 else 127, 0, 0, if h.passive then 0 else 1]];
    var canonical := None;
    if r.node.Some? {
      var numeric := ParseIpv4(r.node);
      if numeric.Some? {
        addresses, canonical := [numeric.value], if h.canonname then r.node else None;
      } else if h.numericHost {
        return HostNotFound, null, [];
      } else {
        match a.host
        case NoResolver => return NoRecovery, null, [];
        case NoHost(error) => return if error == 0 then HostNotFound else ResolverError(error), null, [];
        case Host(family, length, found, name) =>
          if family != AF_INET || length != 4 || found == [] { return BadFamily, null, []; }
          addresses := found;
          canonical := if !h.canonname then None else if name.Some? then name else r.node;
      }
    }
    RowsLength(addresses, ported.value, canonical, |addresses|);
    var ok, head, chain := BuildChain(heap, addresses, ported.value, canonical);
    if !ok { return NoMemory, null, []; }
    assert |chain| > 0 by { InfosLength(chain); EarlierEnd(0, 0, |addresses|, |ported.value|); }
    HeadIsFirst(head, chain);
    return Success, head, chain;
  }

  /** The plan and the memory settle which status is the one explained. */
  lemma StatusExplained(resultGiven: bool, r: Request, a: Answers, memory: bool)
    ensures var status := match PlanOf(resultGiven, r, a)
        case Fail(why) => why
        case Build(_) => if memory then Success else NoMemory;
      forall s: Status :: s == status <==> Because(s, resultGiven, r, a, memory)
    ensures match PlanOf(resultGiven, r, a)
      case Fail(why) => why != Success && why != NoMemory
      case Build(infos) => Promised(infos, r, a) && |infos| == Count(r, a)
  {
    hide Because, PlanOf, Promised;
    PlanExplained(resultGiven, r, a, memory);
    var plan := PlanOf(resultGiven, r, a);
    var status := match plan
      case Fail(why) => why
      case Build(_) => if memory then Success else NoMemory;
    PlanStatus(resultGiven, r, a, memory);
    forall s: Status ensures s == status <==> Because(s, resultGiven, r, a, memory) {
      if Because(s, resultGiven, r, a, memory) { OneStatus(s, status, resultGiven, r, a, memory); }
    }
  }

  lemma PlanStatus(resultGiven: bool, r: Request, a: Answers, memory: bool)
    ensures match PlanOf(resultGiven, r, a)
      case Fail(why) => why != Success && why != NoMemory
      case Build(infos) =>
        && (Promised(infos, r, a) ==> |infos| == Count(r, a))
        && (Resolvable(resultGiven, r, a) ==>
          Because(if memory then Success else NoMemory, resultGiven, r, a, memory))
  {
    hide Resolvable, AllPorts, Rows, Ported, Variants, Parse;
  }

  lemma InfosLength(nodes: seq<Node>)
    ensures |Infos(nodes)| == |nodes|
  {
  }

  lemma HeadIsFirst(head: Node?, nodes: seq<Node>)
    requires Chain(head, nodes)
    ensures head == if nodes == [] then null else nodes[0]
  {
  }

  /** `freeaddrinfo` on what `getaddrinfo` returned takes exactly its nodes off the heap. */
  method FreeAddrInfo(heap: Heap, result: Node?, ghost nodes: seq<Node>)
    requires Chain(result, nodes) && Elements(nodes) <= heap.live
    modifies heap`live
    ensures heap.live == old(heap.live) - Elements(nodes)
  {
    FreeAddrinfoChain(heap, result, nodes);
  }
}
