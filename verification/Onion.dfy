/** Onion circuits: choosing the hops, packing a request in nested layers, and the relays that peel them
    (backend/network/onion.py:54-157, backend/api/routes.py:537-599). */
module Onion {
  import opened Seqs
  import B = SealedBoxes

  datatype Endpoint = Endpoint(ip: string, port: int)

  datatype Hop = Hop(id: string, endpoint: Endpoint, key: int)

  /** The inner request: an operation and a chunk hash. */
  datatype Request = Request(op: string, chunkHash: string)

  /** A layer's JSON object. A missing `next_hop` reads like an empty one; `payload` is the decoded hex
      field. */
  datatype Layer = Layer(nextHop: string, endpoint: Option<Endpoint>, payload: Option<Bytes>, request: Option<Request>)

  /** `json.dumps(...).encode()` and `json.loads(....decode())`. */
  datatype Json = Json(dumps: Layer -> Bytes, loads: Bytes -> Option<Layer>)

  ghost predicate JsonContract(j: Json) {
    (forall layer :: RoundTrips(j, layer)) && (forall text :: HexFits(j, text))
  }

  predicate RoundTrips(j: Json, layer: Layer) {
    j.loads(j.dumps(layer)) == Some(layer)
  }

  /** A payload takes two characters of the text for every byte. */
  predicate HexFits(j: Json, text: Bytes) {
    j.loads(text).Some? && j.loads(text).value.payload.Some? ==> 2 * |j.loads(text).value.payload.value| <= |text|
  }

  // ---------------------------------------------------------------- pick_circuit

  datatype Peer = Peer(id: string, endpoint: Endpoint, key: Option<int>)

  function FindPeer(peers: seq<Peer>, id: string): Option<Peer> {
    if |peers| == 0 then None else if peers[0].id == id then Some(peers[0]) else FindPeer(peers[1..], id)
  }

  function Eligible(peers: seq<Peer>, me: string, holder: string): seq<Peer> {
    if |peers| == 0 then []
    else
      var p := peers[0];
      (if p.id != me && p.id != holder && p.key.Some? then [p] else []) + Eligible(peers[1..], me, holder)
  }

  predicate DistinctIds(peers: seq<Peer>) {
    forall i, j :: 0 <= i < j < |peers| ==> peers[i].id != peers[j].id
  }

  lemma {:induction false} EligibleSpec(peers: seq<Peer>, me: string, holder: string)
    ensures forall p :: p in Eligible(peers, me, holder) <==> p in peers && p.id != me && p.id != holder && p.key.Some?
    ensures DistinctIds(peers) ==> DistinctIds(Eligible(peers, me, holder))
  {
    if |peers| > 0 {
      EligibleSpec(peers[1..], me, holder);
      assert peers == [peers[0]] + peers[1..];
      if DistinctIds(peers) {
        var rest := Eligible(peers[1..], me, holder);
        forall i | 0 <= i < |rest| ensures rest[i].id != peers[0].id {
          assert rest[i] in peers[1..];
          var k :| 0 <= k < |peers[1..]| && peers[1..][k] == rest[i];
          assert peers[k + 1] == rest[i];
        }
      }
    }
  }

  /** A peer is found exactly when there is one of that id, and then it is the first of them. */
  lemma {:induction false} FindPeerSpec(peers: seq<Peer>, id: string)
    ensures FindPeer(peers, id).Some? <==> exists p :: p in peers && p.id == id
    ensures FindPeer(peers, id).Some? ==> FindPeer(peers, id).value in peers && FindPeer(peers, id).value.id == id
    ensures forall i :: 0 <= i < |peers| && peers[i].id == id && (forall j :: 0 <= j < i ==> peers[j].id != id) ==>
              FindPeer(peers, id) == Some(peers[i])
  {
    if |peers| > 0 && peers[0].id != id {
      var rest := peers[1..];
      FindPeerSpec(rest, id);
      assert peers == [peers[0]] + rest;
      forall i | 0 <= i < |peers| && peers[i].id == id && (forall j :: 0 <= j < i ==> peers[j].id != id)
        ensures FindPeer(peers, id) == Some(peers[i])
      {
        assert rest[i - 1] == peers[i];
        forall j | 0 <= j < i - 1 ensures rest[j].id != id {
          assert rest[j] == peers[j + 1];
        }
      }
    }
  }

  /** The positions `random.sample` draws: as many as asked, each once. */
  predicate Sample(drawn: seq<nat>, population: nat, count: nat) {
    |drawn| == count && Distinct(drawn) && forall i :: 0 <= i < |drawn| ==> drawn[i] < population
  }

  function HopOf(p: Peer): Hop
    requires p.key.Some?
  {
    Hop(p.id, p.endpoint, p.key.value)
  }

  predicate DistinctHops(hops: seq<Hop>) {
    forall i, j :: 0 <= i < j < |hops| ==> hops[i].id != hops[j].id
  }

  predicate FromPeers(hops: seq<Hop>, peers: seq<Peer>) {
    forall i :: 0 <= i < |hops| ==> Peer(hops[i].id, hops[i].endpoint, Some(hops[i].key)) in peers
  }

  /** The hops are the drawn peers, in the order drawn. */
  predicate Drawn(eligible: seq<Peer>, drawn: seq<nat>, hops: seq<Hop>) {
    && |hops| == |drawn|
    && forall i :: 0 <= i < |drawn| ==> drawn[i] < |eligible| && eligible[drawn[i]].key.Some? && hops[i] == HopOf(eligible[drawn[i]])
  }

  /** `peers` are the entries of a dictionary, so their ids differ. `sample(population, count)` is
      what `random.sample` draws, for any count within the population. */
  method PickCircuit(holder: string, peers: seq<Peer>, me: string, hops: int, sample: (nat, nat) -> seq<nat>)
    returns (r: Result<seq<Hop>>)
    requires DistinctIds(peers)
    requires forall population: nat, count: nat :: count <= population ==> Sample(sample(population, count), population, count)
    ensures r.Err? <==> FindPeer(peers, holder).None? || FindPeer(peers, holder).value.key.None? || hops < 0
    ensures r.Ok? ==>
      var eligible := |Eligible(peers, me, holder)|;
      var relays := if hops <= eligible then hops else eligible;
      && |r.value| == relays + 1
      && r.value[relays].id == holder
      && DistinctHops(r.value) && FromPeers(r.value, peers)
      && (forall i :: 0 <= i < relays ==> r.value[i].id != me && r.value[i].id != holder)
      && Drawn(Eligible(peers, me, holder), sample(eligible, relays), r.value[..relays])
  {
    var found := FindPeer(peers, holder);
    FindPeerSpec(peers, holder);
    if found.None? || found.value.key.None? {
      return Err("holder has no known key");
    }
    var eligible := Eligible(peers, me, holder);
    EligibleSpec(peers, me, holder);
    var count := if hops <= |eligible| then hops else |eligible|;
    if count < 0 {
      return Err("negative sample");
    }
    var drawn := sample(|eligible|, count);
    assert Sample(drawn, |eligible|, count);
    var circuit: seq<Hop> := [];
    for i := 0 to |drawn|
      invariant |circuit| == i
      invariant forall j :: 0 <= j < i ==> eligible[drawn[j]].key.Some? && circuit[j] == HopOf(eligible[drawn[j]])
    {
      assert eligible[drawn[i]] in eligible;
      circuit := circuit + [HopOf(eligible[drawn[i]])];
    }
    RelaysAreSound(peers, me, holder, drawn, circuit);
    var h := found.value;
    assert h == Peer(h.id, h.endpoint, Some(h.key.value));
    assert Drawn(eligible, drawn, circuit);
    assert (circuit + [HopOf(h)])[..|drawn|] == circuit;
    circuit := circuit + [HopOf(h)];
    return Ok(circuit);
  }

  lemma RelaysAreSound(peers: seq<Peer>, me: string, holder: string, drawn: seq<nat>, circuit: seq<Hop>)
    requires DistinctIds(peers) && |circuit| == |drawn|
    requires var eligible := Eligible(peers, me, holder);
             && Distinct(drawn) && (forall i :: 0 <= i < |drawn| ==> drawn[i] < |eligible|)
             && forall j :: 0 <= j < |drawn| ==> eligible[drawn[j]].key.Some? && circuit[j] == HopOf(eligible[drawn[j]])
    ensures DistinctHops(circuit) && FromPeers(circuit, peers)
    ensures forall i :: 0 <= i < |circuit| ==> circuit[i].id != me && circuit[i].id != holder
  {
    var eligible := Eligible(peers, me, holder);
    EligibleSpec(peers, me, holder);
    forall i | 0 <= i < |circuit|
      ensures circuit[i].id != me && circuit[i].id != holder
      ensures Peer(circuit[i].id, circuit[i].endpoint, Some(circuit[i].key)) in peers
    {
      var p := eligible[drawn[i]];
      assert p in eligible;
      assert p == Peer(p.id, p.endpoint, Some(p.key.value));
    }
    forall i, j | 0 <= i < j < |circuit| ensures circuit[i].id != circuit[j].id {
      assert drawn[i] != drawn[j];
    }
  }

  // ---------------------------------------------------------------- pack_circuit, peel_layer

  /** The libraries. */
  datatype Libs = Libs(box: B.Box, json: Json)

  ghost predicate Contract(l: Libs) {
    B.Contract(l.box) && JsonContract(l.json)
  }

  function Inner(l: Libs, hop: Hop, request: Request, coin: nat): Bytes {
    l.box.seal(hop.key, l.json.dumps(Layer("", None, None, Some(request))), coin)
  }

  function Wrap(l: Libs, hop: Hop, next: Hop, layer: Bytes, coin: nat): Bytes {
    l.box.seal(hop.key, l.json.dumps(Layer(next.id, Some(next.endpoint), Some(layer), None)), coin)
  }

  /** The layer addressed to hop i. */
  function PackedFrom(l: Libs, circuit: seq<Hop>, request: Request, coins: nat -> nat, i: nat): Bytes
    requires i < |circuit|
    decreases |circuit| - i
  {
    if i == |circuit| - 1 then Inner(l, circuit[i], request, coins(i))
    else Wrap(l, circuit[i], circuit[i + 1], PackedFrom(l, circuit, request, coins, i + 1), coins(i))
  }

  method PackCircuit(l: Libs, circuit: seq<Hop>, request: Request, coins: nat -> nat) returns (r: Result<Bytes>)
    ensures r == if circuit == [] then Err("empty circuit") else Ok(PackedFrom(l, circuit, request, coins, 0))
  {
    if circuit == [] {
      return Err("empty circuit");
    }
    var i := |circuit| - 1;
    var layer := Inner(l, circuit[i], request, coins(i));
    while i > 0
      invariant 0 <= i < |circuit|
      invariant layer == PackedFrom(l, circuit, request, coins, i)
    {
      i := i - 1;
      layer := Wrap(l, circuit[i], circuit[i + 1], layer, coins(i));
    }
    return Ok(layer);
  }

  /** None where opening, parsing or the hex decoding of a forward layer raises. */
  function PeelLayer(l: Libs, priv: int, ciphertext: Bytes): Option<Layer> {
    var plain := l.box.open(priv, ciphertext);
    if plain.None? then None
    else
      var layer := l.json.loads(plain.value);
      if layer.Some? && layer.value.nextHop != "" && layer.value.payload.None? then None else layer
  }

  /** Whatever was received, a payload inside it is at most half as long, less one. */
  lemma PayloadShrinks(l: Libs, priv: int, body: Bytes)
    requires Contract(l)
    ensures var layer := PeelLayer(l, priv, body);
            layer.Some? && layer.value.payload.Some? ==> 2 * |layer.value.payload.value| + 1 <= |body|
  {
    assert B.Shorter(l.box, priv, body);
    var plain := l.box.open(priv, body);
    if plain.Some? {
      assert HexFits(l.json, plain.value);
    }
  }

  // ---------------------------------------------------------------- the relays

  /** The nodes: their private keys, who listens at an endpoint (None: the connection fails), and their
      stored chunks. */
  datatype Net = Net(priv: string -> int, listens: Endpoint -> Option<string>, chunk: (string, string) -> Option<Bytes>)

  datatype Response = Response(status: int, content: Bytes)

  function Execute(net: Net, node: string, request: Option<Request>): Response {
    if request.None? || request.value.op != "fetch_chunk" then Response(400, [])
    else
      var data := net.chunk(node, request.value.chunkHash);
      if data.None? then Response(404, []) else Response(200, data.value)
  }

  /** The nodes that receive a body, in order, and the response that flows back. */
  datatype Journey = Journey(visited: seq<string>, response: Response)

  /** What happens when `body` is posted to the /relay endpoint of `node`. Defined for every body: each
      forwarded payload is strictly shorter, so even circuits with repeated hops end. */
  function Relay(l: Libs, net: Net, node: string, body: Bytes): (j: Journey)
    requires Contract(l)
    ensures |j.visited| > 0 && j.visited[0] == node
    decreases |body|
  {
    if |body| == 0 then Journey([node], Response(400, []))
    else
      var layer := PeelLayer(l, net.priv(node), body);
      if layer.None? then Journey([node], Response(400, []))
      else if layer.value.nextHop == "" then Journey([node], Execute(net, node, layer.value.request))
      else if layer.value.endpoint.None? then Journey([node], Response(400, []))
      else
        var next := net.listens(layer.value.endpoint.value);
        if next.None? then Journey([node], Response(502, []))
        else
          PayloadShrinks(l, net.priv(node), body);
          var rest := Relay(l, net, next.value, layer.value.payload.value);
          Journey([node] + rest.visited, rest.response)
  }

  /** A body the node cannot use: empty, not sealed to it, no layer, or a forward layer without endpoint or payload. */
  predicate Unusable(l: Libs, net: Net, node: string, body: Bytes) {
    || body == []
    || l.box.open(net.priv(node), body) == None
    || l.json.loads(l.box.open(net.priv(node), body).value) == None
    || var layer := l.json.loads(l.box.open(net.priv(node), body).value).value;
       layer.nextHop != "" && (layer.endpoint.None? || layer.payload.None?)
  }

  /** Such a body goes no further and is answered 400. */
  lemma UnusableIsRefused(l: Libs, net: Net, node: string, body: Bytes)
    requires Contract(l) && Unusable(l, net, node, body)
    ensures Relay(l, net, node, body) == Journey([node], Response(400, []))
  {
  }

  function Pow2(n: nat): nat {
    if n == 0 then 1 else 2 * Pow2(n - 1)
  }

  /** A body of b bytes passes through at most 1 + log2(b + 1) nodes, whatever it contains. */
  lemma {:induction false} JourneyIsShort(l: Libs, net: Net, node: string, body: Bytes)
    requires Contract(l)
    ensures Pow2(|Relay(l, net, node, body).visited| - 1) <= |body| + 1
    decreases |body|
  {
    var j := Relay(l, net, node, body);
    if |j.visited| > 1 {
      var payload := PeelLayer(l, net.priv(node), body).value.payload.value;
      PayloadShrinks(l, net.priv(node), body);
      var next := net.listens(PeelLayer(l, net.priv(node), body).value.endpoint.value).value;
      JourneyIsShort(l, net, next, payload);
      assert |j.visited| == 1 + |Relay(l, net, next, payload).visited|;
    } else {
      assert Pow2(0) == 1;
    }
  }

  // ---------------------------------------------------------------- delivery

  /** Every hop's key belongs to it, and its endpoint leads to it. */
  predicate Resolves(l: Libs, net: Net, circuit: seq<Hop>) {
    forall i :: 0 <= i < |circuit| ==>
      circuit[i].key == l.box.publicKey(net.priv(circuit[i].id)) && net.listens(circuit[i].endpoint) == Some(circuit[i].id)
  }

  function Ids(circuit: seq<Hop>): seq<string> {
    seq(|circuit|, i requires 0 <= i < |circuit| => circuit[i].id)
  }

  lemma PeelsInner(l: Libs, net: Net, hop: Hop, request: Request, coin: nat)
    requires Contract(l) && hop.key == l.box.publicKey(net.priv(hop.id))
    ensures |Inner(l, hop, request, coin)| > 0
    ensures PeelLayer(l, net.priv(hop.id), Inner(l, hop, request, coin)) == Some(Layer("", None, None, Some(request)))
  {
    var layer := Layer("", None, None, Some(request));
    assert RoundTrips(l.json, layer);
    assert B.Opens(l.box, net.priv(hop.id), l.json.dumps(layer), coin);
    assert B.Longer(l.box, hop.key, l.json.dumps(layer), coin);
  }

  lemma PeelsWrapped(l: Libs, net: Net, hop: Hop, next: Hop, inner: Bytes, coin: nat)
    requires Contract(l) && hop.key == l.box.publicKey(net.priv(hop.id))
    ensures |Wrap(l, hop, next, inner, coin)| > 0
    ensures PeelLayer(l, net.priv(hop.id), Wrap(l, hop, next, inner, coin)) == Some(Layer(next.id, Some(next.endpoint), Some(inner), None))
  {
    var layer := Layer(next.id, Some(next.endpoint), Some(inner), None);
    assert RoundTrips(l.json, layer);
    assert B.Opens(l.box, net.priv(hop.id), l.json.dumps(layer), coin);
    assert B.Longer(l.box, hop.key, l.json.dumps(layer), coin);
  }

  /** The first hop after position i whose id is empty, or the end of the circuit. */
  function Break(circuit: seq<Hop>, i: nat): (k: nat)
    requires i < |circuit|
    ensures i < k <= |circuit|
    ensures k == |circuit| || circuit[k].id == ""
    ensures forall j :: i < j < k ==> circuit[j].id != ""
    decreases |circuit| - i
  {
    if i == |circuit| - 1 || circuit[i + 1].id == "" then i + 1 else Break(circuit, i + 1)
  }

  lemma RelaysInner(l: Libs, net: Net, hop: Hop, request: Request, coin: nat)
    requires Contract(l) && hop.key == l.box.publicKey(net.priv(hop.id))
    ensures Relay(l, net, hop.id, Inner(l, hop, request, coin)) == Journey([hop.id], Execute(net, hop.id, Some(request)))
  {
    PeelsInner(l, net, hop, request, coin);
  }

  lemma RelaysWrapped(l: Libs, net: Net, hop: Hop, next: Hop, inner: Bytes, coin: nat)
    requires Contract(l) && hop.key == l.box.publicKey(net.priv(hop.id)) && net.listens(next.endpoint) == Some(next.id)
    ensures var rest := Relay(l, net, next.id, inner);
            Relay(l, net, hop.id, Wrap(l, hop, next, inner, coin)) ==
            if next.id == "" then Journey([hop.id], Response(400, [])) else Journey([hop.id] + rest.visited, rest.response)
  {
    PeelsWrapped(l, net, hop, next, inner, coin);
  }

  /** From hop i the packed message goes through the hops up to the first empty id. */
  lemma {:induction false} DeliversFrom(l: Libs, net: Net, circuit: seq<Hop>, request: Request, coins: nat -> nat, i: nat)
    requires Contract(l) && Resolves(l, net, circuit) && i < |circuit|
    ensures Relay(l, net, circuit[i].id, PackedFrom(l, circuit, request, coins, i)) ==
            Expected(net, circuit, request, i, Break(circuit, i))
    decreases |circuit| - i
  {
    if i == |circuit| - 1 {
      RelaysInner(l, net, circuit[i], request, coins(i));
    } else {
      DeliversFrom(l, net, circuit, request, coins, i + 1);
      RelaysWrapped(l, net, circuit[i], circuit[i + 1], PackedFrom(l, circuit, request, coins, i + 1), coins(i));
    }
    IdsFrom(circuit, i, Break(circuit, i));
  }

  function Expected(net: Net, circuit: seq<Hop>, request: Request, i: nat, k: nat): Journey
    requires i < k <= |circuit|
  {
    Journey(Ids(circuit[i..k]), if k == |circuit| then Execute(net, circuit[k - 1].id, Some(request)) else Response(400, []))
  }

  lemma IdsFrom(circuit: seq<Hop>, i: nat, k: nat)
    requires i < k <= |circuit|
    ensures Ids(circuit[i..k]) == [circuit[i].id] + if i + 1 < k then Ids(circuit[i + 1..k]) else []
  {
  }

  /** Relaying a packed circuit visits exactly its hops in order if and only if no id after the first is
      empty, and then the holder executes the original request. Otherwise the hop before the empty id
      takes itself for the holder and answers 400. */
  lemma DeliveryIsExact(l: Libs, net: Net, circuit: seq<Hop>, request: Request, coins: nat -> nat)
    requires Contract(l) && Resolves(l, net, circuit) && circuit != []
    ensures var j := Relay(l, net, circuit[0].id, PackedFrom(l, circuit, request, coins, 0));
            var named := forall i :: 1 <= i < |circuit| ==> circuit[i].id != "";
            && (j.visited == Ids(circuit) <==> named)
            && (named ==> j.response == Execute(net, circuit[|circuit| - 1].id, Some(request)))
            && (!named ==> j.response == Response(400, []) && j.visited < Ids(circuit))
  {
    DeliversFrom(l, net, circuit, request, coins, 0);
    var k := Break(circuit, 0);
    assert circuit[0..k] == circuit[..k];
    assert Ids(circuit[..k]) == Ids(circuit)[..k];
    if k == |circuit| {
      assert circuit[..k] == circuit;
    }
  }

  /** What comes back over a whole circuit: the chunk's bytes with status 200 if and only if the holder, the last hop,
      stores the chunk that was asked for; a chunk it does not store is answered 404, and any other operation
      400. */
  lemma ResponseIsTheHolders(l: Libs, net: Net, circuit: seq<Hop>, request: Request, coins: nat -> nat)
    requires Contract(l) && Resolves(l, net, circuit) && circuit != [] && forall i :: 1 <= i < |circuit| ==> circuit[i].id != ""
    ensures var r := Relay(l, net, circuit[0].id, PackedFrom(l, circuit, request, coins, 0)).response;
            var stored := net.chunk(circuit[|circuit| - 1].id, request.chunkHash);
            && (r.status == 200 <==> request.op == "fetch_chunk" && stored.Some?)
            && (r.status == 200 ==> r.content == stored.value)
            && (r.status == 404 <==> request.op == "fetch_chunk" && stored.None?)
            && (r.status == 400 <==> request.op != "fetch_chunk")
            && (r.status != 200 ==> r.content == [])
  {
    DeliveryIsExact(l, net, circuit, request, coins);
  }

  /** The hops before position k are what they say, and nobody listens at hop k. */
  predicate CutAt(l: Libs, net: Net, circuit: seq<Hop>, k: nat) {
    && 0 < k < |circuit| && net.listens(circuit[k].endpoint) == None
    && (forall i :: 0 <= i < k ==>
          circuit[i].key == l.box.publicKey(net.priv(circuit[i].id)) && net.listens(circuit[i].endpoint) == Some(circuit[i].id))
    && forall i :: 1 <= i <= k ==> circuit[i].id != ""
  }

  lemma RelaysIntoVoid(l: Libs, net: Net, hop: Hop, next: Hop, inner: Bytes, coin: nat)
    requires Contract(l) && hop.key == l.box.publicKey(net.priv(hop.id)) && net.listens(next.endpoint) == None && next.id != ""
    ensures Relay(l, net, hop.id, Wrap(l, hop, next, inner, coin)) == Journey([hop.id], Response(502, []))
  {
    PeelsWrapped(l, net, hop, next, inner, coin);
  }

  /** A circuit that is cut at hop k is relayed as far as the hop before, and 502 comes back. */
  lemma {:induction false} CutCircuit(l: Libs, net: Net, circuit: seq<Hop>, request: Request, coins: nat -> nat, i: nat, k: nat)
    requires Contract(l) && CutAt(l, net, circuit, k) && i < k
    ensures Relay(l, net, circuit[i].id, PackedFrom(l, circuit, request, coins, i)) == Journey(Ids(circuit[i..k]), Response(502, []))
    decreases k - i
  {
    var inner := PackedFrom(l, circuit, request, coins, i + 1);
    IdsFrom(circuit, i, k);
    if i + 1 == k {
      RelaysIntoVoid(l, net, circuit[i], circuit[k], inner, coins(i));
    } else {
      CutCircuit(l, net, circuit, request, coins, i + 1, k);
      RelaysWrapped(l, net, circuit[i], circuit[i + 1], inner, coins(i));
    }
  }

  /** A peer that is what the node table says: it has an id, owns its key and listens at its endpoint. */
  predicate Truthful(l: Libs, net: Net, p: Peer) {
    p.id != "" && net.listens(p.endpoint) == Some(p.id) && (p.key.Some? ==> p.key.value == l.box.publicKey(net.priv(p.id)))
  }

  /** Any circuit picked among truthful peers delivers. */
  lemma PickedCircuitDelivers(l: Libs, net: Net, peers: seq<Peer>, circuit: seq<Hop>, request: Request, coins: nat -> nat)
    requires Contract(l) && circuit != [] && FromPeers(circuit, peers)
    requires forall i :: 0 <= i < |peers| ==> Truthful(l, net, peers[i])
    ensures Relay(l, net, circuit[0].id, PackedFrom(l, circuit, request, coins, 0))
            == Journey(Ids(circuit), Execute(net, circuit[|circuit| - 1].id, Some(request)))
  {
    forall i | 0 <= i < |circuit|
      ensures circuit[i].id != ""
      ensures circuit[i].key == l.box.publicKey(net.priv(circuit[i].id)) && net.listens(circuit[i].endpoint) == Some(circuit[i].id)
    {
      var p := Peer(circuit[i].id, circuit[i].endpoint, Some(circuit[i].key));
      var j :| 0 <= j < |peers| && peers[j] == p;
      assert Truthful(l, net, peers[j]);
    }
    DeliveryIsExact(l, net, circuit, request, coins);
  }

  // ---------------------------------------------------------------- the contract can be met

  function Codes(t: string): Bytes {
    seq(|t|, i requires 0 <= i < |t| => t[i] as int)
  }

  lemma CodesInjective(a: string, b: string)
    requires Codes(a) == Codes(b)
    ensures a == b
  {
    forall i | 0 <= i < |a| ensures a[i] == b[i] {
      assert Codes(a)[i] == Codes(b)[i];
    }
  }

  /** The fields one by one; a present optional field starts with a mark. The payload comes twice. */
  function Fields(layer: Layer): seq<Bytes> {
    [Codes(layer.nextHop),
     if layer.endpoint.Some? then [layer.endpoint.value.port] + Codes(layer.endpoint.value.ip) else [],
     if layer.payload.Some? then [1] + layer.payload.value else [],
     if layer.payload.Some? then layer.payload.value else [],
     if layer.request.Some? then [1] + Codes(layer.request.value.op) else [],
     if layer.request.Some? then Codes(layer.request.value.chunkHash) else []]
  }

  lemma SameTail(x: int, a: Bytes, y: int, b: Bytes)
    requires [x] + a == [y] + b
    ensures x == y && a == b
  {
    assert ([x] + a)[0] == x && ([y] + b)[0] == y && ([x] + a)[1..] == a && ([y] + b)[1..] == b;
  }

  lemma FieldsInjective(a: Layer, b: Layer)
    requires Fields(a) == Fields(b)
    ensures a == b
  {
    var f, g := Fields(a), Fields(b);
    assert f[0] == g[0] && f[1] == g[1] && f[2] == g[2] && f[4] == g[4] && f[5] == g[5];
    CodesInjective(a.nextHop, b.nextHop);
    if a.endpoint.Some? {
      SameTail(a.endpoint.value.port, Codes(a.endpoint.value.ip), b.endpoint.value.port, Codes(b.endpoint.value.ip));
      CodesInjective(a.endpoint.value.ip, b.endpoint.value.ip);
    }
    if a.payload.Some? {
      SameTail(1, a.payload.value, 1, b.payload.value);
    }
    if a.request.Some? {
      SameTail(1, Codes(a.request.value.op), 1, Codes(b.request.value.op));
      CodesInjective(a.request.value.op, b.request.value.op);
      CodesInjective(a.request.value.chunkHash, b.request.value.chunkHash);
    }
  }

  /** Each field after its length. */
  function Flat(fields: seq<Bytes>): Bytes {
    if |fields| == 0 then [] else [|fields[0]|] + fields[0] + Flat(fields[1..])
  }

  lemma {:induction false} FlatInjective(a: seq<Bytes>, b: seq<Bytes>)
    requires |a| == |b| && Flat(a) == Flat(b)
    ensures a == b
  {
    if |a| > 0 {
      var s, t, n := Flat(a), Flat(b), |a[0]|;
      assert s[0] == n && t[0] == |b[0]|;
      assert s[1..1 + n] == a[0] && t[1..1 + n] == b[0];
      assert s[1 + n..] == Flat(a[1..]) && t[1 + n..] == Flat(b[1..]);
      FlatInjective(a[1..], b[1..]);
      assert a == [a[0]] + a[1..] && b == [b[0]] + b[1..];
    }
  }

  function Dumped(layer: Layer): Bytes {
    Flat(Fields(layer))
  }

  lemma DumpedLength(layer: Layer)
    ensures layer.payload.Some? ==> 2 * |layer.payload.value| <= |Dumped(layer)|
  {
    var f := Fields(layer);
    assert f[1..][1..] == f[2..] && f[2..][1..] == f[3..] && f[3..][1..] == f[4..];
    assert |Flat(f)| >= |Flat(f[1..])| >= |Flat(f[2..])| >= |f[2]| + |Flat(f[3..])|;
    assert |Flat(f[3..])| >= |f[3]|;
  }

  ghost function Loaded(text: Bytes): Option<Layer> {
    if exists layer :: Dumped(layer) == text then var layer :| Dumped(layer) == text; Some(layer) else None
  }

  ghost function PlainJson(): Json {
    Json((layer: Layer) => Dumped(layer), (text: Bytes) => Loaded(text))
  }

  /** The contract on the JSON text is consistent. */
  lemma JsonContractIsMet()
    ensures JsonContract(PlainJson())
  {
    var j := PlainJson();
    forall layer ensures RoundTrips(j, layer) {
      var found := Loaded(Dumped(layer)).value;
      FlatInjective(Fields(found), Fields(layer));
      FieldsInjective(found, layer);
    }
    forall text ensures HexFits(j, text) {
      if Loaded(text).Some? {
        DumpedLength(Loaded(text).value);
      }
    }
  }
}
