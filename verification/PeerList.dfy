/** Turning lists of (URL, address) pairs into peer descriptors. */
module PeerList {
  import opened Options
  import StreamPart

  datatype Peer = Peer(ethereumAddress: string, websocketUrl: string)

  datatype Code =
    | INVALID_ETHEREUM_ADDRESS | INVALID_STREAM_PART_ID
    | NODE_NOT_FOUND | NODE_NOT_STARTED | NODE_ALREADY_STARTED | NODE_STOPPED
    | INVALID_ENTRY_POINT_URL | SUBSCRIPTION_NOT_FOUND | NODE_OPERATION_FAILED
    | NO_PROXIES_DEFINED | PROXY_CLIENT_NOT_FOUND | INVALID_PROXY_URL
    | PROXY_CONNECTION_FAILED | PROXY_BROADCAST_FAILED

  datatype Failure = Failure(code: Code, peer: Option<Peer>)

  /** A descriptor remembers the peer it was made from. */
  datatype Descriptor = Descriptor(peer: Peer)

  /** Whether the URL library accepts a URL. */
  type Urls = string -> bool

  /** What `createProxyPeerDescriptor` does: the address is checked first. */
  datatype Created = Made(descriptor: Descriptor) | RuntimeError | InvalidUrlException

  function CreateDescriptor(urls: Urls, p: Peer): Created {
    if !StreamPart.IsEthereumAddress(p.ethereumAddress) then RuntimeError
    else if !urls(p.websocketUrl) then InvalidUrlException
    else Made(Descriptor(p))
  }

  datatype Peers = Parsed(descriptors: seq<Descriptor>) | Rejected(failure: Failure)

  /** The outcome for a list: the first bad peer decides. */
  function ParsePeers(urls: Urls, peers: seq<Peer>, badUrl: Code): Peers {
    if peers == [] then Parsed([])
    else
      match CreateDescriptor(urls, peers[0])
      case RuntimeError => Rejected(Failure(INVALID_ETHEREUM_ADDRESS, Some(peers[0])))
      case InvalidUrlException => Rejected(Failure(badUrl, Some(peers[0])))
      case Made(d) =>
        match ParsePeers(urls, peers[1..], badUrl)
        case Parsed(ds) => Parsed([d] + ds)
        case Rejected(f) => Rejected(f)
  }

  predicate IsGoodPeer(urls: Urls, p: Peer) {
    StreamPart.IsEthereumAddress(p.ethereumAddress) && urls(p.websocketUrl)
  }

  ghost predicate IsFirstBad(urls: Urls, peers: seq<Peer>, i: nat) {
    i < |peers| && !IsGoodPeer(urls, peers[i]) && forall j :: 0 <= j < i ==> IsGoodPeer(urls, peers[j])
  }

  /** The error a bad peer gets: a bad address takes precedence over a bad URL. */
  function FaultOf(p: Peer, badUrl: Code): Failure {
    Failure(if StreamPart.IsEthereumAddress(p.ethereumAddress) then badUrl else INVALID_ETHEREUM_ADDRESS, Some(p))
  }

  /** Parsing succeeds exactly when every peer is good, with the i-th descriptor
      made from the i-th peer; otherwise the one error names the first bad peer. */
  lemma {:induction false} ParsePeersOutcome(urls: Urls, peers: seq<Peer>, badUrl: Code)
    ensures var r := ParsePeers(urls, peers, badUrl);
      && (r.Parsed? <==> forall i :: 0 <= i < |peers| ==> IsGoodPeer(urls, peers[i]))
      && (r.Parsed? ==> |r.descriptors| == |peers|
                        && forall i :: 0 <= i < |peers| ==> r.descriptors[i] == Descriptor(peers[i]))
      && (r.Rejected? ==> exists i: nat :: IsFirstBad(urls, peers, i) && r.failure == FaultOf(peers[i], badUrl))
  {
    hide StreamPart.IsEthereumAddress;
    if peers != [] {
      var rest := peers[1..];
      ParsePeersOutcome(urls, rest, badUrl);
      var r := ParsePeers(urls, peers, badUrl);
      assert forall i :: 0 <= i < |rest| ==> rest[i] == peers[i + 1];
      if IsGoodPeer(urls, peers[0]) {
        if r.Rejected? {
          var k: nat :| IsFirstBad(urls, rest, k) && r.failure == FaultOf(rest[k], badUrl);
          assert forall j :: 0 < j < k + 1 ==> peers[j] == rest[j - 1];
          assert IsFirstBad(urls, peers, k + 1);
        } else {
          assert forall i :: 0 < i < |peers| ==> peers[i] == rest[i - 1];
        }
      } else {
        assert IsFirstBad(urls, peers, 0);
      }
    }
  }

  /** How one more peer changes the outcome of a scan that has collected `ds`. */
  lemma ScanStep(urls: Urls, peers: seq<Peer>, badUrl: Code, ds: seq<Descriptor>, i: nat)
    requires i < |peers|
    ensures var whole, c := Prefixed(ds, ParsePeers(urls, peers[i..], badUrl)), CreateDescriptor(urls, peers[i]);
      && (c.Made? ==> whole == Prefixed(ds + [c.descriptor], ParsePeers(urls, peers[i + 1..], badUrl)))
      && (c.InvalidUrlException? ==> whole == Rejected(Failure(badUrl, Some(peers[i]))))
      && (c.RuntimeError? ==> whole == Rejected(Failure(INVALID_ETHEREUM_ADDRESS, Some(peers[i]))))
  {
    hide StreamPart.IsEthereumAddress;
    var rest := peers[i..];
    assert rest[1..] == peers[i + 1..] && rest[0] == peers[i];
    var c := CreateDescriptor(urls, peers[i]);
    var tail := ParsePeers(urls, peers[i + 1..], badUrl);
    if c.Made? && tail.Parsed? {
      assert ds + ([c.descriptor] + tail.descriptors) == ds + [c.descriptor] + tail.descriptors;
    }
  }

  lemma ScanEnds(urls: Urls, peers: seq<Peer>, badUrl: Code, ds: seq<Descriptor>)
    ensures Prefixed(ds, ParsePeers(urls, peers[|peers|..], badUrl)) == Parsed(ds)
    ensures Prefixed([], ParsePeers(urls, peers[0..], badUrl)) == ParsePeers(urls, peers, badUrl)
  {
    assert peers[|peers|..] == [] && peers[0..] == peers;
  }

  /** The loop of `parsePeerList`. */
  method ParsePeerList(urls: Urls, peers: seq<Peer>, badUrl: Code) returns (r: Peers)
    ensures r == ParsePeers(urls, peers, badUrl)
  {
    hide ParsePeers, CreateDescriptor, Prefixed;
    var descriptors: seq<Descriptor> := [];
    ScanEnds(urls, peers, badUrl, []);
    for i := 0 to |peers|
      invariant ParsePeers(urls, peers, badUrl) == Prefixed(descriptors, ParsePeers(urls, peers[i..], badUrl))
    {
      ScanStep(urls, peers, badUrl, descriptors, i);
      var created := CreateDescriptor(urls, peers[i]);
      match created
      case InvalidUrlException =>
        return Rejected(Failure(badUrl, Some(peers[i])));
      case RuntimeError =>
        return Rejected(Failure(INVALID_ETHEREUM_ADDRESS, Some(peers[i])));
      case Made(d) =>
        descriptors := descriptors + [d];
    }
    ScanEnds(urls, peers, badUrl, descriptors);
    r := Parsed(descriptors);
  }

  function Prefixed(ds: seq<Descriptor>, r: Peers): Peers {
    match r
    case Parsed(rest) => Parsed(ds + rest)
    case Rejected(f) => Rejected(f)
  }

  /** The inline loop of `proxyClientConnect`, which runs on a non-empty array. */
  method ConnectPeers(urls: Urls, proxies: seq<Peer>) returns (r: Peers)
    requires proxies != []
    ensures r == ParsePeers(urls, proxies, INVALID_PROXY_URL)
  {
    hide ParsePeers, CreateDescriptor, Prefixed;
    var descriptors: seq<Descriptor> := [];
    ScanEnds(urls, proxies, INVALID_PROXY_URL, []);
    var i := 0;
    while i < |proxies|
      invariant 0 <= i <= |proxies|
      invariant ParsePeers(urls, proxies, INVALID_PROXY_URL)
             == Prefixed(descriptors, ParsePeers(urls, proxies[i..], INVALID_PROXY_URL))
    {
      ScanStep(urls, proxies, INVALID_PROXY_URL, descriptors, i);
      var created := CreateDescriptor(urls, proxies[i]);
      if created.InvalidUrlException? {
        return Rejected(Failure(INVALID_PROXY_URL, Some(proxies[i])));
      }
      if created.RuntimeError? {
        return Rejected(Failure(INVALID_ETHEREUM_ADDRESS, Some(proxies[i])));
      }
      descriptors := descriptors + [created.descriptor];
      i := i + 1;
    }
    ScanEnds(urls, proxies, INVALID_PROXY_URL, descriptors);
    r := Parsed(descriptors);
  }
}
