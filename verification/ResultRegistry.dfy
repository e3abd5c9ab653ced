/** The live results: objects behind addresses, each with storage of its own.
    Freed storage may be overwritten, and the objects that results are built
    from may be copied, moved and assigned before and after. */
module ResultRegistry {
  import opened Options
  import opened PeerList
  import opened ResultStorage

  // ----- lists of source objects -------------------------------------------

  ghost function ErrorStorage(es: seq<ErrorCpp>): set<object>
    reads es
  {
    if es == [] then {} else es[0].Storage() + ErrorStorage(es[1..])
  }

  /** The objects are in order and share no storage. */
  ghost predicate Separate(es: seq<ErrorCpp>)
    reads es, ErrorStorage(es)
  {
    es == [] || (es[0].Valid() && es[0].Storage() !! ErrorStorage(es[1..]) && Separate(es[1..]))
  }

  ghost function ReadErrors(es: seq<ErrorCpp>): (r: seq<ErrorText>)
    requires Separate(es)
    reads es, ErrorStorage(es)
    ensures |r| == |es|
  {
    if es == [] then [] else [es[0].Read()] + ReadErrors(es[1..])
  }

  ghost function PeerStorage(ps: seq<ProxyCpp>): set<object> {
    if ps == [] then {} else ps[0].Storage() + PeerStorage(ps[1..])
  }

  ghost predicate SeparatePeers(ps: seq<ProxyCpp>)
    reads PeerStorage(ps)
  {
    ps == [] || (ps[0].Valid() && ps[0].Storage() !! PeerStorage(ps[1..]) && SeparatePeers(ps[1..]))
  }

  ghost function ReadPeers(ps: seq<ProxyCpp>): (r: seq<Peer>)
    requires SeparatePeers(ps)
    reads PeerStorage(ps)
    ensures |r| == |ps|
  {
    if ps == [] then [] else [ps[0].Read()] + ReadPeers(ps[1..])
  }

  lemma {:induction false} Members(es: seq<ErrorCpp>)
    ensures forall i :: 0 <= i < |es| ==> es[i] in ErrorStorage(es) && es[i].Storage() <= ErrorStorage(es)
    ensures forall o :: o in ErrorStorage(es) ==> allocated(o)
  {
    if es != [] {
      Inside(es[0]);
      Members(es[1..]);
      assert forall i :: 0 < i < |es| ==> es[i] == es[1..][i - 1];
    }
  }

  /** Pairwise disjoint storage is what `Separate` asks for. */
  lemma {:induction false} PairwiseIsSeparate(es: seq<ErrorCpp>)
    requires forall i :: 0 <= i < |es| ==> es[i].Valid()
    requires forall i, j :: 0 <= i < j < |es| ==> es[i].Storage() !! es[j].Storage()
    ensures Separate(es)
  {
    if es != [] {
      PairwiseIsSeparate(es[1..]);
      Apart(es[0].Storage(), es[1..]);
    }
  }

  lemma {:induction false} Apart(s: set<object>, es: seq<ErrorCpp>)
    requires forall j :: 0 <= j < |es| ==> s !! es[j].Storage()
    ensures s !! ErrorStorage(es)
  {
    if es != [] { Apart(s, es[1..]); }
  }

  lemma {:induction false} ReadErrorsAt(es: seq<ErrorCpp>, i: nat)
    requires Separate(es) && i < |es|
    ensures es[i].Valid() && ReadErrors(es)[i] == es[i].Read()
  {
    if i > 0 { ReadErrorsAt(es[1..], i - 1); }
  }

  lemma {:induction false} ReadPeersAt(ps: seq<ProxyCpp>, i: nat)
    requires SeparatePeers(ps) && i < |ps|
    ensures ps[i].Valid() && ReadPeers(ps)[i] == ps[i].Read()
  {
    if i > 0 { ReadPeersAt(ps[1..], i - 1); }
  }

  /** Every object goes through a chain of its own. */
  method ThroughChains(es: seq<ErrorCpp>, chains: seq<seq<HandOver>>) returns (lasts: seq<ErrorCpp>)
    requires |chains| == |es| && Separate(es)
    modifies ErrorStorage(es)
    ensures Separate(lasts) && ReadErrors(lasts) == old(ReadErrors(es))
    ensures forall o :: o in ErrorStorage(lasts) ==> o in old(ErrorStorage(es)) || fresh(o)
    decreases |es|
  {
    hide ErrorCpp.Valid, ErrorCpp.Read, ErrorCpp.Storage;
    if es == [] {
      return [];
    }
    var rest := es[1..];
    ghost var here, there := es[0].Storage(), ErrorStorage(rest);
    Members(rest);
    assert Separate(rest) && here !! there;
    var last := ThroughChain(es[0], chains[0]);
    assert ErrorStorage(rest) == there;
    assert Separate(rest);
    assert ReadErrors(rest) == old(ReadErrors(rest));
    ghost var mine := last.Storage();
    Inside(last);
    assert mine !! there;
    var others := ThroughChains(rest, chains[1..]);
    assert last.Storage() == mine && last.Valid() && last.Read() == old(es[0].Read());
    assert mine !! ErrorStorage(others);
    lasts := [last] + others;
    assert lasts[1..] == others;
    assert ErrorStorage(lasts) == mine + ErrorStorage(others);
    assert old(ErrorStorage(es)) == here + there;
  }

  lemma {:induction false} PeerMembers(ps: seq<ProxyCpp>)
    ensures forall i :: 0 <= i < |ps| ==> ps[i] in PeerStorage(ps) && ps[i].Storage() <= PeerStorage(ps)
    ensures forall o :: o in PeerStorage(ps) ==> allocated(o)
  {
    if ps != [] {
      PeerMembers(ps[1..]);
      assert forall i :: 0 < i < |ps| ==> ps[i] == ps[1..][i - 1];
    }
  }

  method PeersThroughChains(ps: seq<ProxyCpp>, chains: seq<seq<PeerHandOver>>) returns (lasts: seq<ProxyCpp>)
    requires |chains| == |ps| && SeparatePeers(ps)
    modifies PeerStorage(ps)
    ensures SeparatePeers(lasts) && ReadPeers(lasts) == old(ReadPeers(ps))
    ensures forall o :: o in PeerStorage(lasts) ==> o in PeerStorage(ps) || fresh(o)
    decreases |ps|
  {
    hide ProxyCpp.Read;
    if ps == [] {
      return [];
    }
    var rest := ps[1..];
    PeerMembers(ps);
    PeerMembers(rest);
    assert SeparatePeers(rest) && ps[0].Storage() !! PeerStorage(rest);
    var last := PeerThroughChain(ps[0], chains[0]);
    assert SeparatePeers(rest) && ReadPeers(rest) == old(ReadPeers(rest));
    PeerMembers([last]);
    assert last.Storage() !! PeerStorage(rest);
    var others := PeersThroughChains(rest, chains[1..]);
    assert last.Valid() && last.Read() == old(ps[0].Read());
    assert last.Storage() !! PeerStorage(others);
    lasts := [last] + others;
    assert lasts[1..] == others;
    assert PeerStorage(lasts) == last.Storage() + PeerStorage(others);
  }

  lemma Inside(e: ErrorCpp)
    ensures e in e.Storage() && (e.proxyCpp != null ==> e.proxyCpp in e.Storage())
    ensures forall o :: o in e.Storage() ==> allocated(o)
  {
  }

  // ----- results -----------------------------------------------------------

  /** A result built from lists of objects reads what they say, in order. */
  method BuildResult(es: seq<ErrorCpp>, ps: seq<ProxyCpp>) returns (result: ProxyResultCpp)
    requires Separate(es) && SeparatePeers(ps)
    ensures result.Valid() && fresh(result) && fresh(result.storage) && result !in result.storage
    ensures result.Read() == Content(old(ReadErrors(es)), old(ReadPeers(ps)))
  {
    hide ErrorCpp.Valid, ErrorCpp.Read, ErrorCpp.Storage, ProxyCpp.Valid, ProxyCpp.Read, Separate, SeparatePeers,
         ProxyResultCpp.Valid, ProxyResultCpp.ErrorAt, ProxyResultCpp.PeerAt, ReadErrors, ReadPeers;
    ghost var errors, peers := ReadErrors(es), ReadPeers(ps);
    forall i: nat | i < |es| ensures es[i].Valid() && errors[i] == es[i].Read() { ReadErrorsAt(es, i); }
    forall i: nat | i < |ps| ensures ps[i].Valid() && peers[i] == ps[i].Read() { ReadPeersAt(ps, i); }
    result := new ProxyResultCpp(es, ps);
    assert result.Read().errors == errors;
    assert result.Read().successful == peers;
  }

  /** After any chain of copies, moves and assignments for every single object,
      a result built from the last objects says what the first ones said. */
  method PublishAfterChains(es: seq<ErrorCpp>, chains: seq<seq<HandOver>>, ps: seq<ProxyCpp>, peerChains: seq<seq<PeerHandOver>>)
    returns (result: ProxyResultCpp)
    requires |chains| == |es| && |peerChains| == |ps|
    requires Separate(es) && SeparatePeers(ps) && ErrorStorage(es) !! PeerStorage(ps)
    modifies ErrorStorage(es), PeerStorage(ps)
    ensures result.Valid() && fresh(result) && fresh(result.storage) && result !in result.storage
    ensures result.Read() == Content(old(ReadErrors(es)), old(ReadPeers(ps)))
  {
    hide ErrorStorage, PeerStorage, Separate, SeparatePeers, ReadErrors, ReadPeers, ProxyResultCpp.Valid, ProxyResultCpp.Read;
    Members(es);
    PeerMembers(ps);
    var lastPeers := PeersThroughChains(ps, peerChains);
    PeerMembers(lastPeers);
    assert Separate(es) && ErrorStorage(es) == old(ErrorStorage(es)) && ReadErrors(es) == old(ReadErrors(es));
    var lasts := ThroughChains(es, chains);
    assert SeparatePeers(lastPeers) && ReadPeers(lastPeers) == old(ReadPeers(ps));
    result := BuildResult(lasts, lastPeers);
  }

  // ----- the registry ------------------------------------------------------

  type Ptr = nat

  class Registry {
    var results: map<Ptr, ProxyResultCpp>
    /** All live results with all their storage. */
    ghost var owned: set<object>

    /** Live results are intact and share nothing. */
    ghost predicate Valid()
      reads this, owned
    {
      && this !in owned
      && (forall p :: p in results ==>
            results[p] in owned && results[p].storage <= owned && results[p] !in results[p].storage && results[p].Valid())
      && (forall p, q :: p in results && q in results && p != q ==> Unshared(results[p], results[q]))
    }

    static ghost predicate Unshared(r: ProxyResultCpp, s: ProxyResultCpp)
      reads r, s
    {
      {r} + r.storage !! {s} + s.storage
    }

    static lemma Outside(r: ProxyResultCpp, s: ProxyResultCpp, owned: set<object>)
      requires {r} + r.storage <= owned && {s} + s.storage !! owned
      ensures Unshared(r, s) && Unshared(s, r)
    {
    }

    /** What C callers read through the live addresses. */
    ghost function View(): map<Ptr, Content>
      requires Valid()
      reads this, owned
    {
      map p | p in results :: results[p].Read()
    }

    constructor ()
      ensures Valid() && View() == map[] && owned == {}
    {
      results, owned := map[], {};
    }

    /** Adds one result, at an address where none is stored, and leaves what
        all others say as it was. */
    method AddResult(es: seq<ErrorCpp>, ps: seq<ProxyCpp>, ptr: Ptr)
      requires Valid() && Separate(es) && SeparatePeers(ps) && ptr !in results
      modifies this
      ensures Valid() && View() == old(View())[ptr := Content(old(ReadErrors(es)), old(ReadPeers(ps)))]
      ensures forall o :: o in owned ==> o in old(owned) || fresh(o)
    {
      hide ErrorStorage, PeerStorage, Separate, SeparatePeers, ReadErrors, ReadPeers, ProxyResultCpp.Valid, ProxyResultCpp.Read,
           Unshared;
      var result := BuildResult(es, ps);
      Insert(ptr, result);
    }

    /** Stores a result that shares nothing with the live ones. */
    method Insert(ptr: Ptr, result: ProxyResultCpp)
      requires Valid() && ptr !in results && result.Valid() && result !in result.storage
      requires {result} + result.storage !! owned + {this}
      modifies this
      ensures Valid() && View() == old(View())[ptr := old(result.Read())]
      ensures owned == old(owned) + {result} + result.storage
    {
      hide ProxyResultCpp.Valid, ProxyResultCpp.Read, Unshared;
      forall p | p in results ensures Unshared(results[p], result) && Unshared(result, results[p]) {
        Outside(results[p], result, owned);
      }
      results := results[ptr := result];
      owned := owned + {result} + result.storage;
    }

    /** Frees one result. Its memory may then hold anything, and still all other
        live results say what they said. */
    method Delete(p: Ptr)
      requires Valid()
      modifies this, owned
      ensures Valid() && View() == old(View()) - {p} && owned <= old(owned)
    {
      hide Valid, View;
      if p !in results {
        NothingThere(p);
        return;
      }
      ghost var freed := Erase(p);
      modify freed;
    }

    lemma NothingThere(p: Ptr)
      requires Valid() && p !in results
      ensures View() - {p} == View()
    {
      hide ProxyResultCpp.Valid, ProxyResultCpp.Read;
    }

    /** Takes one result out of the map; its objects no longer belong to any other. */
    method Erase(p: Ptr) returns (ghost freed: set<object>)
      requires Valid() && p in results
      modifies this
      ensures Valid() && View() == old(View()) - {p}
      ensures freed == {old(results[p])} + old(results[p].storage) && owned == old(owned) - freed
      ensures freed <= old(owned) && this !in freed
    {
      hide ProxyResultCpp.Valid, ProxyResultCpp.Read;
      freed := {results[p]} + results[p].storage;
      forall q | q in results && q != p ensures {results[q]} + results[q].storage !! freed {
        assert Unshared(results[q], results[p]);
      }
      hide Unshared;
      results := results - {p};
      owned := owned - freed;
    }

    /** The end of the library: everything is freed. */
    method Clear()
      requires Valid()
      modifies this, owned
      ensures Valid() && View() == map[] && owned == {}
    {
      ghost var freed := owned;
      results, owned := map[], {};
      modify freed;
    }

    /** Objects that the live results do not own can be passed on in any way
        without any live result noticing. */
    method HandOn(es: seq<ErrorCpp>, chains: seq<seq<HandOver>>) returns (lasts: seq<ErrorCpp>)
      requires Valid() && |chains| == |es| && Separate(es) && ErrorStorage(es) !! owned + {this}
      modifies ErrorStorage(es)
      ensures Valid() && View() == old(View())
      ensures Separate(lasts) && ReadErrors(lasts) == old(ReadErrors(es))
      ensures forall o :: o in ErrorStorage(lasts) ==> o in old(ErrorStorage(es)) || fresh(o)
    {
      hide Valid, View, ErrorStorage, Separate, ReadErrors;
      lasts := ThroughChains(es, chains);
    }

    method HandOnPeers(ps: seq<ProxyCpp>, chains: seq<seq<PeerHandOver>>) returns (lasts: seq<ProxyCpp>)
      requires Valid() && |chains| == |ps| && SeparatePeers(ps) && PeerStorage(ps) !! owned + {this}
      modifies PeerStorage(ps)
      ensures Valid() && View() == old(View())
      ensures SeparatePeers(lasts) && ReadPeers(lasts) == old(ReadPeers(ps))
      ensures forall o :: o in PeerStorage(lasts) ==> o in PeerStorage(ps) || fresh(o)
    {
      hide Valid, View, PeerStorage, SeparatePeers, ReadPeers;
      lasts := PeersThroughChains(ps, chains);
    }

    /** Publishing in the middle of the life of the source objects: they are
        passed on before and after, and neither the new result nor any other
        notices. */
    method Publish(es: seq<ErrorCpp>, before: seq<seq<HandOver>>, after: seq<seq<HandOver>>,
                   ps: seq<ProxyCpp>, peersBefore: seq<seq<PeerHandOver>>, peersAfter: seq<seq<PeerHandOver>>, ptr: Ptr)
      requires Valid() && ptr !in results
      requires |before| == |after| == |es| && |peersBefore| == |peersAfter| == |ps|
      requires Separate(es) && SeparatePeers(ps) && ErrorStorage(es) !! PeerStorage(ps)
      requires ErrorStorage(es) + PeerStorage(ps) !! owned + {this}
      modifies this, ErrorStorage(es), PeerStorage(ps)
      ensures Valid() && View() == old(View())[ptr := Content(old(ReadErrors(es)), old(ReadPeers(ps)))]
      ensures forall o :: o in owned ==> o in old(owned) || fresh(o)
    {
      hide Valid, View, ErrorStorage, Separate, ReadErrors, PeerStorage, SeparatePeers, ReadPeers;
      Members(es);
      PeerMembers(ps);
      var peers := HandOnPeers(ps, peersBefore);
      PeerMembers(peers);
      var errors := HandOn(es, before);
      Members(errors);
      AddResult(errors, peers, ptr);
      var _ := HandOnPeers(peers, peersAfter);
      var _ := HandOn(errors, after);
    }
  }

  // ----- whole histories ---------------------------------------------------

  /** One event in the life of the registry. Texts become objects that are
      passed on before and after the result is built from them. */
  datatype Event =
    | Published(ptr: Ptr, errors: seq<ErrorText>, before: seq<seq<HandOver>>, after: seq<seq<HandOver>>,
                peers: seq<Peer>, peersBefore: seq<seq<PeerHandOver>>, peersAfter: seq<seq<PeerHandOver>>)
    | Deleted(ptr: Ptr)
    | Cleared
    | Unrelated

  predicate WellFormed(e: Event) {
    e.Published? ==> |e.before| == |e.after| == |e.errors| && |e.peersBefore| == |e.peersAfter| == |e.peers|
  }

  function Booked(book: map<Ptr, Content>, e: Event): map<Ptr, Content> {
    match e
    case Published(ptr, errors, _, _, peers, _, _) => book[ptr := Content(errors, peers)]
    case Deleted(ptr) => book - {ptr}
    case Cleared => map[]
    case Unrelated => book
  }

  /** What the live addresses stand for, as a plain map. */
  function Book(events: seq<Event>): map<Ptr, Content> {
    if events == [] then map[] else Booked(Book(events[..|events| - 1]), events[|events| - 1])
  }

  /** No result is stored at the address of a live one. */
  ghost predicate FreshAddresses(events: seq<Event>) {
    forall k :: 0 <= k < |events| && events[k].Published? ==> events[k].ptr !in Book(events[..k])
  }

  method MakeErrors(texts: seq<ErrorText>) returns (es: seq<ErrorCpp>)
    ensures Separate(es) && ReadErrors(es) == texts && fresh(ErrorStorage(es))
  {
    hide ErrorCpp.Valid, ErrorCpp.Read, ErrorCpp.Storage;
    if texts == [] {
      return [];
    }
    var rest := MakeErrors(texts[1..]);
    Members(rest);
    var e := MakeError(texts[0]);
    assert Separate(rest) && ReadErrors(rest) == texts[1..];
    es := [e] + rest;
    assert es[1..] == rest;
  }

  method MakePeers(texts: seq<Peer>) returns (ps: seq<ProxyCpp>)
    ensures SeparatePeers(ps) && ReadPeers(ps) == texts && fresh(PeerStorage(ps))
  {
    hide ProxyCpp.Valid, ProxyCpp.Read;
    if texts == [] {
      return [];
    }
    var rest := MakePeers(texts[1..]);
    PeerMembers(rest);
    var p := new ProxyCpp(texts[0].ethereumAddress, texts[0].websocketUrl);
    assert SeparatePeers(rest) && ReadPeers(rest) == texts[1..];
    ps := [p] + rest;
    assert ps[1..] == rest;
  }

  method Happen(registry: Registry, e: Event, ghost book: map<Ptr, Content>)
    requires registry.Valid() && registry.View() == book && WellFormed(e)
    requires e.Published? ==> e.ptr !in book
    modifies registry, registry.owned
    ensures registry.Valid()
    ensures registry.View() == Booked(book, e)
    ensures forall o :: o in registry.owned ==> o in old(registry.owned) || fresh(o)
  {
    hide Registry.Valid, ErrorStorage, Separate, ReadErrors, PeerStorage, SeparatePeers, ReadPeers;
    if e.Published? {
      var ps := MakePeers(e.peers);
      PeerMembers(ps);
      var es := MakeErrors(e.errors);
      registry.Publish(es, e.before, e.after, ps, e.peersBefore, e.peersAfter, e.ptr);
    } else if e.Deleted? {
      registry.Delete(e.ptr);
    } else if e.Cleared? {
      registry.Clear();
    }
  }

  /** After every history, reading through the address of a live result gives
      exactly what was published there, whatever happened to the source objects
      and whatever became of freed memory. */
  method Replay(events: seq<Event>) returns (registry: Registry)
    requires FreshAddresses(events) && forall k :: 0 <= k < |events| ==> WellFormed(events[k])
    ensures registry.Valid() && registry.View() == Book(events)
  {
    hide Registry.Valid, Registry.View, WellFormed;
    registry := new Registry();
    assert events[..0] == [];
    for k := 0 to |events|
      invariant fresh(registry) && forall o :: o in registry.owned ==> fresh(o)
      invariant registry.Valid() && registry.View() == Book(events[..k])
    {
      Happen(registry, events[k], Book(events[..k]));
      assert events[..k + 1][..k] == events[..k];
    }
    assert events[..|events|] == events;
  }
}
