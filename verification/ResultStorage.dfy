/** The storage behind a returned result: C structs whose pointers lead into
    std::string members of C++ objects. A pointer is a reference to the object
    that holds the pointed-to storage. */
module ResultStorage {
  import opened Options
  import opened PeerList

  datatype ErrorText = ErrorText(message: string, code: string, peer: Option<Peer>)

  /** A std::string; a `const char*` is a reference to the string it reads. */
  class Text {
    var chars: string

    constructor (chars: string)
      ensures this.chars == chars
    {
      this.chars := chars;
    }
  }

  /** `struct Proxy`. */
  datatype PeerStruct = PeerStruct(ethereumAddress: Text, websocketUrl: Text)

  /** `struct Error`; `peer` points at the struct inside a ProxyCpp, or is null. */
  datatype ErrorStruct = ErrorStruct(message: Text, code: Text, peer: ProxyCpp?)

  /** Reading a peer through its C struct. */
  ghost function ReadPeer(p: PeerStruct): Peer
    reads p.ethereumAddress, p.websocketUrl
  {
    Peer(p.ethereumAddress.chars, p.websocketUrl.chars)
  }

  class ProxyCpp {
    const ethereumAddressString: Text
    const websocketUrlString: Text
    var proxy: PeerStruct

    /** The object itself with its string members. */
    ghost function Storage(): set<object> {
      {this, ethereumAddressString, websocketUrlString}
    }

    /** The struct's pointers lead into this very object. */
    ghost predicate Valid()
      reads this
    {
      && ethereumAddressString != websocketUrlString
      && proxy == PeerStruct(ethereumAddressString, websocketUrlString)
    }

    /** What a C caller reads through `getProxy()`. */
    ghost function Read(): Peer
      reads this, proxy.ethereumAddress, proxy.websocketUrl
    {
      ReadPeer(proxy)
    }

    constructor (ethereumAddress: string, websocketUrl: string)
      ensures Valid() && fresh(Storage()) && Read() == Peer(ethereumAddress, websocketUrl)
    {
      var e := new Text(ethereumAddress);
      var w := new Text(websocketUrl);
      ethereumAddressString, websocketUrlString, proxy := e, w, PeerStruct(e, w);
    }

    constructor Copy(other: ProxyCpp)
      requires other.Valid()
      ensures Valid() && fresh(Storage()) && Read() == other.Read()
    {
      var e := new Text(other.ethereumAddressString.chars);
      var w := new Text(other.websocketUrlString.chars);
      ethereumAddressString, websocketUrlString, proxy := e, w, PeerStruct(e, w);
    }

    /** The moved-from strings are valid but unspecified. */
    constructor Move(other: ProxyCpp)
      requires other.Valid()
      modifies other.ethereumAddressString, other.websocketUrlString
      ensures Valid() && fresh(Storage()) && Read() == old(other.Read())
      ensures other.Valid()
    {
      var e := new Text(other.ethereumAddressString.chars);
      var w := new Text(other.websocketUrlString.chars);
      ethereumAddressString, websocketUrlString, proxy := e, w, PeerStruct(e, w);
      new;
      other.ethereumAddressString.chars := *;
      other.websocketUrlString.chars := *;
    }

    method Assign(other: ProxyCpp)
      requires Valid() && other.Valid() && (this == other || Storage() !! other.Storage())
      modifies Storage()
      ensures Valid() && other.Valid() && Read() == old(other.Read()) && other.Read() == old(other.Read())
    {
      if this == other {
        return;
      }
      ethereumAddressString.chars := other.ethereumAddressString.chars;
      websocketUrlString.chars := other.websocketUrlString.chars;
      proxy := PeerStruct(ethereumAddressString, websocketUrlString);
    }

    method MoveAssign(other: ProxyCpp)
      requires Valid() && other.Valid() && (this == other || Storage() !! other.Storage())
      modifies Storage(), other.Storage()
      ensures Valid() && other.Valid() && Read() == old(other.Read())
    {
      if this == other {
        return;
      }
      ethereumAddressString.chars := other.ethereumAddressString.chars;
      websocketUrlString.chars := other.websocketUrlString.chars;
      other.ethereumAddressString.chars := *;
      other.websocketUrlString.chars := *;
      proxy := PeerStruct(ethereumAddressString, websocketUrlString);
    }
  }

  class ErrorCpp {
    const messageString: Text
    const codeString: Text
    var proxyCpp: ProxyCpp?
    var error: ErrorStruct

    ghost function Storage(): set<object>
      reads this
    {
      {this, messageString, codeString} + (if proxyCpp == null then {} else proxyCpp.Storage())
    }

    ghost predicate Valid()
      reads this, proxyCpp
    {
      && messageString != codeString
      && (proxyCpp != null ==> proxyCpp.Valid() && {messageString, codeString} !! proxyCpp.Storage())
      && error == ErrorStruct(messageString, codeString, proxyCpp)
    }

    /** What a C caller reads through `getError()`. */
    ghost function Read(): ErrorText
      requires Valid()
      reads this, proxyCpp, Storage()
    {
      ReadError(error)
    }

    constructor (message: string, code: string, peer: ProxyCpp?)
      requires peer != null ==> peer.Valid()
      ensures Valid() && fresh(Storage())
      ensures Read() == ErrorText(message, code, if peer == null then None else Some(peer.Read()))
    {
      var m := new Text(message);
      var c := new Text(code);
      var p: ProxyCpp? := null;
      if peer != null {
        p := new ProxyCpp.Copy(peer);
      }
      messageString, codeString, proxyCpp, error := m, c, p, ErrorStruct(m, c, p);
    }

    constructor Copy(other: ErrorCpp)
      requires other.Valid()
      ensures Valid() && fresh(Storage()) && Read() == other.Read()
    {
      var m := new Text(other.messageString.chars);
      var c := new Text(other.codeString.chars);
      var p: ProxyCpp? := null;
      if other.proxyCpp != null {
        p := new ProxyCpp.Copy(other.proxyCpp);
      }
      messageString, codeString, proxyCpp, error := m, c, p, ErrorStruct(m, c, p);
    }

    /** Moving an optional moves the contained object and leaves both engaged. */
    constructor Move(other: ErrorCpp)
      requires other.Valid()
      modifies other.Storage()
      ensures Valid() && fresh(Storage()) && Read() == old(other.Read())
      ensures other.Valid() && other.Storage() == old(other.Storage())
    {
      var m := new Text(other.messageString.chars);
      var c := new Text(other.codeString.chars);
      var p: ProxyCpp? := null;
      if other.proxyCpp != null {
        p := new ProxyCpp.Move(other.proxyCpp);
      }
      messageString, codeString, proxyCpp, error := m, c, p, ErrorStruct(m, c, p);
      new;
      other.messageString.chars := *;
      other.codeString.chars := *;
    }

    method Assign(other: ErrorCpp)
      requires Valid() && other.Valid() && (this == other || Storage() !! other.Storage())
      modifies Storage()
      ensures Valid() && other.Valid() && fresh(Storage() - old(Storage()))
      ensures Read() == old(other.Read()) && other.Read() == old(other.Read())
    {
      if this == other {
        return;
      }
      messageString.chars := other.messageString.chars;
      codeString.chars := other.codeString.chars;
      if other.proxyCpp == null {
        proxyCpp := null;
      } else if proxyCpp == null {
        proxyCpp := new ProxyCpp.Copy(other.proxyCpp);
      } else {
        proxyCpp.Assign(other.proxyCpp);
      }
      error := ErrorStruct(messageString, codeString, proxyCpp);
    }

    method MoveAssign(other: ErrorCpp)
      requires Valid() && other.Valid() && (this == other || Storage() !! other.Storage())
      modifies Storage(), other.Storage()
      ensures Valid() && other.Valid() && fresh(Storage() - old(Storage()))
      ensures Read() == old(other.Read())
    {
      if this == other {
        return;
      }
      messageString.chars := other.messageString.chars;
      codeString.chars := other.codeString.chars;
      if other.proxyCpp == null {
        proxyCpp := null;
      } else if proxyCpp == null {
        proxyCpp := new ProxyCpp.Move(other.proxyCpp);
      } else {
        proxyCpp.MoveAssign(other.proxyCpp);
      }
      other.messageString.chars := *;
      other.codeString.chars := *;
      error := ErrorStruct(messageString, codeString, proxyCpp);
    }
  }

  /** The objects a C caller touches when following the pointers of an error. */
  ghost function Reached(e: ErrorStruct): set<object>
    reads e.peer
  {
    {e.message, e.code}
    + (if e.peer == null then {} else {e.peer, e.peer.proxy.ethereumAddress, e.peer.proxy.websocketUrl})
  }

  ghost function ReadError(e: ErrorStruct): ErrorText
    reads e.peer, Reached(e)
  {
    ErrorText(e.message.chars, e.code.chars, if e.peer == null then None else Some(ReadPeer(e.peer.proxy)))
  }

  // ----- results -----------------------------------------------------------

  /** Copies the error objects and collects their structs. `owned` is all the
      storage the copies consist of. */
  method CopyErrors(from: seq<ErrorCpp>)
    returns (copies: seq<ErrorCpp>, structs: seq<ErrorStruct>, ghost owned: set<object>)
    requires forall i :: 0 <= i < |from| ==> from[i].Valid()
    ensures fresh(owned) && |copies| == |structs| == |from|
    ensures forall i :: 0 <= i < |from| ==>
      Reached(structs[i]) <= owned && ReadError(structs[i]) == from[i].Read()
  {
    copies, structs, owned := [], [], {};
    for k := 0 to |from|
      invariant fresh(owned) && |copies| == |structs| == k
      invariant forall i :: 0 <= i < k ==>
        Reached(structs[i]) <= owned && ReadError(structs[i]) == from[i].Read()
    {
      var c := new ErrorCpp.Copy(from[k]);
      copies, structs, owned := copies + [c], structs + [c.error], owned + c.Storage();
    }
  }

  ghost function ReachedPeer(p: PeerStruct): set<object> {
    {p.ethereumAddress, p.websocketUrl}
  }

  method CopyPeers(from: seq<ProxyCpp>)
    returns (copies: seq<ProxyCpp>, structs: seq<PeerStruct>, ghost owned: set<object>)
    requires forall i :: 0 <= i < |from| ==> from[i].Valid()
    ensures fresh(owned) && |copies| == |structs| == |from|
    ensures forall i :: 0 <= i < |from| ==>
      ReachedPeer(structs[i]) <= owned && ReadPeer(structs[i]) == from[i].Read()
  {
    copies, structs, owned := [], [], {};
    for k := 0 to |from|
      invariant fresh(owned) && |copies| == |structs| == k
      invariant forall i :: 0 <= i < k ==>
        ReachedPeer(structs[i]) <= owned && ReadPeer(structs[i]) == from[i].Read()
    {
      var c := new ProxyCpp.Copy(from[k]);
      copies, structs, owned := copies + [c], structs + [c.proxy], owned + c.Storage();
    }
  }

  /** What a result says. */
  datatype Content = Content(errors: seq<ErrorText>, successful: seq<Peer>)

  class ProxyResultCpp {
    var errorsCppVector: seq<ErrorCpp>
    var successfulCppVector: seq<ProxyCpp>
    var errorsVector: seq<ErrorStruct>
    var successfulVector: seq<PeerStruct>
    var numErrors: nat
    var numSuccessful: nat
    /** Everything this result owns. */
    ghost var storage: set<object>

    ghost predicate Valid()
      reads this, storage
    {
      && numErrors == |errorsVector| && numSuccessful == |successfulVector|
      && (forall i :: 0 <= i < numErrors ==>
            (errorsVector[i].peer != null ==> errorsVector[i].peer in storage) && Reached(errorsVector[i]) <= storage)
      && (forall i :: 0 <= i < numSuccessful ==> ReachedPeer(successfulVector[i]) <= storage)
    }

    /** The i-th error and the i-th peer as a C caller reads them. */
    ghost function ErrorAt(i: nat): ErrorText
      requires Valid() && i < numErrors
      reads this, storage
    {
      ReadError(errorsVector[i])
    }

    ghost function PeerAt(i: nat): Peer
      requires Valid() && i < numSuccessful
      reads this, storage
    {
      ReadPeer(successfulVector[i])
    }

    /** All errors and all peers as a C caller reads them. */
    ghost function Read(): Content
      requires Valid()
      reads this, storage
    {
      Content(seq(numErrors, i requires 0 <= i < numErrors && Valid() reads this, storage => ErrorAt(i)),
              seq(numSuccessful, i requires 0 <= i < numSuccessful && Valid() reads this, storage => PeerAt(i)))
    }

    /** Every pointer of the new result leads into storage that nothing else
        owns, and reading through it gives exactly the arguments, in order. */
    constructor (errorsCpp: seq<ErrorCpp>, successfulCpp: seq<ProxyCpp>)
      requires forall i :: 0 <= i < |errorsCpp| ==> errorsCpp[i].Valid()
      requires forall i :: 0 <= i < |successfulCpp| ==> successfulCpp[i].Valid()
      ensures Valid() && fresh(storage) && this !in storage
      ensures numErrors == |errorsCpp| && numSuccessful == |successfulCpp|
      ensures forall i :: 0 <= i < numErrors ==> ErrorAt(i) == old(errorsCpp[i].Read())
      ensures forall i :: 0 <= i < numSuccessful ==> PeerAt(i) == old(successfulCpp[i].Read())
    {
      var es, ev, eOwned := CopyErrors(errorsCpp);
      var ps, pv, pOwned := CopyPeers(successfulCpp);
      errorsCppVector, successfulCppVector := es, ps;
      errorsVector, successfulVector := ev, pv;
      numErrors, numSuccessful := |ev|, |pv|;
      storage := eOwned + pOwned;
    }
  }

  // ----- chains of copies, moves and assignments ---------------------------

  /** One hand-over of an error object: into a new object, or over an object
      that held something else before. */
  datatype HandOver =
    | CopyConstruct
    | MoveConstruct
    | CopyAssign(held: ErrorText)
    | MoveAssign(held: ErrorText)

  method MakeError(text: ErrorText) returns (e: ErrorCpp)
    ensures e.Valid() && fresh(e.Storage()) && e.Read() == text
  {
    var p: ProxyCpp? := null;
    if text.peer.Some? {
      p := new ProxyCpp(text.peer.value.ethereumAddress, text.peer.value.websocketUrl);
    }
    e := new ErrorCpp(text.message, text.code, p);
  }

  method PassOn(from: ErrorCpp, how: HandOver) returns (receiver: ErrorCpp)
    requires from.Valid()
    modifies from.Storage()
    ensures receiver.Valid() && fresh(receiver.Storage()) && receiver.Read() == old(from.Read())
  {
    if how.CopyConstruct? {
      receiver := new ErrorCpp.Copy(from);
    } else if how.MoveConstruct? {
      receiver := new ErrorCpp.Move(from);
    } else {
      receiver := MakeError(how.held);
      if how.CopyAssign? {
        receiver.Assign(from);
      } else {
        receiver.MoveAssign(from);
      }
    }
  }

  datatype PeerHandOver = CopyPeer | MovePeer | CopyOver(held: Peer) | MoveOver(held: Peer)

  method PassOnPeer(from: ProxyCpp, how: PeerHandOver) returns (receiver: ProxyCpp)
    requires from.Valid()
    modifies from.Storage()
    ensures receiver.Valid() && fresh(receiver.Storage()) && receiver.Read() == old(from.Read())
  {
    if how.CopyPeer? {
      receiver := new ProxyCpp.Copy(from);
    } else if how.MovePeer? {
      receiver := new ProxyCpp.Move(from);
    } else {
      receiver := new ProxyCpp(how.held.ethereumAddress, how.held.websocketUrl);
      if how.CopyOver? {
        receiver.Assign(from);
      } else {
        receiver.MoveAssign(from);
      }
    }
  }

  /** Passing an object on any number of times: nothing outside the storage of
      the first object is touched, and what it said arrives. */
  method ThroughChain(first: ErrorCpp, chain: seq<HandOver>) returns (last: ErrorCpp)
    requires first.Valid()
    modifies first.Storage()
    ensures last.Valid() && last.Read() == old(first.Read())
    ensures fresh(last.Storage() - old(first.Storage()))
  {
    last := first;
    for k := 0 to |chain|
      invariant last.Valid() && last.Read() == old(first.Read())
      invariant k == 0 ==> last == first && last.Storage() == old(first.Storage())
      invariant k > 0 ==> fresh(last.Storage())
    {
      last := PassOn(last, chain[k]);
    }
  }

  method PeerThroughChain(first: ProxyCpp, chain: seq<PeerHandOver>) returns (last: ProxyCpp)
    requires first.Valid()
    modifies first.Storage()
    ensures last.Valid() && last.Read() == old(first.Read())
    ensures fresh(last.Storage() - first.Storage())
  {
    last := first;
    for k := 0 to |chain|
      invariant last.Valid() && last.Read() == old(first.Read())
      invariant last == first || fresh(last.Storage())
    {
      last := PassOnPeer(last, chain[k]);
    }
  }
}
