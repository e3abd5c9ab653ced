/** The results of a run in memory: the map of values that the state machine
    keeps is what C callers read through the pointers of the live results. */
module ResultMemory {
  import opened Options
  import opened PeerList
  import opened NodeSpec
  import opened NodeRuns
  import NodeLedgers
  import RS = ResultStorage
  import RR = ResultRegistry

  /** How a failure is written: code and message as strings. */
  type Wording = Failure -> RS.ErrorText

  function Written(w: Wording, r: Result): RS.Content {
    RS.Content(seq(|r.errors|, i requires 0 <= i < |r.errors| => w(r.errors[i])), r.successful)
  }

  function AllWritten(w: Wording, results: map<Ptr, Result>): map<Ptr, RS.Content> {
    map p | p in results :: Written(w, results[p])
  }

  /** What a step of the state machine does to the memory of results. How often
      the source objects are copied, moved or assigned is open. */
  ghost predicate Mirrors(w: Wording, c: Call, r: Response, live: map<Ptr, Result>, e: RR.Event) {
    if r.Replied? then
      && e.Published? && e.ptr == r.result && e.ptr in live
      && RS.Content(e.errors, e.peers) == Written(w, live[e.ptr])
    else if c.CleanupLibrary? then e.Cleared?
    else if c.ResultDelete? then e == RR.Deleted(c.result)
    else e.Unrelated?
  }

  ghost predicate MirrorsAt(urls: Urls, run: Run, w: Wording, k: nat, e: RR.Event) {
    k < |run| && Mirrors(w, run[k].0, ResponseAt(urls, run, k), NodeLedgers.Live(Exec(urls, run[..k + 1])), e)
  }

  ghost predicate Follows(urls: Urls, run: Run, w: Wording, events: seq<RR.Event>) {
    |events| == |run| && forall k :: 0 <= k < |run| ==> MirrorsAt(urls, run, w, k, events[k])
  }

  lemma SamePrefix(urls: Urls, run: Run, n: nat, w: Wording, k: nat, e: RR.Event)
    requires k < n <= |run|
    ensures MirrorsAt(urls, run[..n], w, k, e) <==> MirrorsAt(urls, run, w, k, e)
  {
    hide Exec, Step, Mirrors;
    assert run[..n][..k] == run[..k] && run[..n][..k + 1] == run[..k + 1] && run[..n][k] == run[k];
  }

  lemma FollowsUpTo(urls: Urls, run: Run, w: Wording, events: seq<RR.Event>, n: nat)
    requires Follows(urls, run, w, events) && n <= |run|
    ensures Follows(urls, run[..n], w, events[..n])
  {
    hide MirrorsAt;
    forall k: nat | k < n ensures MirrorsAt(urls, run[..n], w, k, events[k]) {
      SamePrefix(urls, run, n, w, k, events[k]);
    }
  }

  /** Every run has such events, for instance without any hand-over. */
  lemma {:induction false} EventsExist(urls: Urls, run: Run, w: Wording) returns (events: seq<RR.Event>)
    ensures Follows(urls, run, w, events)
    ensures forall k :: 0 <= k < |events| ==> RR.WellFormed(events[k])
  {
    if run == [] {
      return [];
    }
    hide MirrorsAt, RR.WellFormed;
    var last := |run| - 1;
    var some := EventsExist(urls, run[..last], w);
    var e := LastEvent(urls, run, w);
    events := some + [e];
    forall k: nat | k < last ensures MirrorsAt(urls, run, w, k, events[k]) {
      SamePrefix(urls, run, last, w, k, some[k]);
    }
  }

  lemma LastEvent(urls: Urls, run: Run, w: Wording) returns (e: RR.Event)
    requires run != []
    ensures MirrorsAt(urls, run, w, |run| - 1, e) && RR.WellFormed(e)
  {
    hide Exec, Step, LibInv, NodeLedgers.Escapes, NodeLedgers.SameButTraces, Mirrors, RR.WellFormed;
    var last := |run| - 1;
    RunInv(urls, run[..last]);
    NodeLedgers.OneResultUnlessEscaped(urls, Exec(urls, run[..last]), run[last].0, run[last].1);
    ExecSnoc(urls, run, last);
    assert run[..last + 1] == run;
    e := Mirror(w, run[last].0, ResponseAt(urls, run, last), NodeLedgers.Live(Exec(urls, run)));
  }

  ghost function Mirror(w: Wording, c: Call, r: Response, live: map<Ptr, Result>): (e: RR.Event)
    requires r.Replied? ==> r.result in live
    ensures Mirrors(w, c, r, live, e) && RR.WellFormed(e)
  {
    if r.Replied? then
      var content := Written(w, live[r.result]);
      var none, nonePeers := seq(|content.errors|, _ => []), seq(|content.successful|, _ => []);
      RR.Published(r.result, content.errors, none, none, content.successful, nonePeers, nonePeers)
    else if c.CleanupLibrary? then RR.Cleared
    else if c.ResultDelete? then RR.Deleted(c.result)
    else RR.Unrelated
  }

  /** One step and its event change the two maps alike. */
  lemma StepBooked(urls: Urls, lib: Library, c: Call, ptr: Ptr, w: Wording, e: RR.Event, book: map<Ptr, RS.Content>)
    requires LibInv(lib) && book == AllWritten(w, NodeLedgers.Live(lib))
    requires var (lib', r) := Step(urls, lib, c, ptr); Mirrors(w, c, r, NodeLedgers.Live(lib'), e)
    ensures RR.Booked(book, e) == AllWritten(w, NodeLedgers.Live(Step(urls, lib, c, ptr).0))
  {
    hide Step, LibInv, NodeLedgers.Escapes, NodeLedgers.SameButTraces, Written;
    NodeLedgers.OneResultUnlessEscaped(urls, lib, c, ptr);
  }

  lemma {:induction false} BookOfRun(urls: Urls, run: Run, w: Wording, events: seq<RR.Event>)
    requires Follows(urls, run, w, events)
    ensures RR.Book(events) == AllWritten(w, NodeLedgers.Live(Exec(urls, run)))
  {
    hide Step, LibInv, Mirrors, AllWritten, NodeLedgers.Live, RR.Booked;
    if run == [] {
      EmptyBook(w);
    } else {
      var before, last := run[..|run| - 1], |run| - 1;
      FollowsUpTo(urls, run, w, events, last);
      BookOfRun(urls, before, w, events[..last]);
      RunInv(urls, before);
      assert run[..last + 1] == run;
      assert MirrorsAt(urls, run, w, last, events[last]);
      StepBooked(urls, Exec(urls, before), run[last].0, run[last].1, w, events[last], RR.Book(events[..last]));
    }
  }

  lemma EmptyBook(w: Wording)
    ensures AllWritten(w, NodeLedgers.Live(INITIAL)) == map[]
  {
  }

  lemma RepliedMakesResult(urls: Urls, run: Run, k: nat)
    requires k < |run| && ResponseAt(urls, run, k).Replied?
    ensures MakesResult(run[k].0) && ResponseAt(urls, run, k).result == run[k].1
  {
    hide Exec, Act;
  }

  lemma AddressesStayFresh(urls: Urls, run: Run, w: Wording, events: seq<RR.Event>)
    requires Follows(urls, run, w, events) && NodeLedgers.FreshAddresses(urls, run)
    ensures RR.FreshAddresses(events)
  {
    hide Exec, Step, RR.Book;
    forall k: nat | k < |events| && events[k].Published? ensures events[k].ptr !in RR.Book(events[..k]) {
      assert MirrorsAt(urls, run, w, k, events[k]);
      assert ResponseAt(urls, run, k).Replied?;
      RepliedMakesResult(urls, run, k);
      FollowsUpTo(urls, run, w, events, k);
      BookOfRun(urls, run[..k], w, events[..k]);
    }
  }

  /** For every run, however its source objects are handed around and whatever
      becomes of freed memory: through the address of each live result a C
      caller reads exactly what the state machine says, and no other address
      is live. */
  method MemoryOfRun(urls: Urls, run: Run, w: Wording, events: seq<RR.Event>) returns (registry: RR.Registry)
    requires Follows(urls, run, w, events) && NodeLedgers.FreshAddresses(urls, run)
    requires forall k :: 0 <= k < |events| ==> RR.WellFormed(events[k])
    ensures registry.Valid() && registry.View() == AllWritten(w, NodeLedgers.Live(Exec(urls, run)))
  {
    hide Exec, Follows, RR.Book;
    AddressesStayFresh(urls, run, w, events);
    BookOfRun(urls, run, w, events);
    registry := RR.Replay(events);
  }
}
