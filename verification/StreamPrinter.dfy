/** StreamPrinter::print over a ZeroCopyOutputStream that hands out buffers of
    arbitrary sizes, empty and missing ones included. */
module StreamPrinter {

  type Byte = bv8

  /** The k-th call of Next yields a null buffer or one of the given size. */
  datatype Offer = NoBuffer | Buffer(size: nat)

  type Offers = nat -> Offer

  datatype Event = NextCall(size: nat) | BackUpCall(count: nat)

  function SizeOf(o: Offer): nat { if o.Buffer? then o.size else 0 }

  /** The bytes offered by calls `from` to `end` - 1. */
  function Offered(offers: Offers, from: nat, end: nat): nat
    requires from <= end
  {
    if from == end then 0 else Offered(offers, from, end - 1) + SizeOf(offers(end - 1))
  }

  /** The stream: what has been handed over, and the buffer last given out, of
      which the first `used` bytes count as output. */
  class OutputStream {
    const offers: Offers
    var calls: nat
    var flushed: seq<Byte>
    var buffer: array<Byte>
    var used: nat
    var mayBackUp: bool
    ghost var trace: seq<Event>

    ghost predicate Valid()
      reads this
    {
      used <= buffer.Length
    }

    ghost function Committed(): seq<Byte>
      requires Valid()
      reads this, buffer
    {
      flushed + buffer[..used]
    }

    constructor (offers: Offers)
      ensures Valid() && fresh(buffer) && Committed() == []
      ensures this.offers == offers && calls == 0 && trace == []
    {
      this.offers := offers;
      calls, flushed, used, mayBackUp, trace := 0, [], 0, false, [];
      buffer := new Byte[0];
    }

    /** Gives out the next buffer; everything in it counts as output until some is backed up. */
    method Next() returns (buf: array?<Byte>, size: nat)
      requires Valid()
      modifies this
      ensures Valid() && fresh(buffer) && calls == old(calls) + 1
      ensures size == SizeOf(offers(old(calls))) && (buf == null <==> offers(old(calls)).NoBuffer?)
      ensures buf != null ==> buf == buffer
      ensures buffer.Length == size == used && mayBackUp
      ensures flushed == old(Committed())
      ensures trace == old(trace) + [NextCall(size)]
    {
      flushed := flushed + buffer[..used];
      size := SizeOf(offers(calls));
      buffer := new Byte[size];
      used := size;
      mayBackUp := true;
      buf := if offers(calls).NoBuffer? then null else buffer;
      calls := calls + 1;
      trace := trace + [NextCall(size)];
    }

    /** Allowed only right after Next, and for at most what Next gave out. */
    method BackUp(count: nat)
      requires Valid() && mayBackUp && count <= used
      modifies this`used, this`mayBackUp, this`trace
      ensures Valid() && used == old(used) - count
      ensures trace == old(trace) + [BackUpCall(count)]
    {
      used := used - count;
      mayBackUp := false;
      trace := trace + [BackUpCall(count)];
    }
  }

  /** The calls that printing `n` bytes makes, starting with Next call `k`. */
  ghost function Calls(offers: Offers, k: nat, n: nat, limit: nat): seq<Event>
    requires k <= limit && Offered(offers, k, limit) >= n
    decreases limit - k
  {
    if n == 0 then []
    else
      OfferedFromFront(offers, k, limit);
      var size := SizeOf(offers(k));
      if size > n then [NextCall(size), BackUpCall(size - n)]
      else [NextCall(size)] + Calls(offers, k + 1, n - size, limit)
  }

  lemma {:induction false} OfferedFromFront(offers: Offers, from: nat, end: nat)
    requires from <= end
    ensures from < end ==> Offered(offers, from, end) == SizeOf(offers(from)) + Offered(offers, from + 1, end)
    ensures from == end ==> Offered(offers, from, end) == 0
  {
    if from + 1 < end {
      OfferedFromFront(offers, from, end - 1);
    }
  }

  /** There is at most one BackUp; it is the very last call, follows a Next and
      returns part, but not all, of that buffer. */
  lemma {:induction false} BackUpIsLastAndProper(offers: Offers, k: nat, n: nat, limit: nat, i: nat)
    requires k <= limit && Offered(offers, k, limit) >= n
    requires i < |Calls(offers, k, n, limit)| && Calls(offers, k, n, limit)[i].BackUpCall?
    ensures var c := Calls(offers, k, n, limit);
      i == |c| - 1 && i > 0 && c[i - 1].NextCall? && 0 < c[i].count < c[i - 1].size
    decreases limit - k
  {
    OfferedFromFront(offers, k, limit);
    var size := SizeOf(offers(k));
    if size <= n {
      BackUpIsLastAndProper(offers, k + 1, n - size, limit, i - 1);
    }
  }

  method Copy(buf: array<Byte>, value: seq<Byte>, from: nat, count: nat)
    requires from + count <= |value| && count <= buf.Length
    modifies buf
    ensures buf[..count] == value[from..from + count]
  {
    forall i | 0 <= i < count {
      buf[i] := value[from + i];
    }
  }

  /** The calls one round of the loop makes with `n` bytes left and a buffer of the given size. */
  function Round(size: nat, n: nat): seq<Event> {
    if size > n then [NextCall(size), BackUpCall(size - n)] else [NextCall(size)]
  }

  /** One round of the loop: as much as fits goes into the next buffer. */
  method Dump(stream: OutputStream, value: seq<Byte>, from: nat) returns (count: nat)
    requires stream.Valid() && from < |value|
    modifies stream
    ensures stream.Valid() && fresh(stream.buffer) && stream.calls == old(stream.calls) + 1
    ensures var size := SizeOf(stream.offers(old(stream.calls)));
      && count == (if |value| - from < size then |value| - from else size)
      && stream.trace == old(stream.trace) + Round(size, |value| - from)
    ensures stream.Committed() == old(stream.Committed()) + value[from..from + count]
  {
    count := 0;
    var buffer, bufferSize := stream.Next();
    if buffer != null && bufferSize > 0 {
      count := if |value| - from < bufferSize then |value| - from else bufferSize;
      Copy(buffer, value, from, count);
      if count < bufferSize {
        stream.BackUp(bufferSize - count);
      }
    }
  }

  /** Prints `value`. The stream has to offer that many bytes by call `limit`;
      which sizes they come in, and how many empty buffers come between, is open. */
  method Print(stream: OutputStream, value: seq<Byte>, ghost limit: nat)
    requires stream.Valid() && stream.calls <= limit && Offered(stream.offers, stream.calls, limit) >= |value|
    modifies stream
    ensures stream.Valid() && stream.calls <= limit
    ensures stream.buffer == old(stream.buffer) || fresh(stream.buffer)
    ensures stream.Committed() == old(stream.Committed()) + value
    ensures stream.trace == old(stream.trace) + Calls(stream.offers, old(stream.calls), |value|, limit)
    ensures old(stream.calls) <= stream.calls
    ensures Dumped(stream.offers, old(stream.calls), |value|, stream.calls - old(stream.calls)) == |value|
    ensures forall j :: 0 <= j < stream.calls - old(stream.calls) ==> Dumped(stream.offers, old(stream.calls), |value|, j) < |value|
  {
    hide Calls, Offered, Round;
    var dumpIndex := 0;
    ghost var all := Calls(stream.offers, stream.calls, |value|, limit);
    ghost var made: seq<Event> := [];
    while dumpIndex < |value|
      invariant 0 <= dumpIndex <= |value| && stream.Valid() && old(stream.calls) <= stream.calls <= limit
      invariant stream.buffer == old(stream.buffer) || fresh(stream.buffer)
      invariant stream.Committed() == old(stream.Committed()) + value[..dumpIndex]
      invariant Offered(stream.offers, stream.calls, limit) >= |value| - dumpIndex
      invariant stream.trace == old(stream.trace) + made
      invariant all == made + Calls(stream.offers, stream.calls, |value| - dumpIndex, limit)
      invariant dumpIndex == Dumped(stream.offers, old(stream.calls), |value|, stream.calls - old(stream.calls))
      invariant forall j :: 0 <= j < stream.calls - old(stream.calls) ==>
        Dumped(stream.offers, old(stream.calls), |value|, j) < |value|
      decreases limit - stream.calls
    {
      OfferedFromFront(stream.offers, stream.calls, limit);
      ghost var left := |value| - dumpIndex;
      ghost var size := SizeOf(stream.offers(stream.calls));
      CallsStep(stream.offers, stream.calls, left, limit);
      var count := Dump(stream, value, dumpIndex);
      assert made + (Round(size, left) + Calls(stream.offers, stream.calls, left - count, limit))
          == made + Round(size, left) + Calls(stream.offers, stream.calls, left - count, limit);
      made := made + Round(size, left);
      assert value[..dumpIndex + count] == value[..dumpIndex] + value[dumpIndex..dumpIndex + count];
      dumpIndex := dumpIndex + count;
    }
    assert value[..|value|] == value;
    assert Calls(stream.offers, stream.calls, 0, limit) == [] by { CallsDone(stream.offers, stream.calls, limit); }
  }

  lemma CallsDone(offers: Offers, k: nat, limit: nat)
    requires k <= limit
    ensures Calls(offers, k, 0, limit) == []
  {
  }

  lemma CallsStep(offers: Offers, k: nat, n: nat, limit: nat)
    requires k < limit && n > 0 && Offered(offers, k, limit) >= n
    ensures var size := SizeOf(offers(k));
      var left := if size > n then 0 else n - size;
      Offered(offers, k + 1, limit) >= left
      && Calls(offers, k, n, limit) == Round(size, n) + Calls(offers, k + 1, left, limit)
  {
    OfferedFromFront(offers, k, limit);
  }

  lemma {:induction false} OfferedMore(offers: Offers, from: nat, mid: nat, end: nat)
    requires from <= mid <= end
    ensures Offered(offers, from, end) == Offered(offers, from, mid) + Offered(offers, mid, end)
    decreases end
  {
    if mid < end {
      OfferedMore(offers, from, mid, end - 1);
    }
  }

  /** The tail of both generators: header text, then source text, into one file. */
  method WriteModule(stream: OutputStream, header: seq<Byte>, source: seq<Byte>, ghost mid: nat, ghost limit: nat)
    requires stream.Valid() && stream.calls <= mid <= limit
    requires Offered(stream.offers, stream.calls, mid) >= |header| && Offered(stream.offers, mid, limit) >= |source|
    modifies stream
    ensures stream.Valid() && stream.Committed() == old(stream.Committed()) + header + source
  {
    Print(stream, header, mid);
    OfferedMore(stream.offers, stream.calls, mid, limit);
    Print(stream, source, limit);
  }

  /** How much of `n` bytes has been written after `j` rounds of the loop. */
  function Dumped(offers: Offers, k: nat, n: nat, j: nat): nat {
    if j == 0 then 0
    else
      var d := Dumped(offers, k, n, j - 1);
      if d >= n then d
      else d + (if n - d < SizeOf(offers(k + j - 1)) then n - d else SizeOf(offers(k + j - 1)))
  }

  lemma {:induction false} DumpedIsOffered(offers: Offers, k: nat, n: nat, j: nat)
    ensures Dumped(offers, k, n, j) == if Offered(offers, k, k + j) < n then Offered(offers, k, k + j) else n
  {
    if j > 0 {
      DumpedIsOffered(offers, k, n, j - 1);
    }
  }

  /** The first `rounds` rounds of the loop of `print`, on any stream: it stops
      early exactly when everything has been written, and after each round as
      much has been committed as `Dumped` says. */
  method PrintRounds(stream: OutputStream, value: seq<Byte>, rounds: nat) returns (dumpIndex: nat)
    requires stream.Valid()
    modifies stream
    ensures stream.Valid() && old(stream.calls) <= stream.calls <= old(stream.calls) + rounds
    ensures dumpIndex == Dumped(stream.offers, old(stream.calls), |value|, rounds) <= |value|
    ensures stream.Committed() == old(stream.Committed()) + value[..dumpIndex]
    ensures stream.calls < old(stream.calls) + rounds ==> dumpIndex == |value|
  {
    dumpIndex := 0;
    var done := 0;
    while dumpIndex < |value| && done < rounds
      invariant 0 <= dumpIndex <= |value| && done <= rounds && stream.Valid() && stream.calls == old(stream.calls) + done
      invariant stream.buffer == old(stream.buffer) || fresh(stream.buffer)
      invariant dumpIndex == Dumped(stream.offers, old(stream.calls), |value|, done)
      invariant stream.Committed() == old(stream.Committed()) + value[..dumpIndex]
      decreases rounds - done
    {
      var count := Dump(stream, value, dumpIndex);
      assert value[..dumpIndex + count] == value[..dumpIndex] + value[dumpIndex..dumpIndex + count];
      dumpIndex := dumpIndex + count;
      done := done + 1;
    }
    if dumpIndex == |value| { DumpedStays(stream.offers, old(stream.calls), |value|, done, rounds); }
  }

  lemma {:induction false} DumpedStays(offers: Offers, k: nat, n: nat, i: nat, j: nat)
    requires i <= j && Dumped(offers, k, n, i) == n
    ensures Dumped(offers, k, n, j) == n
    decreases j - i
  {
    if i < j {
      DumpedStays(offers, k, n, i, j - 1);
    }
  }

  /** The loop ends exactly on streams that eventually offer enough bytes; on
      any other it spins forever, because a failing Next is not noticed. */
  lemma LoopEndsIffEnoughOffered(offers: Offers, k: nat, n: nat)
    ensures (exists j :: Dumped(offers, k, n, j) >= n) <==> (exists end :: end >= k && Offered(offers, k, end) >= n)
  {
    if j :| Dumped(offers, k, n, j) >= n {
      DumpedIsOffered(offers, k, n, j);
      assert Offered(offers, k, k + j) >= n;
    }
    if end :| end >= k && Offered(offers, k, end) >= n {
      DumpedIsOffered(offers, k, n, end - k);
      assert Dumped(offers, k, n, end - k) >= n;
    }
  }

  /** A stream whose Next always fails. */
  const FAILING: Offers := _ => NoBuffer

  /** On it no number of rounds writes anything, so the loop never ends. */
  lemma {:induction false} FailingStreamNeverEnds(k: nat, n: nat, j: nat)
    ensures Dumped(FAILING, k, n, j) == 0
  {
    if j > 0 {
      FailingStreamNeverEnds(k, n, j - 1);
    }
  }
}
