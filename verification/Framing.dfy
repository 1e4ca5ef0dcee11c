/** Length-prefixed messages over a byte stream: the writer, the incremental reader and its two buffers. */
module Framing {
  import opened Basics
  import opened Bytes

  const MAX_MESSAGE_CONTENTS_LENGTH: nat := 65535
  const HEADER_LENGTH: nat := 2
  const CAPACITY: nat := 2 * (HEADER_LENGTH + MAX_MESSAGE_CONTENTS_LENGTH)

  type Payload = seq<byte>

  // ----- the writer

  /** The length is cast to 16 bits and written least significant byte first. */
  function Header(length: nat): (h: seq<byte>)
    ensures |h| == HEADER_LENGTH
  {
    var n := length % 65536;
    [n % 256, n / 256]
  }

  function Frame(p: Payload): (s: seq<byte>) {
    Header(|p|) + p
  }

  function Written(payloads: seq<Payload>): (s: seq<byte>) {
    if payloads == [] then [] else Frame(payloads[0]) + Written(payloads[1..])
  }

  // ----- the reader

  function DeclaredLength(input: seq<byte>): (n: nat)
    requires |input| >= HEADER_LENGTH
    ensures n <= MAX_MESSAGE_CONTENTS_LENGTH
  {
    (input[0] as int) + 256 * (input[1] as int)
  }

  /** A message needs more than a header's worth of bytes, even when it declares no contents. */
  function Extract(input: seq<byte>): (r: Option<(Payload, nat)>)
    ensures r.Some? ==> HEADER_LENGTH <= r.value.1 <= |input| && |r.value.0| <= MAX_MESSAGE_CONTENTS_LENGTH
  {
    if |input| <= HEADER_LENGTH then None
    else
      var length := DeclaredLength(input);
      if |input| - HEADER_LENGTH < length then None
      else Some((input[HEADER_LENGTH..HEADER_LENGTH + length], HEADER_LENGTH + length))
  }

  /** All the messages at the front of the input, and the bytes that remain. */
  function ExtractAll(input: seq<byte>): (r: (seq<Payload>, seq<byte>))
    decreases |input|
  {
    match Extract(input)
    case None => ([], input)
    case Some(message) =>
      var rest := ExtractAll(input[message.1..]);
      ([message.0] + rest.0, rest.1)
  }

  function Delivered(input: seq<byte>): (r: seq<Payload>) {
    ExtractAll(input).0
  }

  /** Reading chunk by chunk, keeping the unprocessed bytes in between. */
  function Chunked(pending: seq<byte>, chunks: seq<seq<byte>>): (r: (seq<Payload>, seq<byte>))
    decreases |chunks|
  {
    if chunks == [] then ([], pending)
    else
      var first := ExtractAll(pending + chunks[0]);
      var rest := Chunked(first.1, chunks[1..]);
      (first.0 + rest.0, rest.1)
  }

  function Concat(chunks: seq<seq<byte>>): (s: seq<byte>) {
    if chunks == [] then [] else chunks[0] + Concat(chunks[1..])
  }

  /** Headers are the 16-bit little-endian form of a length, written and read alike. */
  lemma HeaderIsLittleEndian(length: nat, input: seq<byte>)
    ensures Header(length) == Padded(length % 65536, HEADER_LENGTH)
    ensures |input| >= HEADER_LENGTH ==> DeclaredLength(input) == FromDigits(input[..HEADER_LENGTH])
  {
    var n := length % 65536;
    assert Limit(2) == 65536 by {
      LimitStep(1);
      LimitStep(0);
    }
    ReadPadded(n, 2);
    PadRead(Header(length));
    assert FromDigits(Header(length)) == n by { TwoDigits(Header(length)); }
    if |input| >= HEADER_LENGTH {
      TwoDigits(input[..2]);
    }
  }

  lemma TwoDigits(s: seq<byte>)
    requires |s| == 2
    ensures FromDigits(s) == (s[0] as int) + 256 * (s[1] as int)
  {
    assert s[1..][0] == s[1] && s[1..][1..] == [];
    assert FromDigits(s[1..][1..]) == 0;
  }

  // ----- how the cut of the stream does not matter

  /** More input does not change a message that is already complete. */
  lemma ExtractIsStable(a: seq<byte>, b: seq<byte>)
    requires Extract(a).Some?
    ensures Extract(a + b) == Extract(a)
  {
    var end := Extract(a).value.1;
    assert (a + b)[HEADER_LENGTH..end] == a[HEADER_LENGTH..end];
  }

  lemma {:induction false} ExtractAllAppend(a: seq<byte>, b: seq<byte>)
    ensures
      var first := ExtractAll(a);
      var rest := ExtractAll(first.1 + b);
      ExtractAll(a + b) == (first.0 + rest.0, rest.1)
    decreases |a|
  {
    match Extract(a)
    case None =>
      assert [] + ExtractAll(a + b).0 == ExtractAll(a + b).0;
    case Some(m) =>
      ExtractIsStable(a, b);
      ExtractAllAppend(a[m.1..], b);
      assert (a + b)[m.1..] == a[m.1..] + b;
      var first := ExtractAll(a[m.1..]);
      var rest := ExtractAll(first.1 + b);
      assert [m.0] + (first.0 + rest.0) == ([m.0] + first.0) + rest.0;
  }

  /** Nothing more can be extracted from what remains, which is short enough to leave room for reading. */
  lemma {:induction false} LeftoverBound(input: seq<byte>)
    ensures Extract(ExtractAll(input).1) == None
    ensures |ExtractAll(input).1| <= HEADER_LENGTH + MAX_MESSAGE_CONTENTS_LENGTH - 1
    ensures |ExtractAll(input).1| <= |input|
    decreases |input|
  {
    if Extract(input).Some? {
      LeftoverBound(input[Extract(input).value.1..]);
    }
  }

  /** The same messages come out however the stream is cut, and the same bytes remain. */
  lemma {:induction false} ChunkingDoesNotMatter(pending: seq<byte>, chunks: seq<seq<byte>>)
    requires Extract(pending) == None
    ensures Chunked(pending, chunks) == ExtractAll(pending + Concat(chunks))
    decreases |chunks|
  {
    hide Extract;
    if chunks == [] {
      assert pending + [] == pending;
    } else {
      var first := ExtractAll(pending + chunks[0]);
      LeftoverBound(pending + chunks[0]);
      ChunkingDoesNotMatter(first.1, chunks[1..]);
      ExtractAllAppend(pending + chunks[0], Concat(chunks[1..]));
      assert pending + chunks[0] + Concat(chunks[1..]) == pending + Concat(chunks);
    }
  }

  // ----- when the reader gets what the writer sent

  ghost predicate Fit(payloads: seq<Payload>) {
    forall i :: 0 <= i < |payloads| ==> |payloads[i]| <= MAX_MESSAGE_CONTENTS_LENGTH
  }

  lemma ReadFrame(p: Payload, more: seq<byte>)
    requires |p| <= MAX_MESSAGE_CONTENTS_LENGTH && (p != [] || more != [])
    ensures Extract(Frame(p) + more) == Some((p, HEADER_LENGTH + |p|))
    ensures (Frame(p) + more)[HEADER_LENGTH + |p|..] == more
  {
    var s := Frame(p) + more;
    assert s[0] == |p| % 256 && s[1] == |p| / 256;
    assert s[HEADER_LENGTH..HEADER_LENGTH + |p|] == p;
  }

  lemma WrittenNonEmpty(payloads: seq<Payload>)
    requires payloads != []
    ensures Written(payloads) != []
  {
  }

  /** Payloads that end in a non-empty one arrive complete, with nothing left over. */
  lemma {:induction false} ReceivesAll(payloads: seq<Payload>)
    requires Fit(payloads) && (payloads != [] ==> payloads[|payloads| - 1] != [])
    ensures ExtractAll(Written(payloads)) == (payloads, [])
  {
    if payloads != [] {
      var rest := payloads[1..];
      ReceivesAll(rest);
      if rest != [] {
        WrittenNonEmpty(rest);
      }
      ReadFrame(payloads[0], Written(rest));
      assert [payloads[0]] + rest == payloads;
    }
  }

  /** A trailing empty payload stays behind as a bare header until more bytes come. */
  lemma {:induction false} HoldsBackLastEmpty(payloads: seq<Payload>)
    requires Fit(payloads) && payloads != [] && payloads[|payloads| - 1] == []
    ensures ExtractAll(Written(payloads)) == (payloads[..|payloads| - 1], Header(0))
  {
    var rest := payloads[1..];
    if rest == [] {
      assert Written(payloads) == Header(0);
      assert payloads[..0] == [];
    } else {
      HoldsBackLastEmpty(rest);
      WrittenNonEmpty(rest);
      ReadFrame(payloads[0], Written(rest));
      assert [payloads[0]] + rest[..|rest| - 1] == payloads[..|payloads| - 1];
    }
  }

  lemma {:induction false} DeliveredFit(input: seq<byte>)
    ensures Fit(Delivered(input))
    decreases |input|
  {
    if Extract(input).Some? {
      DeliveredFit(input[Extract(input).value.1..]);
    }
  }

  /**
   * For every list of payloads and every way the network cuts the stream, the
   * reader delivers exactly the payloads written if and only if each fits the
   * 16-bit length and the last is not empty.
   */
  lemma ReceivedIffFitAndLastNonEmpty(payloads: seq<Payload>, chunks: seq<seq<byte>>)
    requires Concat(chunks) == Written(payloads)
    ensures Chunked([], chunks).0 == payloads <==>
            Fit(payloads) && (payloads != [] ==> payloads[|payloads| - 1] != [])
  {
    ChunkingDoesNotMatter([], chunks);
    assert [] + Concat(chunks) == Concat(chunks);
    DeliveredFit(Written(payloads));
    if Fit(payloads) {
      if payloads != [] && payloads[|payloads| - 1] == [] {
        HoldsBackLastEmpty(payloads);
      } else {
        ReceivesAll(payloads);
      }
    }
  }

  // ----- the two tasks as the program runs them

  /** The sending task: a header and the bytes, for each payload in turn. */
  method WriteFrames(payloads: seq<Payload>) returns (stream: seq<byte>)
    ensures stream == Written(payloads)
  {
    stream := [];
    for i := 0 to |payloads|
      invariant stream + Written(payloads[i..]) == Written(payloads)
    {
      var length := |payloads[i]| % 65536;
      stream := stream + [length % 256, length / 256];
      stream := stream + payloads[i];
      assert payloads[i..][1..] == payloads[i + 1..];
    }
  }

  /** The receiving task with its two buffers, swapped after every read. */
  class Receiver {
    var buffer: array<byte>
    var aux: array<byte>
    var contents: nat
    var delivered: seq<Payload>

    ghost predicate Valid()
      reads this
    {
      && buffer.Length == CAPACITY && aux.Length == CAPACITY && buffer != aux
      && contents <= HEADER_LENGTH + MAX_MESSAGE_CONTENTS_LENGTH - 1
    }

    ghost function Pending(): (s: seq<byte>)
      requires Valid()
      reads this, buffer
    {
      buffer[..contents]
    }

    constructor ()
      ensures Valid() && fresh(buffer) && fresh(aux) && Pending() == [] && delivered == []
    {
      buffer := new byte[CAPACITY](_ => 0);
      aux := new byte[CAPACITY](_ => 0);
      contents := 0;
      delivered := [];
    }

    /** One read that filled `chunk` in at the end of the contents, and the loop that extracts messages. */
    method OnRead(chunk: seq<byte>)
      requires Valid() && 0 < |chunk| <= buffer.Length - contents
      modifies this, buffer, aux
      ensures Valid() && {buffer, aux} == {old(buffer), old(aux)}
      ensures delivered == old(delivered) + ExtractAll(old(Pending()) + chunk).0
      ensures Pending() == ExtractAll(old(Pending()) + chunk).1
    {
      hide Extract, ExtractAll;
      ghost var input := Pending() + chunk;
      forall i | 0 <= i < |chunk| {
        buffer[contents + i] := chunk[i];
      }
      var filled := contents + |chunk|;
      assert buffer[..filled] == input;
      var offset := DeliverMessages(filled, input);
      LeftoverBound(input);
      ghost var rest := buffer[offset..filled];
      assert rest == input[offset..];
      forall i | 0 <= i < filled - offset {
        aux[i] := buffer[offset + i];
      }
      contents := filled - offset;
      assert aux[..contents] == rest;
      buffer, aux := aux, buffer;
    }

    method DeliverMessages(filled: nat, ghost input: seq<byte>) returns (offset: nat)
      requires filled <= buffer.Length && buffer[..filled] == input
      modifies this`delivered
      ensures offset <= filled
      ensures delivered == old(delivered) + ExtractAll(input).0
      ensures input[offset..] == ExtractAll(input).1
    {
      offset := 0;
      assert input[0..] == input;
      while true
        invariant offset <= filled
        invariant delivered + ExtractAll(input[offset..]).0 == old(delivered) + ExtractAll(input).0
        invariant ExtractAll(input[offset..]).1 == ExtractAll(input).1
        decreases filled - offset
      {
        assert buffer[offset..filled] == input[offset..];
        var message := Extract(buffer[offset..filled]);
        if message.None? {
          break;
        }
        assert input[offset..][message.value.1..] == input[offset + message.value.1..];
        delivered := delivered + [message.value.0];
        offset := offset + message.value.1;
      }
    }

    /**
     * The receiving loop over a whole stream: the network offers `offered(i)` bytes to the
     * i-th read, which takes what fits the free part of the buffer, and nothing
     * only at the end of the stream.
     */
    method Receive(stream: seq<byte>, offered: nat -> nat)
      requires Valid() && Pending() == [] && forall i :: offered(i) > 0
      modifies this, buffer, aux
      ensures Valid() && delivered == old(delivered) + Delivered(stream)
    {
      hide ExtractAll;
      var position, turn := 0, 0;
      ghost var buffers := {buffer, aux};
      assert stream[..0] == [];
      NothingIn();
      while true
        invariant Valid() && {buffer, aux} == buffers && position <= |stream|
        invariant delivered == old(delivered) + ExtractAll(stream[..position]).0
        invariant Pending() == ExtractAll(stream[..position]).1
        decreases |stream| - position
      {
        var window := buffer.Length - contents;
        var size := Smallest(offered(turn), window, |stream| - position);
        turn := turn + 1;
        if size == 0 {
          assert stream[..position] == stream;
          break;
        }
        var chunk := stream[position..position + size];
        ExtractAllAppend(stream[..position], chunk);
        assert stream[..position] + chunk == stream[..position + size];
        ghost var before, got := delivered, ExtractAll(Pending() + chunk).0;
        OnRead(chunk);
        assert delivered == before + got;
        position := position + size;
      }
    }
  }

  lemma NothingIn()
    ensures ExtractAll([]) == ([], [])
  {
  }

  function Smallest(a: nat, b: nat, c: nat): (r: nat)
    ensures r <= a && r <= b && r <= c && r in {a, b, c}
  {
    if a <= b && a <= c then a else if b <= c then b else c
  }
}
