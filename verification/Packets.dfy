/** Commons/Pack.c: packets of a type, a 16-bit length and that many bytes, on a connection that
    takes and gives bytes in pieces of any size. */
module Packets {

  type Byte = b: int | 0 <= b < 256

  const HEAD_LEN := 3

  datatype Nipc = Nipc(kind: Byte, payload: seq<Byte>)

  predicate Fits(nipc: Nipc) {
    |nipc.payload| < 0x10000
  }

  /** Type, length with its low byte first, payload. */
  function Serialized(nipc: Nipc): (bytes: seq<Byte>)
    requires Fits(nipc)
    ensures |bytes| == 3 + |nipc.payload|
    ensures bytes[0] == nipc.kind && bytes[1] as int + 256 * bytes[2] as int == |nipc.payload|
    ensures bytes[3..] == nipc.payload
  {
    [nipc.kind, |nipc.payload| % 256, |nipc.payload| / 256] + nipc.payload
  }

  /** pack->length, itself 16 bits wide */
  function PackLength(nipc: Nipc): nat {
    (3 + |nipc.payload|) % 0x10000
  }

  function LengthOf(bytes: seq<Byte>): nat
    requires |bytes| >= 3
  {
    bytes[1] as int + bytes[2] as int * 256
  }

  function Deserialized(bytes: seq<Byte>): Nipc
    requires |bytes| >= 3 && |bytes| >= 3 + LengthOf(bytes)
  {
    Nipc(bytes[0], bytes[3..3 + LengthOf(bytes)])
  }

  /** A packet is read back from its bytes, whatever follows them. */
  lemma RoundTrip(nipc: Nipc, more: seq<Byte>)
    requires Fits(nipc)
    ensures LengthOf(Serialized(nipc) + more) == |nipc.payload| && Deserialized(Serialized(nipc) + more) == nipc
  {
    var bytes := Serialized(nipc) + more;
    assert bytes[3..3 + |nipc.payload|] == nipc.payload;
  }

  /** Bytes that are as long as they say are the bytes of a packet. */
  lemma RoundTripBack(bytes: seq<Byte>)
    requires |bytes| >= 3 && |bytes| == 3 + LengthOf(bytes)
    ensures Fits(Deserialized(bytes)) && Serialized(Deserialized(bytes)) == bytes
  {
  }

  /** All of a packet is sent exactly when its whole length fits in 16 bits. */
  lemma SentWhole(nipc: Nipc)
    requires Fits(nipc)
    ensures PackLength(nipc) == |Serialized(nipc)| <==> |nipc.payload| <= 65532
  {
  }

  // ---- a connection

  /** What one call gives: -1 when the connection fails, 0 when nothing is left, otherwise as
      many bytes as the next piece has, but no more than asked for or left. */
  function Given(pieces: seq<nat>, max: nat, left: nat): (n: int)
    ensures -1 <= n <= max && n <= left
  {
    if pieces != [] && pieces[0] == 0 then -1
    else
      var most := if max < left then max else left;
      if pieces != [] && pieces[0] < most then pieces[0] else most
  }

  function Rest(pieces: seq<nat>): seq<nat> {
    if pieces == [] then [] else pieces[1..]
  }

  /** Every piece is long enough for a head. */
  predicate Coarse(pieces: seq<nat>) {
    forall i :: 0 <= i < |pieces| ==> pieces[i] == 0 || pieces[i] >= HEAD_LEN
  }

  /** The later pieces fail, or are short, only if the earlier ones did or were. */
  predicate Kept(pieces: seq<nat>, later: seq<nat>) {
    (0 !in pieces ==> 0 !in later) && (Coarse(pieces) ==> Coarse(later))
  }

  lemma KeptRest(pieces: seq<nat>)
    ensures Kept(pieces, Rest(pieces))
  {
  }

  class Socket {
    var incoming: seq<Byte>
    var outgoing: seq<Byte>
    /** Sizes of the pieces to come; 0 stands for a failure. */
    var pieces: seq<nat>

    constructor (incoming: seq<Byte>, pieces: seq<nat>)
      ensures this.incoming == incoming && this.pieces == pieces && outgoing == []
    {
      this.incoming, this.pieces, outgoing := incoming, pieces, [];
    }

    method Recv(max: nat) returns (n: int, bytes: seq<Byte>)
      modifies this`incoming, this`pieces
      ensures n == Given(old(pieces), max, |old(incoming)|) && pieces == Rest(old(pieces))
      ensures bytes == (if n < 0 then [] else old(incoming)[..n])
      ensures incoming == if n < 0 then old(incoming) else old(incoming)[n..]
    {
      n := Given(pieces, max, |incoming|);
      pieces := Rest(pieces);
      bytes := [];
      if n >= 0 {
        bytes, incoming := incoming[..n], incoming[n..];
      }
    }

    method Send(bytes: seq<Byte>) returns (n: int)
      modifies this`outgoing, this`pieces
      ensures n == Given(old(pieces), |bytes|, |bytes|) && pieces == Rest(old(pieces))
      ensures outgoing == old(outgoing) + if n < 0 then [] else bytes[..n]
    {
      n := Given(pieces, |bytes|, |bytes|);
      pieces := Rest(pieces);
      if n >= 0 {
        outgoing := outgoing + bytes[..n];
      }
    }
  }

  /** Pack_send: goes on until `length` bytes went out or the connection failed. */
  method PackSend(socket: Socket, bytes: seq<Byte>, length: nat) returns (total: int)
    requires length <= |bytes|
    modifies socket`outgoing, socket`pieces
    ensures total == -1 || (total == length && socket.outgoing == old(socket.outgoing) + bytes[..length])
    ensures 0 !in old(socket.pieces) ==> total == length
    ensures old(socket.outgoing) <= socket.outgoing <= old(socket.outgoing) + bytes[..length]
  {
    total := 0;
    ghost var wanted := bytes[..length];
    while total < length
      invariant 0 <= total <= length && socket.outgoing == old(socket.outgoing) + wanted[..total]
      invariant Kept(old(socket.pieces), socket.pieces)
    {
      KeptRest(socket.pieces);
      var sent := socket.Send(bytes[total..length]);
      if sent == -1 {
        return -1;
      }
      assert bytes[total..length][..sent] == wanted[total..total + sent];
      assert wanted[..total] + wanted[total..total + sent] == wanted[..total + sent];
      total := total + sent;
    }
  }

  /** A packet is serialised and sent: on a connection that does not fail, all of it goes out
      if and only if its payload has at most 65532 bytes. */
  method SendPacket(socket: Socket, nipc: Nipc) returns (total: int)
    requires Fits(nipc)
    modifies socket`outgoing, socket`pieces
    ensures 0 !in old(socket.pieces) ==>
              (socket.outgoing == old(socket.outgoing) + Serialized(nipc) <==> |nipc.payload| <= 65532)
    ensures old(socket.outgoing) <= socket.outgoing <= old(socket.outgoing) + Serialized(nipc)
  {
    var bytes := Serialized(nipc);
    total := PackSend(socket, bytes, PackLength(nipc));
  }

  // ---- receiving

  /** How many bytes the head takes: each call may bring three, however few are missing. */
  function HeadTotal(pieces: seq<nat>, left: nat, got: nat): (total: int)
    ensures total == -1 || (3 <= total && total <= got + left && (got < 3 ==> total <= 5))
    decreases left
  {
    if got >= 3 then got
    else
      var n := Given(pieces, 3, left);
      if n < 1 then -1 else HeadTotal(Rest(pieces), left - n, got + n)
  }

  lemma {:induction false} HeadComes(pieces: seq<nat>, left: nat, got: nat)
    requires 0 !in pieces && got + left >= 3
    ensures HeadTotal(pieces, left, got) != -1
    decreases left
  {
    if got < 3 { HeadComes(Rest(pieces), left - Given(pieces, 3, left), got + Given(pieces, 3, left)); }
  }

  /** A head that comes in two pieces of two and three bytes takes two bytes too many: without
      a payload of two bytes they are those of the next packet. */
  lemma TakesTooMuch(left: nat)
    requires left >= 5
    ensures HeadTotal([2, 3], left, 0) == 5
  {
    assert HeadTotal([3], left - 2, 2) == 5;
  }

  /** However the bytes come in pieces, the head takes none of the next packet. */
  ghost predicate SafeHowever(payload: nat, left: nat) {
    forall pieces :: HeadTotal(pieces, left, 0) <= 3 + payload
  }

  /** This is so exactly when the payload has two bytes, or no byte follows the packet. */
  lemma SafeWhen(payload: nat, left: nat)
    requires left >= 3 + payload
    ensures SafeHowever(payload, left) <==> payload >= 2 || left == 3 + payload
  {
    if payload < 2 && left > 3 + payload {
      assert Rest([2, 3]) == [3];
      HeadStep([2, 3], left, 0);
      HeadStep([3], left - 2, 2);
      assert HeadTotal([2, 3], left, 0) == if left < 5 then left else 5;
    }
  }

  /** A first piece of at least a head's length gives just the head. */
  lemma TakesJustTheHead(pieces: seq<nat>, left: nat)
    requires left >= 3 && (pieces == [] || pieces[0] >= 3)
    ensures HeadTotal(pieces, left, 0) == 3
  {
  }

  lemma HeadStep(pieces: seq<nat>, left: nat, got: nat)
    requires got < 3
    ensures var n := Given(pieces, 3, left);
            HeadTotal(pieces, left, got) == if n < 1 then -1 else HeadTotal(Rest(pieces), left - n, got + n)
  {
  }

  lemma Moved(bytes: seq<Byte>, piece: seq<Byte>, rest: seq<Byte>, incoming: seq<Byte>)
    requires |piece| <= |incoming| && piece == incoming[..|piece|] && rest == incoming[|piece|..]
    ensures bytes + piece + rest == bytes + incoming
  {
  }

  /** Pack_head_received, until the head is there or the connection fails or ends. */
  method ReceiveHead(socket: Socket) returns (ok: bool, bytes: seq<Byte>)
    modifies socket`incoming, socket`pieces
    ensures ok <==> HeadTotal(old(socket.pieces), |old(socket.incoming)|, 0) != -1
    ensures ok ==> |bytes| == HeadTotal(old(socket.pieces), |old(socket.incoming)|, 0)
    ensures bytes + socket.incoming == old(socket.incoming)
    ensures Kept(old(socket.pieces), socket.pieces)
  {
    bytes := [];
    var aux := 1;
    ghost var total := HeadTotal(socket.pieces, |socket.incoming|, 0);
    while |bytes| < HEAD_LEN && aux > 0
      invariant bytes + socket.incoming == old(socket.incoming) && aux >= -1
      invariant total == if aux > 0 then HeadTotal(socket.pieces, |socket.incoming|, |bytes|) else -1
      invariant Kept(old(socket.pieces), socket.pieces)
      decreases if aux > 0 then |socket.incoming| + 1 else 0
    {
      HeadStep(socket.pieces, |socket.incoming|, |bytes|);
      KeptRest(socket.pieces);
      ghost var incoming := socket.incoming;
      var piece;
      aux, piece := socket.Recv(HEAD_LEN);
      Moved(bytes, piece, socket.incoming, incoming);
      bytes := bytes + piece;
    }
    ok := aux > 0;
  }

  /** Pack_recv, where the connection carries a packet and then `more`, or nothing.  It takes the
      bytes of the packet, or those its head took when they are more. */
  method PackRecv(socket: Socket, ghost nipc: Nipc, ghost more: seq<Byte>) returns (received: int, bytes: seq<Byte>)
    requires Fits(nipc) && (socket.incoming == [] || socket.incoming == Serialized(nipc) + more)
    modifies socket`incoming, socket`pieces
    ensures received == -1 || (received == |bytes| && old(socket.incoming) != [])
    ensures received != -1 ==>
              var head := HeadTotal(old(socket.pieces), |old(socket.incoming)|, 0);
              && head >= HEAD_LEN
              && |bytes| == (if head <= 3 + |nipc.payload| then 3 + |nipc.payload| else head)
              && bytes + socket.incoming == old(socket.incoming)
    ensures old(socket.incoming) == [] ==> socket.incoming == []
    ensures 0 !in old(socket.pieces) && old(socket.incoming) != [] ==> received != -1
    ensures Kept(old(socket.pieces), socket.pieces)
  {
    if 0 !in socket.pieces && socket.incoming != [] { HeadComes(socket.pieces, |socket.incoming|, 0); }
    var ok;
    ok, bytes := ReceiveHead(socket);
    if !ok {
      return -1, [];
    }
    RoundTrip(nipc, more);
    var left := LengthOf(bytes) - (|bytes| - HEAD_LEN);
    while left > 0
      invariant |bytes| >= HEAD_LEN && bytes + socket.incoming == old(socket.incoming)
      invariant |bytes| + left == 3 + |nipc.payload|
      invariant left <= 0 ==> |bytes| == HeadTotal(old(socket.pieces), |old(socket.incoming)|, 0) || left == 0
      invariant Kept(old(socket.pieces), socket.pieces)
    {
      KeptRest(socket.pieces);
      var aux, piece := socket.Recv(left);
      if aux == -1 {
        return -1, [];
      }
      bytes := bytes + piece;
      left := left - aux;
    }
    received := |bytes|;
  }

  /** No byte of the next packet is lost exactly when the head brought no more than the packet
      has. */
  lemma TakesItsOwn(nipc: Nipc, more: seq<Byte>, head: nat, bytes: seq<Byte>, left: seq<Byte>)
    requires Fits(nipc) && bytes + left == Serialized(nipc) + more
    requires |bytes| == if head <= 3 + |nipc.payload| then 3 + |nipc.payload| else head
    ensures |bytes| >= 3 && |bytes| >= 3 + LengthOf(bytes) && Deserialized(bytes) == nipc
    ensures left == more <==> head <= 3 + |nipc.payload|
  {
    var own := |Serialized(nipc)|;
    assert (bytes + left)[..|bytes|] == bytes && (bytes + left)[|bytes|..] == left;
    assert bytes == Serialized(nipc) + more[..|bytes| - own];
    RoundTrip(nipc, more[..|bytes| - own]);
    assert left == more[|bytes| - own..];
  }

  function Stream(packets: seq<Nipc>): seq<Byte>
    requires forall i :: 0 <= i < |packets| ==> Fits(packets[i])
  {
    if packets == [] then [] else Serialized(packets[0]) + Stream(packets[1..])
  }

  predicate LongEnough(packets: seq<Nipc>) {
    forall i :: 0 <= i < |packets| ==> |packets[i].payload| >= 2
  }

  /** One packet received and read: the first of those on their way. */
  method ReceiveOne(socket: Socket, ghost packets: seq<Nipc>) returns (ok: bool, got: Nipc)
    requires (forall i :: 0 <= i < |packets| ==> Fits(packets[i])) && socket.incoming == Stream(packets)
    requires Coarse(socket.pieces) || LongEnough(packets)
    modifies socket`incoming, socket`pieces
    ensures ok ==> packets != [] && got == packets[0] && socket.incoming == Stream(packets[1..])
    ensures !ok && 0 !in old(socket.pieces) ==> packets == [] && socket.incoming == []
    ensures Kept(old(socket.pieces), socket.pieces)
  {
    ghost var next := if packets == [] then Nipc(0, []) else packets[0];
    ghost var more := if packets == [] then [] else Stream(packets[1..]);
    ghost var head := HeadTotal(socket.pieces, |socket.incoming|, 0);
    if packets != [] && Coarse(socket.pieces) && (socket.pieces == [] || socket.pieces[0] != 0) {
      TakesJustTheHead(socket.pieces, |socket.incoming|);
    }
    var received, bytes := PackRecv(socket, next, more);
    ok, got := received != -1, Nipc(0, []);
    if ok {
      TakesItsOwn(next, more, head, bytes, socket.incoming);
      got := Deserialized(bytes);
    }
  }

  /** Packets received one after the other are the packets sent, in order, and exactly their
      bytes are taken, however they come in pieces: provided each has two bytes of payload, or
      no piece is shorter than a head. */
  method ReceiveAll(socket: Socket, ghost sent: seq<Nipc>) returns (got: seq<Nipc>)
    requires (forall i :: 0 <= i < |sent| ==> Fits(sent[i])) && socket.incoming == Stream(sent)
    requires Coarse(socket.pieces) || LongEnough(sent)
    modifies socket`incoming, socket`pieces
    ensures got <= sent
    ensures 0 !in old(socket.pieces) ==> got == sent && socket.incoming == []
  {
    got := [];
    var ok := true;
    while ok
      invariant got <= sent && (0 !in old(socket.pieces) ==> 0 !in socket.pieces)
      invariant Coarse(socket.pieces) || LongEnough(sent)
      invariant ok ==> socket.incoming == Stream(sent[|got|..])
      invariant !ok && 0 !in old(socket.pieces) ==> got == sent && socket.incoming == []
      decreases |sent| - |got|, ok
    {
      var next;
      ghost var packets := sent[|got|..];
      ok, next := ReceiveOne(socket, packets);
      if ok {
        assert packets[1..] == sent[|got| + 1..];
        got := got + [next];
      }
    }
  }
}
