/** The byte-stuffed frames of the serial link, sent and received in C (uartppp/main.c) and in
    Python (client.py).  The style is that of RFC 1662, section 4.2, with other marker bytes. */
module Frame {
  type Byte = bv8

  const ESC: Byte := 0x7c
  const BGN: Byte := 0x7b
  const END: Byte := 0x7d

  predicate Special(c: Byte) {
    c == BGN || c == END || c == ESC
  }

  function Flip(c: Byte): Byte {
    c ^ 0x20
  }

  function Stuffed(data: seq<Byte>): seq<Byte> {
    if data == [] then []
    else (if Special(data[0]) then [ESC, Flip(data[0])] else [data[0]]) + Stuffed(data[1..])
  }

  /** What either sender writes. */
  function Framed(data: seq<Byte>): seq<Byte> {
    [BGN] + Stuffed(data) + [END]
  }

  /** What a receiver makes of a stream: a message and the rest, or the stream ends first, while it
      looks for a frame, between the bytes of one, or inside an escape pair. */
  datatype Received = Got(data: seq<Byte>, rest: seq<Byte>) | NoFrame | CutOff | CutInPair

  function Receive(s: seq<Byte>): Received {
    if s == [] then NoFrame
    else if s[0] == BGN then Collect(s[1..], [])
    else Receive(s[1..])
  }

  /** The receiver inside a frame, with the bytes collected so far. */
  function Collect(s: seq<Byte>, acc: seq<Byte>): Received
    decreases |s|
  {
    if s == [] then CutOff
    else if s[0] == BGN then Collect(s[1..], [])
    else if s[0] == END then Got(acc, s[1..])
    else if s[0] == ESC then (if |s| == 1 then CutInPair else Collect(s[2..], acc + [Flip(s[1])]))
    else Collect(s[1..], acc + [s[0]])
  }

  function Larger(x: nat, y: nat): nat {
    if x > y then x else y
  }

  /** The bytes of buffer that a receiver fills on stream s before it returns or the stream ends. */
  function Needed(s: seq<Byte>): nat {
    if s == [] then 0
    else if s[0] == BGN then NeededInside(s[1..], 0)
    else Needed(s[1..])
  }

  /** The same inside a frame of which n bytes have been collected. */
  function NeededInside(s: seq<Byte>, n: nat): (r: nat)
    ensures n <= r
    decreases |s|
  {
    if s == [] || s[0] == END then n
    else if s[0] == BGN then Larger(n, NeededInside(s[1..], 0))
    else if s[0] == ESC then (if |s| == 1 then n else NeededInside(s[2..], n + 1))
    else NeededInside(s[1..], n + 1)
  }

  /** Neither a marker nor an escape is special after flipping, and flipping twice does nothing. */
  lemma FlipFacts(c: Byte)
    ensures Flip(Flip(c)) == c && (Special(c) ==> !Special(Flip(c)))
  {
  }

  /** The bytes on the wire: a marker or escape in a message becomes the escape followed by it with
      bit 5 flipped, every other byte is sent as it is. */
  lemma WireBytes(c: Byte)
    ensures Stuffed([0x7b]) == [0x7c, 0x5b] && Stuffed([0x7c]) == [0x7c, 0x5c] && Stuffed([0x7d]) == [0x7c, 0x5d]
    ensures c != 0x7b && c != 0x7c && c != 0x7d ==> Stuffed([c]) == [c]
    ensures Framed([]) == [0x7b, 0x7d]
  {
    assert [c][1..] == [] && Stuffed([c]) == (if Special(c) then [ESC, Flip(c)] else [c]) + Stuffed([]);
    var b: Byte, e: Byte, n: Byte := 0x7b, 0x7c, 0x7d;
    assert [b][1..] == [] && [e][1..] == [] && [n][1..] == [];
    assert Flip(b) == 0x5b && Flip(e) == 0x5c && Flip(n) == 0x5d;
  }

  /** A message is sent byte by byte. */
  lemma {:induction false} StuffedTogether(x: seq<Byte>, y: seq<Byte>)
    ensures Stuffed(x + y) == Stuffed(x) + Stuffed(y)
  {
    hide Special, Flip;
    if x == [] {
      assert x + y == y;
    } else {
      assert (x + y)[1..] == x[1..] + y;
      StuffedTogether(x[1..], y);
    }
  }

  // ---------------------------------------------------------------- senders

  lemma {:induction false} StuffedMore(data: seq<Byte>, k: nat)
    requires k < |data|
    ensures Stuffed(data[..k + 1]) == Stuffed(data[..k]) + if Special(data[k]) then [ESC, Flip(data[k])] else [data[k]]
  {
    hide Special, Flip;
    if k == 0 {
      assert data[..1] == [data[0]] && data[..0] == [];
      assert [data[0]][1..] == [];
    } else {
      assert data[..k + 1][1..] == data[1..][..k] && data[..k][1..] == data[1..][..k - 1];
      StuffedMore(data[1..], k - 1);
    }
  }

  /** ppp_send of main.c */
  method UartSend(buf: array<Byte>, len: nat) returns (out: seq<Byte>)
    requires len <= buf.Length
    ensures out == Framed(buf[..len])
  {
    hide Special, Flip;
    out := [BGN];
    var i := 0;
    while i < len
      invariant 0 <= i <= len && out == [BGN] + Stuffed(buf[..len][..i])
    {
      StuffedMore(buf[..len], i);
      var c := buf[i];
      if Special(c) {
        out := out + [ESC];
        c := Flip(c);
      }
      out := out + [c];
      i := i + 1;
    }
    assert buf[..len][..len] == buf[..len];
    out := out + [END];
  }

  /** ppp_send of client.py; `count` is the number it reports. */
  method ClientSend(data: seq<Byte>) returns (out: seq<Byte>, count: nat)
    ensures out == Framed(data) && count == |out|
  {
    hide Special, Flip;
    count := 2;
    out := [BGN];
    for k := 0 to |data|
      invariant out == [BGN] + Stuffed(data[..k]) && count == |out| + 1
    {
      StuffedMore(data, k);
      var c := data[k];
      if Special(c) {
        out := out + [ESC] + [Flip(c)];
        count := count + 2;
      } else {
        out := out + [c];
        count := count + 1;
      }
    }
    assert data[..|data|] == data;
    out := out + [END];
  }

  // ---------------------------------------------------------------- receivers

  /** Inside a frame a receiver never looks for a frame again. */
  lemma {:induction false} InsideFrame(s: seq<Byte>, acc: seq<Byte>)
    ensures Collect(s, acc) != NoFrame
    decreases |s|
  {
    hide Flip;
    if s != [] {
      if s[0] == BGN { InsideFrame(s[1..], []); }
      else if s[0] == ESC { if |s| > 1 { InsideFrame(s[2..], acc + [Flip(s[1])]); } }
      else { InsideFrame(s[1..], acc + [s[0]]); }
    }
  }

  /** A receiver finds no frame exactly when the stream has no begin marker. */
  lemma {:induction false} NoFrameExactly(s: seq<Byte>)
    ensures Receive(s) == NoFrame <==> BGN !in s
  {
    if s != [] {
      assert s == [s[0]] + s[1..];
      if s[0] == BGN { InsideFrame(s[1..], []); } else { NoFrameExactly(s[1..]); }
    }
  }

  /** How the receiver of client.py ends: a message, the EOFError it raises, or a TypeError for the
      missing byte of an escape pair; it never ends when it finds no frame. */
  datatype ClientEnd = Message(data: seq<Byte>) | EofError | TypeError | Endless

  /** How the receiver of main.c ends: with a message, waiting for more of the stream, or with a
      store outside its buffer, whose size it does not know. */
  datatype UartEnd = Done | Waits | Overrun

  /** ppp_recv of main.c on a stream, from position p0. */
  method UartReceive(input: seq<Byte>, p0: nat, buf: array<Byte>) returns (r: UartEnd, i: nat, p: nat)
    requires p0 <= |input|
    modifies buf
    ensures p0 <= p <= |input| && i <= buf.Length
    ensures r == Overrun <==> Needed(input[p0..]) > buf.Length
    ensures r == Done ==> Receive(input[p0..]) == Got(buf[..i], input[p..])
    ensures r == Waits ==> !Receive(input[p0..]).Got?
  {
    hide Flip;
    i, p := 0, p0;
    while p < |input| && input[p] != BGN
      invariant p0 <= p <= |input|
      invariant Receive(input[p..]) == Receive(input[p0..]) && Needed(input[p..]) == Needed(input[p0..])
    {
      assert input[p..][1..] == input[p + 1..];
      p := p + 1;
    }
    if p == |input| { return Waits, 0, p; }
    assert input[p..][1..] == input[p + 1..];
    p := p + 1;
    r, i, p := UartCollect(input, p, buf);
  }

  /** The second loop of ppp_recv, behind the begin marker. */
  method UartCollect(input: seq<Byte>, p0: nat, buf: array<Byte>) returns (r: UartEnd, i: nat, p: nat)
    requires p0 <= |input|
    modifies buf
    ensures p0 <= p <= |input| && i <= buf.Length
    ensures r == Overrun <==> NeededInside(input[p0..], 0) > buf.Length
    ensures r == Done ==> Collect(input[p0..], []) == Got(buf[..i], input[p..])
    ensures r == Waits ==> !Collect(input[p0..], []).Got?
  {
    hide Flip;
    i, p := 0, p0;
    assert buf[..0] == [];
    while p < |input|
      invariant p0 <= p <= |input| && i <= buf.Length
      invariant Collect(input[p..], buf[..i]) == Collect(input[p0..], [])
      invariant NeededInside(input[p..], i) > buf.Length <==> NeededInside(input[p0..], 0) > buf.Length
      decreases |input| - p
    {
      var c := input[p];
      assert input[p..][1..] == input[p + 1..];
      p := p + 1;
      if c == BGN {
        i := 0;
        assert buf[..0] == [];
      } else if c == END {
        return Done, i, p;
      } else {
        if c == ESC {
          if p == |input| { return Waits, i, p; }
          assert input[p - 1..][2..] == input[p + 1..];
          c := Flip(input[p]);
          p := p + 1;
        }
        if i == buf.Length { return Overrun, i, p; }
        ghost var was := buf[..i];
        buf[i] := c;
        i := i + 1;
        assert buf[..i] == was + [c];
      }
    }
    r := Waits;
  }

  /** ppp_recv of client.py on a stream, from position p. */
  method ClientReceive(input: seq<Byte>, p0: nat) returns (r: ClientEnd, p: nat)
    requires p0 <= |input|
    ensures p0 <= p <= |input|
    ensures match Receive(input[p0..])
            case Got(data, rest) => r == Message(data) && rest == input[p..]
            case NoFrame => r == Endless
            case CutOff => r == EofError
            case CutInPair => r == TypeError
    ensures r == Endless <==> BGN !in input[p0..]
  {
    hide Flip;
    NoFrameExactly(input[p0..]);
    p := p0;
    var data: seq<Byte> := [];
    while p < |input| && input[p] != BGN
      invariant p0 <= p <= |input| && Receive(input[p..]) == Receive(input[p0..])
    {
      assert input[p..][1..] == input[p + 1..];
      p := p + 1;
    }
    if p == |input| { return Endless, p; }
    assert input[p..][1..] == input[p + 1..];
    p := p + 1;
    while p < |input|
      invariant p0 <= p <= |input|
      invariant Collect(input[p..], data) == Receive(input[p0..])
      decreases |input| - p
    {
      var c := input[p];
      assert input[p..][1..] == input[p + 1..];
      p := p + 1;
      if c == BGN {
        data := [];
      } else if c == END {
        return Message(data), p;
      } else if c == ESC {
        if p == |input| { return TypeError, p; }
        assert input[p - 1..][2..] == input[p + 1..];
        data := data + [Flip(input[p])];
        p := p + 1;
      } else {
        data := data + [c];
      }
    }
    r := EofError;
  }

  // ---------------------------------------------------------------- round trips

  lemma {:induction false} CollectsStuffed(data: seq<Byte>, rest: seq<Byte>, acc: seq<Byte>)
    ensures Collect(Stuffed(data) + [END] + rest, acc) == Got(acc + data, rest)
  {
    var s := Stuffed(data) + [END] + rest;
    if data == [] {
      assert s == [END] + rest && s[1..] == rest && acc + data == acc;
    } else {
      var c := data[0];
      var tail := Stuffed(data[1..]) + [END] + rest;
      FlipFacts(c);
      assert acc + data == acc + [c] + data[1..];
      CollectsStuffed(data[1..], rest, acc + [c]);
      if Special(c) {
        assert s == [ESC, Flip(c)] + tail && s[2..] == tail;
      } else {
        assert s == [c] + tail && s[1..] == tail;
      }
      hide Flip, Special;
    }
  }

  /** The receiver returns what was sent, after any bytes without the begin marker. */
  lemma {:induction false} ReceivesFramed(noise: seq<Byte>, data: seq<Byte>, rest: seq<Byte>)
    requires BGN !in noise
    ensures Receive(noise + Framed(data) + rest) == Got(data, rest)
  {
    var s := noise + Framed(data) + rest;
    if noise == [] {
      assert s[1..] == Stuffed(data) + [END] + rest;
      CollectsStuffed(data, rest, []);
      assert [] + data == data;
    } else {
      assert s[1..] == noise[1..] + Framed(data) + rest;
      ReceivesFramed(noise[1..], data, rest);
    }
  }

  /** Whether a stretch inside a frame has no end marker outside its escape pairs. */
  predicate Unended(s: seq<Byte>) {
    if s == [] then true
    else if s[0] == END then false
    else if s[0] == ESC then |s| == 1 || Unended(s[2..])
    else Unended(s[1..])
  }

  /** Whether such a stretch stops inside an escape pair. */
  predicate StopsInPair(s: seq<Byte>) {
    if s == [] then false
    else if s[0] == ESC then |s| == 1 || StopsInPair(s[2..])
    else StopsInPair(s[1..])
  }

  /** A frame behind an unended stretch is received whole, unless the stretch stops inside an escape
      pair: then the begin marker is taken for the second byte of the pair, and the message is
      appended to what came before. */
  lemma {:induction false} CollectsAfter(part: seq<Byte>, data: seq<Byte>, rest: seq<Byte>, acc: seq<Byte>)
    returns (before: seq<Byte>)
    requires Unended(part)
    ensures Collect(part + Framed(data) + rest, acc)
            == Got(if StopsInPair(part) then before + [Flip(BGN)] + data else data, rest)
    decreases |part|
  {
    var s := part + Framed(data) + rest;
    before := acc;
    hide Flip;
    if part == [] {
      assert s[1..] == Stuffed(data) + [END] + rest;
      CollectsStuffed(data, rest, []);
      assert [] + data == data;
    } else if part[0] == ESC {
      if |part| == 1 {
        assert s[1] == BGN && s[2..] == Stuffed(data) + [END] + rest;
        CollectsStuffed(data, rest, acc + [Flip(BGN)]);
      } else {
        assert s[2..] == part[2..] + Framed(data) + rest;
        before := CollectsAfter(part[2..], data, rest, acc + [Flip(s[1])]);
      }
    } else {
      assert s[1..] == part[1..] + Framed(data) + rest;
      before := CollectsAfter(part[1..], data, rest, if part[0] == BGN then [] else acc + [part[0]]);
    }
  }

  /** After a frame that broke off, the next message is received exactly when the broken frame does
      not stop inside an escape pair. */
  lemma ReceivesAfterBroken(noise: seq<Byte>, part: seq<Byte>, data: seq<Byte>, rest: seq<Byte>)
    requires BGN !in noise && Unended(part)
    ensures Receive(noise + [BGN] + part + Framed(data) + rest) == Got(data, rest) <==> !StopsInPair(part)
  {
    SkipsNoise(noise, part + Framed(data) + rest);
    assert noise + [BGN] + part + Framed(data) + rest == noise + [BGN] + (part + Framed(data) + rest);
    var before := CollectsAfter(part, data, rest, []);
    assert |before + [Flip(BGN)] + data| > |data|;
    hide Framed, Flip, Collect, Receive;
  }

  lemma {:induction false} SkipsNoise(noise: seq<Byte>, s: seq<Byte>)
    requires BGN !in noise
    ensures Receive(noise + [BGN] + s) == Collect(s, [])
  {
    var t := noise + [BGN] + s;
    if noise == [] {
      assert t[1..] == s;
    } else {
      assert t[1..] == noise[1..] + [BGN] + s;
      SkipsNoise(noise[1..], s);
    }
  }

  /** Every proper beginning of a frame, without its begin marker, is unended. */
  lemma {:induction false} BrokenFrameUnended(data: seq<Byte>, n: nat)
    requires n <= |Stuffed(data)|
    ensures Unended(Stuffed(data)[..n])
    decreases |data|
  {
    var s := Stuffed(data)[..n];
    if data != [] && n > 0 {
      var w := if Special(data[0]) then 2 else 1;
      FlipFacts(data[0]);
      if n >= w {
        assert s[w..] == Stuffed(data[1..])[..n - w];
        BrokenFrameUnended(data[1..], n - w);
      }
      hide Flip;
    }
  }

  // ---------------------------------------------------------------- lists of messages

  function FramedAll(msgs: seq<seq<Byte>>): seq<Byte> {
    if msgs == [] then [] else Framed(msgs[0]) + FramedAll(msgs[1..])
  }

  datatype Batch = Batch(msgs: seq<seq<Byte>>, rest: seq<Byte>) | Short

  /** A receiver run n times in a row. */
  function ReceiveAll(s: seq<Byte>, n: nat): Batch
    decreases n
  {
    if n == 0 then Batch([], s)
    else
      match Receive(s)
      case Got(data, rest) =>
        (match ReceiveAll(rest, n - 1)
         case Batch(msgs, r) => Batch([data] + msgs, r)
         case Short => Short)
      case _ => Short
  }

  /** Every list of messages, sent one after the other, is received as the same list. */
  lemma {:induction false} ReceivesList(msgs: seq<seq<Byte>>, rest: seq<Byte>)
    ensures ReceiveAll(FramedAll(msgs) + rest, |msgs|) == Batch(msgs, rest)
  {
    if msgs == [] {
      assert FramedAll(msgs) + rest == rest;
    } else {
      var tail := FramedAll(msgs[1..]) + rest;
      assert FramedAll(msgs) + rest == [] + Framed(msgs[0]) + tail;
      ReceivesFramed([], msgs[0], tail);
      ReceivesList(msgs[1..], rest);
      hide Framed, Receive;
      assert [msgs[0]] + msgs[1..] == msgs;
    }
  }

  /** The same behind bytes without a begin marker. */
  lemma ReceivesListAfterNoise(noise: seq<Byte>, msgs: seq<seq<Byte>>, rest: seq<Byte>)
    requires BGN !in noise && msgs != []
    ensures ReceiveAll(noise + FramedAll(msgs) + rest, |msgs|) == Batch(msgs, rest)
  {
    var tail := FramedAll(msgs[1..]) + rest;
    assert noise + FramedAll(msgs) + rest == noise + Framed(msgs[0]) + tail;
    ReceivesFramed(noise, msgs[0], tail);
    ReceivesList(msgs[1..], rest);
    hide Framed, Receive;
    assert [msgs[0]] + msgs[1..] == msgs;
  }

  /** Behind a frame that broke off the list is received exactly when the broken frame does not stop
      inside an escape pair. */
  lemma ReceivesListAfterBroken(noise: seq<Byte>, part: seq<Byte>, msgs: seq<seq<Byte>>, rest: seq<Byte>)
    requires BGN !in noise && Unended(part) && msgs != []
    ensures ReceiveAll(noise + [BGN] + part + FramedAll(msgs) + rest, |msgs|) == Batch(msgs, rest)
            <==> !StopsInPair(part)
  {
    var tail := FramedAll(msgs[1..]) + rest;
    assert noise + [BGN] + part + FramedAll(msgs) + rest == noise + [BGN] + (part + Framed(msgs[0]) + tail);
    SkipsNoise(noise, part + Framed(msgs[0]) + tail);
    var before := CollectsAfter(part, msgs[0], tail, []);
    ReceivesList(msgs[1..], rest);
    assert |before + [Flip(BGN)] + msgs[0]| > |msgs[0]|;
    hide Framed, Flip, Collect, Receive;
    assert [msgs[0]] + msgs[1..] == msgs;
  }

  // ---------------------------------------------------------------- receiving into one buffer

  /** The bytes of buffer that n runs of the receiver fill, one after the other in the same buffer. */
  function NeededAll(s: seq<Byte>, n: nat): nat
    decreases n
  {
    if n == 0 then 0
    else
      match Receive(s)
      case Got(_, rest) => Larger(Needed(s), NeededAll(rest, n - 1))
      case _ => Needed(s)
  }

  /** Runs the receiver of main.c n times on one buffer; whoever calls it uses each message before
      the next run. */
  method UartReceiveAll(input: seq<Byte>, n: nat, buf: array<Byte>) returns (r: UartEnd, msgs: seq<seq<Byte>>, p: nat)
    modifies buf
    ensures p <= |input|
    ensures r == Overrun <==> NeededAll(input, n) > buf.Length
    ensures r == Done ==> ReceiveAll(input, n) == Batch(msgs, input[p..])
    ensures r == Waits ==> ReceiveAll(input, n) == Short
  {
    hide Receive, Needed;
    r, msgs, p := Done, [], 0;
    var k: nat := n;
    assert input[0..] == input;
    while k > 0 && r == Done
      invariant p <= |input| && k <= n
      invariant r == Done ==> ReceiveAll(input, n) == Prepended(msgs, ReceiveAll(input[p..], k))
      invariant r == Done ==> (NeededAll(input, n) > buf.Length <==> NeededAll(input[p..], k) > buf.Length)
      invariant r == Overrun <==> (r != Done && NeededAll(input, n) > buf.Length)
      invariant r == Waits ==> ReceiveAll(input, n) == Short
      decreases k, r == Done
    {
      var i;
      ghost var rest := input[p..];
      r, i, p := UartReceive(input, p, buf);
      if r == Done {
        PrependedMore(msgs, buf[..i], ReceiveAll(input[p..], k - 1));
        msgs, k := msgs + [buf[..i]], k - 1;
      }
    }
  }

  function Prepended(msgs: seq<seq<Byte>>, b: Batch): Batch {
    match b
    case Batch(more, rest) => Batch(msgs + more, rest)
    case Short => Short
  }

  lemma PrependedMore(msgs: seq<seq<Byte>>, data: seq<Byte>, b: Batch)
    ensures Prepended(msgs, Prepended([data], b)) == Prepended(msgs + [data], b)
  {
    if b.Batch? { assert msgs + ([data] + b.msgs) == msgs + [data] + b.msgs; }
  }

  /** Runs the receiver of client.py n times, as its reading thread does until an error. */
  method ClientReceiveAll(input: seq<Byte>, n: nat) returns (done: bool, msgs: seq<seq<Byte>>, p: nat)
    ensures p <= |input|
    ensures if done then ReceiveAll(input, n) == Batch(msgs, input[p..]) else ReceiveAll(input, n) == Short
  {
    hide Receive;
    done, msgs, p := true, [], 0;
    var k: nat := n;
    assert input[0..] == input;
    while k > 0 && done
      invariant p <= |input| && k <= n
      invariant if done then ReceiveAll(input, n) == Prepended(msgs, ReceiveAll(input[p..], k))
                else ReceiveAll(input, n) == Short
      decreases k, done
    {
      var r;
      r, p := ClientReceive(input, p);
      done := r.Message?;
      if done {
        PrependedMore(msgs, r.data, ReceiveAll(input[p..], k - 1));
        msgs, k := msgs + [r.data], k - 1;
      }
    }
  }

  lemma {:induction false} NeededStuffed(data: seq<Byte>, rest: seq<Byte>, n: nat)
    ensures NeededInside(Stuffed(data) + [END] + rest, n) == n + |data|
  {
    var s := Stuffed(data) + [END] + rest;
    if data == [] {
      assert s == [END] + rest;
    } else {
      var c := data[0];
      var tail := Stuffed(data[1..]) + [END] + rest;
      FlipFacts(c);
      NeededStuffed(data[1..], rest, n + 1);
      if Special(c) {
        assert s == [ESC, Flip(c)] + tail && s[2..] == tail;
      } else {
        assert s == [c] + tail && s[1..] == tail;
      }
      hide Flip, Special;
    }
  }

  lemma NeededFramed(data: seq<Byte>, rest: seq<Byte>)
    ensures Needed(Framed(data) + rest) == |data|
  {
    assert (Framed(data) + rest)[1..] == Stuffed(data) + [END] + rest;
    NeededStuffed(data, rest, 0);
    hide Stuffed, NeededInside;
  }

  lemma NeededMore(s: seq<Byte>, n: nat, data: seq<Byte>, rest: seq<Byte>)
    requires n > 0 && Receive(s) == Got(data, rest)
    ensures NeededAll(s, n) == Larger(Needed(s), NeededAll(rest, n - 1))
  {
    hide Receive, Needed, Larger;
  }

  lemma NeededFirst(msgs: seq<seq<Byte>>, rest: seq<Byte>)
    requires msgs != []
    ensures NeededAll(FramedAll(msgs) + rest, |msgs|)
            == Larger(|msgs[0]|, NeededAll(FramedAll(msgs[1..]) + rest, |msgs| - 1))
  {
    hide Framed, Receive, Needed, NeededAll;
    var tail := FramedAll(msgs[1..]) + rest;
    assert FramedAll(msgs) + rest == Framed(msgs[0]) + tail == [] + Framed(msgs[0]) + tail;
    ReceivesFramed([], msgs[0], tail);
    NeededFramed(msgs[0], tail);
    NeededMore(FramedAll(msgs) + rest, |msgs|, msgs[0], tail);
  }

  /** One buffer takes a list of messages exactly when it takes each of them. */
  lemma {:induction false} BufferTakesList(msgs: seq<seq<Byte>>, rest: seq<Byte>, size: nat)
    ensures NeededAll(FramedAll(msgs) + rest, |msgs|) <= size <==> forall k | 0 <= k < |msgs| :: |msgs[k]| <= size
  {
    hide NeededAll;
    if msgs == [] {
      NeededNothing(FramedAll(msgs) + rest);
    } else {
      NeededFirst(msgs, rest);
      hide FramedAll;
      BufferTakesList(msgs[1..], rest, size);
      assert forall k | 1 <= k < |msgs| :: msgs[k] == msgs[1..][k - 1];
      assert forall k | 0 <= k < |msgs| - 1 :: msgs[1..][k] == msgs[k + 1];
    }
  }

  lemma NeededNothing(s: seq<Byte>)
    ensures NeededAll(s, 0) == 0
  {
  }
}
