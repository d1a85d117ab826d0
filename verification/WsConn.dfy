/** The two ends of the WebSocket connection, as objects over byte streams. */
module WsConns {
  import opened Crypto
  import opened Framing

  /** The server's end: what it has written so far. */
  class ServerConn {
    var output: Bytes

    constructor ()
      ensures output == []
    {
      output := [];
    }

    method WriteFrame(opcode: bv8, payload: Bytes)
      modifies this
      ensures output == old(output) + ServerFrame(Frame(opcode, payload))
    {
      output := output + [WithHigh(true, opcode)];
      var length := |payload|;
      if length <= 125 {
        output := output + [WithHigh(false, Byte(length))];
      } else if length < 65536 {
        output := output + [WithHigh(false, 126)];
        output := output + BigEndian(length, 2);
      } else {
        output := output + [WithHigh(false, 127)];
        output := output + BigEndian(length, 8);
      }
      output := output + payload;
    }
  }

  /** XORs the payload with the repeated mask, in place. */
  method ApplyMask(payload: array<bv8>, mask: Mask)
    modifies payload
    ensures payload[..] == Masked(old(payload[..]), mask)
  {
    for i := 0 to payload.Length
      invariant forall k :: 0 <= k < i ==> payload[k] == old(payload[k]) ^ mask[k % 4]
      invariant forall k :: i <= k < payload.Length ==> payload[k] == old(payload[k])
    {
      payload[i] := payload[i] ^ mask[i % 4];
    }
  }

  lemma MaskedElementwise(payload: Bytes, mask: Mask, masked: Bytes)
    requires |masked| == |payload| && forall k :: 0 <= k < |payload| ==> masked[k] == payload[k] ^ mask[k % 4]
    ensures masked == Masked(payload, mask)
  {
  }

  /** A masked copy of the payload. */
  method MaskedCopy(payload: Bytes, mask: Mask) returns (masked: array<bv8>)
    ensures fresh(masked) && masked[..] == Masked(payload, mask)
  {
    masked := new bv8[|payload|];
    for i := 0 to |payload|
      invariant forall k :: 0 <= k < i ==> masked[k] == payload[k] ^ mask[k % 4]
    {
      masked[i] := payload[i] ^ mask[i % 4];
    }
    MaskedElementwise(payload, mask, masked[..]);
  }

  /** The pong frames that answer the pings, each under its own mask. */
  function Pongs(pings: seq<Bytes>, masks: seq<Mask>): Bytes
    requires |pings| == |masks|
  {
    if pings == [] then []
    else ClientFrame(Frame(0xA, pings[0]), masks[0]) + Pongs(pings[1..], masks[1..])
  }

  lemma {:induction false} PongsAppend(pings: seq<Bytes>, masks: seq<Mask>, ping: Bytes, mask: Mask)
    requires |pings| == |masks|
    ensures Pongs(pings + [ping], masks + [mask]) == Pongs(pings, masks) + ClientFrame(Frame(OP_PONG, ping), mask)
  {
    hide ClientFrame;
    if pings == [] {
      var frame := ClientFrame(Frame(OP_PONG, ping), mask);
      assert Pongs([ping], [mask]) == frame + Pongs([], []);
      assert [] + [ping] == [ping] && masks + [mask] == [mask] && [] + frame == frame;
    } else {
      PongsAppend(pings[1..], masks[1..], ping, mask);
      assert (pings + [ping])[1..] == pings[1..] + [ping] && (masks + [mask])[1..] == masks[1..] + [mask];
    }
  }

  /** The client's end: what it has yet to read, and what it has written. */
  class ClientConn {
    var input: Bytes
    var output: Bytes

    constructor (input: Bytes)
      ensures this.input == input && output == []
    {
      this.input := input;
      output := [];
    }

    method ReadBytes(n: nat) returns (r: Result<Bytes, WsError>)
      modifies this`input
      ensures match ReadFull(old(input), n)
              case Ok(p) => r == Ok(p.value) && input == p.rest
              case Err(e) => r == Err(e)
    {
      if |input| < n {
        input := [];
        return Err(EndOfStream);
      }
      r := Ok(input[..n]);
      input := input[n..];
    }

    method ReadFrameMeta() returns (r: Result<Meta, WsError>)
      modifies this`input
      ensures match ReadMeta(old(input))
              case Ok(p) => r == Ok(p.value) && input == p.rest
              case Err(e) => r == Err(e)
    {
      hide HighBit, LowBits, Opcode, Number, FromBigEndian;
      var first := ReadBytes(1);
      if first.Err? {
        return Err(first.error);
      }
      var second := ReadBytes(1);
      if second.Err? {
        return Err(second.error);
      }
      assert input == old(input)[2..];
      var fin, opcode := HighBit(first.value[0]), Opcode(first.value[0]);
      var masked, low := HighBit(second.value[0]), LowBits(second.value[0]);
      if low == 126 {
        var ext := ReadBytes(2);
        if ext.Err? {
          return Err(ext.error);
        }
        return Ok(Meta(opcode, fin, masked, FromBigEndian(ext.value)));
      } else if low == 127 {
        var ext := ReadBytes(8);
        if ext.Err? {
          return Err(ext.error);
        }
        if FromBigEndian(ext.value) > MAX_PAYLOAD {
          return Err(FrameTooLarge);
        }
        return Ok(Meta(opcode, fin, masked, FromBigEndian(ext.value)));
      }
      return Ok(Meta(opcode, fin, masked, Number(low)));
    }

    method ReadMaskKey(masked: bool) returns (r: Result<Mask, WsError>)
      modifies this`input
      ensures match ReadMask(old(input), masked)
              case Ok(p) => r == Ok(p.value) && input == p.rest
              case Err(e) => r == Err(e)
    {
      if !masked {
        return Ok([0, 0, 0, 0]);
      }
      var m := ReadBytes(4);
      r := match m case Ok(v) => Ok(v) case Err(e) => Err(e);
    }

    method ReadFrame() returns (r: Result<Frame, WsError>)
      modifies this`input
      ensures match Framing.ReadFrame(old(input))
              case Ok(p) => r == Ok(p.value) && input == p.rest
              case Err(e) => r == Err(e)
    {
      hide ReadMeta, ReadMask, ReadFull, Masked;
      var meta := ReadFrameMeta();
      if meta.Err? {
        return Err(meta.error);
      }
      var mask := ReadMaskKey(meta.value.masked);
      if mask.Err? {
        return Err(mask.error);
      }
      var read := ReadBytes(meta.value.length);
      if read.Err? {
        return Err(read.error);
      }
      var bytes := read.value;
      var payload := new bv8[|bytes|](i requires 0 <= i < |bytes| => bytes[i]);
      assert payload[..] == bytes;
      if meta.value.masked {
        ApplyMask(payload, mask.value);
      }
      if !meta.value.fin {
        return Err(Fragmented);
      }
      return Ok(Frame(meta.value.opcode, payload[..]));
    }

    /** The first byte and the length, with the mask bit set. */
    method WriteHead(opcode: bv8, length: nat)
      modifies this`output
      ensures output == old(output) + ([WithHigh(true, opcode)] + LengthForm(true, length))
    {
      hide WithHigh, Byte, BigEndian;
      output := output + [WithHigh(true, opcode)];
      if length <= 125 {
        output := output + [WithHigh(true, Byte(length))];
      } else if length < 65536 {
        output := output + [WithHigh(true, 126)];
        output := output + BigEndian(length, 2);
      } else {
        output := output + [WithHigh(true, 127)];
        output := output + BigEndian(length, 8);
      }
    }

    /** `mask` is the randomness drawn for this frame. */
    method WriteFrame(opcode: bv8, payload: Bytes, mask: Mask)
      modifies this`output
      ensures output == old(output) + ClientFrame(Frame(opcode, payload), mask)
    {
      hide WithHigh, LengthForm, Masked;
      WriteHead(opcode, |payload|);
      output := output + mask;
      var masked := MaskedCopy(payload, mask);
      output := output + masked[..];
      ghost var head := [WithHigh(true, opcode)] + LengthForm(true, |payload|);
      assert old(output) + head + mask + masked[..] == old(output) + (head + mask + masked[..]);
    }

    /** Returns the next text, answering pings on the way; `masks` are the masks it drew. */
    method ReadText() returns (r: Result<Bytes, WsError>, ghost masks: seq<Mask>)
      modifies this
      ensures r == Framing.ReadText(old(input)).text
      ensures r.Ok? ==> input == Framing.ReadText(old(input)).rest
      ensures |masks| == |Framing.ReadText(old(input)).pings|
      ensures output == old(output) + Pongs(Framing.ReadText(old(input)).pings, masks)
    {
      hide Framing.ReadFrame, ClientFrame;
      masks := [];
      ghost var pings: seq<Bytes> := [];
      ghost var all := Framing.ReadText(input);
      while true
        invariant |pings| == |masks|
        invariant all == Framing.ReadText(input).(pings := pings + Framing.ReadText(input).pings)
        invariant output == old(output) + Pongs(pings, masks)
        decreases |input|
      {
        ghost var before := Framing.ReadText(input);
        ghost var start := input;
        var f := ReadFrame();
        if f.Err? {
          assert all.pings == pings;
          return Err(f.error), masks;
        }
        if f.value.opcode == OP_TEXT {
          assert all.pings == pings;
          return Ok(f.value.payload), masks;
        } else if f.value.opcode == OP_CLOSE {
          assert all.pings == pings;
          return Err(Closed), masks;
        } else if f.value.opcode == OP_PING {
          var mask: Mask := *;
          WriteFrame(OP_PONG, f.value.payload, mask);
          PongsAppend(pings, masks, f.value.payload, mask);
          assert pings + before.pings == (pings + [f.value.payload]) + Framing.ReadText(input).pings;
          pings := pings + [f.value.payload];
          masks := masks + [mask];
        }
      }
    }
  }
}
