/** Length-prefixed packets over a byte stream: `io_send_ios`, `io_output_handler` and
    `io_input_handler` of version-1/io.c, and the dispatcher of version-1/protocol.c. */
module Framing {
  import opened Bytes
  import opened IosBuffer

  type Packet = seq<Byte>

  const BUF_SIZE: nat := 8196

  /** A packet starts with its command, so it is never empty. */
  predicate WellFormed(p: Packet) {
    1 <= |p| < TWO32
  }

  ghost predicate AllWellFormed(ps: seq<Packet>) {
    forall p :: p in ps ==> WellFormed(p)
  }

  function Frame(p: Packet): seq<Byte>
    requires WellFormed(p)
  {
    Be32(|p|) + p
  }

  ghost function Frames(ps: seq<Packet>): seq<Byte>
    requires AllWellFormed(ps)
  {
    if ps == [] then [] else Frame(ps[0]) + Frames(ps[1..])
  }

  /** A whole packet has arrived. */
  predicate HasFrame(buf: seq<Byte>) {
    |buf| >= 5 && Value32(buf[..4]) <= |buf| - 4
  }

  function Head(buf: seq<Byte>): Packet
    requires HasFrame(buf)
  {
    buf[4..4 + Value32(buf[..4])]
  }

  function Behind(buf: seq<Byte>): seq<Byte>
    requires HasFrame(buf)
  {
    buf[4 + Value32(buf[..4])..]
  }

  /** The dispatcher has a case for the seven commands, cmd_Hello to cmd_GetBlockAck. */
  predicate Known(p: Packet)
    requires p != []
  {
    p[0] <= 6
  }

  /** No zero-length packet is met; one trips an assertion of the original. */
  ghost predicate NoEmptyPacket(buf: seq<Byte>)
    decreases |buf|
  {
    HasFrame(buf) ==> Head(buf) != [] && (Known(Head(buf)) ==> NoEmptyPacket(Behind(buf)))
  }

  /** The packets taken from the buffer by one call of the dispatcher, and what it leaves.
      An unknown command ends the loop, although its packet has been taken. */
  ghost function Dispatch(buf: seq<Byte>): (seq<Packet>, seq<Byte>)
    requires NoEmptyPacket(buf)
    decreases |buf|
  {
    if !HasFrame(buf) then ([], buf)
    else if !Known(Head(buf)) then ([Head(buf)], Behind(buf))
    else
      var (ps, rest) := Dispatch(Behind(buf));
      ([Head(buf)] + ps, rest)
  }

  method ReadAndDispatchOne(ios: IosBuf) returns (ret: int, packet: Packet)
    requires ios.Valid() && NoEmptyPacket(ios.Contents())
    modifies ios
    ensures ios.Valid() && ios.buf == old(ios.buf)
    ensures ret == 1 <==> !HasFrame(old(ios.Contents()))
    ensures ret == 1 ==> ios.Contents() == old(ios.Contents())
    ensures ret != 1 ==>
      && packet == Head(old(ios.Contents())) && ios.Contents() == Behind(old(ios.Contents()))
      && |ios.Contents()| + 5 <= |old(ios.Contents())|
      && ret == if Known(packet) then 0 else -2
  {
    var size := ios.BufferSize();
    if size < 5 {
      return 1, [];
    }
    var packetLen := ios.PeekInt32();
    if packetLen > size - 4 {
      return 1, [];
    }
    packetLen := ios.ReadInt32();
    var ok;
    ok, packet := ios.Read(packetLen);
    var cmd := packet[0];
    ret := if 0 <= cmd <= 6 then 0 else -2;
  }

  lemma DispatchStep(buf: seq<Byte>, before: seq<Packet>)
    requires NoEmptyPacket(buf)
    ensures !HasFrame(buf) ==> (before + Dispatch(buf).0, Dispatch(buf).1) == (before, buf)
    ensures HasFrame(buf) && !Known(Head(buf)) ==>
      (before + Dispatch(buf).0, Dispatch(buf).1) == (before + [Head(buf)], Behind(buf))
    ensures HasFrame(buf) && Known(Head(buf)) ==>
      && NoEmptyPacket(Behind(buf))
      && (before + Dispatch(buf).0, Dispatch(buf).1)
         == (before + [Head(buf)] + Dispatch(Behind(buf)).0, Dispatch(Behind(buf)).1)
  {
    if HasFrame(buf) && Known(Head(buf)) {
      var ps := Dispatch(Behind(buf)).0;
      assert before + ([Head(buf)] + ps) == before + [Head(buf)] + ps;
    } else {
      assert before + [] == before;
    }
  }

  /** The result is 0 whatever happens: the test that would return -1 for a garbled stream
      stands inside the loop, where the result of the dispatch is 0. */
  method ReadAndDispatch(ios: IosBuf) returns (result: int, dispatched: seq<Packet>)
    requires ios.Valid() && NoEmptyPacket(ios.Contents())
    modifies ios
    ensures ios.Valid() && ios.buf == old(ios.buf)
    ensures result == 0
    ensures (dispatched, ios.Contents()) == Dispatch(old(ios.Contents()))
  {
    hide Dispatch, HasFrame, Head, Behind, Known;
    ghost var start := ios.Contents();
    dispatched := [];
    assert [] + Dispatch(start).0 == Dispatch(start).0;
    var ret, packet := 0, [];
    while ret == 0
      invariant ios.Valid() && ios.buf == old(ios.buf)
      invariant ret == 0 ==> NoEmptyPacket(ios.Contents())
      invariant Dispatch(start) ==
        if ret == 0 then (dispatched + Dispatch(ios.Contents()).0, Dispatch(ios.Contents()).1)
        else (dispatched, ios.Contents())
      decreases ret == 0, |ios.Contents()|
    {
      DispatchStep(ios.Contents(), dispatched);
      ret, packet := ReadAndDispatchOne(ios);
      if ret != 1 {
        dispatched := dispatched + [packet];
      }
    }
    result := 0;
  }

  /** `io_send_ios`: the packet is queued behind its length, unless output is ignored. */
  method IoSend(out: IosBuf, packet: IosBuf, ignoreOutput: bool)
    requires out.Valid() && packet.Valid() && out != packet && out.buf != packet.buf
    requires WellFormed(packet.Contents())
    modifies out, out.buf
    ensures out.Valid() && (out.buf == old(out.buf) || fresh(out.buf))
    ensures out.Contents() == old(out.Contents()) + if ignoreOutput then [] else Frame(old(packet.Contents()))
  {
    if ignoreOutput {
      return;
    }
    ghost var queued := out.Contents();
    var size := packet.BufferSize();
    var data := packet.buf[packet.readPtr..packet.len];
    out.AppendInt32(size);
    out.Append(data);
    assert queued + Be32(size) + data == queued + (Be32(size) + data);
  }

  /** `io_output_handler`: an empty queue is refilled with what `wt_process_queue` has to send;
      then the channel takes as much as it likes.  The handler stays registered exactly if there
      was something to write and nothing went wrong.  The main loop is left when the channel has
      hung up, or when output is ignored and nothing is left of it. */
  method OutputHandler(out: IosBuf, hungUp: bool, ignoreOutput: bool, refill: seq<Byte>, written: nat, error: bool)
    returns (bytes: seq<Byte>, stays: bool, quits: bool)
    requires out.Valid() && written <= |if out.Contents() == [] then refill else out.Contents()|
    modifies out, out.buf
    ensures out.Valid() && (out.buf == old(out.buf) || fresh(out.buf))
    ensures
      var queue := if old(out.Contents()) == [] && !hungUp then refill else old(out.Contents());
      && (stays <==> !hungUp && !error && queue != [])
      && (quits <==> hungUp || (queue == [] && ignoreOutput))
      && bytes == (if stays then queue[..written] else [])
      && out.Contents() == queue[|bytes|..]
  {
    if hungUp {
      return [], false, true;
    }
    var size := out.BufferSize();
    if size == 0 {
      out.Append(refill);
      size := out.BufferSize();
    }
    if size == 0 {
      return [], false, ignoreOutput;
    }
    if error {
      return [], false, false;
    }
    var ok;
    ok, bytes := out.Read(written);
    stays, quits := true, false;
  }

  /** `io_input_handler`: what the channel delivers is queued, then dispatched, unless input is
      ignored or the channel has hung up.  Only then is the handler removed: the dispatcher
      never asks for it. */
  method InputHandler(ios: IosBuf, chunk: seq<Byte>, ignoreInput: bool, hungUp: bool)
    returns (dispatched: seq<Packet>, stays: bool, quits: bool)
    requires ios.Valid() && |chunk| <= BUF_SIZE
    requires !ignoreInput && !hungUp ==> NoEmptyPacket(ios.Contents() + chunk)
    modifies ios, ios.buf
    ensures ios.Valid() && (ios.buf == old(ios.buf) || fresh(ios.buf))
    ensures (stays <==> !ignoreInput && !hungUp) && (quits <==> !ignoreInput && hungUp)
    ensures if stays then (dispatched, ios.Contents()) == Dispatch(old(ios.Contents()) + chunk)
            else dispatched == [] && ios.Contents() == old(ios.Contents())
  {
    if ignoreInput {
      return [], false, false;
    }
    if hungUp {
      return [], false, true;
    }
    ios.Append(chunk);
    var result;
    result, dispatched := ReadAndDispatch(ios);
    stays, quits := result == 0, false;
  }
}
