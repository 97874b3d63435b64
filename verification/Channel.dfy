/** From bytes to messages: over the packet stream of version-1/io.c the messages of
    version-1/protocol.c travel as over the first-in first-out channels of `Protocol`. */
module Channels {
  import opened Bytes
  import opened Framing
  import opened Messages
  import opened Options
  import opened StreamLaws

  ghost predicate AllSendable(ms: seq<Message>) {
    forall m :: m in ms ==> Sendable(m)
  }

  /** The packets of some messages. */
  ghost function EncodeAll(ms: seq<Message>): (ps: seq<Packet>)
    requires AllSendable(ms)
    ensures |ps| == |ms| && AllWellFormed(ps) && forall p :: p in ps ==> Known(p)
  {
    seq(|ms|, i requires 0 <= i < |ms| => Encode(ms[i]))
  }

  /** Their bytes. */
  ghost function Wire(ms: seq<Message>): seq<Byte>
    requires AllSendable(ms)
  {
    Frames(EncodeAll(ms))
  }

  lemma WireNext(ms: seq<Message>, m: Message)
    requires AllSendable(ms) && Sendable(m)
    ensures AllSendable(ms + [m]) && Wire(ms + [m]) == Wire(ms) + Frame(Encode(m))
    ensures Wire([]) == []
  {
    hide Encode, Frame;
    assert EncodeAll(ms + [m]) == EncodeAll(ms) + [Encode(m)];
    FramesConcat(EncodeAll(ms), [Encode(m)]);
    assert Frames([Encode(m)]) == Frame(Encode(m)) + Frames([]) == Frame(Encode(m));
    assert EncodeAll([]) == [];
  }

  /** What was sent over the link are the packets of these messages. */
  ghost predicate Conveys(l: Link, ms: seq<Message>) {
    AllSendable(ms) && l.sent == EncodeAll(ms)
  }

  /** The messages sent and not yet dispatched: what the channel holds. */
  function Waiting(l: Link, ms: seq<Message>): seq<Message>
    requires |l.got| <= |ms|
  {
    ms[|l.got|..]
  }

  /** Packets are what these messages are sent as, and are decoded to them. */
  ghost predicate Decoded(ps: seq<Packet>, ms: seq<Message>) {
    |ps| == |ms| && forall i :: 0 <= i < |ps| ==> Decode(ps[i]) == Some(ms[i])
  }

  lemma AllDecoded(ms: seq<Message>)
    requires AllSendable(ms)
    ensures Decoded(EncodeAll(ms), ms)
  {
    hide Encode, Decode, Sendable;
    forall i | 0 <= i < |ms| ensures Decode(EncodeAll(ms)[i]) == Some(ms[i]) {
      assert ms[i] in ms;
      MessageRoundTrip(ms[i]);
    }
  }

  /** From end to end: in every state of every run that sends messages, however writes and
      reads cut the bytes up, what has been dispatched decodes to the first of the messages,
      no whole packet is left waiting, and when no bytes are under way all messages have
      arrived. */
  lemma MessagesArrive(links: seq<Link>, steps: seq<Step>, ms: seq<Message>)
    requires IsRun(links, steps) && Conveys(links[|steps|], ms)
    ensures
      var l := links[|steps|];
      && |l.got| <= |ms| && Decoded(l.got, ms[..|l.got|])
      && !HasFrame(l.inb) && l.inb + l.pipe + l.out == Wire(Waiting(l, ms))
      && (l.out == [] && l.pipe == [] ==> Waiting(l, ms) == [] && l.inb == [])
  {
    hide Encode, Decode, HasFrame, Known, NoEmptyPacket, Dispatch, Frames;
    ChunkIndependent(links, steps);
    AllDecoded(ms);
    var l := links[|steps|];
    var n := |l.got|;
    assert |l.got| <= |l.sent| == |ms|;
    assert EncodeAll(ms)[n..] == EncodeAll(ms[n..]);
    assert EncodeAll(ms)[..n] == l.got;
  }

  /** Step by step: the link behaves as the channel.  Sending appends the message, writing
      changes nothing, and reading takes messages from the front, which are what the packets
      dispatched by it are decoded to. */
  lemma ChannelStep(l: Link, s: Step, ms: seq<Message>, m: Message) returns (taken: seq<Message>)
    requires Conserves(l) && Settled(l) && Conveys(l, ms) && Enabled(l, s) && Sendable(m)
    requires s.Send? ==> s.packet == Encode(m)
    ensures
      var l' := Next(l, s);
      var ms' := if s.Send? then ms + [m] else ms;
      && Conveys(l', ms') && |l.got| <= |l'.got| <= |ms'| && |l.got| <= |ms|
      && Decoded(l'.got[|l.got|..], taken) && taken + Waiting(l', ms') == Waiting(l, ms')
      && (s.Send? ==> taken == [] && Waiting(l', ms') == Waiting(l, ms) + [m])
      && (s.Write? ==> taken == [] && Waiting(l', ms') == Waiting(l, ms))
  {
    hide Encode, Decode, EncodeAll, Conserves, Settled, Sendable, Dispatch, Enabled, Decoded;
    var l' := Next(l, s);
    var ms' := if s.Send? then ms + [m] else ms;
    StepConserves(l, s);
    StepConveys(l, s, ms, m);
    GotFirst(l, ms);
    GotFirst(l', ms');
    taken := ms'[|l.got|..|l'.got|];
    DecodedPart(ms', |l.got|, |l'.got|);
  }

  lemma StepConveys(l: Link, s: Step, ms: seq<Message>, m: Message)
    requires Conveys(l, ms) && Enabled(l, s) && Sendable(m) && (s.Send? ==> s.packet == Encode(m))
    ensures Conveys(Next(l, s), if s.Send? then ms + [m] else ms)
  {
    hide Encode, Sendable, Dispatch, Enabled;
    assert EncodeAll(ms + [m]) == EncodeAll(ms) + [Encode(m)];
  }

  lemma GotFirst(l: Link, ms: seq<Message>)
    requires Conserves(l) && Conveys(l, ms)
    ensures |l.got| <= |ms| && l.got == EncodeAll(ms)[..|l.got|]
  {
    hide Frames, Encode, Sendable;
  }

  lemma DecodedPart(ms: seq<Message>, i: nat, j: nat)
    requires AllSendable(ms) && i <= j <= |ms|
    ensures Decoded(EncodeAll(ms)[..j][i..], ms[i..j])
  {
    hide Encode, Decode, Sendable;
    AllDecoded(ms);
  }

  lemma StepConserves(l: Link, s: Step)
    requires Conserves(l) && Settled(l) && Enabled(l, s)
    ensures Conserves(Next(l, s)) && Settled(Next(l, s)) && l.got <= Next(l, s).got
  {
    hide Conserves, Settled, Dispatch, NoEmptyPacket;
    StepKeeps(l, s);
  }
}
