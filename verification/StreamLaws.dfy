/** The byte stream between client and server delivers packets whole, unaltered and in
    order, however writes and reads cut it up (version-1/io.c, version-1/protocol.c). */
module StreamLaws {
  import opened Bytes
  import opened Framing

  /** One direction of the connection: what waits in the sender's buffer, what is on the
      way, what waits in the receiver's buffer; and, as history, what was sent and what has
      been dispatched. */
  datatype Link = Link(out: seq<Byte>, pipe: seq<Byte>, inb: seq<Byte>, sent: seq<Packet>, got: seq<Packet>)

  datatype Step = Send(packet: Packet) | Write(count: nat) | Read(count: nat)

  ghost predicate Enabled(l: Link, s: Step) {
    match s
    case Send(p) => WellFormed(p)
    case Write(n) => n <= |l.out|
    case Read(n) => n <= Min(|l.pipe|, BUF_SIZE) && NoEmptyPacket(l.inb + l.pipe[..n])
  }

  ghost function Next(l: Link, s: Step): Link
    requires Enabled(l, s)
  {
    match s
    case Send(p) => l.(out := l.out + Frame(p), sent := l.sent + [p])
    case Write(n) => l.(out := l.out[n..], pipe := l.pipe + l.out[..n])
    case Read(n) =>
      var (ps, rest) := Dispatch(l.inb + l.pipe[..n]);
      l.(pipe := l.pipe[n..], inb := rest, got := l.got + ps)
  }

  const IDLE: Link := Link([], [], [], [], [])

  /** A run of the connection: each state follows from the one before by an enabled step. */
  ghost predicate IsRun(links: seq<Link>, steps: seq<Step>) {
    && |links| == |steps| + 1 && links[0] == IDLE
    && forall i | 0 <= i < |steps| :: Enabled(links[i], steps[i]) && links[i + 1] == Next(links[i], steps[i])
  }

  /** The bytes still to be dispatched are those of the packets not yet dispatched. */
  ghost predicate Conserves(l: Link) {
    && AllWellFormed(l.sent)
    && l.got <= l.sent
    && l.inb + l.pipe + l.out == Frames(l.sent[|l.got|..])
  }

  /** What is left in the receiver's buffer is an incomplete packet, unless the last packet
      dispatched had a command that the dispatcher does not know. */
  ghost predicate Settled(l: Link) {
    HasFrame(l.inb) ==> l.got != [] && l.got[|l.got| - 1] != [] && !Known(l.got[|l.got| - 1])
  }

  lemma {:induction false} FramesConcat(a: seq<Packet>, b: seq<Packet>)
    requires AllWellFormed(a) && AllWellFormed(b)
    ensures AllWellFormed(a + b) && Frames(a + b) == Frames(a) + Frames(b)
  {
    hide Frame, WellFormed;
    if a == [] {
      assert a + b == b;
    } else {
      FramesConcat(a[1..], b);
      assert (a + b)[0] == a[0] && (a + b)[1..] == a[1..] + b;
    }
  }

  /** A beginning of framed packets that holds a whole frame holds the first one. */
  lemma FirstFrame(x: seq<Byte>, y: seq<Byte>, ps: seq<Packet>)
    requires AllWellFormed(ps) && x + y == Frames(ps) && HasFrame(x)
    ensures ps != [] && Head(x) == ps[0] && Behind(x) + y == Frames(ps[1..])
    ensures |x| >= 5 + |Behind(x)|
  {
    hide Be32, Value32, Known;
    var p, later := ps[0], Frames(ps[1..]);
    assert p in ps;
    ValueOfBe(|p|, 0);
    var all := x + y;
    assert all == Be32(|p|) + p + later;
    assert x[..4] == all[..4] == Be32(|p|);
    assert Head(x) == all[4..4 + |p|] == p;
    assert Behind(x) + y == all[4 + |p|..] == later;
  }

  /** One call of the dispatcher on a beginning of framed packets. */
  lemma {:induction false} DispatchPrefix(x: seq<Byte>, y: seq<Byte>, ps: seq<Packet>)
    requires AllWellFormed(ps) && x + y == Frames(ps)
    ensures NoEmptyPacket(x)
    ensures
      var (got, rest) := Dispatch(x);
      && got <= ps && rest + y == Frames(ps[|got|..])
      && (HasFrame(rest) ==> got != [] && got[|got| - 1] != [] && !Known(got[|got| - 1]))
    decreases |x|
  {
    if HasFrame(x) {
      FirstFrame(x, y, ps);
      assert ps[0] in ps;
      if Known(Head(x)) {
        DispatchPrefix(Behind(x), y, ps[1..]);
        var (got, rest) := Dispatch(Behind(x));
        assert Dispatch(x).0 == [ps[0]] + got;
        assert ps[1..][|got|..] == ps[|got| + 1..];
        assert ps == [ps[0]] + ps[1..];
      } else {
        assert Dispatch(x).0 == [ps[0]];
      }
    }
  }

  lemma StepKeeps(l: Link, s: Step)
    requires Conserves(l) && Settled(l)
    requires
      match s
      case Send(p) => WellFormed(p)
      case Write(n) => n <= |l.out|
      case Read(n) => n <= Min(|l.pipe|, BUF_SIZE)
    ensures Enabled(l, s) && Conserves(Next(l, s)) && Settled(Next(l, s))
  {
    hide Dispatch, HasFrame, NoEmptyPacket, Frames, Known;
    var ps := l.sent[|l.got|..];
    match s {
      case Send(p) =>
        SendStep(l, p);
      case Write(n) =>
        assert l.out == l.out[..n] + l.out[n..];
        assert l.inb + (l.pipe + l.out[..n]) + l.out[n..] == l.inb + l.pipe + l.out;
      case Read(n) =>
        var x, y := l.inb + l.pipe[..n], l.pipe[n..] + l.out;
        assert x + y == l.inb + l.pipe + l.out;
        DispatchPrefix(x, y, ps);
        var (got, rest) := Dispatch(x);
        assert l.sent == l.got + ps && ps[|got|..] == l.sent[|l.got + got|..];
        assert rest + y == rest + l.pipe[n..] + l.out;
    }
  }

  lemma SendStep(l: Link, p: Packet)
    requires Conserves(l) && WellFormed(p)
    ensures Conserves(Next(l, Send(p)))
  {
    var ps := l.sent[|l.got|..];
    FramesConcat(ps, [p]);
    assert Frames([p]) == Frame(p) + Frames([]) == Frame(p);
    assert (l.sent + [p])[|l.got|..] == ps + [p];
    assert l.inb + l.pipe + l.out + Frame(p) == l.inb + l.pipe + (l.out + Frame(p));
  }

  lemma IdleSettled()
    ensures Conserves(IDLE) && Settled(IDLE)
  {
    assert IDLE.sent[0..] == [] && Frames([]) == [];
  }

  lemma {:induction false} RunKeeps(links: seq<Link>, steps: seq<Step>)
    requires IsRun(links, steps)
    ensures Conserves(links[|steps|]) && Settled(links[|steps|])
  {
    hide Dispatch, HasFrame, NoEmptyPacket, Next, Known;
    var n := |steps|;
    if n > 0 {
      assert IsRun(links[..n], steps[..n - 1]);
      RunKeeps(links[..n], steps[..n - 1]);
      assert links[..n][n - 1] == links[n - 1];
      StepKeeps(links[n - 1], steps[n - 1]);
    } else {
      IdleSettled();
    }
  }

  /** Framing is independent of how the stream is cut up.  In every state of every run the
      packets dispatched are the first ones sent, unaltered; every read of bytes on the way
      is enabled; and what stays in the receiver's buffer is an incomplete packet unless an
      unknown command was just dispatched.  When no bytes are under way, all packets have
      been dispatched exactly if no whole packet was left behind, and none is left behind
      when all commands are known. */
  lemma ChunkIndependent(links: seq<Link>, steps: seq<Step>)
    requires IsRun(links, steps)
    ensures
      var l := links[|steps|];
      && Conserves(l) && Settled(l)
      && (forall n: nat | n <= Min(|l.pipe|, BUF_SIZE) :: Enabled(l, Read(n)))
      && (l.out == [] && l.pipe == [] ==> (l.got == l.sent <==> !HasFrame(l.inb)))
      && ((forall p :: p in l.sent ==> Known(p)) ==>
          !HasFrame(l.inb) && (l.out == [] && l.pipe == [] ==> l.got == l.sent && l.inb == []))
  {
    RunKeeps(links, steps);
    var l := links[|steps|];
    forall n: nat | n <= Min(|l.pipe|, BUF_SIZE) ensures Enabled(l, Read(n)) {
      StepKeeps(l, Read(n));
    }
    Arrived(l);
  }

  lemma Arrived(l: Link)
    requires Conserves(l) && Settled(l)
    ensures l.out == [] && l.pipe == [] ==> (l.got == l.sent <==> !HasFrame(l.inb))
    ensures (forall p :: p in l.sent ==> Known(p)) ==>
      !HasFrame(l.inb) && (l.out == [] && l.pipe == [] ==> l.got == l.sent && l.inb == [])
  {
    var pending := l.sent[|l.got|..];
    assert l.sent == l.got + pending;
    if l.out == [] && l.pipe == [] {
      assert l.inb == Frames(pending);
      if pending == [] {
        assert l.inb == [];
      } else {
        WholeFrame(l.inb, pending);
      }
    }
    if l.got != [] {
      assert l.got[|l.got| - 1] in l.sent;
    }
  }

  lemma WholeFrame(x: seq<Byte>, ps: seq<Packet>)
    requires AllWellFormed(ps) && ps != [] && x == Frames(ps)
    ensures HasFrame(x)
  {
    var p := ps[0];
    assert p in ps;
    ValueOfBe(|p|, 0);
    assert x[..4] == (Be32(|p|) + p + Frames(ps[1..]))[..4] == Be32(|p|);
  }

  /** Two packets that have arrived together: the second is dispatched too exactly if the command
      of the first is one of the seven, 0 to 6; otherwise it waits. */
  lemma SecondPacket(p: Packet, q: Packet)
    requires WellFormed(p) && WellFormed(q)
    ensures NoEmptyPacket(Frame(p) + Frame(q))
    ensures Dispatch(Frame(p) + Frame(q)) == if p[0] < 7 then ([p, q], []) else ([p], Frame(q))
  {
    hide Frame, HasFrame, Head, Behind;
    FrameHead(p, Frame(q));
    OnePacket(q);
    assert [p] + [q] == [p, q];
  }

  lemma OnePacket(q: Packet)
    requires WellFormed(q)
    ensures NoEmptyPacket(Frame(q)) && Dispatch(Frame(q)) == ([q], [])
  {
    FrameHead(q, []);
    hide Frame;
    assert Frame(q) + [] == Frame(q);
    assert Dispatch([]) == ([], []);
    assert [q] + [] == [q];
  }

  lemma FrameHead(p: Packet, behind: seq<Byte>)
    requires WellFormed(p)
    ensures HasFrame(Frame(p) + behind) && Head(Frame(p) + behind) == p && Behind(Frame(p) + behind) == behind
  {
    hide Be32, Value32;
    var x := Frame(p) + behind;
    ValueOfBe(|p|, 0);
    assert x[..4] == Be32(|p|) && x[4..4 + |p|] == p && x[4 + |p|..] == behind;
  }

  /** A packet behind one with an unknown command waits, although it has arrived, until
      something more is read. */
  lemma UnknownHoldsUp()
    ensures Dispatch(Frame([7]) + Frame([2])) == ([[7]], Frame([2])) && HasFrame(Frame([2]))
  {
    var x := Frame([7]) + Frame([2]);
    ValueOfBe(1, 0);
    assert x[..4] == Be32(1) && Head(x) == [7] && Behind(x) == Frame([2]);
    assert Frame([2])[..4] == Be32(1);
  }
}
