/** The receiver of cpp/src/opt. It keeps the variables of the base receiver, answers each
    DATA packet with that packet's own number, and stores before it looks, so the branch
    that writes to the file is never taken. */
module OptReceiver {
  import opened Wire
  import opened BaseReceiver

  function OnStart(s: ReceiverState, p: Packet): Reaction {
    if s.connection then Reaction(s, None)
    else
      Reaction(s.(connection := true, counter := s.counter + 1, startAck := ToInt32(p.header.seqNum)),
               Some(p.header.seqNum))
  }

  function OnData(w: int, s: ReceiverState, p: Packet): Reaction {
    if !ChecksumOk(p) then Reaction(s, None)
    else
      var seqNum := ToInt32(p.header.seqNum);
      var t := s.(nextSeq := seqNum);
      if !(t.nextSeq + w > seqNum && t.nextSeq <= seqNum) then Reaction(t, None)
      else
        var u := t.(received := t.received[seqNum := p]);
        var v :=
          if u.nextSeq !in u.received then
            u.(received := u.received[u.nextSeq := p], files := Append(u.files, u.counter, p.data))
          else u;
        Reaction(v, Some(ToU32(v.nextSeq)))
  }

  function OnPacket(w: int, s: ReceiverState, p: Packet): Reaction {
    if p.header.typ == START then OnStart(s, p)
    else if p.header.typ == END then OnEnd(s)
    else if p.header.typ == DATA then OnData(w, s, p)
    else Reaction(s, None)
  }

  function OnDatagram(w: int, s: ReceiverState, d: seq<byte>): Result<Reaction> {
    match ParsePacket1(Truncate(d, RECV_BUFFER))
    case Ok(p) => Ok(OnPacket(w, s, p))
    case Err(f) => Err(f)
  }

  /** Every DATA packet with a good checksum is stored under its own number and
      acknowledged by it; the window test compares a number with itself. */
  lemma DataStep(w: int, s: ReceiverState, p: Packet)
    ensures var seqNum := ToInt32(p.header.seqNum);
            OnData(w, s, p) ==
            if !ChecksumOk(p) then Reaction(s, None)
            else if w <= 0 then Reaction(s.(nextSeq := seqNum), None)
            else Reaction(s.(nextSeq := seqNum, received := s.received[seqNum := p]), Some(p.header.seqNum))
  {
    hide CrcU32;
  }

  /** README.md asks that numbers a window or more above the first one missing be dropped. A
      DATA packet is dropped iff its checksum is bad or the window size is not positive,
      whatever its number. */
  lemma DroppedIff(w: int, s: ReceiverState, p: Packet)
    ensures OnData(w, s, p).ack.None? <==> !ChecksumOk(p) || w <= 0
    ensures OnData(w, s, p).ack.None? ==> OnData(w, s, p).state.received == s.received
    ensures OnData(w, s, p).ack.Some? ==>
              OnData(w, s, p).state.received == s.received[ToInt32(p.header.seqNum) := p]
  {
    hide CrcU32, OnData;
    DataStep(w, s, p);
  }

  function Run(w: int, s: ReceiverState, ds: seq<seq<byte>>): Trace<ReceiverState>
    decreases |ds|
  {
    if ds == [] then Trace(s, [])
    else match OnDatagram(w, s, ds[0])
      case Err(_) => Trace(s, [])
      case Ok(r) =>
        var t := Run(w, r.state, ds[1..]);
        Trace(t.state, AckSeq(r.ack) + t.acks)
  }

  lemma RunFrom(w: int, s: ReceiverState, ds: seq<seq<byte>>, k: nat)
    requires k <= |ds|
    ensures k == |ds| ==> Run(w, s, ds[k..]) == Trace(s, [])
    ensures k < |ds| && OnDatagram(w, s, ds[k]).Err? ==> Run(w, s, ds[k..]) == Trace(s, [])
    ensures k < |ds| && OnDatagram(w, s, ds[k]).Ok? ==>
              var r := OnDatagram(w, s, ds[k]).value;
              var t := Run(w, r.state, ds[k + 1..]);
              Run(w, s, ds[k..]) == Trace(t.state, AckSeq(r.ack) + t.acks)
  {
    hide OnDatagram;
    if k < |ds| {
      assert ds[k..][0] == ds[k] && ds[k..][1..] == ds[k + 1..];
    }
  }

  /** Until END comes a connection keeps its counter and the number its END will be answered
      with. */
  lemma {:induction false} ConnectionKeeps(w: int, s: ReceiverState, ds: seq<seq<byte>>)
    requires s.connection && NoEnd(ds)
    ensures var t := Run(w, s, ds).state;
            t.connection && t.counter == s.counter && t.startAck == s.startAck
    decreases |ds|
  {
    hide ParsePacket1, OnData;
    if ds != [] {
      var p := ParsePacket1(Truncate(ds[0], RECV_BUFFER)).value;
      DataStep(w, s, p);
      ConnectionKeeps(w, OnPacket(w, s, p).state, ds[1..]);
    }
  }

  /** START and the END that closes its connection are both answered with START's number. */
  lemma EndAcksStartNumber(w: int, s: ReceiverState, start: Packet, ds: seq<seq<byte>>, end: Packet)
    requires !s.connection && start.header.typ == START && NoEnd(ds) && end.header.typ == END
    ensures var r := OnPacket(w, s, start);
            var e := OnPacket(w, Run(w, r.state, ds).state, end);
            && r.ack == Some(start.header.seqNum) && r.state.counter == s.counter + 1
            && r.state.received == s.received && r.state.files == s.files && r.state.nextSeq == s.nextSeq
            && e.ack == Some(start.header.seqNum) && !e.state.connection
  {
    hide OnData, Run, NoEnd;
    ConnectionKeeps(w, OnPacket(w, s, start).state, ds);
  }

  /** An END that comes again, its ACK having been lost, is answered again and changes nothing,
      as long as no START has come. */
  lemma RepeatedEndIsAnswered(w: int, s: ReceiverState, end: Packet, again: Packet)
    requires end.header.typ == 1 && again.header.typ == 1
    ensures var e := OnPacket(w, s, end);
            && e.ack == Some(ToU32(s.startAck)) && e.state == s.(connection := false)
            && OnPacket(w, e.state, again) == Reaction(e.state, e.ack)
  {
  }

  /** A packet that is neither START nor END nor DATA is not answered and changes nothing; nor
      is a DATA packet whose checksum is not that of its data, nor a START in a connection. */
  lemma OthersIgnored(w: int, s: ReceiverState, p: Packet)
    requires || p.header.typ > 2
             || (p.header.typ == 2 && p.header.checksum != CrcU32(p.data))
             || (p.header.typ == 0 && s.connection)
    ensures OnPacket(w, s, p) == Reaction(s, None)
  {
    hide CrcU32;
  }

  // ---- The answers, one datagram at a time ----

  lemma ParsesIff(w: int, s: ReceiverState, d: seq<byte>)
    ensures OnDatagram(w, s, d).Ok? <==> |d| >= 16
  {
    hide ParseHeader, OnPacket;
  }

  /** As the base receiver's: each datagram is met in the state those before it have led to,
      and answered by what that state has for it after all answers before. */
  lemma {:induction false} AnswersInOrder(w: int, s: ReceiverState, ds: seq<seq<byte>>, d: seq<byte>)
    ensures Run(w, s, []) == Trace(s, [])
    ensures var t := Run(w, s, ds);
            Run(w, s, ds + [d]) ==
            if !AllParse(ds + [d]) then t
            else
              match OnDatagram(w, t.state, d).value
              case Reaction(u, None) => Trace(u, t.acks)
              case Reaction(u, Some(n)) => Trace(u, t.acks + [n])
    decreases |ds|
  {
    hide OnDatagram;
    if ds == [] {
      assert ds + [d] == [d] && [d][1..] == [];
      ParsesIff(w, s, d);
      assert d in [d];
      assert forall a: seq<u32> :: [] + a == a + [];
    } else {
      assert (ds + [d])[0] == ds[0] && (ds + [d])[1..] == ds[1..] + [d];
      ParsesIff(w, s, ds[0]);
      ParsesIff(w, Run(w, s, ds).state, d);
      assert ds[0] in ds + [d] && d in ds + [d];
      if OnDatagram(w, s, ds[0]).Ok? {
        var r := OnDatagram(w, s, ds[0]).value;
        AnswersInOrder(w, r.state, ds[1..], d);
        SplitParse(ds, d);
        var t := Run(w, r.state, ds[1..]);
        JoinAnswers(AckSeq(r.ack), t.acks);
      }
    }
  }

  /** Whatever arrives, over any number of connections, no file ever receives a byte. */
  lemma {:induction false} NothingIsEverWritten(w: int, s: ReceiverState, ds: seq<seq<byte>>)
    ensures Run(w, s, ds).state.files == s.files
    decreases |ds|
  {
    hide ParsePacket1, OnData;
    if ds != [] {
      var parsed := ParsePacket1(Truncate(ds[0], RECV_BUFFER));
      if parsed.Ok? {
        DataStep(w, s, parsed.value);
        NothingIsEverWritten(w, OnPacket(w, s, parsed.value).state, ds[1..]);
      }
    }
  }
}
