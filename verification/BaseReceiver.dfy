/** The receiver of cpp/src/base: one turn of startReceiving's loop as a function of its
    local variables, and the same turn without the map receivedPackets. */
module BaseReceiver {
  import opened Wire

  /** The variables of startReceiving. files maps i to what has been appended to FILE-i.out. */
  datatype ReceiverState = ReceiverState(
    connection: bool,
    nextSeq: int,
    counter: int,
    startAck: int,
    received: map<int, Packet>,
    files: map<int, seq<byte>>)

  datatype Option<+T> = None | Some(value: T)

  /** The new state, and the sequence number of the ACK sent, if one is. */
  datatype Reaction = Reaction(state: ReceiverState, ack: Option<u32>)

  function Contents(files: map<int, seq<byte>>, i: int): seq<byte> {
    if i in files then files[i] else []
  }

  /** writeToFile. */
  function Append(files: map<int, seq<byte>>, i: int, data: seq<byte>): map<int, seq<byte>> {
    files[i := Contents(files, i) + data]
  }

  /** The drain loop: while k is in the map, write and erase it. next_seq is not advanced
      inside. */
  function Drain(received: map<int, Packet>, files: map<int, seq<byte>>, k: int, counter: int)
    : (map<int, Packet>, map<int, seq<byte>>)
    decreases |received|
  {
    if k in received then
      Drain(received - {k}, Append(files, counter, received[k].data), k, counter)
    else (received, files)
  }

  lemma DrainWritesOnce(received: map<int, Packet>, files: map<int, seq<byte>>, k: int, counter: int)
    requires k in received
    ensures Drain(received, files, k, counter) == (received - {k}, Append(files, counter, received[k].data))
  {
    assert k !in received - {k};
  }

  function OnStart(s: ReceiverState, p: Packet): Reaction {
    if s.connection then Reaction(s, None)
    else
      Reaction(s.(connection := true, nextSeq := 0, counter := s.counter + 1, startAck := ToInt32(p.header.seqNum)),
               Some(p.header.seqNum))
  }

  function OnEnd(s: ReceiverState): Reaction {
    Reaction(s.(connection := false), Some(ToU32(s.startAck)))
  }

  function OnData(w: int, s: ReceiverState, p: Packet): Reaction {
    var seqNum := ToInt32(p.header.seqNum);
    if !ChecksumOk(p) || !(s.nextSeq + w > seqNum && s.nextSeq <= seqNum) then Reaction(s, None)
    else
      var stored := s.(received := s.received[seqNum := p]);
      var t :=
        if seqNum == s.nextSeq then
          var (received, files) := Drain(stored.received, s.files, s.nextSeq, s.counter);
          stored.(received := received, files := files, nextSeq := s.nextSeq + 1)
        else stored;
      Reaction(t, Some(ToU32(t.nextSeq)))
  }

  function OnPacket(w: int, s: ReceiverState, p: Packet): Reaction {
    if p.header.typ == START then OnStart(s, p)
    else if p.header.typ == END then OnEnd(s)
    else if p.header.typ == DATA then OnData(w, s, p)
    else Reaction(s, None)
  }

  function OnDatagram(w: int, s: ReceiverState, d: seq<byte>): Result<Reaction> {
    match ParsePacket1(Truncate(d, RECV_BUFFER))
    case Ok(p) => Ok(OnPacket(w, s, p))
    case Err(f) => Err(f)
  }

  /** Only a DATA packet with a good checksum and the number awaited reaches the file, and
      then nothing else does: the packets buffered behind it stay where they are. */
  lemma DataStep(w: int, s: ReceiverState, p: Packet)
    ensures var seqNum := ToInt32(p.header.seqNum);
            var inWindow := s.nextSeq <= seqNum < s.nextSeq + w;
            OnData(w, s, p) ==
            if !ChecksumOk(p) || !inWindow then Reaction(s, None)
            else if seqNum == s.nextSeq then
              Reaction(s.(received := s.received - {seqNum},
                          files := Append(s.files, s.counter, p.data),
                          nextSeq := s.nextSeq + 1),
                       Some(ToU32(s.nextSeq + 1)))
            else
              Reaction(s.(received := s.received[seqNum := p]), Some(ToU32(s.nextSeq)))
  {
    hide CrcU32;
    var seqNum := ToInt32(p.header.seqNum);
    if seqNum == s.nextSeq {
      DrainWritesOnce(s.received[seqNum := p], s.files, seqNum, s.counter);
      assert s.received[seqNum := p] - {seqNum} == s.received - {seqNum};
    }
  }

  // ---- Where the ACKs depart from the README ----

  /** The least number from k on that is not among the keys. */
  function NextMissing(keys: set<int>, k: int): (m: int)
    ensures k <= m <= k + |keys|
    ensures m == k <==> k !in keys
    decreases |keys|
  {
    if k in keys then NextMissing(keys - {k}, k + 1) else k
  }

  lemma {:induction false} NextMissingIsLeast(keys: set<int>, k: int)
    ensures NextMissing(keys, k) !in keys
    ensures forall j | k <= j < NextMissing(keys, k) :: j in keys
    decreases |keys|
  {
    if k in keys {
      var rest := keys - {k};
      NextMissingIsLeast(rest, k + 1);
      forall j | k <= j < NextMissing(keys, k)
        ensures j in keys
      {
        assert j > k ==> j in rest;
      }
    }
  }

  lemma AwaitedIsAcked(w: int, s: ReceiverState, p: Packet)
    requires 0 <= s.nextSeq && s.nextSeq + 1 < TWO31 && 1 <= w
    requires ChecksumOk(p) && p.header.seqNum == s.nextSeq
    ensures OnData(w, s, p).ack == Some(s.nextSeq + 1)
  {
    hide CrcU32, OnData, Append;
    DataStep(w, s, p);
    SmallConversions(s.nextSeq);
    SmallConversions(s.nextSeq + 1);
  }

  /** README.md asks that a packet with the number awaited be answered with the first number
      still missing. It is iff the packet after it is not already buffered. */
  lemma CumulativeAckIff(w: int, s: ReceiverState, p: Packet)
    requires 0 <= s.nextSeq && s.nextSeq + 1 + |s.received| < TWO31 && 1 <= w
    requires ChecksumOk(p) && p.header.seqNum == s.nextSeq
    ensures OnData(w, s, p).ack == Some(NextMissing(s.received.Keys, s.nextSeq + 1))
            <==> s.nextSeq + 1 !in s.received
  {
    hide ChecksumOk, OnData, NextMissing;
    AwaitedIsAcked(w, s, p);
    assert |s.received.Keys| == |s.received|;
  }

  /** README.md asks that any other packet be answered with the number awaited. It is iff
      its number, read as an int, lies ahead in the window: one already delivered gets no
      answer. */
  lemma ReAckIff(w: int, s: ReceiverState, p: Packet)
    requires 0 <= s.nextSeq < TWO31
    requires ChecksumOk(p) && p.header.seqNum != s.nextSeq
    ensures OnData(w, s, p).ack == Some(s.nextSeq) <==>
            s.nextSeq < ToInt32(p.header.seqNum) < s.nextSeq + w
    ensures OnData(w, s, p).ack in {None, Some(s.nextSeq)}
  {
    hide CrcU32, OnData;
    DataStep(w, s, p);
    SmallConversions(s.nextSeq);
  }

  // ---- Connections ----

  /** No END among the datagrams, and none too short for a header. */
  predicate NoEnd(ds: seq<seq<byte>>) {
    forall d | d in ds ::
      ParsePacket1(Truncate(d, RECV_BUFFER)).Ok? && ParsePacket1(Truncate(d, RECV_BUFFER)).value.header.typ != END
  }

  lemma PacketKeepsConnection(w: int, s: ReceiverState, p: Packet)
    requires s.connection && p.header.typ != END
    ensures var t := OnPacket(w, s, p).state;
            && t.connection && t.counter == s.counter && t.startAck == s.startAck
            && t.files - {s.counter} == s.files - {s.counter}
            && s.nextSeq <= t.nextSeq
            && Contents(s.files, s.counter) <= Contents(t.files, s.counter)
  {
    hide CrcU32, OnData;
    DataStep(w, s, p);
  }

  function AckSeq(a: Option<u32>): seq<u32> {
    if a.Some? then [a.value] else []
  }

  /** A run over datagrams: the last state, and the ACKs in order. It ends at the first one
      too short to hold a header, where the receiver throws. */
  datatype Trace<S> = Trace(state: S, acks: seq<u32>)

  function Run(w: int, s: ReceiverState, ds: seq<seq<byte>>): Trace<ReceiverState>
    decreases |ds|
  {
    if ds == [] then Trace(s, [])
    else match OnDatagram(w, s, ds[0])
      case Err(_) => Trace(s, [])
      case Ok(r) =>
        var t := Run(w, r.state, ds[1..]);
        Trace(t.state, AckSeq(r.ack) + t.acks)
  }

  /** Until END comes a connection stays one connection: other STARTs are ignored, only its
      own file grows, and what has been written stays. */
  lemma {:induction false} ConnectionKeeps(w: int, s: ReceiverState, ds: seq<seq<byte>>)
    requires s.connection && NoEnd(ds)
    ensures var t := Run(w, s, ds).state;
            && t.connection && t.counter == s.counter && t.startAck == s.startAck
            && t.files - {s.counter} == s.files - {s.counter}
            && s.nextSeq <= t.nextSeq
            && Contents(s.files, s.counter) <= Contents(t.files, s.counter)
    decreases |ds|
  {
    hide OnPacket, ParsePacket1, Contents;
    if ds != [] {
      var p := ParsePacket1(Truncate(ds[0], RECV_BUFFER)).value;
      PacketKeepsConnection(w, s, p);
      ConnectionKeeps(w, OnPacket(w, s, p).state, ds[1..]);
    }
  }

  /** START opens a connection with a file of its own and is answered with its number; so is
      the END that closes it, whatever came between. */
  lemma EndAcksStartNumber(w: int, s: ReceiverState, start: Packet, ds: seq<seq<byte>>, end: Packet)
    requires !s.connection && start.header.typ == START && NoEnd(ds) && end.header.typ == END
    ensures var r := OnPacket(w, s, start);
            var t := Run(w, r.state, ds).state;
            var e := OnPacket(w, t, end);
            && r.ack == Some(start.header.seqNum) && r.state.nextSeq == 0
            && r.state.received == s.received && r.state.files == s.files
            && e.ack == Some(start.header.seqNum)
            && !e.state.connection && e.state.files - {s.counter + 1} == s.files - {s.counter + 1}
            && e.state.received == t.received && e.state.files == t.files
  {
    hide OnData, Run, NoEnd;
    ConnectionKeeps(w, OnPacket(w, s, start).state, ds);
  }

  /** An END that comes again, its ACK having been lost, is answered again and changes nothing,
      as long as no START has come. */
  lemma RepeatedEndIsAnswered(w: int, s: ReceiverState, end: Packet, again: Packet)
    requires end.header.typ == 1 && again.header.typ == 1
    ensures var e := OnPacket(w, s, end);
            && e.ack == Some(ToU32(s.startAck)) && e.state == s.(connection := false)
            && OnPacket(w, e.state, again) == Reaction(e.state, e.ack)
  {
  }

  /** A packet that is neither START nor END nor DATA is not answered and changes nothing; nor is
      a DATA packet whose checksum is not that of its data. */
  lemma OthersIgnored(w: int, s: ReceiverState, p: Packet)
    requires p.header.typ > 2 || (p.header.typ == 2 && p.header.checksum != CrcU32(p.data))
    ensures OnPacket(w, s, p) == Reaction(s, None)
  {
    hide CrcU32;
  }

  // ---- The answers, one datagram at a time ----

  /** No datagram too short for a header, at which the receiver throws. */
  predicate AllParse(ds: seq<seq<byte>>) {
    forall d | d in ds :: |d| >= 16
  }

  lemma ParsesIff(w: int, s: ReceiverState, d: seq<byte>)
    ensures OnDatagram(w, s, d).Ok? <==> |d| >= 16
  {
    hide ParseHeader, OnPacket;
  }

  lemma JoinAnswers(x: seq<u32>, y: seq<u32>)
    ensures forall n :: x + (y + [n]) == (x + y) + [n]
  {
  }

  lemma SplitParse(ds: seq<seq<byte>>, d: seq<byte>)
    requires ds != []
    ensures AllParse(ds + [d]) <==> |ds[0]| >= 16 && AllParse(ds[1..] + [d])
  {
    assert forall x :: x in ds + [d] <==> x == ds[0] || x in ds[1..] + [d];
  }

  /** After any datagrams the next one is met in the state they have led to. It is answered by
      what that state has for it, if anything, after all answers before; at one too short for a
      header everything ends. */
  lemma {:induction false} AnswersInOrder(w: int, s: ReceiverState, ds: seq<seq<byte>>, d: seq<byte>)
    ensures Run(w, s, []) == Trace(s, [])
    ensures var t := Run(w, s, ds);
            Run(w, s, ds + [d]) ==
            if !AllParse(ds + [d]) then t
            else
              match OnDatagram(w, t.state, d).value
              case Reaction(u, None) => Trace(u, t.acks)
              case Reaction(u, Some(n)) => Trace(u, t.acks + [n])
    decreases |ds|
  {
    hide OnDatagram;
    if ds == [] {
      assert ds + [d] == [d] && [d][1..] == [];
      ParsesIff(w, s, d);
      assert d in [d];
      assert forall a: seq<u32> :: [] + a == a + [];
    } else {
      assert (ds + [d])[0] == ds[0] && (ds + [d])[1..] == ds[1..] + [d];
      ParsesIff(w, s, ds[0]);
      ParsesIff(w, Run(w, s, ds).state, d);
      assert ds[0] in ds + [d] && d in ds + [d];
      if OnDatagram(w, s, ds[0]).Ok? {
        var r := OnDatagram(w, s, ds[0]).value;
        AnswersInOrder(w, r.state, ds[1..], d);
        SplitParse(ds, d);
        var t := Run(w, r.state, ds[1..]);
        JoinAnswers(AckSeq(r.ack), t.acks);
      }
    }
  }

  // ---- The map decides nothing ----

  /** A Go-Back-N receiver that keeps no packet out of order. */
  datatype PlainState = PlainState(
    connection: bool,
    nextSeq: int,
    counter: int,
    startAck: int,
    files: map<int, seq<byte>>)

  function Forget(s: ReceiverState): PlainState {
    PlainState(s.connection, s.nextSeq, s.counter, s.startAck, s.files)
  }

  function PlainOnPacket(w: int, s: PlainState, p: Packet): (PlainState, Option<u32>) {
    if p.header.typ == START then
      if s.connection then (s, None)
      else (PlainState(true, 0, s.counter + 1, ToInt32(p.header.seqNum), s.files), Some(p.header.seqNum))
    else if p.header.typ == END then
      (s.(connection := false), Some(ToU32(s.startAck)))
    else if p.header.typ == DATA then
      var seqNum := ToInt32(p.header.seqNum);
      if !ChecksumOk(p) || seqNum < s.nextSeq || seqNum >= s.nextSeq + w then (s, None)
      else if seqNum > s.nextSeq then (s, Some(ToU32(s.nextSeq)))
      else
        (s.(nextSeq := s.nextSeq + 1, files := Append(s.files, s.counter, p.data)),
         Some(ToU32(s.nextSeq + 1)))
    else (s, None)
  }

  lemma StepForgets(w: int, s: ReceiverState, p: Packet)
    ensures var r := OnPacket(w, s, p);
            PlainOnPacket(w, Forget(s), p) == (Forget(r.state), r.ack)
  {
    hide CrcU32;
    DataStep(w, s, p);
  }

  lemma RunFrom(w: int, s: ReceiverState, ds: seq<seq<byte>>, k: nat)
    requires k <= |ds|
    ensures k == |ds| ==> Run(w, s, ds[k..]) == Trace(s, [])
    ensures k < |ds| && OnDatagram(w, s, ds[k]).Err? ==> Run(w, s, ds[k..]) == Trace(s, [])
    ensures k < |ds| && OnDatagram(w, s, ds[k]).Ok? ==>
              var r := OnDatagram(w, s, ds[k]).value;
              var t := Run(w, r.state, ds[k + 1..]);
              Run(w, s, ds[k..]) == Trace(t.state, AckSeq(r.ack) + t.acks)
  {
    hide OnDatagram;
    if k < |ds| {
      assert ds[k..][0] == ds[k] && ds[k..][1..] == ds[k + 1..];
    }
  }

  function PlainRun(w: int, s: PlainState, ds: seq<seq<byte>>): Trace<PlainState>
    decreases |ds|
  {
    if ds == [] then Trace(s, [])
    else match ParsePacket1(Truncate(ds[0], RECV_BUFFER))
      case Err(_) => Trace(s, [])
      case Ok(p) =>
        var (next, ack) := PlainOnPacket(w, s, p);
        var t := PlainRun(w, next, ds[1..]);
        Trace(t.state, AckSeq(ack) + t.acks)
  }

  /** Over any datagrams, connections begun and ended among them, the files written and the
      ACKs sent are those of the receiver without a map, whatever the map held at first. */
  lemma {:induction false} BufferIndependence(w: int, s: ReceiverState, ds: seq<seq<byte>>)
    ensures var r, q := Run(w, s, ds), PlainRun(w, Forget(s), ds);
            q.state == Forget(r.state) && q.acks == r.acks
    decreases |ds|
  {
    hide PlainOnPacket, OnPacket, ParsePacket1;
    if ds != [] {
      var parsed := ParsePacket1(Truncate(ds[0], RECV_BUFFER));
      if parsed.Ok? {
        StepForgets(w, s, parsed.value);
        BufferIndependence(w, OnPacket(w, s, parsed.value).state, ds[1..]);
      }
    }
  }

  /** In particular no packet left from an earlier connection reaches a later file. */
  lemma StaleEntriesNeverWritten(w: int, s: ReceiverState, stale: map<int, Packet>, ds: seq<seq<byte>>)
    ensures var a, b := Run(w, s, ds), Run(w, s.(received := stale), ds);
            a.state.files == b.state.files && a.acks == b.acks
  {
    hide Run, PlainRun;
    BufferIndependence(w, s, ds);
    BufferIndependence(w, s.(received := stale), ds);
  }
}
