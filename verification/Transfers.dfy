/** One base receiver through any number of transfers, one connection after the other. */
module Transfers {
  import opened Wire
  import opened Chunks
  import opened BaseSender
  import opened BaseReceiver
  import opened Network
  import opened BaseProtocol
  import opened BaseLiveness

  /** A transfer: the START that opens it, the run of its data phase, where that leaves both
      ends, and the END that closes it. */
  datatype Transfer = Transfer(c: Config, start: Packet, steps: seq<Step>, last: System, end: Packet)

  /** The data phase begins when START has reached the receiver. */
  function Opened(w: int, r: ReceiverState, start: Packet): System {
    var q := OnPacket(w, r, start).state;
    System(INITIAL, q, Contents(q.files, q.counter), {}, {}, false)
  }

  function Closed(w: int, x: Transfer): ReceiverState {
    OnPacket(w, x.last.receiver, x.end).state
  }

  /** sendData has returned when END is sent. */
  ghost predicate Completes(w: int, r: ReceiverState, x: Transfer) {
    && x.c.Valid() && x.c.recvWindow == w
    && x.start.header.typ == START && x.end.header.typ == END
    && Reaches(x.c, Opened(w, r, x.start), x.steps, x.last)
    && !Running(x.c.file, x.last.sender)
  }

  /** The transfers complete one after the other, and take the receiver from r to u. */
  ghost predicate InTurn(w: int, r: ReceiverState, xs: seq<Transfer>, u: ReceiverState)
    decreases |xs|
  {
    if xs == [] then r == u
    else Completes(w, r, xs[0]) && InTurn(w, Closed(w, xs[0]), xs[1..], u)
  }

  lemma OpenedIsInit(w: int, r: ReceiverState, start: Packet)
    requires !r.connection && start.header.typ == START
    ensures var s := Opened(w, r, start);
            && Init(s) && s.receiver.counter == r.counter + 1 && s.receiver.files == r.files
            && Output(s) == Contents(r.files, r.counter + 1)
  {
    hide OnData;
  }

  lemma ContentsElsewhere(a: map<int, seq<byte>>, b: map<int, seq<byte>>, i: int, j: int)
    requires a - {i} == b - {i} && j != i
    ensures Contents(a, j) == Contents(b, j)
  {
    assert j in a <==> j in a - {i};
    assert j in b <==> j in b - {i};
    if j in a {
      assert a[j] == (a - {i})[j] == (b - {i})[j];
    }
  }

  /** One transfer appends its file to the next FILE-i.out and touches no other. */
  lemma OneTransfer(w: int, r: ReceiverState, x: Transfer)
    requires !r.connection && Completes(w, r, x)
    ensures var u := Closed(w, x);
            && !u.connection && u.counter == r.counter + 1
            && Contents(u.files, r.counter + 1) == Contents(r.files, r.counter + 1) + x.c.file
            && (forall j | j != r.counter + 1 :: Contents(u.files, j) == Contents(r.files, j))
  {
    hide Init, Inv, Reaches, OnData, Contents, Running;
    var s := Opened(w, r, x.start);
    OpenedIsInit(w, r, x.start);
    InitInv(x.c, s);
    RunKeepsInv(x.c, s, x.steps, x.last);
    RunAppends(x.c, s, x.steps, x.last);
    forall j | j != r.counter + 1
      ensures Contents(x.last.receiver.files, j) == Contents(r.files, j)
    {
      ContentsElsewhere(s.receiver.files, x.last.receiver.files, r.counter + 1, j);
    }
  }

  /** Whatever the receiver's map and files held, and whatever the network did in each data
      phase: the transfers append their files, each to a FILE-i.out of its own, in order. */
  lemma {:induction false} FilesInOrder(w: int, r: ReceiverState, xs: seq<Transfer>, u: ReceiverState)
    requires !r.connection && InTurn(w, r, xs, u)
    ensures !u.connection && u.counter == r.counter + |xs|
    ensures forall i | 0 <= i < |xs| ::
              Contents(u.files, r.counter + 1 + i) == Contents(r.files, r.counter + 1 + i) + xs[i].c.file
    ensures forall j | !(r.counter < j <= r.counter + |xs|) :: Contents(u.files, j) == Contents(r.files, j)
    decreases |xs|
  {
    hide Completes, Closed, Contents;
    if xs != [] {
      OneTransfer(w, r, xs[0]);
      var v := Closed(w, xs[0]);
      FilesInOrder(w, v, xs[1..], u);
      forall i | 0 <= i < |xs|
        ensures Contents(u.files, r.counter + 1 + i) == Contents(r.files, r.counter + 1 + i) + xs[i].c.file
      {
        if i > 0 {
          assert xs[1..][i - 1] == xs[i];
          assert Contents(u.files, v.counter + 1 + (i - 1))
              == Contents(v.files, v.counter + 1 + (i - 1)) + xs[i].c.file;
        }
      }
    }
  }

  lemma InitFinishable(c: Config, s: System)
    requires c.Valid() && Init(s)
    ensures Finishable(c, s)
  {
  }

  lemma DoneMeansExited(c: Config, s: System)
    ensures Done(c, s) <==> !Running(c.file, s.sender)
  {
  }

  lemma TransferExists(w: int, r: ReceiverState, c: Config) returns (x: Transfer)
    requires !r.connection && w >= 1 && c.Valid() && c.recvWindow == w
    ensures x.c == c && Completes(w, r, x)
  {
    hide Init, Inv, Reaches, OnPacket, Finishable, Done;
    var start := Packet(Header(START, 1, 0, 0), []);
    var s := Opened(w, r, start);
    OpenedIsInit(w, r, start);
    InitInv(c, s);
    InitFinishable(c, s);
    var steps, t := Finish(c, s);
    x := Transfer(c, start, steps, t, Packet(Header(END, 1, 0, 0), []));
    DoneMeansExited(c, t);
  }

  /** Any files can be transferred so, in any order and with any windows of the sender. */
  lemma {:induction false} TransfersExist(w: int, r: ReceiverState, cs: seq<Config>)
    returns (xs: seq<Transfer>, u: ReceiverState)
    requires !r.connection && w >= 1 && forall c | c in cs :: c.Valid() && c.recvWindow == w
    ensures |xs| == |cs| && (forall i | 0 <= i < |cs| :: xs[i].c == cs[i]) && InTurn(w, r, xs, u)
    decreases |cs|
  {
    hide Completes, Closed, Contents;
    if cs == [] {
      xs, u := [], r;
    } else {
      var x := TransferExists(w, r, cs[0]);
      OneTransfer(w, r, x);
      var rest;
      rest, u := TransfersExist(w, Closed(w, x), cs[1..]);
      xs := [x] + rest;
      assert xs[1..] == rest;
    }
  }
}
