/** Register writes sent over the serial line: transmitter, line, receiver, decoder, registers. */
module RemoteWrites {
  import opened Bits
  import opened SerialLink
  import opened SerialDrain
  import opened RegisterFile
  import opened Uart2Reg
  import BaudGen

  datatype System = System(link: Link, board: Board)

  /** One clock: the decoder is triggered by the rise of the receiver's `rdy`. */
  function Step(r: Rate, s: System, w: Write): (t: System)
    requires s.board.file.Valid()
    ensures t.board.file.Valid()
  {
    var link := Clock(r, s.link, w);
    System(link, if !s.link.rx.rdy && link.rx.rdy then Feed(s.board, link.rx.data) else s.board)
  }

  function Steps(r: Rate, s: System, ws: seq<Write>): (t: System)
    requires s.board.file.Valid()
    ensures t.board.file.Valid()
    decreases |ws|
  {
    if ws == [] then s else Step(r, Steps(r, s, ws[..|ws| - 1]), ws[|ws| - 1])
  }

  /** The board has been fed exactly the announced bytes. */
  lemma {:induction false} BoardFollowsLink(r: Rate, s: System, ws: seq<Write>)
    requires s.board.file.Valid() && s.link.received == []
    ensures var e := Steps(r, s, ws);
            e.link == Run(r, s.link, ws) && e.board == FeedAll(s.board, e.link.received)
    decreases |ws|
  {
    if ws != [] {
      BoardFollowsLink(r, s, ws[..|ws| - 1]);
      var m, e := Steps(r, s, ws[..|ws| - 1]), Steps(r, s, ws);
      if |e.link.received| > |m.link.received| {
        assert e.link.received[..|e.link.received| - 1] == m.link.received;
      }
    }
  }

  /**
   Any list of register writes, sent as packets with any gaps between the bytes and from any
   phases of the tick trains, leaves the register file as applying the writes in order does,
   ten bit times and twenty-five receive ticks after the last byte was accepted.
   */
  lemma WritesArrive(r: Rate, start: System, ws: seq<Write>, idle: seq<Write>, ps: seq<Packet>)
    requires r.Recoverable() && AtRest(r, start.link) && start.board.file.Valid()
    requires Packets(Offered(r, start.link, ws), ps)
    requires NoWrites(idle) && |idle| > 10 * r.tx + 25 * r.rx
    ensures Steps(r, start, ws + idle).board.file == StoreAll(start.board.file, ps)
  {
    BoardFollowsLink(r, start, ws + idle);
    EverythingArrives(r, start.link, ws, idle);
    StreamStores(start.board, Offered(r, start.link, ws), ps);
  }

  /** At the rates the board computes, the wait is 2531 clocks. */
  lemma WritesArriveOnTheBoard(start: System, ws: seq<Write>, idle: seq<Write>, ps: seq<Packet>)
    requires AtRest(BaudGen.BOARD_RATE, start.link) && start.board.file.Valid()
    requires Packets(Offered(BaudGen.BOARD_RATE, start.link, ws), ps)
    requires NoWrites(idle) && |idle| == 2531
    ensures Steps(BaudGen.BOARD_RATE, start, ws + idle).board.file == StoreAll(start.board.file, ps)
  {
    BaudGen.BoardRateIsRecoverable();
    WritesArrive(BaudGen.BOARD_RATE, start, ws, idle, ps);
  }
}
