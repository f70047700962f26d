/** The numbers a session gives its packets (Server/ClientSession.cpp), and what the client's
    statistics then say about them. */
module PacketNumbers {
  import opened ByteOrder
  import opened Protocol
  import opened Sessions
  import opened SessionRuns
  import opened LossAccounting
  import Metrics
  import UdpStreaming
  import ClientReceiver

  /** Operations on a session, with the packets sent to its client. */
  datatype Action = Send | Do(op: Op)

  function Act(s: Session, a: Action, trig: Trig): Session {
    match a
    case Send => s.(nextSequenceId := s.nextSequenceId + 1)
    case Do(op) => Perform(s, op, trig)
  }

  ghost function Acted(s: Session, run: seq<Action>, trig: Trig): Session {
    if run == [] then s else Act(Acted(s, run[..|run| - 1], trig), run[|run| - 1], trig)
  }

  predicate Restarts(a: Action) {
    a.Do? && (a.op.Stop? || a.op.Reset?)
  }

  /** The numbers of the packets sent since the last Stop or Reset. */
  ghost function Issued(s: Session, run: seq<Action>, trig: Trig): seq<nat> {
    if run == [] then []
    else
      var p, a := run[..|run| - 1], run[|run| - 1];
      if Restarts(a) then []
      else if a.Send? then Issued(s, p, trig) + [Acted(s, p, trig).nextSequenceId + 1]
      else Issued(s, p, trig)
  }

  /** They are 1, 2, 3, ..., whatever commands, inputs and ticks come in between, and the
      session's own count is how many there are. */
  lemma {:induction false} NumbersAreConsecutive(run: seq<Action>, trig: Trig)
    ensures var ids := Issued(NEW_SESSION, run, trig);
            && Acted(NEW_SESSION, run, trig).nextSequenceId == |ids|
            && forall i :: 0 <= i < |ids| ==> ids[i] == i + 1
  {
    hide Step, ApplyInput;
    if run != [] {
      NumbersAreConsecutive(run[..|run| - 1], trig);
    }
  }

  /** From the server's session to the client's statistics: if all that reached the collector
      since its reset are packets sent since the session's, in any order and number, then the
      packets sent are those before the first one received, the received, the lost and those
      after the highest, exactly when no arrival was a duplicate, below the first, or too late. */
  lemma {:induction false} SentIsAccountedFor(run: seq<Action>, h: seq<nat>, trig: Trig)
    requires h != []
    requires forall k :: 0 <= k < |h| ==> h[k] in Issued(NEW_SESSION, run, trig)
    ensures var sent := Acted(NEW_SESSION, run, trig).nextSequenceId;
            sent == (h[0] - 1) + After(h).received + After(h).LossCount() + (sent - Highest(h)) <==>
            forall k :: 0 < k < |h| ==> Welcome(h, k)
  {
    NumbersAreConsecutive(run, trig);
    hide Issued, Acted, After, Highest, Welcome;
    EndToEnd(h, Acted(NEW_SESSION, run, trig).nextSequenceId);
  }

  /** The datagram the server sends a recipient is counted by an active client as a packet with
      the recipient's next number, as long as numbers fit in 64 bits and entities in the buffer. */
  lemma {:induction false} DatagramIsNumberedPacket(recipient: UdpStreaming.Client, batch: EntityStateBatch,
                                                    client: ClientReceiver.Client, now: int)
    requires client.active && |batch.entities| <= 84 && recipient.session.nextSequenceId + 1 < TWO_TO_64
    ensures var number := recipient.session.nextSequenceId + 1;
            ClientReceiver.Received(client, UdpStreaming.OwnDatagram(recipient, batch).bytes, now) ==
            ClientReceiver.Client(true, Metrics.Apply(client.collector, Metrics.Packet(number, now)),
                                  ClientReceiver.SeeAll(client.world, batch.entities))
    ensures var d := UdpStreaming.OwnDatagram(recipient, batch);
            d.ip == recipient.ip && d.port == recipient.session.udpPort
  {
    hide ClientReceiver.Received, StateDatagram, Word64, Value64, Metrics.Apply, ClientReceiver.SeeAll;
    var number := recipient.session.nextSequenceId + 1;
    WordValue64(number, 0);
    ClientReceiver.BatchFitsUpTo84(client, batch.(sequenceId := UdpStreaming.WireId(number)), now);
  }
}
