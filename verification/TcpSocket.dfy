/** The blocking send and receive loops of Common/TcpSocket.cpp.

    The kernel is a schedule: how many bytes each coming recv or send is willing to move, 0
    standing for an error or a closed connection. TCP itself is a byte queue. */
module Tcp {
  import opened ByteOrder

  class TcpSocket {
    var isValid: bool
    /** What the peer has sent and this end has not read. */
    var incoming: seq<byte>
    var deliveries: seq<nat>
    /** What this end has handed to the kernel. */
    var outgoing: seq<byte>
    var acceptances: seq<nat>

    constructor (incoming: seq<byte>, deliveries: seq<nat>, acceptances: seq<nat>)
      ensures isValid && this.incoming == incoming && outgoing == []
      ensures this.deliveries == deliveries && this.acceptances == acceptances
    {
      isValid := true;
      this.incoming, this.deliveries := incoming, deliveries;
      outgoing, this.acceptances := [], acceptances;
    }

    /** A new handle on a connection of its own; on failure no handle at all. */
    method Create(opens: bool, incoming: seq<byte>, deliveries: seq<nat>, acceptances: seq<nat>) returns (ok: bool)
      modifies this
      ensures ok == isValid == opens
      ensures this.incoming == incoming && outgoing == []
      ensures this.deliveries == deliveries && this.acceptances == acceptances
    {
      Close();
      this.incoming, this.deliveries := incoming, deliveries;
      outgoing, this.acceptances := [], acceptances;
      isValid := opens;
      ok := isValid;
    }

    /** No recv fails while there is something to read. */
    ghost predicate Delivers()
      reads this
    {
      |deliveries| >= |incoming| && forall i :: 0 <= i < |deliveries| ==> deliveries[i] > 0
    }

    ghost predicate Willing()
      reads this
    {
      forall i :: 0 <= i < |acceptances| ==> acceptances[i] > 0
    }

    /** No send of the next n bytes fails. */
    ghost predicate Accepts(n: nat)
      reads this
    {
      |acceptances| >= n && Willing()
    }

    method Recv(data: array<byte>, current: nat, remaining: nat) returns (received: nat)
      requires current + remaining == data.Length && remaining > 0
      modifies `incoming, `deliveries, data
      ensures received <= remaining && received <= |old(incoming)|
      ensures data[..current + received] == old(data[..current]) + old(incoming)[..received]
      ensures incoming == old(incoming)[received..]
      ensures old(Delivers()) ==> Delivers() && (old(incoming) != [] ==> received > 0)
    {
      received := 0;
      if deliveries != [] {
        received := if deliveries[0] < remaining then deliveries[0] else remaining;
        received := if received < |incoming| then received else |incoming|;
        deliveries := deliveries[1..];
      }
      for i := 0 to received
        modifies data
        invariant data[..current + i] == old(data[..current]) + incoming[..i]
      {
        ghost var filled := data[..current + i];
        data[current + i] := incoming[i];
        assert data[..current + i] == filled;
        assert data[..current + i + 1] == filled + [incoming[i]];
        assert incoming[..i + 1] == incoming[..i] + [incoming[i]];
      }
      incoming := incoming[received..];
    }

    /** Fills the whole buffer, whatever the sizes the bytes come in. */
    method ReceiveAll(data: array<byte>) returns (ok: bool)
      modifies `incoming, `deliveries, data
      ensures ok ==> isValid && 0 < data.Length <= |old(incoming)| &&
                     data[..] == old(incoming)[..data.Length] && incoming == old(incoming)[data.Length..]
      ensures old(Delivers()) ==> Delivers() && (ok <==> isValid && 0 < data.Length <= |old(incoming)|)
    {
      if !isValid || data.Length == 0 {
        return false;
      }
      var current: nat, remaining: nat := 0, data.Length;
      while remaining > 0
        invariant current + remaining == data.Length && current <= |old(incoming)|
        invariant data[..current] == old(incoming)[..current]
        invariant incoming == old(incoming)[current..]
        invariant old(Delivers()) ==> Delivers()
      {
        var received := Recv(data, current, remaining);
        if received == 0 {
          return false;
        }
        assert old(incoming)[..current] + old(incoming)[current..][..received] == old(incoming)[..current + received];
        current := current + received;
        remaining := remaining - received;
      }
      assert data[..] == data[..current];
      return true;
    }

    method Send(bytes: seq<byte>) returns (sent: nat)
      requires bytes != []
      modifies `outgoing, `acceptances
      ensures sent <= |bytes| && outgoing == old(outgoing) + bytes[..sent]
      ensures old(Accepts(|bytes|)) ==> sent > 0
      ensures old(Willing()) ==> Willing() && |acceptances| + sent >= old(|acceptances|)
    {
      sent := 0;
      if acceptances != [] {
        sent := if acceptances[0] < |bytes| then acceptances[0] else |bytes|;
        acceptances := acceptances[1..];
      }
      outgoing := outgoing + bytes[..sent];
    }

    /** Hands over every byte in order, whatever pieces the kernel takes them in; on failure
        only a prefix has gone. */
    method SendAll(data: seq<byte>) returns (ok: bool)
      modifies `outgoing, `acceptances
      ensures old(outgoing) <= outgoing <= old(outgoing) + data
      ensures ok ==> isValid && data != [] && outgoing == old(outgoing) + data
      ensures old(Accepts(|data|)) ==> (ok <==> isValid && data != [])
      ensures old(Willing()) ==> Willing() && |acceptances| + |data| >= old(|acceptances|)
    {
      if !isValid || data == [] {
        return false;
      }
      var current: nat, remaining: nat := 0, |data|;
      while remaining > 0
        invariant current + remaining == |data|
        invariant outgoing == old(outgoing) + data[..current]
        invariant old(Willing()) ==> Willing() && |acceptances| + current >= old(|acceptances|)
      {
        var sent := Send(data[current..]);
        assert data[..current] + data[current..][..sent] == data[..current + sent];
        if sent == 0 {
          return false;
        }
        current := current + sent;
        remaining := remaining - sent;
      }
      assert data[..current] == data;
      return true;
    }

    method Close()
      modifies `isValid
      ensures !isValid
    {
      isValid := false;
    }
  }
}
