/** src/tcp_connection.cc: the class, over a real Buffer, a Channel and the default poller. Each
    method is the transition of Connections with the same name. */
module TcpConnections {
  import opened Bytes
  import opened Buffers
  import opened Pollers
  import opened Connections

  datatype ReadOutcome = Readable | EndOfFile | Failed

  class TcpConnection {
    const fd: int
    const channel: Channel
    const poller: EPoller
    const input: Buffer
    const output: Buffer
    var state: State
    var watermark: nat
    ghost var log: seq<Event>

    /** The channel, the poller and the kernel's interest list agree. */
    ghost predicate Synced()
      reads channel, poller, poller.fdChannels.Values
    {
      && poller.Valid() && poller.Knows(channel) && channel.fd == fd
      && (channel.index >= 0 ==> poller.kernel[fd] == channel.events)
    }

    ghost predicate Valid()
      reads this, channel, poller, poller.fdChannels.Values, input, output
    {
      Synced() && input.Valid() && output.Valid() && input != output && input.data != output.data
    }

    ghost function Value(): Conn
      requires output.Valid()
      reads this, channel, output, output.data
    {
      Conn(state, channel.events.read, channel.events.write, channel.index >= 0, output.Contents(), log)
    }

    /** NewConnection: the constructor enables reading, OnEstablished follows. `accept` returned a
        descriptor that no registered channel has. */
    constructor (poller: EPoller, fd: int)
      requires poller.Valid() && fd !in poller.fdChannels && fd >= 0
      modifies poller
      ensures Valid() && Value() == OPENED && this.fd == fd && this.poller == poller
      ensures fresh(channel) && fresh(input) && fresh(output) && fresh(input.data) && fresh(output.data)
    {
      this.fd, this.poller := fd, poller;
      channel := new Channel(fd);
      input := new Buffer(1024, 0);
      output := new Buffer(1024, 8);
      state, log := Connecting, [];
      watermark := 1024 * 1024 * 1024;
      new;
      channel.events := Interest(true, false);
      poller.UpdateChannel(channel);
      state := Established;
    }

    method SetInterest(events: Interest)
      requires Synced()
      modifies channel, poller
      ensures Synced() && channel.events == events && channel.index >= 0
    {
      channel.events := events;
      poller.UpdateChannel(channel);
    }

    method ShutdownUnsafe() returns (fin: bool)
      requires Valid()
      modifies this`log
      ensures Valid() && Value() == Connections.ShutdownUnsafe(old(Value()))
      ensures fin <==> !old(channel.events.write)
    {
      fin := !channel.events.write;
      if fin {
        log := log + [Fin];
      }
    }

    method Shutdown() returns (fin: bool)
      requires Valid()
      modifies this
      ensures Valid() && Value() == Connections.Shutdown(old(Value()))
    {
      fin := false;
      if state == Established {
        state := HalfShutdown;
        fin := ShutdownUnsafe();
      }
    }

    /** `r` is what write(2) answers; `queued` tells whether write_cb_ goes to the loop. */
    method HandleWrite(r: WriteResult) returns (queued: bool, fin: bool)
      requires Valid() && Possible(r, |output.Contents()|)
      modifies this, channel, poller, output`head
      ensures Valid() && Value() == Connections.HandleWrite(old(Value()), r)
      ensures queued <==> r.Wrote? && r.n == |old(output.Contents())|
    {
      queued, fin := false, false;
      if !r.Wrote? { return; }
      log := log + [Taken(output.Contents()[..r.n])];
      output.Pop(r.n);
      if output.Empty() {
        SetInterest(channel.events.(write := false));
        queued := true;
        log := log + [Notified];
        if state == HalfShutdown {
          fin := ShutdownUnsafe();
        }
      }
    }

    /** `queued`: write_cb_ goes to the loop. `high`: the high-watermark callback is called now. */
    method Send(data: string, r: WriteResult) returns (queued: bool, high: bool)
      requires Valid() && Possible(r, |data|)
      modifies this, channel, poller, output, output.data
      ensures Valid() && Value() == Connections.Send(old(Value()), data, r)
      ensures queued <==> Queued(old(Value()), Value())
      ensures high <==> old(state) == Established && HighWater(old(Value()), data, r, old(watermark))
      ensures output.data == old(output.data) || fresh(output.data)
    {
      SendQueues(Value(), data, r);
      hide Queued, Connections.SendUnsafe;
      queued, high := false, false;
      if state == Established {
        queued, high := SendUnsafe(data, r);
      }
    }

    method SendUnsafe(data: string, r: WriteResult) returns (queued: bool, high: bool)
      requires Valid() && Possible(r, |data|)
      modifies this, channel, poller, output, output.data
      ensures Valid() && Value() == Connections.SendUnsafe(old(Value()), data, r)
      ensures queued <==> Queued(old(Value()), Value())
      ensures high <==> HighWater(old(Value()), data, r, old(watermark))
      ensures watermark == old(watermark)
      ensures output.data == old(output.data) || fresh(output.data)
    {
      SendQueues(Value(), data, r);
      hide Queued;
      queued, high := false, false;
      if channel.events.write {
        output.Append(data);
        log := log + [Submitted(data)];
        return;
      }
      if !output.Empty() {
        output.Append(data);
        log := log + [Submitted(data)];
        SetInterest(channel.events.(write := true));
      } else {
        var error;
        queued, error := WriteThrough(data, r);
        if error { return; }
      }
      high := output.ReadableBytes() >= watermark;
    }

    /** Lines 203-224: nothing is buffered, so write at once and buffer what is left. */
    method WriteThrough(data: string, r: WriteResult) returns (queued: bool, error: bool)
      requires Valid() && Possible(r, |data|) && !channel.events.write && output.Contents() == ""
      modifies this, channel, poller, output, output.data
      ensures Valid() && Value() == Connections.SendUnsafe(old(Value()), data, r)
      ensures watermark == old(watermark)
      ensures error <==> r.HardError?
      ensures queued <==> Queued(old(Value()), Value())
      ensures output.data == old(output.data) || fresh(output.data)
    {
      SendQueues(Value(), data, r);
      hide Queued;
      queued, error := false, r.HardError?;
      if error { return; }
      var ret := if r.Wrote? then r.n else 0;
      log := log + [Submitted(data)] + [Taken(data[..ret])];
      if ret < |data| {
        output.Append(data[ret..]);
        SetInterest(channel.events.(write := true));
      } else {
        queued := true;
        log := log + [Notified];
      }
    }

    /** `close` tells whether conn_cb_ and close_cb_ follow. */
    method HandleClose() returns (close: bool)
      requires Valid() && state != Connecting
      modifies this, channel, poller
      ensures Valid() && Value() == Connections.HandleClose(old(Value()))
      ensures close <==> old(state) != Disconnected
      ensures close ==> fd !in poller.fdChannels
    {
      close := state != Disconnected;
      if !close { return; }
      SetInterest(NO_EVENT);
      var removed := poller.RemoveChannel(channel);
      state := Disconnected;
    }

    /** `received` is what readv delivered, None for an error. */
    method HandleRead(received: Option<string>) returns (outcome: ReadOutcome)
      requires Valid() && state != Connecting
      requires received.Some? ==> |received.value| <= input.data.Length - input.tail + 65535
      modifies this, channel, poller, input, input.data
      ensures Valid()
      ensures outcome == (if received.None? then Failed else if received.value == "" then EndOfFile else Readable)
      ensures Value() == if outcome == EndOfFile then Connections.HandleClose(old(Value())) else old(Value())
      ensures input.Contents() == old(input.Contents()) + if received.Some? then received.value else ""
    {
      ghost var was := input.Contents();
      var n := input.ReadFd(received);
      assert was + "" == was;
      if n > 0 {
        outcome := Readable;
      } else if n == 0 {
        var _ := HandleClose();
        outcome := EndOfFile;
      } else {
        outcome := Failed;
      }
    }

    /** The functor queued by RemoveConnection. On a connection that is not established but whose
        channel still asks for events, as a half-shut one does, RemoveChannel's assert fails. */
    method DestroyConnection() returns (ok: bool)
      requires Valid()
      modifies this, channel, poller
      ensures ok <==> old(state) == Established || Removable(old(Value()))
      ensures Valid() && Value() == if ok then Connections.DestroyConnection(old(Value())) else old(Value())
      ensures ok ==> fd !in poller.fdChannels
    {
      if state == Established {
        state := Disconnected;
        SetInterest(NO_EVENT);
      }
      var removed := poller.RemoveChannel(channel);
      ok := removed != AssertFails;
    }
  }
}
