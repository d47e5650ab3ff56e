/** The gamepad_client record of the server and the functions that work on one:
    recv_data, client_data, client_close and the message handlers, updating its
    fields and its input buffer in place. */
module GamepadClients {
  import opened Wrappers
  import opened Protocol
  import opened Uinput
  import opened DeviceCreation
  import opened Slots

  class GamepadClient {
    var fd: int
    var evFd: int
    var meta: Meta
    var status: Byte
    var scanOffset: nat
    var available: nat
    const buffer: array<Byte>

    // the number of answers taken from the operating system so far
    var calls: nat
    // the C code has left defined behaviour
    var wrecked: bool
    // what serving this client has done since its last HELLO
    ghost var log: seq<Effect>

    ghost predicate Valid()
      reads this
    {
      buffer.Length == INPUT_BUFFER_SIZE && scanOffset + available <= INPUT_BUFFER_SIZE
    }

    ghost function State(): Slot
      reads this
    {
      Slot(fd, evFd, meta, status, calls, wrecked)
    }

    /** The received bytes that were not used yet. */
    ghost function Pending(): Bytes
      reads this, buffer
      requires Valid()
    {
      buffer[scanOffset..scanOffset + available]
    }

    ghost function View(): Port
      reads this, buffer
      requires Valid()
    {
      Port(State(), if Live(State()) then Pending() else [])
    }

    /** init_client. */
    constructor ()
      ensures Valid() && fresh(buffer)
      ensures State() == FreeSlot() && Pending() == [] && scanOffset == 0 && log == []
    {
      fd, evFd := -1, -1;
      meta, status := EmptyMeta(), UNCONN;
      scanOffset, available := 0, 0;
      calls, wrecked := 0, false;
      log := [];
      buffer := new Byte[INPUT_BUFFER_SIZE](_ => 0);
    }

    /** Moves the unused bytes to the front of the buffer and appends what recv
        returned; the empty chunk stands for an error or the end of the stream. */
    method RecvData(chunk: Bytes) returns (ok: bool)
      requires Valid() && |chunk| <= INPUT_BUFFER_SIZE - available
      modifies this`scanOffset, this`available, buffer
      ensures Valid() && ok == (chunk != [])
      ensures ok ==> Pending() == old(Pending()) + chunk && scanOffset == 0
      ensures !ok ==> available == old(available) && scanOffset == old(scanOffset)
      ensures !ok && scanOffset == 0 ==> Pending() == old(Pending())
    {
      forall k | 0 <= k < available {
        buffer[k] := buffer[scanOffset + k];
      }
      assert buffer[..available] == old(Pending());

      if chunk == [] {
        return false;
      }

      forall k | 0 <= k < |chunk| {
        buffer[available + k] := chunk[k];
      }
      assert buffer[..available] == old(Pending());
      assert buffer[available..available + |chunk|] == chunk;
      available := available + |chunk|;
      scanOffset := 0;
      return true;
    }

    /** The record takes over a connection that was told `reply`. */
    method Adopt(socket: int, reply: Byte)
      requires Valid()
      modifies this`fd, this`scanOffset, this`available, this`status, this`log, buffer
      ensures Valid() && View() == Port(old(State()).(fd := socket, status := reply), [])
      ensures log == [Sent([reply], true)]
    {
      fd := socket;
      scanOffset, available := 0, 0;
      forall k | 0 <= k < buffer.Length {
        buffer[k] := 0;
      }
      status := reply;
      log := [Sent([reply], true)];
    }

    /** The record forgets its connection and the bytes it received from it. */
    method Release()
      requires Valid()
      modifies this`fd, this`scanOffset, this`available
      ensures Valid() && fd == -1 && scanOffset == 0 && Pending() == []
    {
      available, scanOffset := 0, 0;
      fd := -1;
    }

    // ---------- handlers ----------

    method HandlePassword(cfg: Config, msg: Bytes, os: Os) returns (ret: int)
      requires |msg| >= PASSWORD_SIZE
      modifies this`status, this`calls, this`log
      ensures Handled(State(), ret, log) == After(Slots.HandlePassword(cfg, old(State()), msg, os), old(log))
    {
      var size := PASSWORD_SIZE + msg[1];
      if status != PASSWORD_REQUIRED {
        assert log + [] == log;
        return size;
      }

      var message;
      if !StrncmpEqual(cfg.password, msg[PASSWORD_SIZE..]) {
        message := INVALID_PASSWORD;
      } else if evFd < 0 {
        message := SETUP_REQUIRED;
      } else {
        message := SUCCESS;
      }
      log := log + [Judged(msg[PASSWORD_SIZE..], message)];

      status := message;
      var sent := SendMessage([message], os);
      if !sent {
        return -1;
      }
      return size;
    }

    /** send_message on the client's socket; its success is up to the system. */
    method SendMessage(reply: Bytes, os: Os) returns (ok: bool)
      modifies this`calls, this`log
      ensures ok == (os(old(calls)) >= 0) && calls == old(calls) + 1
      ensures log == old(log) + [Sent(reply, ok)]
    {
      ok := os(calls) >= 0;
      calls := calls + 1;
      log := log + [Sent(reply, ok)];
    }

    method HandleAbsInfo(msg: Bytes) returns (ret: int)
      requires |msg| == ABSINFO_SIZE
      modifies this`meta
      ensures Handled(State(), ret, []) == Slots.HandleAbsInfo(old(State()), msg)
    {
      if status != SETUP_REQUIRED {
        return -1;
      }
      if msg[1] >= ABS_CNT {
        return -1;
      }
      meta := meta.(absinfo := meta.absinfo[msg[1] := msg[2..]]);
      return ABSINFO_SIZE;
    }

    method HandleDevice(msg: Bytes) returns (ret: int)
      requires |msg| >= DEVICE_SIZE
      modifies this`meta
      ensures Handled(State(), ret, []) == Slots.HandleDevice(old(State()), msg)
    {
      if status != SETUP_REQUIRED {
        return -1;
      }
      meta := meta.(name := Some(msg[DEVICE_SIZE..]));
      return DEVICE_SIZE + msg[1];
    }

    method HandleSetupRequired(os: Os) returns (ret: int)
      modifies this`status, this`calls, this`log
      ensures Handled(State(), ret, log) == After(Slots.HandleSetupRequired(old(State()), os), old(log))
    {
      if status != SUCCESS {
        assert log + [] == log;
        return -1;
      }
      status := SETUP_REQUIRED;
      var sent := SendMessage([SETUP_REQUIRED], os);
      if !sent {
        return -1;
      }
      return 1;
    }

    method HandleRequestEvent(cfg: Config, msg: Bytes, os: Os) returns (ret: int)
      requires |msg| == REQUEST_EVENT_SIZE
      modifies this`meta, this`calls, this`log
      ensures Handled(State(), ret, log) == After(Slots.HandleRequestEvent(cfg, old(State()), msg, os), old(log))
    {
      var id := DecodeRequest(msg);
      if status != SETUP_REQUIRED {
        var _ := SendMessage([INVALID], os);
        return -1;
      }
      assert log + [] == log;
      if id.kind >= EV_MAX {
        return -1;
      }
      if id.code >= KEY_MAX {
        return -1;
      }
      if id !in cfg.whitelist {
        return REQUEST_EVENT_SIZE;
      }

      var grown := os(calls) >= 0;
      calls := calls + 1;
      if !grown {
        meta := meta.(enabled := []);
        return -1;
      }
      meta := meta.(enabled := meta.enabled + [id]);
      return REQUEST_EVENT_SIZE;
    }

    method HandleSetupEnd(cfg: Config, index: nat, os: Os) returns (ret: int)
      requires index < 0xFF
      modifies this`evFd, this`status, this`calls, this`wrecked, this`log
      ensures Handled(State(), ret, log) == After(Slots.HandleSetupEnd(cfg, old(State()), index, os), old(log))
    {
      hide Attempted, SpecOf, SetupOk;
      if status != SETUP_REQUIRED {
        var _ := SendMessage([INVALID], os);
        return -1;
      }

      assert log + [] == log;
      ghost var spec := SpecNow(cfg, State(), os);
      var dev, requests, _, broken := CreateDevice(meta, cfg.uinput, Answers(os, calls));
      calls := calls + 1 + |requests|;
      if broken {
        wrecked := true;
        return -1;
      }
      if dev < 0 {
        return -1;
      }
      evFd := dev;
      log := log + [Created(dev, spec)];

      status := SUCCESS;
      var sent := SendMessage([SUCCESS, index + 1], os);
      if !sent {
        return -1;
      }
      return 1;
    }

    method HandleData(msg: Bytes, os: Os) returns (ret: int)
      requires |msg| == DATA_SIZE
      modifies this`calls, this`log
      ensures Handled(State(), ret, log) == After(Slots.HandleData(old(State()), msg, os), old(log))
    {
      assert log + [] == log;
      if status != SUCCESS {
        return DATA_SIZE;
      }
      var event := DecodeData(msg);
      var written := os(calls) >= 0;
      calls := calls + 1;
      if !written {
        return -1;
      }
      log := log + [Wrote(evFd, event)];
      return DATA_SIZE;
    }

    // ---------- closing ----------

    /** cleanup_device. */
    method CleanupDevice(os: Os)
      modifies this`evFd, this`meta, this`calls, this`log
      ensures var o := Cleanup(old(State()), os); State() == o.slot && log == old(log) + o.effects
    {
      assert log + [] == log;
      if evFd < 0 {
        return;
      }
      var destroyed := os(calls) >= 0;
      calls := calls + 1;
      if !destroyed {
        return;
      }
      log := log + [Destroyed(evFd)];
      evFd := -1;
      meta := EmptyMeta();
    }

    method CloseSocket()
      modifies this`fd, this`log
      ensures fd == -1 && log == old(log) + [Closed(old(fd))]
    {
      log := log + [Closed(fd)];
      fd := -1;
    }

    /** client_close. */
    method ClientClose(cleanup: bool, os: Os)
      requires Valid() && fd >= -1
      modifies this
      ensures Valid() && available == old(available) && scanOffset == 0 && fd == -1
      ensures var o := Close(old(State()), cleanup, os); State() == o.slot && log == old(log) + o.effects
    {
      if cleanup {
        CleanupDevice(os);
      }
      assert log + [] == log;
      if fd >= 0 {
        CloseSocket();
      }
      status := UNCONN;
      scanOffset := 0;
      meta := meta.(enabled := []);
    }

    // ---------- client_data ----------

    /** The handler call on a complete message at the head of the buffer, with what
        follows it. Returns whether the loop goes on. */
    method HandleMessage(cfg: Config, index: nat, msg: Bytes, os: Os) returns (more: bool)
      requires Valid() && index < 0xFF && Live(State())
      requires IsFrame(msg) && |msg| <= available && msg == Pending()[..|msg|]
      modifies this
      ensures Valid()
      ensures var o := Dispatch(cfg, index, old(State()), msg, os); State() == o.slot && log == old(log) + o.effects
      ensures more == Live(State())
      ensures more ==> available == old(available) - |msg| && scanOffset == old(scanOffset) + |msg|
    {
      hide Slots.HandlePassword, Slots.HandleAbsInfo, Slots.HandleDevice, Slots.HandleRequestEvent,
        Slots.HandleSetupRequired, Slots.HandleSetupEnd, Slots.HandleData, Close;
      HandlerReturnsFrame(cfg, index, State(), msg, os);
      var ret: int;
      if msg[0] == PASSWORD {
        ret := HandlePassword(cfg, msg, os);
      } else if msg[0] == ABSINFO {
        ret := HandleAbsInfo(msg);
      } else if msg[0] == DEVICE {
        ret := HandleDevice(msg);
      } else if msg[0] == REQUEST_EVENT {
        ret := HandleRequestEvent(cfg, msg, os);
      } else if msg[0] == SETUP_REQUIRED {
        ret := HandleSetupRequired(os);
      } else if msg[0] == QUIT {
        ClientClose(true, os);
        return false;
      } else if msg[0] == SETUP_END {
        ret := HandleSetupEnd(cfg, index, os);
      } else if msg[0] == DATA {
        ret := HandleData(msg, os);
      } else {
        ret := -1;
      }
      if wrecked {
        return false;
      }
      if ret < 0 {
        CloseSocket();
        return false;
      }
      scanOffset := scanOffset + ret;
      available := available - ret;
      return true;
    }

    /** client_data: handles the messages in the buffer until it holds no whole
        one, the connection ends, or the buffer starts with no message type. With
        only the type byte of a PASSWORD or DEVICE message in the buffer the size
        is 0 and the handler is called all the same. */
    method ClientData(cfg: Config, index: nat, os: Os)
      requires Valid() && index < 0xFF && Live(State())
      modifies this
      ensures Valid() && (Live(State()) ==> scanOffset + available == old(scanOffset + available))
      ensures var r := Drain(AsWritten, cfg, index, old(State()), old(Pending()), os);
              View() == r.port && log == old(log) + r.effects
    {
      hide Drain, Dispatch, SizeFromCommand, MessageLength;
      ghost var whole := Drain(AsWritten, cfg, index, State(), Pending(), os);
      ghost var done := [];
      assert log + [] == log;
      while available > 0
        invariant Valid() && Live(State()) && buffer[..] == old(buffer[..])
        invariant scanOffset + available == old(scanOffset + available)
        invariant log == old(log) + done
        invariant var r := Drain(AsWritten, cfg, index, State(), Pending(), os);
                  whole == Served(r.port, done + r.effects)
        decreases available
      {
        var buf := buffer[scanOffset..scanOffset + available];
        var bytes := SizeFromCommand(buf);
        DrainStep(cfg, index, State(), buf, os);
        if bytes < 0 {
          return;
        }
        if available < bytes {
          return;
        }
        if bytes == 0 {
          if buf[0] == DEVICE && status != SETUP_REQUIRED {
            CloseSocket();
          } else {
            wrecked := true;
          }
          return;
        }

        var msg := buf[..bytes];
        ghost var o := Dispatch(cfg, index, State(), msg, os);
        var more := HandleMessage(cfg, index, msg, os);
        if !more {
          DrainDone(cfg, index, State(), buf[bytes..], os);
          assert o.effects + [] == o.effects;
          return;
        }
        assert Pending() == buf[bytes..];
        ghost var rest := Drain(AsWritten, cfg, index, State(), Pending(), os);
        Assoc(done, o.effects, rest.effects);
        done := done + o.effects;
      }
      DrainDone(cfg, index, State(), [], os);
    }
  }

  /** A handler's outcome with its effects appended to a log. */
  ghost function After(h: Handled, log: seq<Effect>): Handled {
    h.(effects := log + h.effects)
  }

  /** One iteration of the loop on a non-empty buffer. */
  lemma DrainStep(cfg: Config, index: nat, s: Slot, buf: Bytes, os: Os)
    requires index < 0xFF && Live(s) && |buf| > 0
    ensures var n := SizeFromCommand(buf);
            var r := Drain(AsWritten, cfg, index, s, buf, os);
            && (n < 0 || |buf| < n ==> r == Served(Port(s, buf), []))
            && (n == 0 ==> r == DispatchLoneHeader(s, buf[0]))
            && (0 < n <= |buf| ==>
                  && IsFrame(buf[..n])
                  && var o := Dispatch(cfg, index, s, buf[..n], os);
                     var rest := Drain(AsWritten, cfg, index, o.slot, buf[n..], os);
                     r == Served(rest.port, o.effects + rest.effects))
  {}

  lemma DrainDone(cfg: Config, index: nat, s: Slot, buf: Bytes, os: Os)
    requires index < 0xFF && (Live(s) ==> buf == [])
    ensures Drain(AsWritten, cfg, index, s, buf, os) == Served(Port(s, []), [])
  {}
}
