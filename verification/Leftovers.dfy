/** What an earlier client of a slot leaves to the next one: requested events and
    axes that become part of a device nobody described. */
module Leftovers {
  import opened Protocol
  import opened Uinput
  import opened DeviceCreation
  import opened Slots
  import opened InputClient
  import opened Handshake

  /** An axis the client tells the server about. */
  predicate Sends(src: Source, axis: nat)
    requires WellFormed(src)
  {
    axis < ABS_CNT && EventId(EV_ABS, axis) in AllRequests(src) && src.axes(axis).Some?
  }

  /** The axes the client tells the server about, as far as the kernel is told. */
  function OwnAxes(cfg: Config, src: Source): map<int, AbsInfo>
    requires WellFormed(src)
  {
    map c | 0 <= c < ABS_CNT && Sends(src, c) && Told(src.axes(c).value, cfg.uinput) ::
      PassedOn(src.axes(c).value, cfg.uinput)
  }

  /** The device the client describes, as far as the whitelist permits it. */
  function OwnDevice(cfg: Config, src: Source): DeviceSpec
    requires WellFormed(src) && Named(src)
  {
    DeviceSpec(NameField(src.name.value), Requested(Permitted(cfg, AllRequests(src))), OwnAxes(cfg, src))
  }

  /** No event left in the list adds to what this client asks for. */
  predicate NoStaleEvent(cfg: Config, meta: Meta, src: Source)
    requires WellFormed(src)
  {
    var mine := Permitted(cfg, AllRequests(src));
    forall e | e in meta.enabled :: if Mapped(e.kind) then e in mine else exists f :: f in mine && !Mapped(f.kind)
  }

  /** The kernel is told about no axis that this client does not set anew. */
  predicate NoStaleAxis(cfg: Config, meta: Meta, src: Source)
    requires WellFormed(src)
  {
    forall c: nat | c < ABS_CNT && Told(meta.absinfo[c], cfg.uinput) :: Sends(src, c)
  }

  /** What an earlier client of the slot left behind also becomes part of the
      device. The device is the one its own client described if and only if every
      leftover event is one of its own and every leftover axis is set anew by it. */
  lemma LeftoversExactly(cfg: Config, s: Slot, src: Source)
    requires WellFormed(src) && Named(src) && InRange(src, AllRequests(src))
    ensures SpecWanted(cfg, FinalMeta(cfg, s, src)) == OwnDevice(cfg, src)
       <==> NoStaleEvent(cfg, s.meta, src) && NoStaleAxis(cfg, s.meta, src)
  {
    hide NameField, FieldOf, Requested, AxesOf, OwnAxes, Permitted, AllRequests, NoStaleEvent, NoStaleAxis;
    FieldOfField(src.name.value);
    LeftoverEvents(cfg, s, src);
    LeftoverAxes(cfg, s, src);
  }

  /** The capabilities among that. */
  lemma LeftoverEvents(cfg: Config, s: Slot, src: Source)
    requires WellFormed(src) && Named(src)
    ensures Requested(FinalMeta(cfg, s, src).enabled) == Requested(Permitted(cfg, AllRequests(src)))
       <==> NoStaleEvent(cfg, s.meta, src)
  {
    hide Permitted, AllRequests, Axes, NameField, Requested;
    RequestedUnion(s.meta.enabled, Permitted(cfg, AllRequests(src)));
  }

  /** The axes among that. */
  lemma LeftoverAxes(cfg: Config, s: Slot, src: Source)
    requires WellFormed(src) && Named(src) && InRange(src, AllRequests(src))
    ensures AxesOf(FinalMeta(cfg, s, src).absinfo, cfg.uinput) == OwnAxes(cfg, src) <==> NoStaleAxis(cfg, s.meta, src)
  {
    hide Permitted, AllRequests, Axes, NameField, Told, PassedOn;
    var meta := FinalMeta(cfg, s, src);
    AxesMeaning(s.meta.absinfo, src, AllRequests(src));
    assert forall c: nat | c < ABS_CNT ::
        meta.absinfo[c] == if Sends(src, c) then src.axes(c).value else s.meta.absinfo[c];
    var all, own := AxesOf(meta.absinfo, cfg.uinput), OwnAxes(cfg, src);
    assert forall c :: c in own ==> c in all && all[c] == own[c];
    if all == own {
      forall c: nat | c < ABS_CNT && Told(s.meta.absinfo[c], cfg.uinput)
        ensures Sends(src, c)
      {
        assert Sends(src, c) || (c in all && c !in own);
      }
    }
    if NoStaleAxis(cfg, s.meta, src) {
      assert all.Keys == own.Keys;
    }
  }

  lemma RequestedUnion(left: seq<EventId>, mine: seq<EventId>)
    ensures Requested(left + mine) == Requested(mine)
       <==> forall e | e in left :: if Mapped(e.kind) then e in mine else exists f :: f in mine && !Mapped(f.kind)
  {
    var both, want := Requested(left + mine), Requested(mine);
    assert EV_SYN in want.kinds <==> exists f :: f in mine && !Mapped(f.kind);
    if both == want {
      forall e | e in left
        ensures if Mapped(e.kind) then e in mine else exists f :: f in mine && !Mapped(f.kind)
      {
        assert e in left + mine;
        if Mapped(e.kind) {
          assert e in both.codes;
        } else {
          assert EV_SYN in both.kinds;
        }
      }
    }
    if forall e | e in left :: if Mapped(e.kind) then e in mine else exists f :: f in mine && !Mapped(f.kind) {
      assert both.codes == want.codes;
      forall k: int
        ensures k in both.kinds <==> k in want.kinds
      {
        assert k in both.kinds <==> exists e :: e in left + mine && k == (if Mapped(e.kind) then e.kind else EV_SYN);
        assert k in want.kinds <==> exists e :: e in mine && k == (if Mapped(e.kind) then e.kind else EV_SYN);
      }
      assert both.kinds == want.kinds;
    }
  }
}
