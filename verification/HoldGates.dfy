/** The armed hold: the live configuration, its line budget, and the channel whose closing releases every
    held body. Every access is under one lock, so each operation is one step. */
module HoldGates {
  import opened ByteStrings
  import opened Chaos

  /** The guarded state, with channels numbered in the order they were made and a tally of the closings. */
  datatype Gate = Gate(chaos: ChaosConfig, remaining: int, armed: Option<nat>, made: nat, closes: multiset<nat>)

  const UNARMED := Gate(OFF, 0, None, 0, multiset{})

  /** The new configuration drops hold_body, or stops naming an ID the old one held. */
  predicate Drops(previous: ChaosConfig, config: ChaosConfig) {
    || (previous.holdBodyLines > 0 && config.holdBodyLines == 0)
    || exists i :: 0 <= i < |previous.holdMessageIds| && !HoldsMessageId(config, previous.holdMessageIds[i])
  }

  function Release(g: Gate): Gate {
    match g.armed
    case None => g
    case Some(channel) => g.(armed := None, closes := g.closes + multiset{channel})
  }

  function Arm(g: Gate): Gate {
    if g.armed.Some? then g else g.(armed := Some(g.made), made := g.made + 1)
  }

  function ReleaseDropped(g: Gate, previous: ChaosConfig, config: ChaosConfig): Gate {
    if Drops(previous, config) then Release(g) else g
  }

  function ArmedAsNeeded(g: Gate): Gate {
    if HoldsSomething(g.chaos) then Arm(g) else Release(g)
  }

  /** setChaosLocked: drop what is no longer held, refill the budget, and arm or release. */
  function Install(g: Gate, config: ChaosConfig): Gate {
    ArmedAsNeeded(ReleaseDropped(g.(chaos := config), g.chaos, config).(remaining := config.holdBodyLines))
  }

  /** The channel a held article's body waits on. */
  function IdWait(g: Gate, id: Bytes): Option<nat> {
    if HoldsMessageId(g.chaos, id) then g.armed else None
  }

  /** Whether the next line goes out by spending the budget. */
  predicate Spends(g: Gate) {
    g.armed.Some? && g.remaining > 0
  }

  function AfterSpend(g: Gate): Gate {
    if Spends(g) then g.(remaining := g.remaining - 1) else g
  }

  /** The channel the line waits on when the budget is spent. */
  function LineWait(g: Gate): Option<nat> {
    if g.remaining > 0 then None else g.armed
  }

  /** The armed channel is open, every other channel ever made is closed, and none was closed twice. */
  ghost predicate ClosedButArmed(armed: Option<nat>, made: nat, closes: multiset<nat>) {
    && (armed.Some? ==> armed.value < made)
    && (forall c: nat :: closes[c] == if c < made && armed != Some(c) then 1 else 0)
  }

  ghost predicate ChannelInv(g: Gate) {
    ClosedButArmed(g.armed, g.made, g.closes)
  }

  /** Besides, a channel is armed exactly when the live configuration holds something, and the budget is
      within the configured one. */
  ghost predicate GateInv(g: Gate) {
    && ChannelInv(g)
    && (g.armed.Some? <==> HoldsSomething(g.chaos))
    && 0 <= g.remaining <= g.chaos.holdBodyLines
  }

  lemma ReleaseChannels(g: Gate)
    requires ChannelInv(g)
    ensures ChannelInv(Release(g))
  {}

  /** Installing any admissible configuration keeps the channel discipline. */
  lemma InstallKeepsInv(g: Gate, config: ChaosConfig)
    requires GateInv(g) && Validate(config)
    ensures GateInv(Install(g, config))
  {
    var released := ReleaseDropped(g.(chaos := config), g.chaos, config).(remaining := config.holdBodyLines);
    ReleaseChannels(g.(chaos := config));
    ReleaseChannels(released);
  }

  lemma InstalledGate(g: Gate, config: ChaosConfig)
    ensures Install(g, config).chaos == config && Install(g, config).remaining == config.holdBodyLines
    ensures Install(g, config).armed.Some? <==> HoldsSomething(config)
  {}

  lemma SpendKeepsInv(g: Gate)
    requires GateInv(g)
    ensures GateInv(AfterSpend(g))
  {}

  /** The armed channel survives an install exactly when the new configuration drops nothing the old one
      held and still holds something; otherwise the install closes it. Closed channels stay closed. */
  lemma InstallReleases(g: Gate, config: ChaosConfig)
    requires GateInv(g) && Validate(config)
    ensures forall c :: c in g.closes ==> c in Install(g, config).closes
    ensures g.armed.Some? ==>
              (Install(g, config).armed == g.armed <==> !Drops(g.chaos, config) && HoldsSomething(config))
    ensures g.armed.Some? ==> (Install(g, config).armed == g.armed <==> g.armed.value !in Install(g, config).closes)
  {
    InstallKeepsInv(g, config);
  }

  /** Every article held before is held still, a line budget is still there, and something is held. */
  ghost predicate HoldsOn(previous: ChaosConfig, config: ChaosConfig) {
    && (forall id :: HoldsMessageId(previous, id) ==> HoldsMessageId(config, id))
    && (previous.holdBodyLines > 0 ==> config.holdBodyLines > 0)
    && (config.holdBodyLines > 0 || config.holdMessageIds != [])
  }

  lemma DropsNothingExactlyWhenHeldOn(previous: ChaosConfig, config: ChaosConfig)
    requires 0 <= previous.holdBodyLines && 0 <= config.holdBodyLines
    ensures HoldsOn(previous, config) <==> !Drops(previous, config) && HoldsSomething(config)
  {
    forall i | 0 <= i < |previous.holdMessageIds| ensures HoldsMessageId(previous, previous.holdMessageIds[i]) {}
    if !Drops(previous, config) {
      forall id | HoldsMessageId(previous, id) ensures HoldsMessageId(config, id) {
        var i :| 0 <= i < |previous.holdMessageIds|
              && StripBrackets(previous.holdMessageIds[i]) == StripBrackets(id);
        SameNameSameHold(config, previous.holdMessageIds[i], id);
      }
    }
  }

  /** So the armed channel survives an install if and only if every article held is held still, a line budget is
      not taken away, and something is held. */
  lemma KeptExactlyWhenHeldOn(g: Gate, config: ChaosConfig)
    requires GateInv(g) && Validate(config) && g.armed.Some?
    ensures Install(g, config).armed == g.armed <==> HoldsOn(g.chaos, config)
  {
    InstallReleases(g, config);
    DropsNothingExactlyWhenHeldOn(g.chaos, config);
  }

  // ----- the server's fields

  class Channel {
    var closed: bool

    constructor ()
      ensures !closed
    {
      closed := false;
    }

    /** Closing a closed channel panics. */
    method Close()
      requires !closed
      modifies this
      ensures closed
    {
      closed := true;
    }
  }

  /** One reply's dealings with the gate, kept for the proofs only: how many lines it has asked for. */
  class Asker {
    ghost var asked: nat

    constructor ()
      ensures asked == 0
    {
      asked := 0;
    }
  }

  class HoldGate {
    var chaos: ChaosConfig
    var holdRemaining: int
    var holdReleased: Channel?
    ghost var made: seq<Channel>
    ghost var channels: set<Channel>
    ghost var closes: multiset<nat>
    ghost var armed: Option<nat>

    ghost function View(): Gate
      reads this
    {
      Gate(chaos, holdRemaining, armed, |made|, closes)
    }

    /** Each channel object ever made is closed exactly when its closing is tallied. */
    ghost predicate ChannelsValid()
      reads `holdReleased, `made, `channels, `closes, `armed, channels
    {
      && (forall i :: 0 <= i < |made| ==> made[i] in channels)
      && ClosedButArmed(armed, |made|, closes)
      && (holdReleased == null <==> armed.None?)
      && (armed.Some? ==> made[armed.value] == holdReleased)
      && (forall i, j :: 0 <= i < j < |made| ==> made[i] != made[j])
      && (forall i :: 0 <= i < |made| ==> (made[i].closed <==> i in closes))
    }

    ghost predicate Valid()
      reads this, channels
    {
      ChannelsValid() && GateInv(View())
    }

    constructor ()
      ensures Valid() && View() == UNARMED
    {
      chaos := OFF;
      holdRemaining := 0;
      holdReleased := null;
      made, channels, closes, armed := [], {}, multiset{}, None;
    }

    method CloseReleased()
      requires ChannelsValid() && holdReleased != null
      modifies this, holdReleased
      ensures ChannelsValid() && View() == Release(old(View())) && channels == old(channels) && holdReleased == null
    {
      ReleaseChannels(View());
      holdReleased.Close();
      closes := closes + multiset{armed.value};
      armed := None;
      holdReleased := null;
    }

    method ArmReleased()
      requires ChannelsValid() && holdReleased == null
      modifies this
      ensures ChannelsValid() && View() == Arm(old(View()))
      ensures holdReleased != null && fresh(holdReleased) && channels == old(channels) + {holdReleased}
    {
      holdReleased := new Channel();
      armed := Some(|made|);
      made := made + [holdReleased];
      channels := channels + {holdReleased};
    }

    /** A channel is wanted exactly while the live configuration holds something. */
    method ArmOrRelease()
      requires ChannelsValid()
      modifies this, holdReleased
      ensures ChannelsValid() && View() == ArmedAsNeeded(old(View()))
      ensures fresh(channels - old(channels))
    {
      if chaos.holdBodyLines > 0 || |chaos.holdMessageIds| > 0 {
        if holdReleased == null {
          ArmReleased();
        }
        return;
      }
      if holdReleased != null {
        CloseReleased();
      }
    }

    /** Refills the budget, and arms or releases as the live configuration asks. */
    method Rearm(budget: int)
      requires ChannelsValid()
      modifies this, holdReleased
      ensures ChannelsValid() && View() == ArmedAsNeeded(old(View()).(remaining := budget))
      ensures fresh(channels - old(channels))
    {
      holdRemaining := budget;
      ArmOrRelease();
    }

    static method DropsHold(previous: ChaosConfig, config: ChaosConfig) returns (dropped: bool)
      ensures dropped <==> Drops(previous, config)
    {
      dropped := previous.holdBodyLines > 0 && config.holdBodyLines == 0;
      for i := 0 to |previous.holdMessageIds|
        invariant dropped <==> (previous.holdBodyLines > 0 && config.holdBodyLines == 0)
        invariant forall j :: 0 <= j < i ==> HoldsMessageId(config, previous.holdMessageIds[j])
      {
        var named := NamesMessageId(config, previous.holdMessageIds[i]);
        if !named {
          return true;
        }
      }
    }

    method ReleaseIfDropped(previous: ChaosConfig, config: ChaosConfig)
      requires ChannelsValid()
      modifies this, holdReleased
      ensures ChannelsValid() && channels == old(channels)
      ensures View() == ReleaseDropped(old(View()), previous, config)
      ensures holdReleased == null || holdReleased == old(holdReleased)
    {
      var dropped := DropsHold(previous, config);
      if dropped && holdReleased != null {
        CloseReleased();
      }
    }

    /** Installs a configuration, and arms or releases the holds with it. */
    method SetChaosLocked(config: ChaosConfig)
      requires ChannelsValid()
      modifies this, holdReleased
      ensures ChannelsValid() && View() == Install(old(View()), config)
      ensures fresh(channels - old(channels))
    {
      var previous := chaos;
      chaos := config;
      ReleaseIfDropped(previous, config);
      Rearm(config.holdBodyLines);
    }

    /** Changes the fault profile of a server whose test control is enabled, if the profile is admissible. */
    method SetChaos(enableTestControl: bool, config: ChaosConfig) returns (ok: bool)
      requires Valid()
      modifies this, holdReleased
      ensures Valid()
      ensures ok <==> enableTestControl && Validate(config)
      ensures View() == if ok then Install(old(View()), config) else old(View())
      ensures fresh(channels - old(channels))
    {
      if !enableTestControl || !Validate(config) {
        return false;
      }
      InstallKeepsInv(View(), config);
      SetChaosLocked(config);
      return true;
    }

    /** The channel a held article's body waits on, or null. */
    method HeldBody(id: Bytes) returns (released: Channel?)
      requires Valid()
      ensures IdWait(View(), id).None? <==> released == null
      ensures released != null ==> released == made[IdWait(View(), id).value] && !released.closed
    {
      if holdReleased == null {
        return null;
      }
      var named := NamesMessageId(chaos, id);
      if !named {
        return null;
      }
      return holdReleased;
    }

    /** Spends one body line of the armed hold, or returns the channel the line waits on. */
    method SpendHoldLine(asker: Asker) returns (released: Channel?)
      requires Valid()
      modifies this`holdRemaining, asker
      ensures asker.asked == old(asker.asked) + 1
      ensures Valid() && View() == AfterSpend(old(View()))
      ensures released == null <==> LineWait(old(View())).None?
      ensures released != null ==> released == made[LineWait(old(View())).value] && !released.closed
    {
      SpendKeepsInv(View());
      asker.asked := asker.asked + 1;
      if holdReleased == null {
        return null;
      }
      if holdRemaining > 0 {
        holdRemaining := holdRemaining - 1;
        return null;
      }
      return holdReleased;
    }
  }
}
