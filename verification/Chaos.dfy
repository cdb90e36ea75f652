/** The synthetic fault profile: which settings are admissible and what they hold. */
module Chaos {
  import opened ByteStrings

  datatype ChaosConfig = ChaosConfig(
    greet201Percent: int,
    greet400Percent: int,
    dropConnection: int,
    slowBodyMilliseconds: int,
    rejectAuthPercent: int,
    corruptBodyPercent: int,
    maxConnections: int,
    timeoutBodyPercent: int,
    reauthBodyPercent: int,
    splitTermPercent: int,
    dropMidBodyPercent: int,
    badTermPercent: int,
    statBadCodePercent: int,
    statShortPercent: int,
    holdBodyLines: int,
    holdMessageIds: seq<Bytes>)

  const OFF := ChaosConfig(0, 0, 0, 0, 0, 0, 0, 0, 0, 0, 0, 0, 0, 0, 0, [])

  predicate IsPercent(value: int) {
    0 <= value <= 100
  }

  predicate Validate(c: ChaosConfig) {
    && IsPercent(c.greet201Percent) && IsPercent(c.greet400Percent) && IsPercent(c.dropConnection)
    && IsPercent(c.rejectAuthPercent) && IsPercent(c.corruptBodyPercent) && IsPercent(c.timeoutBodyPercent)
    && IsPercent(c.reauthBodyPercent) && IsPercent(c.splitTermPercent) && IsPercent(c.dropMidBodyPercent)
    && IsPercent(c.badTermPercent) && IsPercent(c.statBadCodePercent) && IsPercent(c.statShortPercent)
    && c.slowBodyMilliseconds >= 0 && c.maxConnections >= 0 && c.holdBodyLines >= 0
    && forall i :: 0 <= i < |c.holdMessageIds| ==> StripBrackets(c.holdMessageIds[i]) != []
  }

  /** A roll against a percentage is fixed only at 0 and at 100. */
  predicate MayHit(percent: int) {
    percent > 0
  }

  predicate MayMiss(percent: int) {
    percent < 100
  }

  predicate HoldsMessageId(config: ChaosConfig, id: Bytes) {
    exists i :: 0 <= i < |config.holdMessageIds| && StripBrackets(config.holdMessageIds[i]) == StripBrackets(id)
  }

  /** The configuration holds some body, by budget or by ID. */
  predicate HoldsSomething(config: ChaosConfig) {
    config.holdBodyLines > 0 || config.holdMessageIds != []
  }

  /** None of the settings that need the per-line path is on. */
  predicate IsFast(c: ChaosConfig) {
    c.slowBodyMilliseconds == 0 && c.holdBodyLines == 0 && c.dropMidBodyPercent == 0
    && c.badTermPercent == 0 && c.splitTermPercent == 0
  }

  method NamesMessageId(config: ChaosConfig, id: Bytes) returns (named: bool)
    ensures named <==> HoldsMessageId(config, id)
  {
    var wanted := StripBrackets(id);
    for i := 0 to |config.holdMessageIds|
      invariant forall j :: 0 <= j < i ==> StripBrackets(config.holdMessageIds[j]) != wanted
    {
      if StripBrackets(config.holdMessageIds[i]) == wanted {
        return true;
      }
    }
    return false;
  }

  /** Naming depends on an ID only up to its angle brackets. */
  lemma SameNameSameHold(config: ChaosConfig, id: Bytes, other: Bytes)
    requires StripBrackets(id) == StripBrackets(other)
    ensures HoldsMessageId(config, id) <==> HoldsMessageId(config, other)
  {}

  predicate OutOfPercent(value: int) {
    value < 0 || value > 100
  }

  /** Some held ID is nothing but white space and brackets. */
  predicate HoldsNothingNamed(c: ChaosConfig) {
    exists i :: 0 <= i < |c.holdMessageIds| && StripBrackets(c.holdMessageIds[i]) == []
  }

  /** What makes a profile inadmissible, field by field. */
  lemma RefusedExactly(c: ChaosConfig)
    ensures !Validate(c) <==>
            || OutOfPercent(c.greet201Percent) || OutOfPercent(c.greet400Percent) || OutOfPercent(c.dropConnection)
            || OutOfPercent(c.rejectAuthPercent) || OutOfPercent(c.corruptBodyPercent)
            || OutOfPercent(c.timeoutBodyPercent) || OutOfPercent(c.reauthBodyPercent)
            || OutOfPercent(c.splitTermPercent) || OutOfPercent(c.dropMidBodyPercent)
            || OutOfPercent(c.badTermPercent) || OutOfPercent(c.statBadCodePercent)
            || OutOfPercent(c.statShortPercent)
            || c.slowBodyMilliseconds < 0 || c.maxConnections < 0 || c.holdBodyLines < 0
            || HoldsNothingNamed(c)
  {}
}
