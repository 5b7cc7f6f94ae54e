/**
 * The Mod cog of mod.py: `ban`, `kick`, `mute <duration>` through the platform's
 * native timeout, and `unmute`. A refusal by the platform (discord.Forbidden)
 * is the parameter `forbidden`; the current time is the integer `now` in seconds.
 */
module ModCommands {
  import opened Options
  import opened Strings

  const FORMAT_HINT: string := "Invalid duration. Use e.g. `10m`, `2h`, `1d`."
  const BAN_REFUSAL: string := "I don't have permission to ban this user."
  const KICK_REFUSAL: string := "I don't have permission to kick this user."
  const TIMEOUT_REFUSAL: string := "I don't have permission to timeout this user."
  const UNMUTE_REFUSAL: string := "I don't have permission to unmute this user."

  /** Why a duration was not read: `duration[-1]` on "" (IndexError), or `int(...)` of the prefix failing (ValueError), or an unknown unit. */
  datatype DurationError = EmptyDuration | NotAnInteger | UnknownUnit

  /** The reply a moderation command sends. */
  datatype Reply =
    | Done
    | FormatHint
    | ErrorReply(error: DurationError)
    | Refused(text: string)

  /** Seconds per unit: s, m, h and d (already lower-cased). */
  function UnitSeconds(unit: char): Option<nat> {
    if unit == 's' then Some(1)
    else if unit == 'm' then Some(60)
    else if unit == 'h' then Some(3600)
    else if unit == 'd' then Some(86400)
    else None
  }

  /** The duration parsing of `mute`: the last character, lower-cased, is the unit, the rest an integer. */
  function ParseDuration(duration: string): Result<int, DurationError> {
    if duration == [] then Err(EmptyDuration)
    else
      var unit := LowerChar(duration[|duration| - 1]);
      match ParseInt(duration[..|duration| - 1])
      case None => Err(NotAnInteger)
      case Some(amount) =>
        match UnitSeconds(unit)
        case None => Err(UnknownUnit)
        case Some(factor) => Ok(amount * factor)
  }

  /** An integer written as `str` prints it, followed by s/m/h/d in either case, reads as that many seconds, minutes, hours or days. */
  lemma DurationRoundTrip(amount: int, unit: char)
    requires UnitSeconds(LowerChar(unit)).Some?
    ensures ParseDuration(IntToString(amount) + [unit]) == Ok(amount * UnitSeconds(LowerChar(unit)).value)
  {
    var d := IntToString(amount) + [unit];
    assert d[..|d| - 1] == IntToString(amount);
    ParseIntRoundTrip(amount);
  }

  /**
   * A duration whose last character is not a unit is never accepted: there is
   * no default unit, so a bare number such as "10" is rejected, and so is "".
   * A well-formed prefix with a bad unit gets the format hint.
   */
  lemma DurationRejections(duration: string)
    ensures duration == [] ==> ParseDuration(duration) == Err(EmptyDuration)
    ensures duration != [] && UnitSeconds(LowerChar(duration[|duration| - 1])).None? ==> ParseDuration(duration).Err?
    ensures duration != [] && AllDigits(duration) ==> ParseDuration(duration).Err?
    ensures duration != [] && ParseInt(duration[..|duration| - 1]).None? ==> ParseDuration(duration) == Err(NotAnInteger)
    ensures duration != [] && ParseInt(duration[..|duration| - 1]).Some? && UnitSeconds(LowerChar(duration[|duration| - 1])).None?
      ==> ParseDuration(duration) == Err(UnknownUnit)
  {
    if duration != [] && AllDigits(duration) {
      assert IsDigit(duration[|duration| - 1]);
    }
  }

  /** A member as the platform sees it: the end of its timeout, and whether it was kicked or banned. */
  class Member {
    var timedOutUntil: Option<int>
    var kicked: bool
    var banned: bool

    constructor ()
      ensures timedOutUntil == None && !kicked && !banned
    {
      timedOutUntil := None;
      kicked, banned := false, false;
    }

    /** `mute`: on a good duration, time the member out until now + the duration. */
    method Mute(duration: string, now: int, forbidden: bool) returns (reply: Reply)
      modifies this
      ensures kicked == old(kicked) && banned == old(banned)
      ensures match ParseDuration(duration)
        case Err(UnknownUnit) => reply == FormatHint && timedOutUntil == old(timedOutUntil)
        case Err(e) => reply == ErrorReply(e) && timedOutUntil == old(timedOutUntil)
        case Ok(seconds) =>
          if forbidden then reply == Refused(TIMEOUT_REFUSAL) && timedOutUntil == old(timedOutUntil)
          else reply == Done && timedOutUntil == Some(now + seconds)
    {
      match ParseDuration(duration) {
        case Err(e) =>
          reply := if e == UnknownUnit then FormatHint else ErrorReply(e);
        case Ok(seconds) =>
          if forbidden {
            reply := Refused(TIMEOUT_REFUSAL);
          } else {
            timedOutUntil := Some(now + seconds);
            reply := Done;
          }
      }
    }

    /** `unmute`: clear the timeout. */
    method Unmute(forbidden: bool) returns (reply: Reply)
      modifies this
      ensures kicked == old(kicked) && banned == old(banned)
      ensures forbidden ==> reply == Refused(UNMUTE_REFUSAL) && timedOutUntil == old(timedOutUntil)
      ensures !forbidden ==> reply == Done && timedOutUntil == None
    {
      if forbidden {
        reply := Refused(UNMUTE_REFUSAL);
      } else {
        timedOutUntil := None;
        reply := Done;
      }
    }

    /** `kick`. */
    method Kick(forbidden: bool) returns (reply: Reply)
      modifies this
      ensures timedOutUntil == old(timedOutUntil) && banned == old(banned)
      ensures forbidden ==> reply == Refused(KICK_REFUSAL) && kicked == old(kicked)
      ensures !forbidden ==> reply == Done && kicked
    {
      if forbidden {
        reply := Refused(KICK_REFUSAL);
      } else {
        kicked := true;
        reply := Done;
      }
    }

    /** `ban`. */
    method Ban(forbidden: bool) returns (reply: Reply)
      modifies this
      ensures timedOutUntil == old(timedOutUntil) && kicked == old(kicked)
      ensures forbidden ==> reply == Refused(BAN_REFUSAL) && banned == old(banned)
      ensures !forbidden ==> reply == Done && banned
    {
      if forbidden {
        reply := Refused(BAN_REFUSAL);
      } else {
        banned := true;
        reply := Done;
      }
    }
  }
}
