/**
 * The `on_message` handler of main.py: XP per message behind a per-(guild, user)
 * cooldown, the level-up check, and the consecutive-identical-message spam
 * counter whose auto-warn goes to the database's warn table and is escalated.
 * Time is the integer `now` the caller passes in; Discord messages sent are
 * reported in the returned Outcome instead of being sent.
 */
module MessageEvents {
  import opened Options
  import opened Strings
  import opened Store

  const XP_PER_MESSAGE: int := 10
  const XP_COOLDOWN: int := 60
  const SPAM_THRESHOLD: int := 5

  /** The parts of a Discord message the handler looks at. */
  datatype Message = Message(authorIsBot: bool, guild: Option<GuildId>, author: UserId, content: string)

  /** A sanction the handler asks for on an automatic warn. */
  datatype Sanction = NoSanction | Timeout(seconds: nat) | KickMember | BanMember

  /** What one message made the bot do. */
  datatype Outcome = Outcome(levelUp: Option<int>, autoWarn: Option<int>, sanction: Sanction)

  /** The spam tracker's entry for one key: the last normalised content and its run length. */
  datatype SpamEntry = SpamEntry(last: string, count: int)

  const Quiet := Outcome(None, None, NoSanction)
  const FreshEntry := SpamEntry("", 0)

  /** Only messages from people, inside a guild, are handled. */
  predicate Qualifies(msg: Message) {
    !msg.authorIsBot && msg.guild.Some?
  }

  /** `message.content.lower().strip()`. */
  function Normalize(content: string): string {
    Strip(Lower(content))
  }

  /** Whether the cooldown of a key whose last award was at `last` (absent: 0) has run out at `now`. */
  predicate AwardDue(last: Option<int>, now: int) {
    now - (if last.Some? then last.value else 0) >= XP_COOLDOWN
  }

  function LastAward(cooldowns: map<Key, int>, k: Key): Option<int> {
    if k in cooldowns then Some(cooldowns[k]) else None
  }

  function SpamOf(spam: map<Key, SpamEntry>, k: Key): SpamEntry {
    if k in spam then spam[k] else FreshEntry
  }

  /** The spam counter after one more message with normalised content `c`. */
  function SpamStep(e: SpamEntry, c: string): SpamEntry {
    if c == e.last then SpamEntry(c, e.count + 1) else SpamEntry(c, 1)
  }

  /** The tracker entry that is stored after a message, and whether the message set off an auto-warn. */
  function Track(e: SpamEntry, c: string): (r: (SpamEntry, bool)) {
    var next := SpamStep(e, c);
    if next.count >= SPAM_THRESHOLD then (FreshEntry, true) else (next, false)
  }

  /**
   * The tracker step as written: when the auto-warn's escalation raises before
   * `_spam_tracker[key] = ("", 0)`, the entry keeps its completed run.
   * `warnsBefore` is the stored warn count before the auto-warn.
   */
  function TrackAsWritten(e: SpamEntry, c: string, warnsBefore: int, modCogLoaded: bool): (r: (SpamEntry, bool)) {
    var next := SpamStep(e, c);
    if next.count >= SPAM_THRESHOLD then
      (if MuteCallFails(warnsBefore + 1, modCogLoaded) then next else FreshEntry, true)
    else (next, false)
  }

  /**
   * The cog named "Mod" has no `mute_member`, so on the third and fourth
   * auto-warn the call raises `AttributeError` whenever that cog is loaded.
   */
  predicate MuteCallFails(warns: int, modCogLoaded: bool) {
    modCogLoaded && (warns == 3 || warns == 4)
  }

  /** Whenever the mute call does not raise, the tracker as written is the tracker that always resets. */
  lemma TrackAsWrittenWhenMuteWorks(e: SpamEntry, c: string, warnsBefore: int, modCogLoaded: bool)
    requires !MuteCallFails(warnsBefore + 1, modCogLoaded)
    ensures TrackAsWritten(e, c, warnsBefore, modCogLoaded) == Track(e, c)
  {
  }

  /** The warn-escalation table of the automatic warn. */
  function Escalation(warns: int): Sanction {
    if warns == 3 then Timeout(3600)
    else if warns == 4 then Timeout(86400)
    else if warns == 5 then KickMember
    else if warns >= 6 then BanMember
    else NoSanction
  }

  function Severity(s: Sanction): nat {
    match s
    case NoSanction => 0
    case Timeout(seconds) => if seconds <= 3600 then 1 else 2
    case KickMember => 3
    case BanMember => 4
  }

  /**
   * Warn counts 1 and 2 only notify; 3 and 4 time out for one hour and one day;
   * 5 kicks; every count from 6 on bans; and a higher count never brings a
   * milder sanction.
   */
  lemma EscalationTable(a: int, b: int)
    requires a <= b
    ensures 1 <= a <= 2 ==> Escalation(a) == NoSanction
    ensures Escalation(3) == Timeout(3600) && Escalation(4) == Timeout(86400)
    ensures Escalation(5) == KickMember
    ensures a >= 6 ==> Escalation(a) == BanMember && Escalation(b) == BanMember
    ensures Severity(Escalation(a)) <= Severity(Escalation(b))
  {
  }

  /**
   * The XP half of `on_message` as a relation between the state before and after:
   * when the cooldown has run out, 10 XP is added, the cooldown restarts, and a
   * level-up is reported exactly when the level rose; otherwise nothing changes.
   */
  predicate XpAwarded(xpBefore: map<Key, int>, xpAfter: map<Key, int>,
                      cdBefore: map<Key, int>, cdAfter: map<Key, int>,
                      k: Key, now: int, levelUp: Option<int>)
  {
    if AwardDue(LastAward(cdBefore, k), now) then
      var total := Lookup(xpBefore, k) + XP_PER_MESSAGE;
      && xpAfter == xpBefore[k := total]
      && cdAfter == cdBefore[k := now]
      && levelUp == (if XpToLevel(total) > XpToLevel(total - XP_PER_MESSAGE) then Some(XpToLevel(total)) else None)
    else
      xpAfter == xpBefore && cdAfter == cdBefore && levelUp == None
  }

  /**
   * The spam half of `on_message`: the entry is tracked with the normalised
   * content; a completed run adds a database warn and returns it. With the Mod
   * cog loaded the warn is escalated, except that the mute call of warns 3 and 4
   * raises, which leaves no sanction and the entry not reset; otherwise the
   * entry is reset. An incomplete run adds no warn.
   */
  predicate SpamTracked(spamBefore: map<Key, SpamEntry>, spamAfter: map<Key, SpamEntry>,
                        warnsBefore: map<Key, int>, warnsAfter: map<Key, int>,
                        k: Key, content: string, modCogLoaded: bool,
                        autoWarn: Option<int>, sanction: Sanction)
  {
    var step := TrackAsWritten(SpamOf(spamBefore, k), content, Lookup(warnsBefore, k), modCogLoaded);
    && spamAfter == spamBefore[k := step.0]
    && if step.1 then
         var warns := Lookup(warnsBefore, k) + 1;
         && warnsAfter == warnsBefore[k := warns]
         && autoWarn == Some(warns)
         && sanction == (if modCogLoaded && !MuteCallFails(warns, modCogLoaded) then Escalation(warns) else NoSanction)
       else
         warnsAfter == warnsBefore && autoWarn == None && sanction == NoSanction
  }

  class Bot {
    const db: Database
    /** Whether `bot.get_cog("Mod")` finds a cog; the extensions are loaded once, at start-up. */
    const modCogLoaded: bool
    /** `_message_cooldowns`: the time of each key's last XP award. */
    var cooldowns: map<Key, int>
    /** `_spam_tracker`. */
    var spam: map<Key, SpamEntry>

    /**
     * A stored run length is never negative, and without the Mod cog it stays
     * below the threshold, since reaching it resets the entry. With the cog, a
     * failing mute call leaves a completed run in place.
     */
    ghost predicate Valid()
      reads this
    {
      forall k :: k in spam ==> 0 <= spam[k].count && (!modCogLoaded ==> spam[k].count < SPAM_THRESHOLD)
    }

    constructor (db: Database, modCogLoaded: bool)
      ensures this.db == db && this.modCogLoaded == modCogLoaded && cooldowns == map[] && spam == map[] && Valid()
    {
      this.db := db;
      this.modCogLoaded := modCogLoaded;
      cooldowns := map[];
      spam := map[];
    }

    /** `on_message`: without the Mod cog the auto-warn is recorded but not escalated. */
    method OnMessage(msg: Message, now: int) returns (out: Outcome)
      requires Valid()
      modifies this, db
      ensures Valid()
      ensures old(db.NonNegative()) ==> db.NonNegative()
      ensures !Qualifies(msg) ==>
        && out == Quiet
        && cooldowns == old(cooldowns) && spam == old(spam)
        && db.xp == old(db.xp) && db.warns == old(db.warns)
      ensures Qualifies(msg) ==>
        var k := Key(msg.guild.value, msg.author);
        && XpAwarded(old(db.xp), db.xp, old(cooldowns), cooldowns, k, now, out.levelUp)
        && SpamTracked(old(spam), spam, old(db.warns), db.warns, k, Normalize(msg.content), modCogLoaded, out.autoWarn, out.sanction)
    {
      if msg.authorIsBot || msg.guild.None? {
        return Quiet;
      }
      var guild, user := msg.guild.value, msg.author;
      var content := Normalize(msg.content);
      var levelUp := AwardXp(guild, user, now);
      var autoWarn, sanction := TrackSpam(guild, user, content);
      out := Outcome(levelUp, autoWarn, sanction);
    }

    /** The XP part of `on_message`. */
    method AwardXp(guild: GuildId, user: UserId, now: int) returns (levelUp: Option<int>)
      modifies this, db
      ensures spam == old(spam) && db.warns == old(db.warns)
      ensures old(db.NonNegative()) ==> db.NonNegative()
      ensures XpAwarded(old(db.xp), db.xp, old(cooldowns), cooldowns, Key(guild, user), now, levelUp)
    {
      var k := Key(guild, user);
      levelUp := None;
      var last := if k in cooldowns then cooldowns[k] else 0;
      if now - last >= XP_COOLDOWN {
        db.AddXp(user, guild, XP_PER_MESSAGE);
        var xp := db.GetUser(user, guild);
        var level := XpToLevel(xp);
        var prevLevel := XpToLevel(xp - XP_PER_MESSAGE);
        if level > prevLevel {
          levelUp := Some(level);
        }
        cooldowns := cooldowns[k := now];
      }
    }

    /** The spam part of `on_message`, on the already normalised content. */
    method TrackSpam(guild: GuildId, user: UserId, content: string)
      returns (autoWarn: Option<int>, sanction: Sanction)
      requires Valid()
      modifies this, db
      ensures Valid()
      ensures cooldowns == old(cooldowns) && db.xp == old(db.xp)
      ensures old(db.NonNegative()) ==> db.NonNegative()
      ensures SpamTracked(old(spam), spam, old(db.warns), db.warns, Key(guild, user), content, modCogLoaded, autoWarn, sanction)
    {
      var k := Key(guild, user);
      autoWarn, sanction := None, NoSanction;
      var entry := if k in spam then spam[k] else FreshEntry;
      var count := entry.count;
      if content == entry.last {
        count := count + 1;
      } else {
        count := 1;
      }
      spam := spam[k := SpamEntry(content, count)];
      if count >= SPAM_THRESHOLD {
        var warns := db.AddWarn(user, guild);
        autoWarn := Some(warns);
        if !MuteCallFails(warns, modCogLoaded) {
          if modCogLoaded {
            sanction := Escalation(warns);
          }
          spam := spam[k := FreshEntry];
        }
      }
    }
  }

  // ---------------- laws of the handler ----------------

  /** The award times among a key's successive messages at times `ts`, the last award before them being at `last`. */
  function Awards(last: Option<int>, ts: seq<int>): seq<int>
    decreases |ts|
  {
    if ts == [] then []
    else if AwardDue(last, ts[0]) then [ts[0]] + Awards(Some(ts[0]), ts[1..])
    else Awards(last, ts[1..])
  }

  /** XP is awarded at most once per cooldown window: any two awards are at least XP_COOLDOWN apart, however the clock moves. */
  lemma {:induction false} AwardsSpaced(last: Option<int>, ts: seq<int>)
    decreases |ts|
    ensures var r := Awards(last, ts);
      && (r != [] ==> r[0] - (if last.Some? then last.value else 0) >= XP_COOLDOWN)
      && (forall i :: 0 <= i < |r| - 1 ==> r[i + 1] - r[i] >= XP_COOLDOWN)
  {
    if ts != [] {
      AwardsSpaced(Some(ts[0]), ts[1..]);
      AwardsSpaced(last, ts[1..]);
    }
  }

  /**
   * A single award of XP_PER_MESSAGE to a non-negative total raises the level by
   * at most one, and raises it exactly when the new total reaches the least XP
   * of the next level.
   */
  lemma LevelUpOnThreshold(before: int)
    requires before >= 0
    ensures var l := XpToLevel(before);
      && XpToLevel(before + XP_PER_MESSAGE) <= l + 1
      && (XpToLevel(before + XP_PER_MESSAGE) > l <==> before + XP_PER_MESSAGE >= XpForLevel(l + 1))
  {
    var l := XpToLevel(before);
    var after := before + XP_PER_MESSAGE;
    var next, beyond := XpForLevel(l + 1), XpForLevel(l + 2);
    assert l * l + 2 * l + 1 == (l + 1) * (l + 1);
    assert beyond - next == 200 * l + 100;
    if before >= next {
      XpForLevelIsLeast(l + 1, 0);
      LevelMonotone(next, before);
      assert false;
    }
    XpForLevelIsLeast(l + 2, after);
    LevelMonotone(before, after);
    if after >= next {
      XpForLevelIsLeast(l + 1, 0);
      LevelMonotone(next, after);
    } else {
      XpForLevelIsLeast(l + 1, after);
    }
  }

  function Copies(c: string, n: nat): (r: seq<string>)
    ensures |r| == n && forall i :: 0 <= i < n ==> r[i] == c
  {
    if n == 0 then [] else [c] + Copies(c, n - 1)
  }

  /** The tracker entry after feeding the contents `cs` in order. */
  function After(e: SpamEntry, cs: seq<string>): SpamEntry
    decreases |cs|
  {
    if cs == [] then e else After(Track(e, cs[0]).0, cs[1..])
  }

  /** How many auto-warns feeding `cs` sets off. */
  function WarnsFired(e: SpamEntry, cs: seq<string>): nat
    decreases |cs|
  {
    if cs == [] then 0 else (if Track(e, cs[0]).1 then 1 else 0) + WarnsFired(Track(e, cs[0]).0, cs[1..])
  }

  lemma {:induction false} RunGrows(c: string, m: int, j: nat)
    requires 1 <= m && m + j < SPAM_THRESHOLD
    ensures After(SpamEntry(c, m), Copies(c, j)) == SpamEntry(c, m + j)
    ensures WarnsFired(SpamEntry(c, m), Copies(c, j)) == 0
    decreases j
  {
    if j > 0 {
      assert Copies(c, j)[1..] == Copies(c, j - 1);
      RunGrows(c, m + 1, j - 1);
    }
  }

  /**
   * Five identical messages, starting from a tracker entry that holds some other
   * content (or the reset entry), set off exactly one auto-warn, on the fifth,
   * and leave the tracker reset; a sixth identical message starts again at count 1.
   */
  lemma FiveIdenticalWarnOnce(e: SpamEntry, c: string)
    requires e.last != c || e.count == 0
    ensures WarnsFired(e, Copies(c, 4)) == 0
    ensures WarnsFired(e, Copies(c, 5)) == 1 && After(e, Copies(c, 5)) == FreshEntry
    ensures WarnsFired(e, Copies(c, 6)) == 1 && After(e, Copies(c, 6)) == SpamEntry(c, 1)
  {
    var first := Track(e, c).0;
    assert first == SpamEntry(c, 1);
    forall n: nat | 1 <= n <= 6
      ensures Copies(c, n)[1..] == Copies(c, n - 1)
    {
    }
    RunGrows(c, 1, 3);
    assert Copies(c, 4)[1..] == Copies(c, 3);
    assert Copies(c, 5)[1..] == Copies(c, 3) + [c];
    AfterAppend(first, Copies(c, 3), c);
    AfterAppend(first, Copies(c, 3) + [c], c);
    assert Copies(c, 6)[1..] == Copies(c, 3) + [c] + [c];
  }

  /**
   * With the Mod cog loaded and two warns stored, a fifth identical message
   * warns a third time but its mute raises, so the run stays; the sixth warns a
   * fourth time, raises again; the seventh warns a fifth time and kicks. Without
   * the failing call, the fifth message would have reset the run.
   */
  lemma MuteFailureRepeatsWarn(c: string)
    ensures TrackAsWritten(SpamEntry(c, 4), c, 2, true) == (SpamEntry(c, 5), true)
    ensures TrackAsWritten(SpamEntry(c, 5), c, 3, true) == (SpamEntry(c, 6), true)
    ensures TrackAsWritten(SpamEntry(c, 6), c, 4, true) == (FreshEntry, true) && Escalation(5) == KickMember
    ensures Track(SpamEntry(c, 4), c) == (FreshEntry, true)
  {
  }

  lemma {:induction false} AfterAppend(e: SpamEntry, cs: seq<string>, c: string)
    ensures After(e, cs + [c]) == Track(After(e, cs), c).0
    ensures WarnsFired(e, cs + [c]) == WarnsFired(e, cs) + (if Track(After(e, cs), c).1 then 1 else 0)
    decreases |cs|
  {
    if cs != [] {
      assert (cs + [c])[1..] == cs[1..] + [c];
      AfterAppend(Track(e, cs[0]).0, cs[1..], c);
    } else {
      assert [c][1..] == [];
    }
  }
}
