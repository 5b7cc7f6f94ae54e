/**
 * The moderation cog of cogs/mods.py: its own in-memory warn counter (separate
 * from the database warns used by main.py), the escalation handler that mutes
 * through a "Muted" role and schedules the role's removal, the delayed removal,
 * and the five-message sliding-window spam detector.
 */
module ModCog {
  import opened Options
  import opened Strings
  import opened Store
  import MessageEvents

  const MUTED: string := "Muted"
  const WINDOW: nat := 5

  datatype Role = Role(id: int, name: string)

  /** Index i holds the first role called `name`. */
  predicate FirstNamed(roles: seq<Role>, name: string, i: int) {
    0 <= i < |roles| && roles[i].name == name && forall j :: 0 <= j < i ==> roles[j].name != name
  }

  /** `discord.utils.get(roles, name=name)`: the first role with that name, if any. */
  function FindRole(roles: seq<Role>, name: string): (r: Option<Role>)
    ensures r.None? <==> forall i :: 0 <= i < |roles| ==> roles[i].name != name
    ensures r.Some? ==> r.value.name == name
    ensures r.Some? ==> exists i :: FirstNamed(roles, name, i) && roles[i] == r.value
  {
    if roles == [] then None
    else if roles[0].name == name then Some(roles[0])
    else
      var r := FindRole(roles[1..], name);
      if r.Some? then
        var i :| FirstNamed(roles[1..], name, i) && roles[1..][i] == r.value;
        assert FirstNamed(roles, name, i + 1);
        r
      else r
  }

  /** Which role a mute uses: the guild's first "Muted" role, or a new one created for it. */
  datatype RoleChoice = ExistingRole(role: Role) | CreateMutedRole

  /**
   * What the escalation handler does for a warn count: nothing; add the Muted
   * role and (when `removeAfter` is Some) schedule its removal after so many
   * seconds; kick; or ban.
   */
  datatype Plan = NoPlan | MutePlan(role: RoleChoice, removeAfter: Option<nat>) | KickPlan | BanPlan

  function MuteRole(roles: seq<Role>): RoleChoice {
    match FindRole(roles, MUTED)
    case Some(r) => ExistingRole(r)
    case None => CreateMutedRole
  }

  /**
   * `handle_warn_escalation` as written: the mute DM is sent without a guard,
   * so when it cannot be delivered the exception leaves before the removal
   * task is created.
   */
  function EscalateAsWritten(count: int, roles: seq<Role>, dmDelivered: bool): Plan {
    if count == 3 then MutePlan(MuteRole(roles), if dmDelivered then Some(3600) else None)
    else if count == 4 then MutePlan(MuteRole(roles), if dmDelivered then Some(86400) else None)
    else if count == 5 then KickPlan
    else if count >= 6 then BanPlan
    else NoPlan
  }

  /** `handle_warn_escalation` with the mute DM best-effort, as the warn DMs are: the removal is always scheduled. */
  function Escalate(count: int, roles: seq<Role>): Plan {
    if count == 3 then MutePlan(MuteRole(roles), Some(3600))
    else if count == 4 then MutePlan(MuteRole(roles), Some(86400))
    else if count == 5 then KickPlan
    else if count >= 6 then BanPlan
    else NoPlan
  }

  /**
   * Whether `handle_warn_escalation` as written leaves with an exception: the
   * unguarded mute DM fails on a closed inbox, and a refused kick or ban
   * (`discord.Forbidden`) is not caught either.
   */
  predicate EscalationRaises(count: int, dmDelivered: bool, sanctionRefused: bool) {
    ((count == 3 || count == 4) && !dmDelivered) || (count >= 5 && sanctionRefused)
  }

  /** A closed DM inbox on the third warn leaves the member with the Muted role and no removal scheduled. */
  lemma MuteNeverLiftedAsWritten(roles: seq<Role>)
    ensures EscalateAsWritten(3, roles, false).MutePlan?
    ensures EscalateAsWritten(3, roles, false).removeAfter == None
  {
  }

  /** When the DM goes through, the handler as written and the corrected one agree. */
  lemma AsWrittenWhenDelivered(count: int, roles: seq<Role>)
    ensures EscalateAsWritten(count, roles, true) == Escalate(count, roles)
  {
  }

  /**
   * Counts below 3 do nothing; 3 and 4 always mute and always schedule the
   * removal, after one hour and one day; 5 kicks; from 6 on every count bans.
   * The Muted role is created exactly when the guild has no role of that name,
   * and otherwise the guild's first such role is used.
   */
  lemma EscalateTable(count: int, roles: seq<Role>)
    ensures count < 3 ==> Escalate(count, roles) == NoPlan
    ensures count == 3 ==> Escalate(count, roles).MutePlan? && Escalate(count, roles).removeAfter == Some(3600)
    ensures count == 4 ==> Escalate(count, roles).MutePlan? && Escalate(count, roles).removeAfter == Some(86400)
    ensures count == 5 ==> Escalate(count, roles) == KickPlan
    ensures count >= 6 ==> Escalate(count, roles) == BanPlan
    ensures Escalate(count, roles).MutePlan? ==>
      && (Escalate(count, roles).role == CreateMutedRole <==> forall i :: 0 <= i < |roles| ==> roles[i].name != MUTED)
      && (Escalate(count, roles).role.ExistingRole? ==> Escalate(count, roles).role.role == FindRole(roles, MUTED).value)
  {
  }

  /** The cog's escalation and main.py's auto-warn escalation apply the same sanction at every count. */
  lemma AgreesWithAutoWarn(count: int, roles: seq<Role>)
    ensures var p, s := Escalate(count, roles), MessageEvents.Escalation(count);
      && (p == NoPlan <==> s == MessageEvents.NoSanction)
      && (p == KickPlan <==> s == MessageEvents.KickMember)
      && (p == BanPlan <==> s == MessageEvents.BanMember)
      && (p.MutePlan? <==> s.Timeout?)
      && (p.MutePlan? ==> p.removeAfter == Some(s.seconds))
  {
  }

  // ---------------- the spam window ----------------

  /** Append the newest content and drop the oldest once there are more than WINDOW. */
  function Push(window: seq<string>, content: string): seq<string> {
    var w := window + [content];
    if |w| > WINDOW then w[1..] else w
  }

  predicate AllSame(w: seq<string>) {
    forall i :: 0 <= i < |w| ==> w[i] == w[0]
  }

  /** The window after one more message, and whether it set off a spam warn (the window is then emptied). */
  function WindowStep(window: seq<string>, content: string): (seq<string>, bool) {
    var w := Push(window, Lower(content));
    if |w| == WINDOW && AllSame(w) then ([], true) else (w, false)
  }

  /**
   * The window step of the listener as written: when the escalation raises,
   * `on_message` leaves before the reset, so the full window stays.
   */
  function WindowStepAsWritten(window: seq<string>, content: string, raises: bool): (seq<string>, bool) {
    var w := Push(window, Lower(content));
    if |w| == WINDOW && AllSame(w) then (if raises then w else [], true) else (w, false)
  }

  /** When the escalation does not raise, the listener as written and the corrected step agree. */
  lemma AsWrittenWindowWhenCalm(window: seq<string>, content: string)
    ensures WindowStepAsWritten(window, content, false) == WindowStep(window, content)
  {
  }

  /**
   * Once an escalation has raised on a full window of one message, every further
   * copy of that message warns again and the window stays full until an
   * escalation goes through.
   */
  lemma StuckWindowWarnsAgain(c: string, raises: bool)
    ensures var w := MessageEvents.Copies(Lower(c), WINDOW);
      WindowStepAsWritten(w, c, raises) == (if raises then w else [], true)
  {
    var w := MessageEvents.Copies(Lower(c), WINDOW);
    assert Push(w, Lower(c)) == w;
  }

  /** The window keeps the most recent min(WINDOW, |window| + 1) messages, oldest dropped first. */
  lemma PushKeepsLatest(window: seq<string>, content: string)
    requires |window| <= WINDOW
    ensures var r, all := Push(window, content), window + [content];
      && |r| == (if |all| < WINDOW then |all| else WINDOW)
      && r == all[|all| - |r|..]
  {
  }

  /** A spam warn fires exactly when the window holds WINDOW entries that are all equal, and the window is then empty. */
  lemma SpamWarnIff(window: seq<string>, content: string)
    requires |window| <= WINDOW
    ensures var w := Push(window, Lower(content));
      && (WindowStep(window, content).1 <==> |w| == WINDOW && forall i :: 0 <= i < |w| ==> w[i] == Lower(content))
      && (WindowStep(window, content).1 ==> WindowStep(window, content).0 == [])
      && |WindowStep(window, content).0| <= WINDOW
  {
    var w := Push(window, Lower(content));
    if |w| == WINDOW && AllSame(w) {
      assert w[|w| - 1] == Lower(content);
    }
  }

  function WindowAfter(window: seq<string>, cs: seq<string>): seq<string>
    decreases |cs|
  {
    if cs == [] then window else WindowAfter(WindowStep(window, cs[0]).0, cs[1..])
  }

  function SpamWarns(window: seq<string>, cs: seq<string>): nat
    decreases |cs|
  {
    if cs == [] then 0
    else (if WindowStep(window, cs[0]).1 then 1 else 0) + SpamWarns(WindowStep(window, cs[0]).0, cs[1..])
  }

  lemma {:induction false} FillWindow(c: string, j: nat, n: nat)
    requires j + n < WINDOW
    ensures WindowAfter(MessageEvents.Copies(Lower(c), j), MessageEvents.Copies(c, n)) == MessageEvents.Copies(Lower(c), j + n)
    ensures SpamWarns(MessageEvents.Copies(Lower(c), j), MessageEvents.Copies(c, n)) == 0
    decreases n
  {
    if n > 0 {
      var w := MessageEvents.Copies(Lower(c), j);
      assert w + [Lower(c)] == MessageEvents.Copies(Lower(c), j + 1);
      assert MessageEvents.Copies(c, n)[1..] == MessageEvents.Copies(c, n - 1);
      FillWindow(c, j + 1, n - 1);
    }
  }

  /** From an empty window, five identical messages set off exactly one warn, on the fifth, and leave the window empty. */
  lemma FiveSameWarnOnce(c: string)
    ensures SpamWarns([], MessageEvents.Copies(c, 4)) == 0
    ensures SpamWarns([], MessageEvents.Copies(c, 5)) == 1
    ensures WindowAfter([], MessageEvents.Copies(c, 5)) == []
  {
    FillWindow(c, 0, 4);
    assert MessageEvents.Copies(Lower(c), 0) == [];
    WindowAppend([], MessageEvents.Copies(c, 4), c);
    assert MessageEvents.Copies(c, 4) + [c] == MessageEvents.Copies(c, 5);
    var w := MessageEvents.Copies(Lower(c), 4);
    assert Push(w, Lower(c)) == MessageEvents.Copies(Lower(c), 5);
  }

  lemma {:induction false} WindowAppend(window: seq<string>, cs: seq<string>, c: string)
    ensures WindowAfter(window, cs + [c]) == WindowStep(WindowAfter(window, cs), c).0
    ensures SpamWarns(window, cs + [c]) == SpamWarns(window, cs) + (if WindowStep(WindowAfter(window, cs), c).1 then 1 else 0)
    decreases |cs|
  {
    if cs != [] {
      assert (cs + [c])[1..] == cs[1..] + [c];
      WindowAppend(WindowStep(window, cs[0]).0, cs[1..], c);
    } else {
      assert [c][1..] == [];
    }
  }

  // ---------------- guild and member state ----------------

  /** The platform side the escalation changes: the member's roles and whether it was kicked or banned. */
  class Member {
    var roles: set<Role>
    var kicked: bool
    var banned: bool

    constructor (roles: set<Role>)
      ensures this.roles == roles && !kicked && !banned
    {
      this.roles := roles;
      kicked, banned := false, false;
    }
  }

  class Guild {
    var roles: seq<Role>

    constructor (roles: seq<Role>)
      ensures this.roles == roles
    {
      this.roles := roles;
    }
  }

  class WarnCog {
    /** `self.warns`: guild id -> member id -> count. */
    var warns: map<GuildId, map<UserId, int>>
    /** `self.user_messages`: the spam window of each (guild, user). */
    var userMessages: map<Key, seq<string>>

    ghost predicate Valid()
      reads this
    {
      forall k :: k in userMessages ==> |userMessages[k]| <= WINDOW
    }

    constructor ()
      ensures warns == map[] && userMessages == map[] && Valid()
    {
      warns := map[];
      userMessages := map[];
    }

    /** `self.warns.get(g, {}).get(m, 0)`. */
    function WarnCount(guild: GuildId, member: UserId): (count: int)
      reads this`warns
      ensures guild !in warns || member !in warns[guild] ==> count == 0
      ensures guild in warns && member in warns[guild] ==> count == warns[guild][member]
    {
      if guild in warns && member in warns[guild] then warns[guild][member] else 0
    }

    /** `guild_warns = self.warns.setdefault(g, {}); guild_warns[m] = guild_warns.get(m, 0) + 1`. */
    method AddWarn(guild: GuildId, member: UserId) returns (count: int)
      modifies this
      ensures count == old(WarnCount(guild, member)) + 1 && WarnCount(guild, member) == count
      ensures forall g, u :: (g != guild || u != member) ==> WarnCount(g, u) == old(WarnCount(g, u))
      ensures warns.Keys == old(warns).Keys + {guild}
      ensures userMessages == old(userMessages)
    {
      var guildWarns := if guild in warns then warns[guild] else map[];
      count := (if member in guildWarns then guildWarns[member] else 0) + 1;
      guildWarns := guildWarns[member := count];
      warns := warns[guild := guildWarns];
    }

    /**
     * `warn` and `warn_slash`: count the warn, then escalate on the guild's roles.
     * `dmDelivered` says whether the member accepts direct messages; the warn DM
     * is guarded, the mute DM of the escalation is not.
     */
    method Warn(guild: GuildId, member: UserId, roles: seq<Role>, dmDelivered: bool) returns (count: int, plan: Plan)
      modifies this
      ensures count == old(WarnCount(guild, member)) + 1 && WarnCount(guild, member) == count
      ensures forall g, u :: (g != guild || u != member) ==> WarnCount(g, u) == old(WarnCount(g, u))
      ensures plan == EscalateAsWritten(count, roles, dmDelivered)
      ensures userMessages == old(userMessages)
    {
      count := AddWarn(guild, member);
      plan := EscalateAsWritten(count, roles, dmDelivered);
    }

    /**
     * The cog's `on_message` listener: the spam window, and a warn with escalation
     * when it is full of one message. The window is emptied only when the
     * escalation returns normally (`dmDelivered`, `sanctionRefused`: see
     * EscalationRaises).
     */
    method OnMessage(msg: MessageEvents.Message, roles: seq<Role>, dmDelivered: bool, sanctionRefused: bool)
      returns (warned: Option<int>, plan: Plan)
      requires Valid()
      modifies this
      ensures Valid()
      ensures !MessageEvents.Qualifies(msg) ==>
        warned == None && plan == NoPlan && warns == old(warns) && userMessages == old(userMessages)
      ensures MessageEvents.Qualifies(msg) ==>
        var g, u := msg.guild.value, msg.author;
        var before := if Key(g, u) in old(userMessages) then old(userMessages)[Key(g, u)] else [];
        var count := old(WarnCount(g, u)) + 1;
        var (window, fired) := WindowStepAsWritten(before, msg.content, EscalationRaises(count, dmDelivered, sanctionRefused));
        && userMessages == old(userMessages)[Key(g, u) := window]
        && (if fired then
              && warned == Some(count) && WarnCount(g, u) == count
              && (forall g', u' :: (g' != g || u' != u) ==> WarnCount(g', u') == old(WarnCount(g', u')))
              && plan == EscalateAsWritten(count, roles, dmDelivered)
            else
              warned == None && plan == NoPlan && warns == old(warns))
    {
      warned, plan := None, NoPlan;
      if msg.authorIsBot || msg.guild.None? {
        return;
      }
      var g, u := msg.guild.value, msg.author;
      var key := Key(g, u);
      var msgs := if key in userMessages then userMessages[key] else [];
      msgs := msgs + [Lower(msg.content)];
      if |msgs| > WINDOW {
        msgs := msgs[1..];
      }
      userMessages := userMessages[key := msgs];
      if |msgs| == WINDOW && AllSame(msgs) {
        var count := AddWarn(g, u);
        warned := Some(count);
        plan := EscalateAsWritten(count, roles, dmDelivered);
        if !EscalationRaises(count, dmDelivered, sanctionRefused) {
          userMessages := userMessages[key := []];
        }
      }
    }

    /**
     * Carry out an escalation plan: create the Muted role when the plan says so
     * (the platform gives it the id `newRoleId`), add it to the member, or kick
     * or ban the member unless the platform refuses (`sanctionRefused`). Returns
     * the delay of the scheduled removal, with the role.
     */
    method ApplyPlan(guild: Guild, member: Member, plan: Plan, newRoleId: int, sanctionRefused: bool)
      returns (removal: Option<(Role, nat)>)
      requires forall i :: 0 <= i < |guild.roles| ==> guild.roles[i].id != newRoleId
      modifies guild, member
      ensures plan.MutePlan? && plan.role == CreateMutedRole ==> guild.roles == old(guild.roles) + [Role(newRoleId, MUTED)]
      ensures !(plan.MutePlan? && plan.role == CreateMutedRole) ==> guild.roles == old(guild.roles)
      ensures plan.MutePlan? ==>
        var role := if plan.role.ExistingRole? then plan.role.role else Role(newRoleId, MUTED);
        && member.roles == old(member.roles) + {role}
        && removal == (if plan.removeAfter.Some? then Some((role, plan.removeAfter.value)) else None)
      ensures !plan.MutePlan? ==> member.roles == old(member.roles) && removal == None
      ensures member.kicked == (old(member.kicked) || (plan == KickPlan && !sanctionRefused))
      ensures member.banned == (old(member.banned) || (plan == BanPlan && !sanctionRefused))
    {
      removal := None;
      match plan {
        case NoPlan =>
        case MutePlan(choice, removeAfter) =>
          var role := Role(newRoleId, MUTED);
          if choice.ExistingRole? {
            role := choice.role;
          } else {
            guild.roles := guild.roles + [role];
          }
          member.roles := member.roles + {role};
          if removeAfter.Some? {
            removal := Some((role, removeAfter.value));
          }
        case KickPlan =>
          if !sanctionRefused {
            member.kicked := true;
          }
        case BanPlan =>
          if !sanctionRefused {
            member.banned := true;
          }
      }
    }

    /** `remove_role_after`, once the delay has passed: take the role off only if the member still has it. */
    method RemoveRoleAfter(member: Member, role: Role) returns (removed: bool)
      modifies member
      ensures removed == (role in old(member.roles))
      ensures member.roles == old(member.roles) - {role}
      ensures member.kicked == old(member.kicked) && member.banned == old(member.banned)
    {
      removed := role in member.roles;
      if removed {
        member.roles := member.roles - {role};
      }
    }
  }
}
