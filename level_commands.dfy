/**
 * The arithmetic of the Levels cog in cogs/levels.py: rank lookup in the
 * leaderboard, the leaderboard limit, the XP-management commands, the progress
 * bar and percentage, the profile card's name truncation, and the text
 * leaderboard that is sent when the image cannot be made.
 */
module LevelCommands {
  import opened Strings
  import opened Store

  const MAX_LIMIT: int := 20
  const RANK_FETCH: nat := 1000
  const BAR_LENGTH: int := 20
  const CARD_BAR_WIDTH: int := 600
  const NAME_MAX: nat := 15
  const NO_DATA: string := "No data yet."
  const NOT_POSITIVE: string := "Amount must be positive."
  const NEGATIVE: string := "Amount cannot be negative."

  // ---------------- rank and limit ----------------

  /** `user_ids.index(u) + 1`, or `len(user_ids) + 1` when `u` is not listed. */
  function RankOf(ids: seq<UserId>, u: UserId): (rank: int)
    ensures 1 <= rank <= |ids| + 1
    ensures forall j :: 0 <= j < rank - 1 ==> ids[j] != u
    ensures rank <= |ids| ==> ids[rank - 1] == u
  {
    if ids == [] then 1
    else if ids[0] == u then 1
    else 1 + RankOf(ids[1..], u)
  }

  /** On a leaderboard with one row per user, the user of row i has rank i + 1, and a user without a row ranks last. */
  lemma RankIsPosition(board: seq<Row>, i: int, u: UserId)
    requires DistinctUsers(board)
    requires 0 <= i < |board|
    ensures RankOf(Users(board), board[i].user) == i + 1
    ensures u !in Users(board) ==> RankOf(Users(board), u) == |board| + 1
  {
  }

  function Abs(x: int): nat { if x < 0 then -x else x }

  /** `max(1, min(20, limit))`. */
  function ClampLimit(limit: int): (r: int)
    ensures 1 <= r <= MAX_LIMIT
    ensures 1 <= limit <= MAX_LIMIT ==> r == limit
    ensures limit < 1 ==> r == 1
    ensures limit > MAX_LIMIT ==> r == MAX_LIMIT
  {
    if limit < 1 then 1 else if limit > MAX_LIMIT then MAX_LIMIT else limit
  }

  /** The clamped limit is the allowed limit nearest to the one asked for. */
  lemma ClampIsNearest(limit: int, y: int)
    requires 1 <= y <= MAX_LIMIT
    ensures Abs(ClampLimit(limit) - limit) <= Abs(y - limit)
  {
  }

  // ---------------- progress ----------------

  /** Python's `int(a / b)` for b > 0: the quotient truncated toward zero. */
  function TruncDiv(a: int, b: int): int
    requires b > 0
  {
    if a >= 0 then a / b else -((-a) / b)
  }

  /**
   * `int(width * min(1.0, xp / threshold))` when threshold > 0, else 0: the
   * filled part of a bar of `width` units (cells, per cent, or pixels).
   */
  function Fill(xp: int, threshold: int, width: int): int {
    if threshold > 0 then
      var q := TruncDiv(width * xp, threshold);
      if q < width then q else width
    else 0
  }

  /** The text bar: `"█" * filled + "░" * (20 - filled)`. */
  function Bar(filled: int): string {
    Repeat('█', filled) + Repeat('░', BAR_LENGTH - filled)
  }

  /** Euclidean division of a non-negative number brackets it between multiples. */
  lemma DivBracket(a: int, t: int)
    requires a >= 0 && t > 0
    ensures (a / t) * t <= a < (a / t + 1) * t
  {
  }

  lemma MulLe(a: int, b: int, t: int)
    requires a <= b && 0 <= t
    ensures a * t <= b * t
  {
  }

  lemma DivMonotone(a: int, b: int, t: int)
    requires 0 <= a <= b && t > 0
    ensures a / t <= b / t
  {
    var qa, qb := a / t, b / t;
    DivBracket(a, t);
    DivBracket(b, t);
    if qa > qb {
      MulLe(qb + 1, qa, t);
    }
  }

  lemma DivReachesWidth(w: int, x: int, t: int)
    requires w > 0 && x >= 0 && t > 0
    ensures (w * x) / t >= w <==> x >= t
  {
    var q := (w * x) / t;
    DivBracket(w * x, t);
    if x >= t && q < w {
      MulLe(q + 1, w, t);
      MulLe(t, x, w);
    }
    if q >= w && x < t {
      MulLe(w, q, t);
      MulLe(x + 1, t, w);
    }
  }

  /**
   * For non-negative xp and width: the filled part lies in [0, width]; it is the
   * whole width exactly when xp reaches the threshold; it never shrinks as xp grows.
   */
  lemma FillBounds(xp: int, xp2: int, threshold: int, width: int)
    requires 0 <= xp <= xp2 && width >= 0 && threshold > 0
    ensures 0 <= Fill(xp, threshold, width) <= width
    ensures Fill(xp, threshold, width) == width <==> (width == 0 || xp >= threshold)
    ensures Fill(xp, threshold, width) <= Fill(xp2, threshold, width)
  {
    var a, b := width * xp, width * xp2;
    MulLe(0, xp, width);
    MulLe(xp, xp2, width);
    assert 0 <= a <= b;
    DivMonotone(a, b, threshold);
    assert Fill(xp, threshold, width) == if a / threshold < width then a / threshold else width;
    assert Fill(xp2, threshold, width) == if b / threshold < width then b / threshold else width;
    if width > 0 {
      DivReachesWidth(width, xp, threshold);
    }
  }

  /** The text bar is always exactly 20 characters for a non-negative xp: `filled` full cells, then empty ones. */
  lemma BarShape(xp: int, threshold: int)
    requires xp >= 0 && threshold > 0
    ensures var f := Fill(xp, threshold, BAR_LENGTH);
      && |Bar(f)| == BAR_LENGTH
      && forall i :: 0 <= i < BAR_LENGTH ==> (Bar(f)[i] == '█' <==> i < f)
  {
    FillBounds(xp, xp, threshold, BAR_LENGTH);
  }

  /** The threshold the commands display: `((level + 1) / 0.1) ** 2`, that is 100 (level + 1)^2. */
  function NextLevelXpAsWritten(level: int): int {
    100 * ((level + 1) * (level + 1))
  }

  /** The XP at which a user of level `level` reaches level + 1: 100 level^2. */
  function NextLevelXp(level: int): int
    requires level >= 1
  {
    XpForLevel(level + 1)
  }

  /**
   * The displayed threshold is positive but belongs to the level after next:
   * XP equal to it already means level + 2, and level + 1 is reached earlier,
   * at NextLevelXp(level).
   */
  lemma ThresholdSkipsALevel(level: int)
    requires level >= 1
    ensures NextLevelXpAsWritten(level) > 0
    ensures XpToLevel(NextLevelXpAsWritten(level)) == level + 2
    ensures NextLevelXp(level) < NextLevelXpAsWritten(level)
    ensures XpToLevel(NextLevelXp(level)) == level + 1
  {
    var l := level;
    assert XpForLevel(l + 2) == NextLevelXpAsWritten(l) by {
      assert l + 2 - 1 == l + 1;
    }
    assert (l + 1) * (l + 1) == l * l + 2 * l + 1;
    XpForLevelIsLeast(l + 2, 0);
    XpForLevelIsLeast(l + 1, 0);
  }

  /**
   * The corrected threshold is the least XP of the next level: positive, above
   * the user's current XP (so the bar is never full at a level), and reaching
   * it gives exactly level + 1.
   */
  lemma NextLevelXpIsNextLevel(xp: int)
    requires xp >= 0
    ensures var l := XpToLevel(xp);
      && NextLevelXp(l) > 0
      && xp < NextLevelXp(l)
      && XpToLevel(NextLevelXp(l)) == l + 1
      && Fill(xp, NextLevelXp(l), BAR_LENGTH) < BAR_LENGTH
      && Fill(xp, NextLevelXp(l), 100) < 100
  {
    var l := XpToLevel(xp);
    XpForLevelIsLeast(l + 1, 0);
    assert NextLevelXp(l) >= 100;
    if xp >= NextLevelXp(l) {
      LevelMonotone(NextLevelXp(l), xp);
      assert false;
    }
    FillBounds(xp, xp, NextLevelXp(l), BAR_LENGTH);
    FillBounds(xp, xp, NextLevelXp(l), 100);
  }

  /**
   * The threshold the commands show is positive and above the user's XP, so
   * every bar and percentage drawn against it stays below its full width.
   */
  lemma ShownThresholdAbove(xp: int, width: int)
    requires xp >= 0 && width > 0
    ensures var t := NextLevelXpAsWritten(XpToLevel(xp));
      && t > 0
      && xp < t
      && 0 <= Fill(xp, t, width) < width
  {
    var l := XpToLevel(xp);
    NextLevelXpIsNextLevel(xp);
    ThresholdSkipsALevel(l);
    FillBounds(xp, xp, NextLevelXpAsWritten(l), width);
  }

  // ---------------- names ----------------

  /** The profile card's name: longer than 15 characters becomes its first 15 and "...". */
  function TruncateName(name: string): (r: string)
    ensures |r| <= NAME_MAX + 3
    ensures |name| <= NAME_MAX ==> r == name
    ensures |name| > NAME_MAX ==> |r| == NAME_MAX + 3 && r[..NAME_MAX] == name[..NAME_MAX] && r[NAME_MAX..] == "..."
  {
    if |name| > NAME_MAX then name[..NAME_MAX] + "..." else name
  }

  /** Truncating twice is truncating once. */
  lemma TruncateIdempotent(name: string)
    ensures TruncateName(TruncateName(name)) == TruncateName(name)
  {
    if |name| > NAME_MAX {
      var r := TruncateName(name);
      assert r == r[..NAME_MAX] + r[NAME_MAX..];
    }
  }

  // ---------------- views ----------------

  /** What `level` shows. */
  datatype LevelView = LevelView(xp: int, level: int, rank: int, cells: int, bar: string, percent: int)

  /** What `profile` draws on its card (image composition aside). */
  datatype ProfileCard = ProfileCard(name: string, xp: int, level: int, rank: int, nextXp: int, barPixels: int, percent: int)

  /** The rank lookup shared by `profile` and `level`: the member's place in the guild's top 1000. */
  method LookupRank(db: Database, guild: GuildId, user: UserId) returns (rank: int, board: seq<Row>)
    ensures IsLeaderboard(db.xp, guild, RANK_FETCH, board)
    ensures rank == RankOf(Users(board), user)
    ensures 1 <= rank <= RANK_FETCH + 1
    ensures rank <= |board| ==> board[rank - 1].user == user && board[rank - 1].xp == Lookup(db.xp, Key(guild, user))
    ensures rank == |board| + 1 ==> user !in Users(board)
  {
    board := db.GetLeaderboard(guild, RANK_FETCH);
    rank := RankOf(Users(board), user);
  }

  /** `level` / `level_slash`: progress is drawn against the threshold the source computes. */
  method ShowLevel(db: Database, guild: GuildId, user: UserId) returns (view: LevelView)
    ensures view.xp == Lookup(db.xp, Key(guild, user))
    ensures view.level == XpToLevel(view.xp)
    ensures 1 <= view.rank <= RANK_FETCH + 1
    ensures exists board :: IsLeaderboard(db.xp, guild, RANK_FETCH, board) && view.rank == RankOf(Users(board), user)
    ensures view.cells == Fill(view.xp, NextLevelXpAsWritten(view.level), BAR_LENGTH) && view.bar == Bar(view.cells)
    ensures view.percent == Fill(view.xp, NextLevelXpAsWritten(view.level), 100)
    ensures view.xp >= 0 ==> |view.bar| == BAR_LENGTH && 0 <= view.cells < BAR_LENGTH && 0 <= view.percent < 100
  {
    var xp := db.GetUser(user, guild);
    var level := XpToLevel(xp);
    var rank, board := LookupRank(db, guild, user);
    var next := NextLevelXpAsWritten(level);
    var cells := Fill(xp, next, BAR_LENGTH);
    view := LevelView(xp, level, rank, cells, Bar(cells), Fill(xp, next, 100));
    if xp >= 0 {
      ShownThresholdAbove(xp, BAR_LENGTH);
      ShownThresholdAbove(xp, 100);
      BarShape(xp, next);
    }
  }

  /** `profile` / `profile_slash`: the figures drawn on the card, against the threshold the source computes. */
  method ShowProfile(db: Database, guild: GuildId, user: UserId, displayName: string) returns (card: ProfileCard)
    ensures card.name == TruncateName(displayName)
    ensures card.xp == Lookup(db.xp, Key(guild, user)) && card.level == XpToLevel(card.xp)
    ensures 1 <= card.rank <= RANK_FETCH + 1
    ensures exists board :: IsLeaderboard(db.xp, guild, RANK_FETCH, board) && card.rank == RankOf(Users(board), user)
    ensures card.nextXp == NextLevelXpAsWritten(card.level)
    ensures card.barPixels == Fill(card.xp, card.nextXp, CARD_BAR_WIDTH)
    ensures card.percent == Fill(card.xp, card.nextXp, 100)
    ensures card.xp >= 0 ==> card.xp < card.nextXp && 0 <= card.barPixels < CARD_BAR_WIDTH
  {
    var xp := db.GetUser(user, guild);
    var level := XpToLevel(xp);
    var rank, board := LookupRank(db, guild, user);
    var next := NextLevelXpAsWritten(level);
    card := ProfileCard(TruncateName(displayName), xp, level, rank, next, Fill(xp, next, CARD_BAR_WIDTH), Fill(xp, next, 100));
    if xp >= 0 {
      ShownThresholdAbove(xp, CARD_BAR_WIDTH);
    }
  }

  // ---------------- XP management ----------------

  /** The reply of an XP-management command. */
  datatype XpReply = Rejected(text: string) | NowLevel(level: int)

  /** `addxp`: refused unless the amount is positive; otherwise current + amount is written back. */
  method AddXpCommand(db: Database, guild: GuildId, user: UserId, amount: int) returns (reply: XpReply)
    modifies db
    ensures db.warns == old(db.warns)
    ensures amount <= 0 ==> reply == Rejected(NOT_POSITIVE) && db.xp == old(db.xp)
    ensures amount > 0 ==>
      var total := Lookup(old(db.xp), Key(guild, user)) + amount;
      db.xp == old(db.xp)[Key(guild, user) := total] && reply == NowLevel(XpToLevel(total))
    ensures old(db.NonNegative()) ==> db.NonNegative()
  {
    if amount <= 0 {
      return Rejected(NOT_POSITIVE);
    }
    var current := db.GetUser(user, guild);
    var newXp := current + amount;
    db.SetXp(user, guild, newXp);
    reply := NowLevel(XpToLevel(newXp));
  }

  /** `removexp`: refused unless the amount is positive; otherwise max(0, current - amount) is written back. */
  method RemoveXpCommand(db: Database, guild: GuildId, user: UserId, amount: int) returns (reply: XpReply)
    modifies db
    ensures db.warns == old(db.warns)
    ensures amount <= 0 ==> reply == Rejected(NOT_POSITIVE) && db.xp == old(db.xp)
    ensures amount > 0 ==>
      var current := Lookup(old(db.xp), Key(guild, user));
      var total := if current - amount < 0 then 0 else current - amount;
      && db.xp == old(db.xp)[Key(guild, user) := total]
      && reply == NowLevel(XpToLevel(total))
      && 0 <= total && (current >= 0 ==> total <= current)
    ensures old(db.NonNegative()) ==> db.NonNegative()
  {
    if amount <= 0 {
      return Rejected(NOT_POSITIVE);
    }
    var current := db.GetUser(user, guild);
    var newXp := if current - amount < 0 then 0 else current - amount;
    db.SetXp(user, guild, newXp);
    reply := NowLevel(XpToLevel(newXp));
  }

  /** `setxp`: refused for a negative amount; otherwise the amount is stored. */
  method SetXpCommand(db: Database, guild: GuildId, user: UserId, amount: int) returns (reply: XpReply)
    modifies db
    ensures db.warns == old(db.warns)
    ensures amount < 0 ==> reply == Rejected(NEGATIVE) && db.xp == old(db.xp)
    ensures amount >= 0 ==> db.xp == old(db.xp)[Key(guild, user) := amount] && reply == NowLevel(XpToLevel(amount))
    ensures old(db.NonNegative()) ==> db.NonNegative()
  {
    if amount < 0 {
      return Rejected(NEGATIVE);
    }
    db.SetXp(user, guild, amount);
    reply := NowLevel(XpToLevel(amount));
  }

  /** `resetxp`: stores 0 and reports level 1, which is the level of 0 XP. */
  method ResetXpCommand(db: Database, guild: GuildId, user: UserId) returns (reply: XpReply)
    modifies db
    ensures db.warns == old(db.warns)
    ensures db.xp == old(db.xp)[Key(guild, user) := 0]
    ensures reply == NowLevel(1) && reply.level == XpToLevel(Lookup(db.xp, Key(guild, user)))
    ensures old(db.NonNegative()) ==> db.NonNegative()
  {
    db.SetXp(user, guild, 0);
    reply := NowLevel(1);
  }

  // ---------------- text leaderboard ----------------

  /** `member.display_name`, or `<Left user id>` for someone no longer in the guild. */
  function DisplayName(u: UserId, members: map<UserId, string>): string {
    if u in members then members[u] else "<Left user " + IntToString(u) + ">"
  }

  function EntryPrefix(idx: int): string {
    "**" + IntToString(idx) + ".** "
  }

  /** One line of the text leaderboard, numbered `idx`. */
  function EntryLine(idx: int, row: Row, members: map<UserId, string>): (line: string)
    ensures EntryPrefix(idx) <= line
  {
    EntryPrefix(idx) + EntryBody(row, members)
  }

  /** What follows the number: `{name} — Level {level} • {xp} XP` and a newline. */
  function EntryBody(row: Row, members: map<UserId, string>): string {
    DisplayName(row.user, members)
      + " — Level " + IntToString(XpToLevel(row.xp)) + " • " + IntToString(row.xp) + " XP\n"
  }

  /** The lines of the listing, the i-th numbered i + 1. */
  function Listing(rows: seq<Row>, members: map<UserId, string>): (lines: seq<string>)
    ensures |lines| == |rows|
    ensures forall i :: 0 <= i < |rows| ==> lines[i] == EntryLine(i + 1, rows[i], members)
  {
    seq(|rows|, i requires 0 <= i < |rows| => EntryLine(i + 1, rows[i], members))
  }

  function Concat(lines: seq<string>): string
    decreases |lines|
  {
    if lines == [] then [] else Concat(lines[..|lines| - 1]) + lines[|lines| - 1]
  }

  lemma ConcatSnoc(lines: seq<string>, i: int)
    requires 0 <= i < |lines|
    ensures Concat(lines[..i + 1]) == Concat(lines[..i]) + lines[i]
  {
    assert lines[..i + 1][..i] == lines[..i];
  }

  lemma {:induction false} ConcatStartsWith(lines: seq<string>)
    requires lines != []
    ensures lines[0] <= Concat(lines)
    decreases |lines|
  {
    if |lines| > 1 {
      ConcatStartsWith(lines[..|lines| - 1]);
    } else {
      assert lines[..0] == [];
    }
  }

  /**
   * The description of the fallback embed: the numbered lines, or "No data yet."
   * when there are no rows. The first line is numbered 1.
   */
  method FallbackDescription(rows: seq<Row>, members: map<UserId, string>) returns (desc: string)
    ensures rows == [] ==> desc == NO_DATA
    ensures rows != [] ==> desc == Concat(Listing(rows, members)) && EntryPrefix(1) <= desc
  {
    ghost var lines := Listing(rows, members);
    desc := "";
    var i := 0;
    while i < |rows|
      invariant 0 <= i <= |rows|
      invariant desc == Concat(lines[..i])
    {
      ConcatSnoc(lines, i);
      desc := desc + EntryLine(i + 1, rows[i], members);
      i := i + 1;
    }
    assert lines[..|rows|] == lines;
    if rows != [] {
      ConcatStartsWith(lines);
      assert EntryPrefix(1) <= EntryLine(1, rows[0], members) <= desc;
    }
    if desc == "" {
      desc := NO_DATA;
    }
  }

  const IMAGE_BAR_WIDTH: int := 300

  /** What the leaderboard image draws for one row (drawing itself aside). */
  datatype ImageEntry = ImageEntry(idx: int, name: string, level: int, xp: int, barPixels: int)

  /** The image names a departed member `User id`, unlike the text fallback. */
  function ImageName(u: UserId, members: map<UserId, string>): string {
    if u in members then members[u] else "User " + IntToString(u)
  }

  /** The rows of the leaderboard image, numbered from 1, each with a 300-pixel XP bar. */
  function ImageEntries(rows: seq<Row>, members: map<UserId, string>): (entries: seq<ImageEntry>)
    ensures |entries| == |rows|
    ensures forall i :: 0 <= i < |rows| ==> entries[i].idx == i + 1 && entries[i].xp == rows[i].xp
  {
    seq(|rows|, i requires 0 <= i < |rows| =>
      var lvl := XpToLevel(rows[i].xp);
      ImageEntry(i + 1, ImageName(rows[i].user, members), lvl, rows[i].xp,
                 Fill(rows[i].xp, NextLevelXpAsWritten(lvl), IMAGE_BAR_WIDTH)))
  }

  /** Every bar of the image stays inside its 300 pixels and is never full, for non-negative XP. */
  lemma ImageBarsBounded(rows: seq<Row>, members: map<UserId, string>, i: int)
    requires 0 <= i < |rows| && rows[i].xp >= 0
    ensures 0 <= ImageEntries(rows, members)[i].barPixels < IMAGE_BAR_WIDTH
    ensures ImageEntries(rows, members)[i].level == XpToLevel(rows[i].xp)
    ensures ImageEntries(rows, members)[i].barPixels == Fill(rows[i].xp, NextLevelXpAsWritten(XpToLevel(rows[i].xp)), IMAGE_BAR_WIDTH)
  {
    ShownThresholdAbove(rows[i].xp, IMAGE_BAR_WIDTH);
  }

  /** `leaderboard`'s text fallback: the clamped limit, the rows fetched with it, and the description. */
  method LeaderboardFallback(db: Database, guild: GuildId, limit: int, members: map<UserId, string>)
    returns (shown: int, rows: seq<Row>, desc: string)
    ensures shown == ClampLimit(limit)
    ensures IsLeaderboard(db.xp, guild, shown, rows) && |rows| <= MAX_LIMIT
    ensures rows == [] ==> desc == NO_DATA
    ensures rows != [] ==> desc == Concat(Listing(rows, members))
  {
    shown := ClampLimit(limit);
    rows := db.GetLeaderboard(guild, shown);
    desc := FallbackDescription(rows, members);
  }
}
