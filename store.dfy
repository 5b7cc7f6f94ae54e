/**
 * The counter store of utils/db.py: two tables keyed by (guild_id, user_id),
 * one holding XP and one holding warn counts, seen through the operations
 * both database backends implement. A missing row reads as 0.
 * Also the level formula `xp_to_level`.
 */
module Store {
  import opened Options

  type GuildId = int
  type UserId = int

  /** The primary key (guild_id, user_id) of both tables. */
  datatype Key = Key(guild: GuildId, user: UserId)

  /** One leaderboard row, the pair (user_id, xp). */
  datatype Row = Row(user: UserId, xp: int)

  /** The value a `SELECT ... WHERE guild_id=? AND user_id=?` yields, 0 when there is no row. */
  function Lookup(table: map<Key, int>, k: Key): int {
    if k in table then table[k] else 0
  }

  // ---------------- level formula ----------------

  /** Integer square root: the largest r with r * r <= n. */
  function ISqrt(n: nat): (r: nat)
    ensures r * r <= n < (r + 1) * (r + 1)
  {
    if n < 4 then (if n == 0 then 0 else 1)
    else
      var h := ISqrt(n / 4);
      ISqrtStep(n, h);
      var c := 2 * h + 1;
      if c * c <= n then c else c - 1
  }

  /** From the root h of n / 4, the root of n is 2h or 2h + 1. */
  lemma ISqrtStep(n: nat, h: nat)
    requires h * h <= n / 4 < (h + 1) * (h + 1)
    ensures (2 * h) * (2 * h) <= n < (2 * h + 2) * (2 * h + 2)
  {
    var q := n / 4;
    var hh, hh1 := h * h, (h + 1) * (h + 1);
    assert n == 4 * q + n % 4 && n % 4 < 4;
    assert (2 * h) * (2 * h) == 4 * hh;
    assert (2 * h + 2) * (2 * h + 2) == 4 * hh1;
    assert 4 * hh <= 4 * q;
    assert 4 * q + 4 <= 4 * hh1;
  }

  /**
   * `xp_to_level`: floor(0.1 * sqrt(xp)) + 1 for positive xp, else 1, in exact
   * integer arithmetic (floor(sqrt(xp) / 10) == ISqrt(xp) / 10).
   */
  function XpToLevel(xp: int): (level: int)
    ensures level >= 1
    ensures xp <= 0 ==> level == 1
  {
    if xp > 0 then ISqrt(xp) / 10 + 1 else 1
  }

  lemma SquareMonotone(a: nat, b: nat)
    requires a <= b
    ensures a * a <= b * b
  {
    assert a * a <= a * b <= b * b;
  }

  lemma TenSquares(l: nat)
    ensures (10 * l) * (10 * l) == 100 * (l * l)
    ensures (10 * l + 10) * (10 * l + 10) == 100 * ((l + 1) * (l + 1))
  {
  }

  /** A root in [10 l, 10 l + 10) puts xp in the band; a root outside it puts xp outside. */
  lemma RootInBand(xp: nat, s: nat, a: nat, b: nat)
    requires s * s <= xp < (s + 1) * (s + 1)
    ensures a <= s < b ==> a * a <= xp < b * b
    ensures s < a ==> xp < a * a
    ensures b <= s ==> b * b <= xp
  {
    if a <= s < b {
      SquareMonotone(a, s);
      SquareMonotone(s + 1, b);
    }
    if s < a {
      SquareMonotone(s + 1, a);
    }
    if b <= s {
      SquareMonotone(b, s);
    }
  }

  /** The band of XP values with level L + 1 is exactly [100 L^2, 100 (L + 1)^2). */
  lemma LevelBand(xp: int, l: nat)
    requires xp >= 0
    ensures XpToLevel(xp) == l + 1 <==> 100 * (l * l) <= xp < 100 * ((l + 1) * (l + 1))
  {
    var s := ISqrt(xp);
    assert XpToLevel(xp) == s / 10 + 1;
    assert s / 10 == l <==> 10 * l <= s < 10 * l + 10;
    TenSquares(l);
    RootInBand(xp, s, 10 * l, 10 * l + 10);
  }

  /** More XP never means a lower level. */
  lemma LevelMonotone(a: int, b: int)
    requires a <= b
    ensures XpToLevel(a) <= XpToLevel(b)
  {
    if a > 0 {
      var sa, sb := ISqrt(a), ISqrt(b);
      if sb < sa {
        SquareMonotone(sb + 1, sa);
        assert false;
      }
    }
  }

  /** The least XP at which a user has level `n` (n >= 1): 100 (n - 1)^2. */
  function XpForLevel(n: int): int
    requires n >= 1
  {
    100 * ((n - 1) * (n - 1))
  }

  /** `XpForLevel(n)` reaches level n, and nothing below it does. */
  lemma XpForLevelIsLeast(n: int, x: int)
    requires n >= 1
    ensures XpToLevel(XpForLevel(n)) == n
    ensures 0 <= x < XpForLevel(n) ==> XpToLevel(x) < n
  {
    LevelBand(XpForLevel(n), n - 1);
    if x < XpForLevel(n) && x >= 0 {
      var l := XpToLevel(x) - 1;
      LevelBand(x, l);
      if l >= n - 1 {
        SquareMonotone(n - 1, l);
        assert false;
      }
    }
  }

  // ---------------- leaderboard ----------------

  function Users(rows: seq<Row>): (ids: seq<UserId>)
    ensures |ids| == |rows|
    ensures forall i :: 0 <= i < |rows| ==> ids[i] == rows[i].user
  {
    seq(|rows|, i requires 0 <= i < |rows| => rows[i].user)
  }

  /** Non-increasing in xp (`ORDER BY xp DESC`); ties in any order. */
  ghost predicate SortedByXp(rows: seq<Row>) {
    forall i, j :: 0 <= i < j < |rows| ==> rows[i].xp >= rows[j].xp
  }

  ghost predicate DistinctUsers(rows: seq<Row>) {
    forall i, j :: 0 <= i < j < |rows| ==> rows[i].user != rows[j].user
  }

  /**
   * What `SELECT user_id, xp FROM xp WHERE guild_id=? ORDER BY xp DESC LIMIT ?`
   * may return: at most `limit` rows of guild `g`, each with its stored xp, one
   * per user, in descending xp; and if some row of the guild is left out, the
   * limit was reached and the left-out row has no more xp than the last row shown.
   */
  ghost predicate IsLeaderboard(table: map<Key, int>, g: GuildId, limit: nat, rows: seq<Row>) {
    && |rows| <= limit
    && SortedByXp(rows)
    && DistinctUsers(rows)
    && (forall i :: 0 <= i < |rows| ==> Key(g, rows[i].user) in table && table[Key(g, rows[i].user)] == rows[i].xp)
    && (forall k :: k in table && k.guild == g && k.user !in Users(rows) ==>
          |rows| == limit && (limit > 0 ==> table[k] <= rows[limit - 1].xp))
  }

  /** Insert `r` into `rows` ahead of the first row with less xp. */
  function InsertByXp(rows: seq<Row>, r: Row): (res: seq<Row>)
    ensures |res| == |rows| + 1
    ensures multiset(res) == multiset(rows) + multiset{r}
  {
    if rows == [] then [r]
    else if r.xp >= rows[0].xp then [r] + rows
    else
      assert rows == [rows[0]] + rows[1..];
      [rows[0]] + InsertByXp(rows[1..], r)
  }

  /** Insertion keeps the rows in descending xp. */
  lemma {:induction false} InsertSorted(rows: seq<Row>, r: Row)
    requires SortedByXp(rows)
    ensures SortedByXp(InsertByXp(rows, r))
  {
    if rows != [] && r.xp < rows[0].xp {
      var rest := InsertByXp(rows[1..], r);
      InsertSorted(rows[1..], r);
      forall i | 0 <= i < |rest|
        ensures rest[i].xp <= rows[0].xp
      {
        assert rest[i] in multiset(rest);
        if rest[i] != r {
          assert rest[i] in rows[1..];
        }
      }
    }
  }

  /** The users of a list with one more row in front. */
  lemma UsersCons(h: Row, rest: seq<Row>)
    ensures Users([h] + rest) == [h.user] + Users(rest)
  {
  }

  /** Insertion adds exactly the user of the new row to the listed users. */
  lemma {:induction false} InsertUsers(rows: seq<Row>, r: Row)
    ensures multiset(Users(InsertByXp(rows, r))) == multiset(Users(rows)) + multiset{r.user}
  {
    if rows == [] {
      UsersCons(r, []);
    } else if r.xp >= rows[0].xp {
      UsersCons(r, rows);
    } else {
      var rest := InsertByXp(rows[1..], r);
      InsertUsers(rows[1..], r);
      UsersCons(rows[0], rest);
      UsersCons(rows[0], rows[1..]);
      assert [rows[0]] + rows[1..] == rows;
    }
  }

  /** A row for a user not yet listed can go in front and keeps one row per user. */
  lemma InsertDistinctFront(rows: seq<Row>, r: Row)
    requires DistinctUsers(rows) && r.user !in Users(rows)
    ensures DistinctUsers([r] + rows)
  {
    var res := [r] + rows;
    forall i, j | 0 <= i < j < |res|
      ensures res[i].user != res[j].user
    {
      assert res[j] == rows[j - 1];
      if i == 0 {
        assert Users(rows)[j - 1] == rows[j - 1].user;
      } else {
        assert res[i] == rows[i - 1];
      }
    }
  }

  /** Insertion of a row for a user not yet listed keeps one row per user. */
  lemma {:induction false} InsertDistinct(rows: seq<Row>, r: Row)
    requires DistinctUsers(rows) && r.user !in Users(rows)
    ensures DistinctUsers(InsertByXp(rows, r))
  {
    if rows == [] {
    } else if r.xp >= rows[0].xp {
      InsertDistinctFront(rows, r);
    } else {
      var tail := rows[1..];
      var rest := InsertByXp(tail, r);
      UsersCons(rows[0], tail);
      assert [rows[0]] + tail == rows;
      InsertDistinct(tail, r);
      InsertUsers(tail, r);
      assert rows[0].user !in Users(tail) by {
        assert forall m :: 0 <= m < |tail| ==> Users(tail)[m] == rows[m + 1].user;
      }
      assert rows[0].user !in multiset(Users(rest));
      InsertDistinctFront(rest, rows[0]);
    }
  }

  /**
   * The rows of guild `g` gathered from every key of `table` outside `todo`,
   * sorted by xp, one per user.
   */
  ghost predicate Collected(table: map<Key, int>, g: GuildId, todo: set<Key>, all: seq<Row>) {
    && SortedByXp(all) && DistinctUsers(all)
    && (forall i :: 0 <= i < |all| ==>
          Key(g, all[i].user) in table && Key(g, all[i].user) !in todo && table[Key(g, all[i].user)] == all[i].xp)
    && (forall k :: k in table && k !in todo && k.guild == g ==> k.user in Users(all))
  }

  /** Inserting the row of one more key of guild `g` keeps the gathered rows right. */
  lemma CollectStep(table: map<Key, int>, g: GuildId, todo: set<Key>, all: seq<Row>, k: Key)
    requires Collected(table, g, todo, all)
    requires k in todo && k in table && k.guild == g
    ensures Collected(table, g, todo - {k}, InsertByXp(all, Row(k.user, table[k])))
  {
    var r := Row(k.user, table[k]);
    var next := InsertByXp(all, r);
    InsertSorted(all, r);
    assert k.user !in Users(all);
    InsertDistinct(all, r);
    InsertRows(table, g, todo, all, k);
    InsertKeys(table, g, todo, all, k);
  }

  lemma InsertRows(table: map<Key, int>, g: GuildId, todo: set<Key>, all: seq<Row>, k: Key)
    requires forall i :: 0 <= i < |all| ==>
      Key(g, all[i].user) in table && Key(g, all[i].user) !in todo && table[Key(g, all[i].user)] == all[i].xp
    requires k in todo && k in table && k.guild == g
    ensures var next := InsertByXp(all, Row(k.user, table[k]));
      forall i :: 0 <= i < |next| ==>
        Key(g, next[i].user) in table && Key(g, next[i].user) !in todo - {k} && table[Key(g, next[i].user)] == next[i].xp
  {
    var r := Row(k.user, table[k]);
    var next := InsertByXp(all, r);
    forall i | 0 <= i < |next|
      ensures Key(g, next[i].user) in table && Key(g, next[i].user) !in todo - {k}
      ensures table[Key(g, next[i].user)] == next[i].xp
    {
      assert next[i] in multiset(next);
      if next[i] != r {
        assert next[i] in all;
      }
    }
  }

  lemma InsertKeys(table: map<Key, int>, g: GuildId, todo: set<Key>, all: seq<Row>, k: Key)
    requires forall k :: k in table && k !in todo && k.guild == g ==> k.user in Users(all)
    requires k in todo && k in table && k.guild == g
    ensures var next := InsertByXp(all, Row(k.user, table[k]));
      forall k' :: k' in table && k' !in todo - {k} && k'.guild == g ==> k'.user in Users(next)
  {
    var r := Row(k.user, table[k]);
    var next := InsertByXp(all, r);
    InsertUsers(all, r);
    forall k' | k' in table && k' !in todo - {k} && k'.guild == g
      ensures k'.user in Users(next)
    {
      if k' != k {
        assert k'.user in multiset(Users(all));
      }
      assert k'.user in multiset(Users(next));
    }
  }

  /** Cutting all the rows of guild `g` down to `limit` gives a leaderboard. */
  lemma TakeTop(table: map<Key, int>, g: GuildId, limit: nat, all: seq<Row>)
    requires Collected(table, g, {}, all)
    ensures IsLeaderboard(table, g, limit, if |all| <= limit then all else all[..limit])
  {
    if |all| > limit {
      var rows := all[..limit];
      assert forall i :: 0 <= i < limit ==> rows[i] == all[i] && Users(rows)[i] == Users(all)[i];
      forall k | k in table && k.guild == g && k.user !in Users(rows)
        ensures limit > 0 ==> table[k] <= rows[limit - 1].xp
      {
        assert k.user in Users(all);
        var j :| 0 <= j < |all| && Users(all)[j] == k.user;
        assert limit <= j;
        assert k == Key(g, all[j].user);
        if limit > 0 {
          assert all[j].xp <= all[limit - 1].xp;
        }
      }
    }
  }

  // ---------------- the store ----------------

  class Database {
    var xp: map<Key, int>
    var warns: map<Key, int>

    /** An empty database, as after `create_tables` on a fresh file. */
    constructor ()
      ensures xp == map[] && warns == map[]
    {
      xp := map[];
      warns := map[];
    }

    /** Every stored XP value and warn count is at least 0. */
    ghost predicate NonNegative()
      reads this
    {
      && (forall k :: k in xp ==> xp[k] >= 0)
      && (forall k :: k in warns ==> warns[k] >= 0)
    }

    /** `add_xp`: insert a row with `amount`, or add `amount` to the existing one. */
    method AddXp(user: UserId, guild: GuildId, amount: int)
      modifies this
      ensures xp == old(xp)[Key(guild, user) := Lookup(old(xp), Key(guild, user)) + amount]
      ensures warns == old(warns)
      ensures old(NonNegative()) && amount >= 0 ==> NonNegative()
    {
      var k := Key(guild, user);
      if k !in xp {
        xp := xp[k := amount];
      } else {
        var newXp := xp[k] + amount;
        xp := xp[k := newXp];
      }
    }

    /** `get_user`: the stored xp, or 0 when there is no row. */
    method GetUser(user: UserId, guild: GuildId) returns (x: int)
      ensures Key(guild, user) in xp ==> x == xp[Key(guild, user)]
      ensures Key(guild, user) !in xp ==> x == 0
    {
      var k := Key(guild, user);
      x := if k in xp then xp[k] else 0;
    }

    /** `set_xp`: insert or overwrite the row with `amount`. */
    method SetXp(user: UserId, guild: GuildId, amount: int)
      modifies this
      ensures xp == old(xp)[Key(guild, user) := amount]
      ensures warns == old(warns)
      ensures old(NonNegative()) && amount >= 0 ==> NonNegative()
    {
      xp := xp[Key(guild, user) := amount];
    }

    /** `reset_user`: delete the row, so the user reads as 0 again. */
    method ResetUser(user: UserId, guild: GuildId)
      modifies this
      ensures xp == old(xp) - {Key(guild, user)}
      ensures warns == old(warns)
      ensures old(NonNegative()) ==> NonNegative()
    {
      xp := xp - {Key(guild, user)};
    }

    /**
     * `get_leaderboard`: the top `limit` rows of one guild by xp. The order
     * among rows with equal xp is whatever the database yields; this model
     * visits the keys in an arbitrary order.
     */
    method GetLeaderboard(guild: GuildId, limit: nat) returns (rows: seq<Row>)
      ensures IsLeaderboard(xp, guild, limit, rows)
    {
      var all: seq<Row> := [];
      var todo := xp.Keys;
      while todo != {}
        invariant todo <= xp.Keys
        invariant Collected(xp, guild, todo, all)
        decreases todo
      {
        var k :| k in todo;
        if k.guild == guild {
          CollectStep(xp, guild, todo, all, k);
          all := InsertByXp(all, Row(k.user, xp[k]));
        }
        todo := todo - {k};
      }
      rows := if |all| <= limit then all else all[..limit];
      TakeTop(xp, guild, limit, all);
    }

    /** `add_warn`: 1 for a new row, else the previous count plus one; the new count is stored and returned. */
    method AddWarn(user: UserId, guild: GuildId) returns (count: int)
      modifies this
      ensures count == Lookup(old(warns), Key(guild, user)) + 1
      ensures warns == old(warns)[Key(guild, user) := count]
      ensures xp == old(xp)
      ensures old(NonNegative()) ==> NonNegative() && count >= 1
    {
      var k := Key(guild, user);
      if k !in warns {
        warns := warns[k := 1];
        count := 1;
      } else {
        count := warns[k] + 1;
        warns := warns[k := count];
      }
    }

    /** `get_warns`: the stored count, or 0 when there is no row. */
    method GetWarns(user: UserId, guild: GuildId) returns (count: int)
      ensures count == Lookup(warns, Key(guild, user))
    {
      var k := Key(guild, user);
      count := if k in warns then warns[k] else 0;
    }

    /** `reset_warns`: delete the row, so the count reads as 0 again. */
    method ResetWarns(user: UserId, guild: GuildId)
      modifies this
      ensures warns == old(warns) - {Key(guild, user)}
      ensures xp == old(xp)
      ensures old(NonNegative()) ==> NonNegative()
    {
      warns := warns - {Key(guild, user)};
    }
  }

  // ---------------- store laws ----------------

  /** Two awards to one key add up, and no other key moves (e.g. 10 then 5 adds 15). */
  lemma AddsCompose(table: map<Key, int>, k: Key, a: int, b: int)
    ensures var once := table[k := Lookup(table, k) + a];
      once[k := Lookup(once, k) + b] == table[k := Lookup(table, k) + a + b]
  {
  }

  /** After an overwrite or a delete, the lookup reads exactly what was written, and every other key reads as before. */
  lemma WriteThenRead(table: map<Key, int>, k: Key, v: int, other: Key)
    requires other != k
    ensures Lookup(table[k := v], k) == v
    ensures Lookup(table - {k}, k) == 0
    ensures Lookup(table[k := v], other) == Lookup(table, other)
    ensures Lookup(table - {k}, other) == Lookup(table, other)
  {
  }
}
