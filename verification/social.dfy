/**
 * The social layer: the activity streak, a character's leaderboard rank
 * and the leaderboard itself (public characters ordered by level, then
 * xp, numbered from 1, with defaults for missing profile fields).
 */
module Social {
  import opened Wrappers

  // ---------------------------------------------------------------------
  // Activity streak
  // ---------------------------------------------------------------------

  /** The first `n` days each lie exactly one day before the one ahead of them. */
  predicate Consecutive(days: seq<int>, n: nat)
    requires n <= |days|
  {
    forall i :: 0 < i < n ==> days[i] == days[i - 1] - 1
  }

  /**
   * `calculate_streak` over the distinct activity days, most recent first
   * (days as day numbers, `today` passed in): 0 when there is no activity
   * or the latest day is neither today nor yesterday; otherwise the length
   * of the longest run of consecutive days at the front of the list.
   */
  method CalculateStreak(days: seq<int>, today: int) returns (streak: nat)
    ensures |days| == 0 ==> streak == 0
    ensures |days| > 0 && days[0] != today && days[0] != today - 1 ==> streak == 0
    ensures |days| > 0 && (days[0] == today || days[0] == today - 1) ==>
              && 1 <= streak <= |days|
              && Consecutive(days, streak)
              && (streak < |days| ==> days[streak] != days[streak - 1] - 1)
  {
    if |days| == 0 {
      return 0;
    }
    if days[0] != today && days[0] != today - 1 {
      return 0;
    }
    streak := 1;
    var current := days[0];
    for i := 1 to |days|
      invariant streak == i && current == days[i - 1]
      invariant Consecutive(days, i)
    {
      if days[i] == current - 1 {
        streak := streak + 1;
        current := days[i];
      } else {
        break;
      }
    }
  }

  /** A run followed by a gap (or by the end of the list) is the longest run at the front. */
  lemma StreakIsLongestRun(days: seq<int>, n: nat)
    requires 1 <= n <= |days|
    requires Consecutive(days, n) && (n < |days| ==> days[n] != days[n - 1] - 1)
    ensures forall m :: n < m <= |days| ==> !Consecutive(days, m)
    ensures forall m :: 0 <= m <= n ==> Consecutive(days, m)
  {
    forall m | n < m <= |days|
      ensures !Consecutive(days, m)
    {
      assert days[n] != days[n - 1] - 1;
    }
  }

  // ---------------------------------------------------------------------
  // Characters as the leaderboard query sees them
  // ---------------------------------------------------------------------

  /**
   * A character row joined with its user: the nullable profile columns are
   * options, `isPublic` is the `public_profile` flag, and `hasUser` says
   * whether the character's `user_id` matches a user row (the username and
   * creation time come from that row).
   */
  datatype Profile = Profile(
    id: int, name: string, level: int, xp: int, gold: int,
    characterClass: Option<string>, avatarId: Option<int>, colorTheme: Option<string>,
    totalQuests: Option<int>, totalMonsters: Option<int>,
    username: string, createdAt: string, isPublic: bool, hasUser: bool)

  /** `p` is a public character strictly ahead of (level, xp): higher level, or same level and more xp. */
  predicate Ahead(p: Profile, level: int, xp: int)
  {
    p.isPublic && (p.level > level || (p.level == level && p.xp > xp))
  }

  /** The number of characters in `ps` strictly ahead of (level, xp). */
  function CountAhead(ps: seq<Profile>, level: int, xp: int): nat
  {
    if |ps| == 0 then 0
    else (if Ahead(ps[0], level, xp) then 1 else 0) + CountAhead(ps[1..], level, xp)
  }

  /** The first character with the given id, if any. */
  function FindProfile(ps: seq<Profile>, id: int): (r: Option<Profile>)
    ensures r.None? <==> forall i :: 0 <= i < |ps| ==> ps[i].id != id
    ensures r.Some? ==> r.value.id == id
    ensures r.Some? ==> exists i :: 0 <= i < |ps| && ps[i] == r.value && forall j :: 0 <= j < i ==> ps[j].id != id
  {
    if |ps| == 0 then None
    else if ps[0].id == id then Some(ps[0])
    else
      var r := FindProfile(ps[1..], id);
      assert forall i :: 1 <= i < |ps| ==> ps[i] == ps[1..][i - 1];
      if r.Some? then
        var i :| 0 <= i < |ps[1..]| && ps[1..][i] == r.value && forall j :: 0 <= j < i ==> ps[1..][j].id != id;
        assert ps[i + 1] == r.value && forall j :: 0 <= j < i + 1 ==> ps[j].id != id;
        r
      else r
  }

  /**
   * `get_user_rank`: 0 for an unknown id, otherwise one plus the number of
   * public characters strictly ahead of it (the character itself may be
   * private).
   */
  function UserRank(ps: seq<Profile>, id: int): (rank: nat)
    ensures rank == 0 <==> forall i :: 0 <= i < |ps| ==> ps[i].id != id
  {
    match FindProfile(ps, id)
    case None => 0
    case Some(p) => 1 + CountAhead(ps, p.level, p.xp)
  }

  // ---------------------------------------------------------------------
  // The leaderboard query
  // ---------------------------------------------------------------------

  /** `a` sorts no later than `b` under ORDER BY level DESC, xp DESC. */
  predicate AtLeastAsHigh(a: Profile, b: Profile)
  {
    a.level > b.level || (a.level == b.level && a.xp >= b.xp)
  }

  predicate SortedDesc(s: seq<Profile>)
  {
    forall i, j :: 0 <= i < j < |s| ==> AtLeastAsHigh(s[i], s[j])
  }

  /**
   * A row the leaderboard query can return: the character is public and
   * the inner join with the user table finds its user.
   */
  predicate Listed(p: Profile)
  {
    p.isPublic && p.hasUser
  }

  /**
   * The joined, filtered rows in table order: each listed row of the table
   * as many times as it occurs there, and nothing else.
   */
  function ListedRows(ps: seq<Profile>): (r: seq<Profile>)
    ensures forall i :: 0 <= i < |r| ==> Listed(r[i])
    ensures forall p :: multiset(r)[p] == if Listed(p) then multiset(ps)[p] else 0
  {
    if |ps| == 0 then []
    else
      assert ps == [ps[0]] + ps[1..];
      if Listed(ps[0]) then [ps[0]] + ListedRows(ps[1..]) else ListedRows(ps[1..])
  }

  function Insert(p: Profile, s: seq<Profile>): (r: seq<Profile>)
    requires SortedDesc(s)
    ensures SortedDesc(r)
    ensures multiset(r) == multiset(s) + multiset{p}
  {
    if |s| == 0 then [p]
    else if AtLeastAsHigh(p, s[0]) then
      [p] + s
    else
      var t := Insert(p, s[1..]);
      InsertBehindHead(p, s, t);
      [s[0]] + t
  }

  /** Putting the old head in front of the insertion into the tail keeps the order. */
  lemma InsertBehindHead(p: Profile, s: seq<Profile>, t: seq<Profile>)
    requires |s| > 0 && SortedDesc(s) && !AtLeastAsHigh(p, s[0])
    requires SortedDesc(t) && multiset(t) == multiset(s[1..]) + multiset{p}
    ensures SortedDesc([s[0]] + t)
    ensures multiset([s[0]] + t) == multiset(s) + multiset{p}
  {
    forall j | 0 <= j < |t|
      ensures AtLeastAsHigh(s[0], t[j])
    {
      assert t[j] in multiset(t);
      if t[j] != p {
        assert t[j] in multiset(s[1..]);
        var k :| 0 <= k < |s[1..]| && s[1..][k] == t[j];
        assert s[k + 1] == t[j];
      }
    }
    var r := [s[0]] + t;
    forall i, j | 0 <= i < j < |r|
      ensures AtLeastAsHigh(r[i], r[j])
    {
      if i > 0 {
        assert r[i] == t[i - 1] && r[j] == t[j - 1];
      } else {
        assert r[j] == t[j - 1];
      }
    }
    assert s == [s[0]] + s[1..];
  }

  /** ORDER BY level DESC, xp DESC; among ties the model fixes one order. */
  function SortDesc(s: seq<Profile>): (r: seq<Profile>)
    ensures SortedDesc(r)
    ensures multiset(r) == multiset(s)
  {
    if |s| == 0 then []
    else
      assert s == [s[0]] + s[1..];
      Insert(s[0], SortDesc(s[1..]))
  }

  /** LIMIT: a negative limit means no limit (SQLite). */
  function Limit(s: seq<Profile>, limit: int): (r: seq<Profile>)
    ensures |r| == if 0 <= limit < |s| then limit else |s|
    ensures r == s[..|r|]
  {
    if limit < 0 || limit >= |s| then s else s[..limit]
  }

  /** The rows the leaderboard query returns: listed characters, ordered, limited. */
  function TopPublic(ps: seq<Profile>, limit: int): seq<Profile>
  {
    Limit(SortDesc(ListedRows(ps)), limit)
  }

  /**
   * The query's rows are sorted by level then xp and are listed rows of the
   * table. There are min(limit, number of listed rows) of them, or all
   * listed rows when the limit is negative, and no listed row left out is
   * higher than any row returned: they are the top ones.
   */
  lemma TopPublicSpec(ps: seq<Profile>, limit: int)
    ensures var rows := TopPublic(ps, limit);
            && SortedDesc(rows)
            && (forall i :: 0 <= i < |rows| ==> Listed(rows[i]))
            && multiset(rows) <= multiset(ps)
            && (0 <= limit ==> |rows| == if limit < |ListedRows(ps)| then limit else |ListedRows(ps)|)
            && (limit < 0 ==> multiset(rows) == multiset(ListedRows(ps)))
            && (forall i, p :: 0 <= i < |rows| && p in multiset(ListedRows(ps)) - multiset(rows) ==>
                  AtLeastAsHigh(rows[i], p))
  {
    var listed := ListedRows(ps);
    var sorted := SortDesc(listed);
    var rows := Limit(sorted, limit);
    PrefixSubMultiset(sorted, |rows|);
    assert rows == sorted[..|rows|];
    assert |sorted| == |multiset(sorted)| == |multiset(listed)| == |listed|;
    forall i | 0 <= i < |rows|
      ensures Listed(rows[i])
    {
      assert rows[i] == sorted[i];
      assert sorted[i] in multiset(listed);
      var k :| 0 <= k < |listed| && listed[k] == sorted[i];
    }
    assert multiset(listed) <= multiset(ps);
    PrefixAboveRest(sorted, |rows|);
  }

  /** In a sorted list, every row of a prefix is at least as high as every row after it. */
  lemma PrefixAboveRest(s: seq<Profile>, n: nat)
    requires SortedDesc(s) && n <= |s|
    ensures forall i, p :: 0 <= i < n && p in multiset(s) - multiset(s[..n]) ==> AtLeastAsHigh(s[i], p)
  {
    assert s == s[..n] + s[n..];
    assert multiset(s) - multiset(s[..n]) == multiset(s[n..]);
    forall i, p | 0 <= i < n && p in multiset(s) - multiset(s[..n])
      ensures AtLeastAsHigh(s[i], p)
    {
      assert p in multiset(s[n..]);
      var j :| 0 <= j < |s[n..]| && s[n..][j] == p;
      assert s[n + j] == p;
    }
  }

  lemma PrefixSubMultiset(s: seq<Profile>, n: nat)
    requires n <= |s|
    ensures multiset(s[..n]) <= multiset(s)
    ensures forall i :: 0 <= i < n ==> s[..n][i] == s[i]
  {
    assert s == s[..n] + s[n..];
  }

  // ---------------------------------------------------------------------
  // Leaderboard entries
  // ---------------------------------------------------------------------

  datatype Entry = Entry(
    rank: nat, characterId: int, name: string, level: int, xp: int, gold: int,
    characterClass: string, avatarId: int, colorTheme: string,
    totalQuests: int, totalMonsters: int, username: string, createdAt: string)

  /** Python's `value or default` on a nullable text column: None and '' are falsy. */
  function TextOr(v: Option<string>, default: string): (r: string)
    ensures v.Some? && v.value != "" ==> r == v.value
    ensures v.None? || v.value == "" ==> r == default
  {
    if v.Some? && v.value != "" then v.value else default
  }

  /** Python's `value or default` on a nullable integer column: None and 0 are falsy. */
  function NumberOr(v: Option<int>, default: int): (r: int)
    ensures v.Some? && v.value != 0 ==> r == v.value
    ensures v.None? || v.value == 0 ==> r == default
  {
    if v.Some? && v.value != 0 then v.value else default
  }

  /** One leaderboard row built from a query row. */
  function EntryFor(rank: nat, p: Profile): Entry
  {
    Entry(rank, p.id, p.name, p.level, p.xp, p.gold,
          TextOr(p.characterClass, "Warrior"), NumberOr(p.avatarId, 1), TextOr(p.colorTheme, "orange"),
          NumberOr(p.totalQuests, 0), NumberOr(p.totalMonsters, 0), p.username, p.createdAt)
  }

  /**
   * A leaderboard row carries the given rank and the character's columns,
   * with the defaults 'Warrior', avatar 1, theme 'orange' and 0 counts for
   * missing profile fields.
   */
  lemma EntryDefaults(rank: nat, p: Profile)
    ensures var e := EntryFor(rank, p);
            && e.rank == rank && e.characterId == p.id && e.name == p.name && e.username == p.username
            && e.level == p.level && e.xp == p.xp && e.gold == p.gold && e.createdAt == p.createdAt
            && (p.characterClass.None? || p.characterClass == Some("") ==> e.characterClass == "Warrior")
            && (p.characterClass.Some? && p.characterClass.value != "" ==> e.characterClass == p.characterClass.value)
            && (p.avatarId.None? || p.avatarId == Some(0) ==> e.avatarId == 1)
            && (p.avatarId.Some? && p.avatarId.value != 0 ==> e.avatarId == p.avatarId.value)
            && (p.colorTheme.None? || p.colorTheme == Some("") ==> e.colorTheme == "orange")
            && (p.colorTheme.Some? && p.colorTheme.value != "" ==> e.colorTheme == p.colorTheme.value)
            && (p.totalQuests.None? ==> e.totalQuests == 0)
            && (p.totalQuests.Some? ==> e.totalQuests == p.totalQuests.value)
            && (p.totalMonsters.None? ==> e.totalMonsters == 0)
            && (p.totalMonsters.Some? ==> e.totalMonsters == p.totalMonsters.value)
  {
  }

  /** Rows turned into entries ranked from 1 in order. */
  function Numbered(rows: seq<Profile>): (board: seq<Entry>)
    ensures |board| == |rows| && forall i :: 0 <= i < |board| ==> board[i] == EntryFor(i + 1, rows[i])
  {
    seq(|rows|, i requires 0 <= i < |rows| => EntryFor(i + 1, rows[i]))
  }

  /** The leaderboard: the query's rows turned into entries ranked from 1 in output order. */
  function Leaderboard(ps: seq<Profile>, limit: int): (board: seq<Entry>)
    ensures var rows := TopPublic(ps, limit);
            |board| == |rows| && forall i :: 0 <= i < |board| ==> board[i] == EntryFor(i + 1, rows[i])
  {
    Numbered(TopPublic(ps, limit))
  }

  /**
   * The leaderboard carries ranks 1..n in output order and is ordered by
   * level then xp. It holds min(limit, number of listed characters) entries
   * (all of them for a negative limit), each a listed character of the
   * table.
   */
  lemma LeaderboardSpec(ps: seq<Profile>, limit: int)
    ensures var board := Leaderboard(ps, limit);
            && (forall i :: 0 <= i < |board| ==> board[i].rank == i + 1)
            && (forall i, j :: 0 <= i < j < |board| ==>
                  board[i].level > board[j].level || (board[i].level == board[j].level && board[i].xp >= board[j].xp))
            && (0 <= limit ==> |board| == if limit < |ListedRows(ps)| then limit else |ListedRows(ps)|)
            && (limit < 0 ==> |board| == |ListedRows(ps)|)
            && (forall i :: 0 <= i < |board| ==>
                  exists k :: 0 <= k < |ps| && Listed(ps[k]) && ps[k].id == board[i].characterId)
  {
    var board := Leaderboard(ps, limit);
    var rows := TopPublic(ps, limit);
    TopPublicSpec(ps, limit);
    forall i, j | 0 <= i < j < |board|
      ensures board[i].level > board[j].level || (board[i].level == board[j].level && board[i].xp >= board[j].xp)
    {
      assert AtLeastAsHigh(rows[i], rows[j]);
    }
    forall i | 0 <= i < |board|
      ensures exists k :: 0 <= k < |ps| && Listed(ps[k]) && ps[k].id == board[i].characterId
    {
      assert rows[i] in multiset(rows);
      assert rows[i] in multiset(ps);
      var k :| 0 <= k < |ps| && ps[k] == rows[i];
      assert Listed(rows[i]);
    }
    if limit < 0 {
      assert |rows| == |multiset(rows)| == |multiset(ListedRows(ps))| == |ListedRows(ps)|;
    }
  }

  /** No listed character left off the leaderboard is higher than any entry on it. */
  lemma LeaderboardIsTop(ps: seq<Profile>, limit: int)
    ensures var board := Leaderboard(ps, limit);
            forall i, p :: 0 <= i < |board| && p in multiset(ListedRows(ps)) - multiset(TopPublic(ps, limit)) ==>
              board[i].level > p.level || (board[i].level == p.level && board[i].xp >= p.xp)
  {
    var board := Leaderboard(ps, limit);
    var rows := TopPublic(ps, limit);
    TopPublicSpec(ps, limit);
    forall i, p | 0 <= i < |board| && p in multiset(ListedRows(ps)) - multiset(rows)
      ensures board[i].level > p.level || (board[i].level == p.level && board[i].xp >= p.xp)
    {
      assert AtLeastAsHigh(rows[i], p);
    }
  }

  /** `get_leaderboard`: runs the query, then numbers its rows from 1. */
  method GetLeaderboard(ps: seq<Profile>, limit: int) returns (board: seq<Entry>)
    ensures board == Leaderboard(ps, limit)
  {
    board := NumberRows(TopPublic(ps, limit));
  }

  /** The `enumerate(rows, 1)` loop: the i-th row becomes the entry ranked i+1, appended in order. */
  method NumberRows(rows: seq<Profile>) returns (board: seq<Entry>)
    ensures board == Numbered(rows)
  {
    board := [];
    for idx := 0 to |rows|
      invariant |board| == idx
      invariant forall i :: 0 <= i < idx ==> board[i] == EntryFor(i + 1, rows[i])
    {
      board := board + [EntryFor(idx + 1, rows[idx])];
    }
  }

  // ---------------------------------------------------------------------
  // Rank versus leaderboard position
  // ---------------------------------------------------------------------

  lemma {:induction false} CountAheadAppend(a: seq<Profile>, b: seq<Profile>, level: int, xp: int)
    ensures CountAhead(a + b, level, xp) == CountAhead(a, level, xp) + CountAhead(b, level, xp)
  {
    if |a| == 0 {
      assert a + b == b;
    } else {
      assert (a + b)[1..] == a[1..] + b;
      CountAheadAppend(a[1..], b, level, xp);
    }
  }

  /** Removing row `k` removes exactly one occurrence of it. */
  lemma RemoveAt(b: seq<Profile>, k: nat)
    requires k < |b|
    ensures multiset(b[..k] + b[k + 1..]) == multiset(b) - multiset{b[k]}
  {
    assert b == b[..k] + [b[k]] + b[k + 1..];
    assert multiset(b) == multiset(b[..k]) + multiset{b[k]} + multiset(b[k + 1..]);
  }

  /** Taking row `k` out of the rows lowers the count by its own contribution. */
  lemma CountAheadRemove(b: seq<Profile>, k: nat, level: int, xp: int)
    requires k < |b|
    ensures CountAhead(b, level, xp)
         == CountAhead(b[..k] + b[k + 1..], level, xp) + (if Ahead(b[k], level, xp) then 1 else 0)
  {
    var tail := [b[k]] + b[k + 1..];
    assert b == b[..k] + tail;
    assert tail[1..] == b[k + 1..];
    CountAheadAppend(b[..k], tail, level, xp);
    CountAheadAppend(b[..k], b[k + 1..], level, xp);
  }

  /** The count does not depend on the order of the rows. */
  lemma {:induction false} CountAheadPermutation(a: seq<Profile>, b: seq<Profile>, level: int, xp: int)
    requires multiset(a) == multiset(b)
    ensures CountAhead(a, level, xp) == CountAhead(b, level, xp)
    decreases |a|
  {
    if |a| == 0 {
      assert |b| == |multiset(b)| == 0;
    } else {
      assert a[0] in multiset(b);
      var k :| 0 <= k < |b| && b[k] == a[0];
      RemoveAt(b, k);
      assert a == [a[0]] + a[1..];
      assert multiset(a[1..]) == multiset(a) - multiset{a[0]};
      CountAheadPermutation(a[1..], b[..k] + b[k + 1..], level, xp);
      CountAheadRemove(b, k, level, xp);
    }
  }

  /** Every public character has a user row, so the leaderboard's join drops none of them. */
  predicate EveryPublicHasUser(ps: seq<Profile>)
  {
    forall i :: 0 <= i < |ps| && ps[i].isPublic ==> ps[i].hasUser
  }

  /**
   * The rank counts every public character ahead, the leaderboard only the
   * listed ones: the listed rows never count more, and count the same when
   * every public character has a user row (private rows never count).
   */
  lemma {:induction false} CountAheadListed(ps: seq<Profile>, level: int, xp: int)
    ensures CountAhead(ListedRows(ps), level, xp) <= CountAhead(ps, level, xp)
    ensures EveryPublicHasUser(ps) ==> CountAhead(ListedRows(ps), level, xp) == CountAhead(ps, level, xp)
  {
    if |ps| > 0 {
      CountAheadListed(ps[1..], level, xp);
      if Listed(ps[0]) {
        assert ([ps[0]] + ListedRows(ps[1..]))[1..] == ListedRows(ps[1..]);
      }
      if EveryPublicHasUser(ps) {
        assert forall i :: 0 <= i < |ps[1..]| ==> ps[1..][i] == ps[i + 1];
      }
    }
  }

  lemma {:induction false} CountAheadAtMostLength(s: seq<Profile>, level: int, xp: int)
    ensures CountAhead(s, level, xp) <= |s|
    ensures (forall i :: 0 <= i < |s| ==> Ahead(s[i], level, xp)) ==> CountAhead(s, level, xp) == |s|
    ensures (forall i :: 0 <= i < |s| ==> !Ahead(s[i], level, xp)) ==> CountAhead(s, level, xp) == 0
  {
    if |s| > 0 {
      CountAheadAtMostLength(s[1..], level, xp);
    }
  }

  /**
   * In rows sorted by level then xp, the rows strictly ahead of row `k`
   * all come before it: at most `k` of them, and exactly `k` when none of
   * the earlier rows ties with it.
   */
  lemma CountAheadInSorted(s: seq<Profile>, k: nat)
    requires SortedDesc(s) && k < |s|
    requires forall i :: 0 <= i < |s| ==> s[i].isPublic
    ensures CountAhead(s, s[k].level, s[k].xp) <= k
    ensures (forall j :: 0 <= j < k ==> s[j].level != s[k].level || s[j].xp != s[k].xp) ==>
              CountAhead(s, s[k].level, s[k].xp) == k
  {
    var level, xp := s[k].level, s[k].xp;
    assert s == s[..k] + s[k..];
    CountAheadAppend(s[..k], s[k..], level, xp);
    forall i | 0 <= i < |s[k..]|
      ensures !Ahead(s[k..][i], level, xp)
    {
      assert s[k..][i] == s[k + i];
      if i > 0 {
        assert AtLeastAsHigh(s[k], s[k + i]);
      }
    }
    CountAheadAtMostLength(s[k..], level, xp);
    CountAheadAtMostLength(s[..k], level, xp);
    if forall j :: 0 <= j < k ==> s[j].level != s[k].level || s[j].xp != s[k].xp {
      forall j | 0 <= j < k
        ensures Ahead(s[..k][j], level, xp)
      {
        assert s[..k][j] == s[j];
        assert AtLeastAsHigh(s[j], s[k]);
      }
    }
  }

  /**
   * With unique character ids, a leaderboard entry with no tie above it has
   * a `get_user_rank` no smaller than its leaderboard rank. The rank also
   * counts public characters the leaderboard's join drops (no user row), so
   * it can be larger; when every public character has a user the rank never
   * exceeds the leaderboard rank, and the two agree up to ties.
   */
  lemma RankMatchesLeaderboard(ps: seq<Profile>, limit: int, k: nat)
    requires forall i, j :: 0 <= i < j < |ps| ==> ps[i].id != ps[j].id
    requires k < |Leaderboard(ps, limit)|
    ensures var board := Leaderboard(ps, limit);
            (forall j :: 0 <= j < k ==> board[j].level != board[k].level || board[j].xp != board[k].xp) ==>
              UserRank(ps, board[k].characterId) >= board[k].rank
    ensures var board := Leaderboard(ps, limit);
            EveryPublicHasUser(ps) ==> UserRank(ps, board[k].characterId) <= board[k].rank
    ensures var board := Leaderboard(ps, limit);
            EveryPublicHasUser(ps) && (forall j :: 0 <= j < k ==> board[j].level != board[k].level || board[j].xp != board[k].xp) ==>
              UserRank(ps, board[k].characterId) == board[k].rank
  {
    var board := Leaderboard(ps, limit);
    var rows := TopPublic(ps, limit);
    var p := rows[k];
    assert board[k] == EntryFor(k + 1, p);
    TopRowAhead(ps, limit, k);
    RankOfRow(ps, p);
    CountAheadListed(ps, p.level, p.xp);
    forall j | 0 <= j < k
      ensures board[j].level == rows[j].level && board[j].xp == rows[j].xp
    {
      assert board[j] == EntryFor(j + 1, rows[j]);
    }
  }

  /** A character that is in the table is ranked one past those ahead of it. */
  lemma RankOfRow(ps: seq<Profile>, p: Profile)
    requires forall i, j :: 0 <= i < j < |ps| ==> ps[i].id != ps[j].id
    requires p in multiset(ps)
    ensures UserRank(ps, p.id) == 1 + CountAhead(ps, p.level, p.xp)
  {
    var idx :| 0 <= idx < |ps| && ps[idx] == p;
    var found := FindProfile(ps, p.id);
    assert found == Some(p) by {
      var i :| 0 <= i < |ps| && ps[i] == found.value && forall j :: 0 <= j < i ==> ps[j].id != p.id;
      assert i == idx;
    }
  }

  /**
   * Among the listed characters, at most k are ahead of the k-th row of
   * the top list, and exactly k when no earlier row ties with it.
   */
  lemma TopRowAhead(ps: seq<Profile>, limit: int, k: nat)
    requires k < |TopPublic(ps, limit)|
    ensures var rows := TopPublic(ps, limit);
            && rows[k] in multiset(ps)
            && CountAhead(ListedRows(ps), rows[k].level, rows[k].xp) <= k
    ensures var rows := TopPublic(ps, limit);
            (forall j :: 0 <= j < k ==> rows[j].level != rows[k].level || rows[j].xp != rows[k].xp) ==>
              CountAhead(ListedRows(ps), rows[k].level, rows[k].xp) == k
  {
    var pub := ListedRows(ps);
    var sorted := SortDesc(pub);
    var rows := TopPublic(ps, limit);
    PrefixSubMultiset(sorted, |rows|);
    assert rows == sorted[..|rows|];
    var p := rows[k];
    assert p == sorted[k];
    assert p in multiset(sorted);
    CountAheadPermutation(sorted, pub, p.level, p.xp);
    forall i | 0 <= i < |sorted|
      ensures sorted[i].isPublic
    {
      assert sorted[i] in multiset(pub);
      assert Listed(sorted[i]);
    }
    CountAheadInSorted(sorted, k);
  }

  /**
   * The divergence made concrete: a public level-10 character with no user
   * row is left off the leaderboard, which puts a level-5 character at
   * leaderboard rank 1 while `get_user_rank` still gives it rank 2.
   */
  lemma UserlessCharacterSkewsRank()
    ensures var userless := Profile(1, "A", 10, 0, 0, None, None, None, None, None, "", "", true, false);
            var listed := Profile(2, "B", 5, 0, 0, None, None, None, None, None, "b", "", true, true);
            var board := Leaderboard([userless, listed], 100);
            && |board| == 1 && board[0].characterId == 2 && board[0].rank == 1
            && UserRank([userless, listed], 2) == 2
  {
    var userless := Profile(1, "A", 10, 0, 0, None, None, None, None, None, "", "", true, false);
    var listed := Profile(2, "B", 5, 0, 0, None, None, None, None, None, "b", "", true, true);
    var ps := [userless, listed];
    assert ps[1..] == [listed] && [listed][1..] == [];
    assert ListedRows(ps) == [listed];
    assert SortDesc([listed]) == [listed];
    assert TopPublic(ps, 100) == [listed];
    assert FindProfile(ps, 2) == Some(listed);
    assert CountAhead([listed], 5, 0) == 0 by {
      assert !Ahead(listed, 5, 0);
    }
    assert CountAhead(ps, 5, 0) == 1;
  }
}
