/**
 * The order `sort_values(["team", "date"])` puts the long table in: by team
 * name (Python compares strings code point by code point), then by date.
 * Modelled as a stable insertion sort; pandas does not promise an order
 * among rows with the same team and date, and nothing proved elsewhere
 * depends on that order.
 */
module TeamOrder {
  import opened Tables

  /** Lexicographic `<` on strings. */
  predicate StrLt(a: string, b: string)
  {
    if |a| == 0 then |b| > 0
    else |b| > 0 && (a[0] < b[0] || (a[0] == b[0] && StrLt(a[1..], b[1..])))
  }

  lemma {:induction false} StrLtIrreflexive(a: string)
    ensures !StrLt(a, a)
  {
    if |a| > 0 {
      StrLtIrreflexive(a[1..]);
    }
  }

  lemma {:induction false} StrLtTrichotomy(a: string, b: string)
    ensures a == b || StrLt(a, b) || StrLt(b, a)
  {
    if |a| > 0 && |b| > 0 && a[0] == b[0] {
      StrLtTrichotomy(a[1..], b[1..]);
      if a[1..] == b[1..] {
        assert a == [a[0]] + a[1..] && b == [b[0]] + b[1..];
      }
    }
  }

  lemma {:induction false} StrLtTransitive(a: string, b: string, c: string)
    requires StrLt(a, b) && StrLt(b, c)
    ensures StrLt(a, c)
  {
    if |a| > 0 && a[0] == b[0] && b[0] == c[0] {
      StrLtTransitive(a[1..], b[1..], c[1..]);
    }
  }

  /** `x` may come before `y` in the sorted long table. */
  predicate KeyLe(x: TeamEvent, y: TeamEvent)
  {
    StrLt(x.team, y.team) || (x.team == y.team && x.game.date <= y.game.date)
  }

  lemma KeyLeTotal(x: TeamEvent, y: TeamEvent)
    ensures KeyLe(x, y) || KeyLe(y, x)
  {
    StrLtTrichotomy(x.team, y.team);
  }

  lemma KeyLeTransitive(x: TeamEvent, y: TeamEvent, z: TeamEvent)
    requires KeyLe(x, y) && KeyLe(y, z)
    ensures KeyLe(x, z)
  {
    if StrLt(x.team, y.team) && StrLt(y.team, z.team) {
      StrLtTransitive(x.team, y.team, z.team);
    }
  }

  ghost predicate SortedByTeamDate(s: seq<TeamEvent>)
  {
    forall i, j :: 0 <= i < j < |s| ==> KeyLe(s[i], s[j])
  }

  /** Puts `x` in front of the first element it may precede. */
  function Insert(x: TeamEvent, s: seq<TeamEvent>): (r: seq<TeamEvent>)
    ensures multiset(r) == multiset(s) + multiset{x}
  {
    if s == [] then [x]
    else if KeyLe(x, s[0]) then [x] + s
    else
      assert s == [s[0]] + s[1..];
      [s[0]] + Insert(x, s[1..])
  }

  function SortByTeamDate(s: seq<TeamEvent>): (r: seq<TeamEvent>)
    ensures multiset(r) == multiset(s)
    ensures |r| == |s|
  {
    if s == [] then []
    else
      assert s == [s[0]] + s[1..];
      Insert(s[0], SortByTeamDate(s[1..]))
  }

  lemma {:induction false} InsertSorted(x: TeamEvent, s: seq<TeamEvent>)
    requires SortedByTeamDate(s)
    ensures SortedByTeamDate(Insert(x, s))
  {
    if s == [] {
    } else if KeyLe(x, s[0]) {
      var r := [x] + s;
      forall i, j | 0 <= i < j < |r| ensures KeyLe(r[i], r[j]) {
        assert r[j] == s[j - 1];
        if i > 0 {
          assert r[i] == s[i - 1];
        } else if j > 1 {
          KeyLeTransitive(x, s[0], s[j - 1]);
        }
      }
    } else {
      KeyLeTotal(x, s[0]);
      InsertSorted(x, s[1..]);
      var t := Insert(x, s[1..]);
      forall k | 0 <= k < |t| ensures KeyLe(s[0], t[k]) {
        assert t[k] in multiset(t);
        if t[k] != x {
          assert t[k] in multiset(s[1..]);
          var m :| 0 <= m < |s[1..]| && s[1..][m] == t[k];
          assert s[m + 1] == t[k];
        }
      }
      var r := [s[0]] + t;
      forall i, j | 0 <= i < j < |r| ensures KeyLe(r[i], r[j]) {
        assert r[j] == t[j - 1];
        if i > 0 {
          assert r[i] == t[i - 1];
        }
      }
    }
  }

  /** The sorted table is in (team, date) order and a permutation of its input. */
  lemma {:induction false} SortByTeamDateSorted(s: seq<TeamEvent>)
    ensures SortedByTeamDate(SortByTeamDate(s))
    ensures multiset(SortByTeamDate(s)) == multiset(s)
  {
    if s != [] {
      SortByTeamDateSorted(s[1..]);
      InsertSorted(s[0], SortByTeamDate(s[1..]));
    }
  }

  /** Within one team, the sorted table is chronological. */
  lemma SortedTeamChronological(s: seq<TeamEvent>, i: nat, j: nat)
    requires SortedByTeamDate(s)
    requires i < j < |s| && s[i].team == s[j].team
    ensures s[i].game.date <= s[j].game.date
  {
    assert KeyLe(s[i], s[j]);
    StrLtIrreflexive(s[i].team);
  }
}
