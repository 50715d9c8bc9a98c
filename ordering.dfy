/**
 * The store's query `SELECT * FROM verification_logs WHERE guild_id = ?
 * ORDER BY timestamp DESC LIMIT ?`, as functions on the sequence of rows.
 * Rows with equal timestamps may come back in any order; IsQueryResult says
 * what every admissible answer satisfies, and Query is one such answer.
 */
module Ordering {
  import opened Records
  import opened Text

  /** Newest first: timestamps never increase, compared as text. */
  predicate SortedDesc(s: seq<VerificationLog>)
  {
    forall i, j :: 0 <= i < j < |s| ==> TextLe(s[j].timestamp, s[i].timestamp)
  }

  /** The WHERE clause: the rows of one guild, in storage order. */
  function Scoped(rows: seq<VerificationLog>, guildId: string): (r: seq<VerificationLog>)
    ensures forall x :: x in r ==> x.guildId == guildId
    ensures forall x: VerificationLog :: x.guildId == guildId ==> multiset(r)[x] == multiset(rows)[x]
  {
    if rows == [] then []
    else
      assert rows == [rows[0]] + rows[1..];
      if rows[0].guildId == guildId then [rows[0]] + Scoped(rows[1..], guildId)
      else Scoped(rows[1..], guildId)
  }

  /** The LIMIT clause: a negative limit means no bound at all. */
  function Cap(limit: int, available: nat): nat
  {
    if limit < 0 || limit > available then available else limit
  }

  function InsertDesc(x: VerificationLog, s: seq<VerificationLog>): seq<VerificationLog>
  {
    if s == [] then [x]
    else if TextLe(s[0].timestamp, x.timestamp) then [x] + s
    else [s[0]] + InsertDesc(x, s[1..])
  }

  function SortDesc(s: seq<VerificationLog>): seq<VerificationLog>
  {
    if s == [] then [] else InsertDesc(s[0], SortDesc(s[1..]))
  }

  /** A row no older than every row of a newest-first list can go in front of it. */
  lemma ConsSorted(x: VerificationLog, s: seq<VerificationLog>)
    requires SortedDesc(s)
    requires forall y :: y in s ==> TextLe(y.timestamp, x.timestamp)
    ensures SortedDesc([x] + s)
  {
    var r := [x] + s;
    forall i, j | 0 <= i < j < |r|
      ensures TextLe(r[j].timestamp, r[i].timestamp)
    {
      assert r[j] == s[j - 1];
      if i > 0 {
        assert r[i] == s[i - 1];
      }
    }
  }

  /** The rows of `s[1..]` plus `x` are all no newer than the head of a newest-first `s`. */
  lemma TailNoNewer(x: VerificationLog, s: seq<VerificationLog>, t: seq<VerificationLog>)
    requires SortedDesc(s) && s != []
    requires TextLe(x.timestamp, s[0].timestamp)
    requires multiset(t) == multiset(s[1..]) + multiset{x}
    ensures forall y :: y in t ==> TextLe(y.timestamp, s[0].timestamp)
  {
    forall y | y in t
      ensures TextLe(y.timestamp, s[0].timestamp)
    {
      assert y in multiset(t);
      if y != x {
        assert y in multiset(s[1..]);
        var k :| 0 <= k < |s[1..]| && s[1..][k] == y;
        assert s[k + 1] == y;
      }
    }
  }

  lemma {:induction false} InsertDescSorted(x: VerificationLog, s: seq<VerificationLog>)
    requires SortedDesc(s)
    ensures SortedDesc(InsertDesc(x, s))
    ensures multiset(InsertDesc(x, s)) == multiset(s) + multiset{x}
  {
    if s == [] {
    } else if TextLe(s[0].timestamp, x.timestamp) {
      forall y | y in s
        ensures TextLe(y.timestamp, x.timestamp)
      {
        var j :| 0 <= j < |s| && s[j] == y;
        if j > 0 {
          TextLeTransitive(s[j].timestamp, s[0].timestamp, x.timestamp);
        }
      }
      ConsSorted(x, s);
    } else {
      TextLeTotal(s[0].timestamp, x.timestamp);
      var tail := InsertDesc(x, s[1..]);
      InsertDescSorted(x, s[1..]);
      TailNoNewer(x, s, tail);
      ConsSorted(s[0], tail);
      assert s == [s[0]] + s[1..];
    }
  }

  lemma {:induction false} SortDescSorted(s: seq<VerificationLog>)
    ensures SortedDesc(SortDesc(s))
    ensures multiset(SortDesc(s)) == multiset(s)
  {
    if s != [] {
      SortDescSorted(s[1..]);
      InsertDescSorted(s[0], SortDesc(s[1..]));
      assert s == [s[0]] + s[1..];
    }
  }

  /**
   * What every answer to the query satisfies: rows of the guild only, taken
   * from the stored rows, newest first, as many as the limit allows, and
   * no row of the guild that was left out is newer than one returned.
   */
  predicate IsQueryResult(rows: seq<VerificationLog>, guildId: string, limit: int, r: seq<VerificationLog>)
  {
    && (forall x :: x in r ==> x.guildId == guildId)
    && multiset(r) <= multiset(Scoped(rows, guildId))
    && SortedDesc(r)
    && |r| == Cap(limit, |Scoped(rows, guildId)|)
    && (forall x, y :: x in multiset(Scoped(rows, guildId)) - multiset(r) && y in r ==>
          TextLe(x.timestamp, y.timestamp))
  }

  /** One admissible answer: the guild's rows sorted newest first, cut at the limit. */
  function Query(rows: seq<VerificationLog>, guildId: string, limit: int): seq<VerificationLog>
  {
    var sorted := SortDesc(Scoped(rows, guildId));
    SortDescSorted(Scoped(rows, guildId));
    assert |sorted| == |multiset(sorted)| == |Scoped(rows, guildId)|;
    sorted[..Cap(limit, |Scoped(rows, guildId)|)]
  }

  /** Cutting a newest-first sequence keeps the newest rows and leaves out only older ones. */
  lemma {:induction false} PrefixKeepsNewest(s: seq<VerificationLog>, k: nat)
    requires SortedDesc(s) && k <= |s|
    ensures SortedDesc(s[..k])
    ensures multiset(s[..k]) <= multiset(s)
    ensures forall x, y :: x in multiset(s) - multiset(s[..k]) && y in s[..k] ==>
              TextLe(x.timestamp, y.timestamp)
  {
    var r := s[..k];
    assert s == r + s[k..];
    assert multiset(s) == multiset(r) + multiset(s[k..]);
    forall x, y | x in multiset(s) - multiset(r) && y in r
      ensures TextLe(x.timestamp, y.timestamp)
    {
      assert x in multiset(s[k..]);
      var j :| 0 <= j < |s[k..]| && s[k..][j] == x;
      var i :| 0 <= i < |r| && r[i] == y;
      assert s[i] == y && s[k + j] == x;
    }
  }

  lemma QueryIsAdmissible(rows: seq<VerificationLog>, guildId: string, limit: int)
    ensures IsQueryResult(rows, guildId, limit, Query(rows, guildId, limit))
  {
    var scoped := Scoped(rows, guildId);
    var sorted := SortDesc(scoped);
    SortDescSorted(scoped);
    assert |sorted| == |multiset(sorted)| == |scoped|;
    var k := Cap(limit, |scoped|);
    var r := sorted[..k];
    assert r == Query(rows, guildId, limit);
    PrefixKeepsNewest(sorted, k);
    forall x | x in r
      ensures x.guildId == guildId
    {
      assert x in multiset(scoped);
    }
  }

  /** Under newest-first order the last row has the smallest timestamp. */
  lemma LastIsOldest(s: seq<VerificationLog>)
    requires SortedDesc(s) && s != []
    ensures forall x :: x in s ==> TextLe(s[|s| - 1].timestamp, x.timestamp)
  {
    TextLeReflexive(s[|s| - 1].timestamp);
  }
}
