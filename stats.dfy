/**
 * The statistics of the `vlog stats` subcommand: a fold over the window of
 * a guild's most recent rows (at most 1000 of them, newest first).
 */
module Stats {
  import opened Wrappers
  import opened Records
  import opened Text
  import opened Ordering

  /** `7 * 24 * 60 * 60 * 1000`: one week in milliseconds. */
  const WeekMs := 604800000
  const StatsWindow := 1000

  datatype Stats = Stats(
    total: nat,
    uniqueVerifiers: nat,
    uniqueVerified: nat,
    mostActive: Option<(string, nat)>,
    recent: nat,
    firstVerification: Option<string>)

  /** `new Set(logs.map(key)).size`. */
  function DistinctCount(logs: seq<VerificationLog>, key: VerificationLog -> string): (n: nat)
    ensures n <= |logs|
    ensures logs != [] ==> 1 <= n
  {
    ImageSize(logs, key);
    |set x | x in logs :: key(x)|
  }

  lemma {:induction false} ImageSize(logs: seq<VerificationLog>, key: VerificationLog -> string)
    ensures |set x | x in logs :: key(x)| <= |logs|
    ensures logs != [] ==> 1 <= |set x | x in logs :: key(x)|
  {
    if logs != [] {
      ImageSize(logs[1..], key);
      assert logs == [logs[0]] + logs[1..];
      assert (set x | x in logs :: key(x)) == {key(logs[0])} + (set x | x in logs[1..] :: key(x));
    }
  }

  /** The number of rows whose verifier username is `name`. */
  function Count(logs: seq<VerificationLog>, name: string): nat
  {
    if logs == [] then 0
    else (if logs[0].verifierUsername == name then 1 else 0) + Count(logs[1..], name)
  }

  /** `(acc[name] || 0)` */
  function Lookup(acc: map<string, nat>, name: string): nat
  {
    if name in acc then acc[name] else 0
  }

  /** The `reduce` that tallies rows per verifier username, starting from `acc`. */
  function TallyFrom(acc: map<string, nat>, logs: seq<VerificationLog>): map<string, nat>
    decreases |logs|
  {
    if logs == [] then acc
    else
      var name := logs[0].verifierUsername;
      TallyFrom(acc[name := Lookup(acc, name) + 1], logs[1..])
  }

  function Tally(logs: seq<VerificationLog>): map<string, nat>
  {
    TallyFrom(map[], logs)
  }

  lemma {:induction false} TallyFromCounts(acc: map<string, nat>, logs: seq<VerificationLog>, name: string)
    ensures Lookup(TallyFrom(acc, logs), name) == Lookup(acc, name) + Count(logs, name)
    ensures name in TallyFrom(acc, logs) <==> name in acc || Count(logs, name) > 0
    decreases |logs|
  {
    if logs != [] {
      var n := logs[0].verifierUsername;
      TallyFromCounts(acc[n := Lookup(acc, n) + 1], logs[1..], name);
    }
  }

  /** The tally holds exactly the usernames that occur, each with its row count. */
  lemma TallyCounts(logs: seq<VerificationLog>, name: string)
    ensures Lookup(Tally(logs), name) == Count(logs, name)
    ensures name in Tally(logs) <==> Count(logs, name) > 0
  {
    TallyFromCounts(map[], logs, name);
  }

  predicate Distinct(names: seq<string>)
  {
    forall i, j :: 0 <= i < j < |names| ==> names[i] != names[j]
  }

  /** The tally's keys in the order `Object.entries` lists them: first occurrence first. */
  function KeysFrom(seen: seq<string>, logs: seq<VerificationLog>): seq<string>
    decreases |logs|
  {
    if logs == [] then seen
    else
      var name := logs[0].verifierUsername;
      KeysFrom(if name in seen then seen else seen + [name], logs[1..])
  }

  function EntryKeys(logs: seq<VerificationLog>): seq<string>
  {
    KeysFrom([], logs)
  }

  lemma {:induction false} KeysFromProps(seen: seq<string>, logs: seq<VerificationLog>)
    requires Distinct(seen)
    ensures Distinct(KeysFrom(seen, logs))
    ensures forall name :: name in KeysFrom(seen, logs) <==> name in seen || Count(logs, name) > 0
    decreases |logs|
  {
    if logs != [] {
      var name := logs[0].verifierUsername;
      var next := if name in seen then seen else seen + [name];
      KeysFromProps(next, logs[1..]);
    }
  }

  lemma EntryKeysProps(logs: seq<VerificationLog>)
    ensures Distinct(EntryKeys(logs))
    ensures forall name :: name in EntryKeys(logs) <==> Count(logs, name) > 0
  {
    KeysFromProps([], logs);
  }

  /** The sum over `names` of each name's row count. */
  function SumCounts(logs: seq<VerificationLog>, names: seq<string>): nat
  {
    if names == [] then 0 else Count(logs, names[0]) + SumCounts(logs, names[1..])
  }

  function Occurrences(names: seq<string>, name: string): nat
  {
    if names == [] then 0 else (if names[0] == name then 1 else 0) + Occurrences(names[1..], name)
  }

  lemma {:induction false} OccursOnce(names: seq<string>, name: string)
    requires Distinct(names) && name in names
    ensures Occurrences(names, name) == 1
  {
    if names[0] != name {
      OccursOnce(names[1..], name);
    } else {
      NotOccurring(names[1..], name);
    }
  }

  lemma {:induction false} NotOccurring(names: seq<string>, name: string)
    requires name !in names
    ensures Occurrences(names, name) == 0
  {
    if names != [] {
      NotOccurring(names[1..], name);
    }
  }

  lemma {:induction false} SumCountsCons(x: VerificationLog, rest: seq<VerificationLog>, names: seq<string>)
    ensures SumCounts([x] + rest, names) == SumCounts(rest, names) + Occurrences(names, x.verifierUsername)
  {
    assert ([x] + rest)[1..] == rest;
    if names != [] {
      SumCountsCons(x, rest, names[1..]);
    }
  }

  /** Over any duplicate-free list of names that covers every username, the counts add up to the row count. */
  lemma {:induction false} SumCountsIsTotal(logs: seq<VerificationLog>, names: seq<string>)
    requires Distinct(names)
    requires forall x :: x in logs ==> x.verifierUsername in names
    ensures SumCounts(logs, names) == |logs|
  {
    if logs == [] {
      ZeroCounts(names);
    } else {
      assert logs == [logs[0]] + logs[1..];
      SumCountsCons(logs[0], logs[1..], names);
      OccursOnce(names, logs[0].verifierUsername);
      SumCountsIsTotal(logs[1..], names);
    }
  }

  lemma {:induction false} ZeroCounts(names: seq<string>)
    ensures SumCounts([], names) == 0
  {
    if names != [] {
      ZeroCounts(names[1..]);
    }
  }

  /** The per-username tallies, listed over the entries, sum to the number of rows. */
  lemma TallySumsToTotal(logs: seq<VerificationLog>)
    ensures SumCounts(logs, EntryKeys(logs)) == |logs|
  {
    EntryKeysProps(logs);
    forall x | x in logs
      ensures x.verifierUsername in EntryKeys(logs)
    {
      CountPositive(logs, x);
    }
    SumCountsIsTotal(logs, EntryKeys(logs));
  }

  lemma {:induction false} CountPositive(logs: seq<VerificationLog>, x: VerificationLog)
    requires x in logs
    ensures Count(logs, x.verifierUsername) > 0
  {
    if logs[0] != x {
      CountPositive(logs[1..], x);
    }
  }

  /**
   * The entry that a stable sort by descending count puts first: the
   * earliest name whose count is the largest.
   */
  function FirstMax(names: seq<string>, counts: map<string, nat>): (best: Option<(string, nat)>)
    ensures best.None? <==> names == []
    ensures best.Some? ==> best.value.0 in names && best.value.1 == Lookup(counts, best.value.0)
    ensures best.Some? ==> forall name :: name in names ==> Lookup(counts, name) <= best.value.1
    ensures best.Some? ==>
              exists i :: 0 <= i < |names| && names[i] == best.value.0 &&
                (forall j :: 0 <= j < i ==> Lookup(counts, names[j]) < best.value.1)
  {
    if names == [] then None
    else
      var rest := FirstMax(names[1..], counts);
      if rest.None? || Lookup(counts, names[0]) >= rest.value.1 then
        Some((names[0], Lookup(counts, names[0])))
      else
        LaterMax(names, counts, rest.value);
        rest
  }

  /** A strict maximum of `names[1..]` that beats `names[0]` is also the first maximum of `names`. */
  lemma LaterMax(names: seq<string>, counts: map<string, nat>, b: (string, nat))
    requires names != [] && Lookup(counts, names[0]) < b.1
    requires b.0 in names[1..]
    requires forall name :: name in names[1..] ==> Lookup(counts, name) <= b.1
    requires exists i :: 0 <= i < |names[1..]| && names[1..][i] == b.0 &&
               (forall j :: 0 <= j < i ==> Lookup(counts, names[1..][j]) < b.1)
    ensures b.0 in names
    ensures forall name :: name in names ==> Lookup(counts, name) <= b.1
    ensures exists i :: 0 <= i < |names| && names[i] == b.0 &&
              (forall j :: 0 <= j < i ==> Lookup(counts, names[j]) < b.1)
  {
    assert forall name :: name in names ==> name == names[0] || name in names[1..];
    var i :| 0 <= i < |names[1..]| && names[1..][i] == b.0 &&
             (forall j :: 0 <= j < i ==> Lookup(counts, names[1..][j]) < b.1);
    assert names[i + 1] == b.0;
    forall j | 0 <= j < i + 1
      ensures Lookup(counts, names[j]) < b.1
    {
      if j > 0 {
        assert names[j] == names[1..][j - 1];
      }
    }
  }

  /**
   * The most active verifier, keyed by username: its count is its row count
   * and no username has more rows.
   */
  function MostActive(logs: seq<VerificationLog>): (best: Option<(string, nat)>)
    ensures best.None? <==> logs == []
    ensures best.Some? ==> best.value.1 == Count(logs, best.value.0) && best.value.1 >= 1
    ensures best.Some? ==> forall name :: Count(logs, name) <= best.value.1
  {
    var keys := EntryKeys(logs);
    var tally := Tally(logs);
    EntryKeysProps(logs);
    assert logs != [] ==> logs[0].verifierUsername in keys by {
      if logs != [] { CountPositive(logs, logs[0]); }
    }
    var best := FirstMax(keys, tally);
    if best.None? then best
    else
      TallyCounts(logs, best.value.0);
      assert forall name :: Count(logs, name) <= best.value.1 by {
        forall name
          ensures Count(logs, name) <= best.value.1
        {
          TallyCounts(logs, name);
        }
      }
      best
  }

  /** `new Date(log.timestamp) > sevenDaysAgo`; an unparsable timestamp is never recent. */
  predicate IsRecent(log: VerificationLog, now: int, instant: string -> Option<int>)
  {
    var t := instant(log.timestamp);
    t.Some? && t.value > now - WeekMs
  }

  /** The `filter` of rows from the last seven days, in window order. */
  function Recent(logs: seq<VerificationLog>, now: int, instant: string -> Option<int>): (r: seq<VerificationLog>)
    ensures |r| <= |logs|
    ensures forall x :: multiset(r)[x] == if IsRecent(x, now, instant) then multiset(logs)[x] else 0
    ensures forall x :: x in r <==> x in logs && IsRecent(x, now, instant)
  {
    if logs == [] then []
    else
      assert logs == [logs[0]] + logs[1..];
      if IsRecent(logs[0], now, instant) then [logs[0]] + Recent(logs[1..], now, instant)
      else Recent(logs[1..], now, instant)
  }

  /**
   * The statistics of a window, or None for an empty window (the command
   * then replies that there is no data and computes nothing).
   */
  function Aggregate(window: seq<VerificationLog>, now: int, instant: string -> Option<int>): (r: Option<Stats>)
    ensures r.None? <==> window == []
    ensures r.Some? ==> r.value.total == |window|
    ensures r.Some? ==> 1 <= r.value.uniqueVerifiers <= r.value.total
    ensures r.Some? ==> 1 <= r.value.uniqueVerified <= r.value.total
    ensures r.Some? ==> r.value.recent <= r.value.total
    ensures r.Some? ==> r.value.mostActive.Some?
    ensures r.Some? ==> r.value.firstVerification == Some(window[|window| - 1].timestamp)
  {
    if window == [] then None
    else
      Some(Stats(
        |window|,
        DistinctCount(window, (x: VerificationLog) => x.verifierUserId),
        DistinctCount(window, (x: VerificationLog) => x.verifiedUserId),
        MostActive(window),
        |Recent(window, now, instant)|,
        Some(window[|window| - 1].timestamp)))
  }

  /** When the window is newest first, the first verification reported is the oldest one in it. */
  lemma FirstVerificationIsOldest(window: seq<VerificationLog>, now: int, instant: string -> Option<int>)
    requires SortedDesc(window) && window != []
    ensures forall x :: x in window ==>
              TextLe(Aggregate(window, now, instant).value.firstVerification.value, x.timestamp)
  {
    LastIsOldest(window);
  }

  /**
   * Two rows whose verifiers share a username but not an id count as two
   * distinct verifiers, yet as one most active verifier with two rows.
   */
  lemma MergedByUsername(a: VerificationLog, b: VerificationLog, now: int, instant: string -> Option<int>)
    requires a.verifierUsername == b.verifierUsername && a.verifierUserId != b.verifierUserId
    ensures Aggregate([a, b], now, instant).value.uniqueVerifiers == 2
    ensures Aggregate([a, b], now, instant).value.mostActive == Some((a.verifierUsername, 2))
  {
    PairVerifierIds(a, b);
    PairMostActive(a, b);
  }

  /** Two rows with different verifier ids give two distinct verifier ids. */
  lemma PairVerifierIds(a: VerificationLog, b: VerificationLog)
    requires a.verifierUserId != b.verifierUserId
    ensures DistinctCount([a, b], (x: VerificationLog) => x.verifierUserId) == 2
  {
    var key := (x: VerificationLog) => x.verifierUserId;
    assert key(a) in (set x | x in [a, b] :: key(x)) && key(b) in (set x | x in [a, b] :: key(x));
    assert forall x :: x in [a, b] ==> x == a || x == b;
    assert (set x | x in [a, b] :: key(x)) == {a.verifierUserId, b.verifierUserId};
  }

  /** Two rows with one verifier username make that username most active, with two rows. */
  lemma PairMostActive(a: VerificationLog, b: VerificationLog)
    requires a.verifierUsername == b.verifierUsername
    ensures MostActive([a, b]) == Some((a.verifierUsername, 2))
  {
    assert [a, b][1..] == [b] && [b][1..] == [];
    var name := a.verifierUsername;
    assert Count([a, b], name) == 1 + Count([b], name) == 2 + Count([], name);
    var best := MostActive([a, b]);
    assert Count([a, b], best.value.0) == Count([b], best.value.0) + (if name == best.value.0 then 1 else 0);
    assert Count([b], best.value.0) == (if name == best.value.0 then 1 else 0) + Count([], best.value.0);
  }
}
