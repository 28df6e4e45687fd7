/** pool of tools/link_gap_report.py (lines 395-414): the snapshots of many nodes in one
log, sorted by their times and pooled node by node.
*/
module NodePool {
  import opened NodeTotals
  import opened StableSort

  // ---------------------------------------------------------------------------
  // The order of time
  // ---------------------------------------------------------------------------

  function TimeOf(r: Record): real {
    r.at
  }

  /** By time, and in the order of the log where the time is the same. */
  function SortByTime(log: seq<Record>): seq<Record> {
    Sort(log, TimeOf)
  }

  /** Where times tell the records apart, the order of the log is forgotten: two logs of
  the same records are pooled from one and the same sequence. */
  lemma LogOrderIsForgotten(a: seq<Record>, b: seq<Record>)
    requires multiset(a) == multiset(b) && KeysTell(a, TimeOf)
    ensures SortByTime(a) == SortByTime(b)
  {
    OrderIsForgotten(a, b, TimeOf);
  }

  // ---------------------------------------------------------------------------
  // Node by node
  // ---------------------------------------------------------------------------

  // One node's records, in the order of the log.
  function Of(log: seq<Record>, host: string): seq<Record> {
    if log == [] then []
    else
      var init, r := Of(log[..|log| - 1], host), log[|log| - 1];
      if r.host == host then init + [r] else init
  }

  function PoolOne(records: seq<Record>): Totals {
    if records == [] then EMPTY else Add(PoolOne(records[..|records| - 1]), records[|records| - 1])
  }

  predicate Counts(log: seq<Record>, host: string) {
    exists i :: 0 <= i < |log| && log[i].host == host && log[i].watched.Some?
  }

  predicate Appears(log: seq<Record>, host: string) {
    exists i :: 0 <= i < |log| && log[i].host == host
  }

  lemma PoolNext(log: seq<Record>, r: Record, host: string)
    ensures PoolOne(Of(log + [r], host)) ==
            if r.host == host then Add(PoolOne(Of(log, host)), r) else PoolOne(Of(log, host))
  {
    assert (log + [r])[..|log|] == log;
    var mine := Of(log, host);
    assert (mine + [r])[..|mine|] == mine;
    hide Add;
  }

  lemma SeenNext(log: seq<Record>, r: Record, host: string)
    ensures Counts(log + [r], host) <==> Counts(log, host) || (r.host == host && r.watched.Some?)
    ensures Appears(log + [r], host) <==> Appears(log, host) || r.host == host
  {
    var more := log + [r];
    assert more[|log|] == r;
    if Counts(log, host) {
      var i :| 0 <= i < |log| && log[i].host == host && log[i].watched.Some?;
      assert more[i] == log[i];
    }
    if Appears(log, host) {
      var i :| 0 <= i < |log| && log[i].host == host;
      assert more[i] == log[i];
    }
  }

  lemma Advance(log: seq<Record>, r: Record)
    ensures forall h :: PoolOne(Of(log + [r], h)) ==
                        if r.host == h then Add(PoolOne(Of(log, h)), r) else PoolOne(Of(log, h))
    ensures forall h :: Counts(log + [r], h) <==> Counts(log, h) || (r.host == h && r.watched.Some?)
    ensures forall h :: Appears(log + [r], h) <==> Appears(log, h) || r.host == h
  {
    hide Add, PoolOne, Of, Counts, Appears;
    forall h
      ensures PoolOne(Of(log + [r], h)) == if r.host == h then Add(PoolOne(Of(log, h)), r) else PoolOne(Of(log, h))
      ensures Counts(log + [r], h) <==> Counts(log, h) || (r.host == h && r.watched.Some?)
      ensures Appears(log + [r], h) <==> Appears(log, h) || r.host == h
    {
      PoolNext(log, r, h);
      SeenNext(log, r, h);
    }
  }

  lemma Nothing()
    ensures forall h :: !Counts([], h) && !Appears([], h)
  {}

  // A node none of whose snapshots counts is as good as new.
  lemma {:induction false} SilentIsEmpty(log: seq<Record>, host: string)
    requires !Counts(log, host)
    ensures PoolOne(Of(log, host)) == EMPTY
  {
    if log == [] {
    } else {
      var init, r := log[..|log| - 1], log[|log| - 1];
      assert log == init + [r];
      SeenNext(init, r, host);
      SilentIsEmpty(init, host);
      PoolNext(init, r, host);
      AddNothing(PoolOne(Of(init, host)), r);
      hide Add, Of, PoolOne, Counts;
    }
  }

  predicate Distinct(hosts: seq<string>) {
    forall i, j :: 0 <= i < j < |hosts| ==> hosts[i] != hosts[j]
  }

  lemma SortKeepsHosts(log: seq<Record>, host: string)
    ensures Counts(SortByTime(log), host) == Counts(log, host)
    ensures Appears(SortByTime(log), host) == Appears(log, host)
  {
    SortSorts(log, TimeOf);
    SameHosts(log, SortByTime(log), host);
    SameHosts(SortByTime(log), log, host);
  }

  lemma SameHosts(a: seq<Record>, b: seq<Record>, host: string)
    requires multiset(a) == multiset(b)
    ensures Counts(a, host) ==> Counts(b, host)
    ensures Appears(a, host) ==> Appears(b, host)
  {
    if Appears(a, host) {
      var i :| 0 <= i < |a| && a[i].host == host;
      assert a[i] in multiset(b);
    }
    if Counts(a, host) {
      var i :| 0 <= i < |a| && a[i].host == host && a[i].watched.Some?;
      assert a[i] in multiset(b);
    }
  }

  /** Each node with a usable snapshot gets the totals of its own records in the order of
  time, whatever the others log in between; the nodes that only ever say nothing are
  listed apart. */
  method Pool(records: seq<Record>) returns (byHost: map<string, Totals>, quiet: seq<string>)
    ensures forall h :: h in byHost <==> Counts(records, h)
    ensures forall h :: h in byHost ==> byHost[h] == PoolOne(Of(SortByTime(records), h))
    ensures forall h :: h in quiet <==> Appears(records, h) && !Counts(records, h)
    ensures Distinct(quiet)
  {
    var log := SortByTime(records);
    forall h
      ensures Counts(log, h) == Counts(records, h) && Appears(log, h) == Appears(records, h)
    {
      SortKeepsHosts(records, h);
    }
    byHost, quiet := PoolSorted(log);
  }

  // The loop, over the log in the order of time.
  method PoolSorted(log: seq<Record>) returns (byHost: map<string, Totals>, quiet: seq<string>)
    ensures forall h :: h in byHost <==> Counts(log, h)
    ensures forall h :: h in byHost ==> byHost[h] == PoolOne(Of(log, h))
    ensures forall h :: h in quiet <==> Appears(log, h) && !Counts(log, h)
    ensures Distinct(quiet)
  {
    hide PoolOne, Of, Counts, Appears, Add;
    byHost := map[];
    Nothing();
    var silent: seq<string> := [];
    for n := 0 to |log|
      invariant forall h :: h in byHost <==> Counts(log[..n], h)
      invariant forall h :: h in byHost ==> byHost[h] == PoolOne(Of(log[..n], h))
      invariant forall h :: h in silent ==> Appears(log[..n], h)
      invariant forall h :: Appears(log[..n], h) ==> h in silent || Counts(log[..n], h)
      invariant Distinct(silent)
    {
      var record := log[n];
      var host := record.host;
      assert log[..n + 1] == log[..n] + [record];
      Advance(log[..n], record);
      if record.watched.None? {
        AddNothing(PoolOne(Of(log[..n], host)), record);
        if host !in silent {
          silent := silent + [host];
        }
      } else {
        if host !in byHost {
          SilentIsEmpty(log[..n], host);
          byHost := byHost[host := EMPTY];
        }
        byHost := byHost[host := Add(byHost[host], record)];
      }
    }
    assert log[..|log|] == log;
    quiet := Without(silent, byHost.Keys);
  }

  function Without(hosts: seq<string>, gone: set<string>): (left: seq<string>)
    ensures forall h :: h in left <==> h in hosts && h !in gone
    ensures Distinct(hosts) ==> Distinct(left)
  {
    if hosts == [] then []
    else
      var init, h := Without(hosts[..|hosts| - 1], gone), hosts[|hosts| - 1];
      assert hosts == hosts[..|hosts| - 1] + [h];
      if h in gone then init else init + [h]
  }

  function Records(obs: seq<Observation>): (records: seq<Record>)
    ensures |records| == |obs|
  {
    if obs == [] then [] else Records(obs[..|obs| - 1]) + [obs[|obs| - 1].record]
  }

  // What is proved of a node's run of snapshots is so of its share of the pool.
  lemma {:induction false} PoolIsRun(obs: seq<Observation>)
    ensures PoolOne(Records(obs)) == Run(obs)
  {
    if obs == [] {
    } else {
      PoolIsRun(obs[..|obs| - 1]);
      assert Records(obs)[..|obs| - 1] == Records(obs[..|obs| - 1]);
      hide Add;
    }
  }

  /** In a log of many nodes, no node's pooled count exceeds what it truly counted. */
  lemma PoolNeverTooMuch(records: seq<Record>, host: string, obs: seq<Observation>, f: Field,
                         final: nat -> real, boots: nat)
    requires Of(SortByTime(records), host) == Records(obs)
    requires Honest(obs, f) && Honest(obs, WATCHED) && IsFinal(obs, f, final)
    requires forall i :: 0 <= i < |obs| ==> obs[i].boot < boots
    ensures Pooled(PoolOne(Of(SortByTime(records), host)), f) <= Total(final, boots)
  {
    PoolIsRun(obs);
    NeverTooMuch(obs, f, final, boots);
  }
}
