/** Searching the audit log. */
module AuditRepository {
  import opened Schema
  import opened Sql
  import opened StatementBuilders
  import opened DatabaseModel

  /** The entries that pass every supplied filter, newest first. */
  function Matching(log: seq<Entry>, f: AuditFilter): seq<Entry> {
    if log == [] then []
    else
      var last := log[|log| - 1];
      (if Wanted(last, f) then [last] else []) + Matching(log[..|log| - 1], f)
  }

  /** The dynamic WHERE clause is run over the log from its newest entry down. */
  method Find(db: Database, f: AuditFilter) returns (rows: seq<Entry>)
    ensures rows == Matching(db.log, f)
  {
    var conditions, params := BuildFilter(f);
    rows := [];
    for i := 0 to |db.log|
      invariant rows == Matching(db.log[..i], f)
    {
      assert db.log[..i + 1][..i] == db.log[..i];
      if Selected(db.log[i], Bind(conditions, params)) {
        rows := [db.log[i]] + rows;
      }
    }
    assert db.log[..|db.log|] == db.log;
  }

  /** Exactly the entries of the log that agree with every supplied filter are listed. */
  lemma {:induction false} MatchingExactly(log: seq<Entry>, f: AuditFilter)
    ensures forall e :: e in Matching(log, f) <==>
              && e in log
              && (f.entityType == None || f.entityType == Some(e.entity))
              && (f.entityId == None || f.entityId == Some(e.entityId))
              && (f.action == None || f.action == Some(e.action))
              && (f.actor == None || f.actor == Some(e.actor))
    ensures |Matching(log, f)| <= |log|
  {
    if log != [] {
      MatchingExactly(log[..|log| - 1], f);
      assert log == log[..|log| - 1] + [log[|log| - 1]];
    }
  }

  /** The positions of the wanted entries, from the newest down. */
  function Positions(log: seq<Entry>, f: AuditFilter): seq<nat> {
    if log == [] then []
    else
      var n := |log| - 1;
      (if Wanted(log[n], f) then [n] else []) + Positions(log[..n], f)
  }

  lemma {:induction false} PositionsAreWanted(log: seq<Entry>, f: AuditFilter)
    ensures forall i: nat :: i in Positions(log, f) <==> i < |log| && Wanted(log[i], f)
  {
    if log != [] {
      var n := |log| - 1;
      PositionsAreWanted(log[..n], f);
      forall i: nat
        ensures i in Positions(log, f) <==> i < |log| && Wanted(log[i], f)
      {
        assert i in Positions(log, f) <==> (i == n && Wanted(log[n], f)) || i in Positions(log[..n], f);
      }
    }
  }

  lemma {:induction false} PositionsDecrease(log: seq<Entry>, f: AuditFilter)
    ensures forall k, l :: 0 <= k < l < |Positions(log, f)| ==> Positions(log, f)[k] > Positions(log, f)[l]
  {
    if log != [] {
      var n := |log| - 1;
      PositionsDecrease(log[..n], f);
      PositionsAreWanted(log[..n], f);
      forall k | 0 <= k < |Positions(log[..n], f)|
        ensures Positions(log[..n], f)[k] < n
      {
        assert Positions(log[..n], f)[k] in Positions(log[..n], f);
      }
    }
  }

  lemma {:induction false} PositionsMatch(log: seq<Entry>, f: AuditFilter)
    ensures |Positions(log, f)| == |Matching(log, f)|
    ensures forall k :: 0 <= k < |Positions(log, f)| ==>
              Positions(log, f)[k] < |log| && Matching(log, f)[k] == log[Positions(log, f)[k]]
  {
    if log != [] {
      PositionsMatch(log[..|log| - 1], f);
    }
  }

  /** The list runs through the positions of the entries that agree with every supplied filter, each once, from
      the newest down. */
  lemma MatchingInOrder(log: seq<Entry>, f: AuditFilter)
    ensures var at, rows := Positions(log, f), Matching(log, f);
            && |rows| == |at|
            && (forall k :: 0 <= k < |at| ==> at[k] < |log| && rows[k] == log[at[k]])
            && (forall k, l :: 0 <= k < l < |at| ==> at[k] > at[l])
            && (forall i: nat :: i in at <==>
                  && i < |log|
                  && (f.entityType == None || f.entityType == Some(log[i].entity))
                  && (f.entityId == None || f.entityId == Some(log[i].entityId))
                  && (f.action == None || f.action == Some(log[i].action))
                  && (f.actor == None || f.actor == Some(log[i].actor)))
  {
    PositionsAreWanted(log, f);
    PositionsDecrease(log, f);
    PositionsMatch(log, f);
  }
}
