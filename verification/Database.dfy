/** The database as one mutable object: its tables, id sequences, audit outages, and at most one open
    transaction. */
module DatabaseModel {
  import opened Schema
  import opened TicketTable

  class Database {
    var tickets: map<int, Ticket>
    var nextTicket: nat
    var deps: set<(int, int)>
    var users: map<int, User>
    var nextUser: nat
    var projects: set<int>
    var comments: map<int, Comment>
    var nextComment: nat
    var mentions: set<(int, int)>
    var log: seq<Entry>
    var outages: seq<bool>

    /** The state to return to when the open transaction rolls back. */
    var undo: Option<State>

    /** The number of transaction statements that still succeed before one raises; None for no failure. */
    var failAt: Option<nat>

    /** The escalation statements of this process that found their row, each with its id. */
    ghost var applied: seq<(int, Escalation)>

    constructor (outages: seq<bool>)
      ensures Snapshot() == EMPTY_STATE.(outages := outages) && undo.None? && failAt.None?
    {
      tickets, nextTicket, deps, users, nextUser, projects := map[], 1, {}, map[], 1, {};
      comments, nextComment, mentions, log := map[], 1, {}, [];
      this.outages := outages;
      undo, failAt, applied := None, None, [];
    }

    function Snapshot(): State
      reads this
    {
      State(tickets, nextTicket, deps, users, nextUser, projects, comments, nextComment, mentions, log, outages)
    }

    /** AuditRepository.insert on the pool: it raises while an outage is due. */
    method InsertAudit(e: Entry) returns (ok: bool)
      modifies this`log, this`outages
      ensures ok == (old(outages) == [] || !old(outages)[0])
      ensures log == if ok then old(log) + [e] else old(log)
      ensures outages == if old(outages) == [] then [] else old(outages)[1..]
    {
      ok := outages == [] || !outages[0];
      if ok {
        log := log + [e];
      }
      if outages != [] {
        outages := outages[1..];
      }
    }

    /** AuditService.log: a failed insert is reported to the logger only. */
    method Log(e: Entry)
      modifies this`log, this`outages
      ensures Snapshot() == Logged(old(Snapshot()), e)
    {
      var _ := InsertAudit(e);
    }

    // ----- transactions -----

    /** One statement of the open transaction reaches the server, or raises. */
    method Statement() returns (ok: bool)
      modifies this`failAt
      ensures ok == (old(failAt) != Some(0))
      ensures failAt == if old(failAt).Some? && ok then Some(old(failAt).value - 1) else None
    {
      ok := failAt != Some(0);
      failAt := if failAt.Some? && ok then Some(failAt.value - 1) else None;
    }

    method Begin()
      modifies this`undo
      ensures undo == Some(Snapshot())
    {
      undo := Some(Snapshot());
    }

    method Commit()
      modifies this`undo
      ensures undo.None?
    {
      undo := None;
    }

    /** All tables return to their state at BEGIN; id sequences keep the ids they handed out. */
    method Rollback()
      modifies this
      ensures undo.None?
      ensures old(undo).None? ==> Snapshot() == old(Snapshot())
      ensures old(undo).Some? ==>
        Snapshot() == old(undo).value.(nextTicket := old(nextTicket), nextUser := old(nextUser),
                                       nextComment := old(nextComment), outages := old(outages))
    {
      if undo.Some? {
        var u := undo.value;
        tickets, deps, users, projects := u.tickets, u.deps, u.users, u.projects;
        comments, mentions, log := u.comments, u.mentions, u.log;
      }
      undo := None;
    }

    /** Other clients run while this one awaits: anything may have changed but what this one has done. */
    method Interference()
      modifies this
      ensures applied == old(applied)
    {
    }
  }

  /** Rows of an unordered SELECT come back in some order, each once. */
  method Enumerate(s: set<int>) returns (xs: seq<int>)
    ensures forall x :: x in s <==> x in xs
    ensures forall i, j :: 0 <= i < j < |xs| ==> xs[i] != xs[j]
  {
    xs := [];
    var rest := s;
    while exists x :: x in rest
      invariant rest <= s
      invariant forall x :: x in s <==> x in rest || x in xs
      invariant forall x :: x in xs ==> x !in rest
      invariant forall i, j :: 0 <= i < j < |xs| ==> xs[i] != xs[j]
      decreases rest
    {
      var x :| x in rest;
      xs := xs + [x];
      rest := rest - {x};
    }
  }
}
