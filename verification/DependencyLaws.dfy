/** Adding and removing dependencies in terms of the rows alone: when an edge comes and goes, and which request
    gets which answer. */
module DependencyLaws {
  import opened Schema
  import opened Graph
  import opened Operations
  import opened System
  import EL = EscalationLaws

  /** The ticket exists and is not soft-deleted. */
  predicate Present(s: State, id: int) {
    id in s.tickets && s.tickets[id].deleted == false
  }

  /** "t is blocked by b" may be written: two different, present tickets of one project, and t does not, directly
      or through others, block b. */
  ghost predicate MayBlock(s: State, t: int, b: int) {
    && t != b && Present(s, t) && Present(s, b)
    && s.tickets[t].project == s.tickets[b].project && !Reach(s.deps, b, t)
  }

  lemma OthersKeepEdges(s: State, op: Op)
    requires TicketInv(s) && !op.AddDependencyOp? && !op.RemoveDependencyOp?
    ensures Step(s, op).deps == s.deps
  {
    if op.EscalateOp? {
      EL.EscalateWhole(s, op.now);
    } else if op.ImportOp? {
      if op.records.Some? {
        ImportInv(s, op.js, op.records.value, op.project);
      }
    } else if LeavesTickets(op) {
      TicketsLeft(s, op);
    } else {
      TicketOpsKeepEdges(s, op);
    }
  }

  lemma TicketOpsKeepEdges(s: State, op: Op)
    requires op.CreateTicketOp? || op.PatchOp? || op.DeleteOp? || op.RestoreOp? || op.DeleteUserOp?
    ensures Step(s, op).deps == s.deps
  {
  }

  /** An edge appears in a step exactly when the step adds it, it may be written, and it was absent. */
  lemma EdgeAppears(s: State, op: Op, t: int, b: int)
    requires TicketInv(s)
    ensures (t, b) in Step(s, op).deps && (t, b) !in s.deps
       <==> op.AddDependencyOp? && op.t == t && op.b == b && (t, b) !in s.deps && MayBlock(s, t, b)
  {
    if !op.AddDependencyOp? && !op.RemoveDependencyOp? {
      OthersKeepEdges(s, op);
    }
  }

  /** An edge goes in a step exactly when the step removes it. */
  lemma EdgeDisappears(s: State, op: Op, t: int, b: int)
    requires TicketInv(s)
    ensures (t, b) in s.deps && (t, b) !in Step(s, op).deps
       <==> (t, b) in s.deps && op.RemoveDependencyOp? && op.t == t && op.b == b
  {
    if !op.AddDependencyOp? && !op.RemoveDependencyOp? {
      OthersKeepEdges(s, op);
    }
  }

  /** 400 for a ticket on itself, for two projects and for a cycle; 404 for a missing or soft-deleted ticket on
      either side; accepted, also for an edge that is there already, otherwise. */
  lemma AddAnswers(s: State, t: int, b: int, who: int)
    ensures var r := AddDependency(s, t, b, who).1;
            && (r == Err(NotFound) <==> t != b && !(Present(s, t) && Present(s, b)))
            && (r == Err(BadRequest) <==>
                  t == b || (Present(s, t) && Present(s, b)
                             && (s.tickets[t].project != s.tickets[b].project || Reach(s.deps, b, t))))
            && (r.Ok? <==> MayBlock(s, t, b))
  {
  }

  /** What an add writes: nothing when refused or there already, otherwise the edge and its entry. */
  lemma AddWrites(s: State, t: int, b: int, who: int)
    requires s.outages == []
    ensures AddDependency(s, t, b, who).0
         == if MayBlock(s, t, b) && (t, b) !in s.deps
            then s.(deps := s.deps + {(t, b)},
                    log := s.log + [Entry(CREATE, DEPENDENCY, t, Some(who), USER_ACTOR, DependencyRef(t, b))])
            else s
  {
  }

  /** A remove answers 404 exactly for an absent edge; otherwise the edge goes and its entry is logged. */
  lemma RemoveWrites(s: State, t: int, b: int, who: int)
    requires s.outages == []
    ensures RemoveDependency(s, t, b, who)
         == if (t, b) !in s.deps then (s, Err(NotFound))
            else (s.(deps := s.deps - {(t, b)},
                     log := s.log + [Entry(DELETE, DEPENDENCY, t, Some(who), USER_ACTOR, DependencyRef(t, b))]), Ok(()))
  {
  }
}
