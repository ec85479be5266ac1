/** Auto-assignment over many creates: a bound on the largest load, preserved balance, round robin. */
module Assignment {
  import opened Schema
  import opened TicketTable
  import opened Operations
  import opened System

  // ----- loads of a fixed team -----

  /** All developers, each once, in registration order. */
  ghost predicate TeamList(users: map<int, User>, team: seq<int>) {
    && (forall i :: 0 <= i < |team| ==> IsDeveloper(users, team[i]))
    && (forall u :: IsDeveloper(users, u) ==> u in team)
    && (forall i, j :: 0 <= i < j < |team| ==>
          team[i] != team[j] && users[team[i]].createdAt <= users[team[j]].createdAt)
  }

  function Loads(s: State, project: int, team: seq<int>): (loads: seq<nat>)
    ensures |loads| == |team|
    ensures forall i :: 0 <= i < |team| ==> loads[i] == Load(s.tickets, project, team[i], s.nextTicket)
  {
    seq(|team|, i requires 0 <= i < |team| => Load(s.tickets, project, team[i], s.nextTicket))
  }

  function Sum(loads: seq<nat>): nat {
    if loads == [] then 0 else Sum(loads[..|loads| - 1]) + loads[|loads| - 1]
  }

  ghost predicate AtMost(loads: seq<nat>, bound: nat) {
    forall i :: 0 <= i < |loads| ==> loads[i] <= bound
  }

  /** Any two loads differ by at most one. */
  ghost predicate Balanced(loads: seq<nat>) {
    forall i, j :: 0 <= i < |loads| && 0 <= j < |loads| ==> loads[i] <= loads[j] + 1
  }

  // ----- one auto-assigned create -----

  /** A create in the project without assignee and not DONE. */
  ghost predicate AutoCreate(op: Op, project: int) {
    op.CreateTicketOp? && op.dto.project == project && op.dto.assignee.None? && op.dto.status != Some(DONE)
  }

  lemma NewTicketLoad(s: State, row: Ticket, project: int, user: int)
    requires 0 < s.nextTicket
    ensures var after := InsertTicket(s, row);
            Load(after.tickets, project, user, after.nextTicket)
            == Load(s.tickets, project, user, s.nextTicket) + if Counts(row, project, user) then 1 else 0
  {
    LoadFrame(InsertTicket(s, row).tickets, s.tickets, project, user, s.nextTicket);
  }

  lemma AutoCreateResult(s: State, op: Op, project: int)
    requires AutoCreate(op, project) && project in s.projects && op.pick.Some?
    ensures var row, after := NewRow(op.dto.(assignee := op.pick)), Step(s, op);
            && row.assignee == op.pick && row.project == project && row.status != DONE && !row.deleted
            && after.tickets == InsertTicket(s, row).tickets && after.nextTicket == s.nextTicket + 1
            && after.users == s.users && after.projects == s.projects
  {
  }

  /** A legal pick is in the team, has a least load, and was registered first among those. */
  lemma PickIsLeast(s: State, project: int, team: seq<int>, pick: Option<int>) returns (i: nat)
    requires TeamList(s.users, team) && team != [] && LegalPick(s, project, pick)
    ensures i < |team| && pick == Some(team[i])
    ensures LeastAndFirst(Loads(s, project, team), s.users, team, i)
  {
    assert IsDeveloper(s.users, team[0]);
    i :| 0 <= i < |team| && team[i] == pick.value;
    assert forall j :: 0 <= j < |team| ==> IsDeveloper(s.users, team[j]);
  }

  /** The chosen developer has a least load, was registered first among those, and gains one ticket. */
  lemma AutoCreateStep(s: State, op: Op, project: int, team: seq<int>) returns (i: nat)
    requires TicketInv(s) && project in s.projects && TeamList(s.users, team) && team != []
    requires AutoCreate(op, project) && LegalPick(s, project, op.pick)
    ensures i < |team| && op.pick == Some(team[i])
    ensures LeastAndFirst(Loads(s, project, team), s.users, team, i)
    ensures Loads(Step(s, op), project, team) == Loads(s, project, team)[i := Loads(s, project, team)[i] + 1]
    ensures Step(s, op).users == s.users && Step(s, op).projects == s.projects
  {
    i := PickIsLeast(s, project, team, op.pick);
    AutoCreateResult(s, op, project);
    LoadsAfterInsert(s, NewRow(op.dto.(assignee := op.pick)), project, team, i);
  }

  lemma LoadsAfterInsert(s: State, row: Ticket, project: int, team: seq<int>, i: nat)
    requires 0 < s.nextTicket && i < |team| && Counts(row, project, team[i])
    requires forall j, k :: 0 <= j < k < |team| ==> team[j] != team[k]
    ensures Loads(InsertTicket(s, row), project, team) == Loads(s, project, team)[i := Loads(s, project, team)[i] + 1]
  {
    forall j | 0 <= j < |team|
      ensures Loads(InsertTicket(s, row), project, team)[j] == Loads(s, project, team)[j] + if j == i then 1 else 0
    {
      NewTicketLoad(s, row, project, team[j]);
    }
  }

  /** team[i] has a least load and nobody with the same load registered earlier. */
  ghost predicate LeastAndFirst(loads: seq<nat>, users: map<int, User>, team: seq<int>, i: nat) {
    && i < |team| == |loads|
    && (forall j :: 0 <= j < |team| ==> team[j] in users)
    && (forall j :: 0 <= j < |loads| ==> loads[i] <= loads[j])
    && (forall j :: 0 <= j < |loads| && loads[j] == loads[i] ==> users[team[i]].createdAt <= users[team[j]].createdAt)
  }

  // ----- arithmetic -----

  lemma {:induction false} SumIncrement(loads: seq<nat>, i: nat)
    requires i < |loads|
    ensures Sum(loads[i := loads[i] + 1]) == Sum(loads) + 1
  {
    var last, next := |loads| - 1, loads[i := loads[i] + 1];
    if i < last {
      SumIncrement(loads[..last], i);
      assert next[..last] == loads[..last][i := loads[i] + 1];
    } else {
      assert next[..last] == loads[..last];
    }
  }

  lemma {:induction false} SumAtLeast(loads: seq<nat>, least: nat)
    requires forall j :: 0 <= j < |loads| ==> least <= loads[j]
    ensures least * |loads| <= Sum(loads)
  {
    if loads != [] {
      SumAtLeast(loads[..|loads| - 1], least);
    }
  }

  function CeilDiv(a: nat, k: nat): nat
    requires k > 0
  {
    (a + k - 1) / k
  }

  lemma DivAtLeast(q: nat, a: nat, k: nat)
    requires k > 0 && q * k <= a
    ensures q <= a / k
  {
    assert a < (a / k + 1) * k;
    assert q * k < (a / k + 1) * k;
  }

  lemma CeilDivMonotone(a: nat, b: nat, k: nat)
    requires k > 0 && a <= b
    ensures CeilDiv(a, k) <= CeilDiv(b, k)
  {
    var q := CeilDiv(a, k);
    assert q * k <= a + k - 1;
    DivAtLeast(q, b + k - 1, k);
  }

  lemma DivModUnique(a: nat, k: nat, q: nat, r: nat)
    requires k > 0 && a == q * k + r && r < k
    ensures a / k == q && a % k == r
  {
    DivAtLeast(q, a, k);
    var p := a / k;
    assert p * k <= a < (q + 1) * k;
  }

  // ----- runs of creates -----

  /** A legal run of auto-assigned creates in one project, from a sound state with a fixed team. */
  ghost predicate CreateRun(s: State, ops: seq<Op>, project: int, team: seq<int>) {
    && TicketInv(s) && project in s.projects && TeamList(s.users, team) && team != []
    && Legal(s, ops) && forall i :: 0 <= i < |ops| ==> AutoCreate(ops[i], project)
  }

  lemma {:induction false} CreateRunFrame(s: State, ops: seq<Op>, project: int, team: seq<int>)
    requires CreateRun(s, ops, project, team)
    ensures var after := Run(s, ops);
            TicketInv(after) && after.users == s.users && after.projects == s.projects
  {
    RunInv(s, ops);
    if ops != [] {
      var earlier := ops[..|ops| - 1];
      CreateRunFrame(s, earlier, project, team);
      var i := AutoCreateStep(Run(s, earlier), ops[|ops| - 1], project, team);
    }
  }

  /** The larger of the initial maximum and the average load rounded up. */
  function LoadBound(initialMax: nat, total: nat, k: nat): nat
    requires k > 0
  {
    if initialMax > CeilDiv(total, k) then initialMax else CeilDiv(total, k)
  }

  lemma LeastPlusOne(least: nat, total: nat, k: nat)
    requires k > 0 && least * k <= total
    ensures least + 1 <= CeilDiv(total + 1, k)
  {
    assert (least + 1) * k == least * k + k;
    DivAtLeast(least + 1, total + 1 + k - 1, k);
  }

  lemma GreedyStep(loads: seq<nat>, i: nat, initialMax: nat)
    requires i < |loads| && forall j :: 0 <= j < |loads| ==> loads[i] <= loads[j]
    requires AtMost(loads, LoadBound(initialMax, Sum(loads), |loads|))
    ensures var next := loads[i := loads[i] + 1];
            Sum(next) == Sum(loads) + 1 && AtMost(next, LoadBound(initialMax, Sum(loads) + 1, |loads|))
  {
    SumIncrement(loads, i);
    SumAtLeast(loads, loads[i]);
    LeastPlusOne(loads[i], Sum(loads), |loads|);
    CeilDivMonotone(Sum(loads), Sum(loads) + 1, |loads|);
  }

  /** Loads after n creates dealt out in turn from equal loads. */
  ghost predicate DealtOut(loads: seq<nat>, start: nat, n: nat) {
    |loads| > 0 && forall j :: 0 <= j < |loads| ==>
      loads[j] == start + n / |loads| + if j < n % |loads| then 1 else 0
  }

  lemma DealNext(loads: seq<nat>, start: nat, n: nat, i: nat)
    requires DealtOut(loads, start, n) && i == n % |loads|
    ensures DealtOut(loads[i := loads[i] + 1], start, n + 1)
  {
    var k, q := |loads|, n / |loads|;
    assert n == q * k + i;
    if i + 1 < k {
      DivModUnique(n + 1, k, q, i + 1);
    } else {
      assert n + 1 == (q + 1) * k + 0;
      DivModUnique(n + 1, k, q + 1, 0);
    }
  }

  /** Among dealt-out loads, the earliest of the least loaded is the next in turn. */
  lemma FirstOfLeast(loads: seq<nat>, start: nat, n: nat, i: nat, users: map<int, User>, team: seq<int>)
    requires DealtOut(loads, start, n) && LeastAndFirst(loads, users, team, i)
    requires forall a, b :: 0 <= a < b < |team| ==> users[team[a]].createdAt < users[team[b]].createdAt
    ensures i == n % |loads|
  {
    var r := n % |loads|;
    assert loads[i] <= loads[r] == start + n / |loads|;
    assert i >= r && loads[i] == loads[r];
    assert users[team[i]].createdAt <= users[team[r]].createdAt;
  }

  // ----- greedy traces -----

  /** Load vectors where each step increments a least entry. */
  ghost predicate GreedyTrace(trace: seq<seq<nat>>, picks: seq<nat>) {
    |trace| == |picks| + 1
    && forall n :: 0 <= n < |picks| ==> GreedyMove(trace[n], picks[n], trace[n + 1])
  }

  ghost predicate GreedyMove(loads: seq<nat>, i: nat, next: seq<nat>) {
    i < |loads| && next == loads[i := loads[i] + 1] && forall j :: 0 <= j < |loads| ==> loads[i] <= loads[j]
  }

  /** n tickets were dealt out, and no load exceeds the larger of the initial maximum and the average
      rounded up. */
  ghost predicate WithinBound(initial: seq<nat>, n: nat, final: seq<nat>, initialMax: nat)
    requires initial != []
  {
    Sum(final) == Sum(initial) + n && AtMost(final, LoadBound(initialMax, Sum(initial) + n, |initial|))
  }

  lemma {:induction false} TraceBound(trace: seq<seq<nat>>, picks: seq<nat>, initialMax: nat)
    requires GreedyTrace(trace, picks) && trace[0] != [] && AtMost(trace[0], initialMax)
    ensures |trace[|picks|]| == |trace[0]| && WithinBound(trace[0], |picks|, trace[|picks|], initialMax)
  {
    if picks != [] {
      var n := |picks| - 1;
      TraceBound(trace[..n + 1], picks[..n], initialMax);
      assert GreedyMove(trace[n], picks[n], trace[n + 1]);
      GreedyStep(trace[n], picks[n], initialMax);
    }
  }

  lemma {:induction false} TraceBalanced(trace: seq<seq<nat>>, picks: seq<nat>)
    requires GreedyTrace(trace, picks) && Balanced(trace[0])
    ensures Balanced(trace[|picks|])
  {
    if picks != [] {
      var n := |picks| - 1;
      TraceBalanced(trace[..n + 1], picks[..n]);
      assert GreedyMove(trace[n], picks[n], trace[n + 1]);
    }
  }

  lemma {:induction false} TraceInTurn(trace: seq<seq<nat>>, picks: seq<nat>, start: nat, users: map<int, User>,
                                       team: seq<int>)
    requires GreedyTrace(trace, picks) && DealtOut(trace[0], start, 0)
    requires forall n :: 0 <= n < |picks| ==> LeastAndFirst(trace[n], users, team, picks[n])
    requires StrictOrder(users, team)
    ensures |trace[|picks|]| == |trace[0]| && DealtOut(trace[|picks|], start, |picks|)
    ensures forall n :: 0 <= n < |picks| ==> picks[n] == n % |trace[0]|
  {
    if picks != [] {
      var n := |picks| - 1;
      TraceInTurn(trace[..n + 1], picks[..n], start, users, team);
      assert GreedyMove(trace[n], picks[n], trace[n + 1]);
      FirstOfLeast(trace[n], start, n, picks[n], users, team);
      DealNext(trace[n], start, n, picks[n]);
      assert forall m :: 0 <= m < n ==> picks[m] == picks[..n][m];
    }
  }

  /** The picks of the operations and the load vectors along them. */
  ghost predicate TraceFor(ops: seq<Op>, users: map<int, User>, team: seq<int>, trace: seq<seq<nat>>, picks: seq<nat>) {
    && GreedyTrace(trace, picks) && |picks| == |ops|
    && forall n :: 0 <= n < |picks| ==> PickAt(ops[n], users, team, trace[n], picks[n])
  }

  ghost predicate PickAt(op: Op, users: map<int, User>, team: seq<int>, loads: seq<nat>, i: nat) {
    LeastAndFirst(loads, users, team, i) && op.CreateTicketOp? && op.pick == Some(team[i])
  }

  lemma TraceExtend(ops: seq<Op>, users: map<int, User>, team: seq<int>, t: seq<seq<nat>>, p: seq<nat>, i: nat,
                    next: seq<nat>)
    requires ops != [] && TraceFor(ops[..|ops| - 1], users, team, t, p)
    requires GreedyMove(t[|p|], i, next) && PickAt(ops[|ops| - 1], users, team, t[|p|], i)
    ensures TraceFor(ops, users, team, t + [next], p + [i])
    ensures (t + [next])[0] == t[0] && (t + [next])[|p + [i]|] == next
  {
    var trace, picks := t + [next], p + [i];
    TraceSnoc(t, p, trace, picks);
    forall n | 0 <= n < |picks|
      ensures PickAt(ops[n], users, team, trace[n], picks[n])
    {
      if n < |p| {
        assert PickAt(ops[..|ops| - 1][n], users, team, t[n], p[n]);
      }
    }
  }

  lemma CreateRunSplit(s: State, ops: seq<Op>, project: int, team: seq<int>)
    requires CreateRun(s, ops, project, team) && ops != []
    ensures var earlier, last := ops[..|ops| - 1], ops[|ops| - 1];
            && CreateRun(s, earlier, project, team) && AutoCreate(last, project)
            && LegalPick(Run(s, earlier), project, last.pick)
  {
    var last := |ops| - 1;
    assert AutoCreate(ops[last], project);
    assert forall i :: 0 <= i < last ==> ops[..last][i] == ops[i];
  }

  lemma LastCreate(s: State, ops: seq<Op>, project: int, team: seq<int>) returns (i: nat)
    requires CreateRun(s, ops, project, team) && ops != []
    ensures CreateRun(s, ops[..|ops| - 1], project, team)
    ensures var before, after := Loads(Run(s, ops[..|ops| - 1]), project, team), Loads(Run(s, ops), project, team);
            GreedyMove(before, i, after) && PickAt(ops[|ops| - 1], s.users, team, before, i)
  {
    CreateRunSplit(s, ops, project, team);
    CreateRunFrame(s, ops[..|ops| - 1], project, team);
    i := MoveOf(Run(s, ops[..|ops| - 1]), ops[|ops| - 1], Run(s, ops), project, team);
  }

  lemma MoveOf(mid: State, op: Op, after: State, project: int, team: seq<int>) returns (i: nat)
    requires TicketInv(mid) && project in mid.projects && TeamList(mid.users, team) && team != []
    requires AutoCreate(op, project) && LegalPick(mid, project, op.pick) && after == Step(mid, op)
    ensures GreedyMove(Loads(mid, project, team), i, Loads(after, project, team))
    ensures PickAt(op, mid.users, team, Loads(mid, project, team), i)
  {
    i := AutoCreateStep(mid, op, project, team);
  }

  /** The loads along a run of creates form a greedy trace. */
  lemma {:induction false} TraceOf(s: State, ops: seq<Op>, project: int, team: seq<int>)
    returns (trace: seq<seq<nat>>, picks: seq<nat>)
    requires CreateRun(s, ops, project, team)
    ensures TraceFor(ops, s.users, team, trace, picks)
    ensures trace[0] == Loads(s, project, team) && trace[|picks|] == Loads(Run(s, ops), project, team)
  {
    if ops == [] {
      trace, picks := [Loads(s, project, team)], [];
    } else {
      var i := LastCreate(s, ops, project, team);
      var t, p := TraceOf(s, ops[..|ops| - 1], project, team);
      var next := Loads(Run(s, ops), project, team);
      TraceExtend(ops, s.users, team, t, p, i, next);
      trace, picks := t + [next], p + [i];
    }
  }

  lemma TraceSnoc(t: seq<seq<nat>>, p: seq<nat>, trace: seq<seq<nat>>, picks: seq<nat>)
    requires GreedyTrace(t, p) && |trace| == |t| + 1 && |picks| == |p| + 1 && trace[..|t|] == t && picks[..|p|] == p
    requires GreedyMove(t[|p|], picks[|p|], trace[|t|])
    ensures GreedyTrace(trace, picks)
  {
    forall n | 0 <= n < |picks|
      ensures GreedyMove(trace[n], picks[n], trace[n + 1])
    {
      if n < |p| {
        assert trace[n] == t[n] && trace[n + 1] == t[n + 1] && picks[n] == p[n];
      } else {
        assert trace[n] == t[n];
      }
    }
  }

  // ----- main results -----

  /** Greedy bound: after n creates no load exceeds the larger of the initial maximum and the average
      rounded up, and the loads sum to the initial total plus n. */
  lemma GreedyBound(s: State, ops: seq<Op>, project: int, team: seq<int>, initialMax: nat)
    requires CreateRun(s, ops, project, team) && AtMost(Loads(s, project, team), initialMax)
    ensures WithinBound(Loads(s, project, team), |ops|, Loads(Run(s, ops), project, team), initialMax)
  {
    var trace, picks := TraceOf(s, ops, project, team);
    TraceBound(trace, picks, initialMax);
  }

  /** A gap of at most one stays at most one. */
  lemma BalanceKept(s: State, ops: seq<Op>, project: int, team: seq<int>)
    requires CreateRun(s, ops, project, team) && Balanced(Loads(s, project, team))
    ensures Balanced(Loads(Run(s, ops), project, team))
  {
    var trace, picks := TraceOf(s, ops, project, team);
    TraceBalanced(trace, picks);
  }

  /** The developers are in strict registration order. */
  ghost predicate StrictOrder(users: map<int, User>, team: seq<int>) {
    && (forall j :: 0 <= j < |team| ==> team[j] in users)
    && forall i, j :: 0 <= i < j < |team| ==> users[team[i]].createdAt < users[team[j]].createdAt
  }

  lemma TracePicks(ops: seq<Op>, users: map<int, User>, team: seq<int>, trace: seq<seq<nat>>, picks: seq<nat>)
    requires TraceFor(ops, users, team, trace, picks)
    ensures forall n :: 0 <= n < |picks| ==> LeastAndFirst(trace[n], users, team, picks[n])
    ensures forall n :: 0 <= n < |picks| ==>
              picks[n] < |team| && ops[n].CreateTicketOp? && ops[n].pick == Some(team[picks[n]])
  {
    forall n | 0 <= n < |picks|
      ensures LeastAndFirst(trace[n], users, team, picks[n])
      ensures picks[n] < |team| && ops[n].CreateTicketOp? && ops[n].pick == Some(team[picks[n]])
    {
      assert PickAt(ops[n], users, team, trace[n], picks[n]);
    }
  }

  lemma AllEqual(loads: seq<nat>, start: nat)
    requires loads != [] && forall j :: 0 <= j < |loads| ==> loads[j] == start
    ensures DealtOut(loads, start, 0)
  {
    DivModUnique(0, |loads|, 0, 0);
  }

  /** The n-th create goes to developer n mod k. */
  ghost predicate InTurn(ops: seq<Op>, team: seq<int>) {
    team != [] && forall n :: 0 <= n < |ops| ==> ops[n].CreateTicketOp? && ops[n].pick == Some(team[n % |team|])
  }

  lemma PickedInTurn(ops: seq<Op>, team: seq<int>, picks: seq<nat>)
    requires team != [] && |picks| == |ops| && forall n :: 0 <= n < |picks| ==> picks[n] == n % |team|
    requires forall n :: 0 <= n < |picks| ==>
               picks[n] < |team| && ops[n].CreateTicketOp? && ops[n].pick == Some(team[picks[n]])
    ensures InTurn(ops, team)
  {
    forall n | 0 <= n < |ops|
      ensures ops[n].CreateTicketOp? && ops[n].pick == Some(team[n % |team|])
    {
      assert picks[n] == n % |team|;
    }
  }

  /** From equal loads and distinct registration times, the n-th create (counting from 0) goes exactly
      to developer n mod k in registration order. */
  lemma RoundRobin(s: State, ops: seq<Op>, project: int, team: seq<int>, start: nat)
    requires CreateRun(s, ops, project, team)
    requires StrictOrder(s.users, team)
    requires forall j :: 0 <= j < |team| ==> Loads(s, project, team)[j] == start
    ensures InTurn(ops, team)
    ensures DealtOut(Loads(Run(s, ops), project, team), start, |ops|)
  {
    var trace, picks := TraceOf(s, ops, project, team);
    TracePicks(ops, s.users, team, trace, picks);
    AllEqual(trace[0], start);
    TraceInTurn(trace, picks, start, s.users, team);
    PickedInTurn(ops, team, picks);
  }
}
