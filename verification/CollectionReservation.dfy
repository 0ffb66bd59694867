/**
 Concurrent branches of specialist runs on the evidence table: each lists its persisted evidence, may
 collect, and commits one transaction of drafts. The reservation (`pg_advisory_xact_lock` per run and
 specialist) serialises the branches of one specialist run from before the listing to the end of the
 analysis.
 */
module CollectionReservation {
  import opened Common
  import opened Ordering
  import opened EvidenceSession

  /** A branch has not entered, has entered, or has listed and knows whether evidence existed. */
  datatype Phase = Outside | Entered | Listed(empty: bool)

  /** `branches` has each branch's request; `batches` counts each specialist run's collection transactions. */
  datatype State = State(branches: map<Id, Request>, phases: map<Id, Phase>, records: map<Id, Record>,
                         batches: map<Id, nat>)

  /**
   The transactions of a branch's session. One that listed nothing may commit drafts under new ids; a
   retry is another `Enter` of the same branch.
   */
  datatype Step =
    | Enter(b: Id)
    | List(b: Id)
    | Commit(b: Id, drafts: seq<Draft>, ids: seq<Id>, records: map<Id, Record>)
    | Leave(b: Id)

  predicate At(s: State, b: Id) {
    b in s.branches && b in s.phases
  }

  predicate Inside(s: State, b: Id) {
    At(s, b) && !s.phases[b].Outside?
  }

  predicate SameTarget(a: Request, b: Request) {
    a.specialistRun == b.specialistRun
  }

  /** The lock is free for a branch when no branch of the same specialist run is inside. */
  ghost predicate Free(s: State, r: Request) {
    forall b :: b in s.branches && Inside(s, b) ==> !SameTarget(s.branches[b], r)
  }

  predicate ListsNothing(s: State, r: Request) {
    OwnIds(s.records, r.run, r.specialistRun) == {}
  }

  /** The branch listed nothing and its transaction turns the table into `after`. */
  ghost predicate MayCommit(s: State, b: Id, drafts: seq<Draft>, ids: seq<Id>, after: map<Id, Record>) {
    At(s, b) && s.phases[b] == Listed(true) && drafts != [] && StoredAs(s.branches[b], s.records, after, drafts, ids)
  }

  ghost function Committed(s: State, b: Id, after: map<Id, Record>): State
    requires At(s, b)
  {
    var target := s.branches[b].specialistRun;
    s.(phases := s.phases[b := Listed(false)], records := after,
       batches := s.batches[target := BatchesIn(s.batches, target) + 1])
  }

  ghost function Apply(reserved: bool, s: State, step: Step): State {
    match step
    case Enter(b) =>
      if At(s, b) && s.phases[b].Outside? && (!reserved || Free(s, s.branches[b]))
      then s.(phases := s.phases[b := Entered]) else s
    case List(b) =>
      if At(s, b) && s.phases[b].Entered?
      then s.(phases := s.phases[b := Listed(ListsNothing(s, s.branches[b]))]) else s
    case Commit(b, drafts, ids, after) =>
      if MayCommit(s, b, drafts, ids, after) then Committed(s, b, after) else s
    case Leave(b) =>
      if At(s, b) then s.(phases := s.phases[b := Outside]) else s
  }

  ghost function ApplyAll(reserved: bool, s: State, steps: seq<Step>): State
    decreases |steps|
  {
    if steps == [] then s else ApplyAll(reserved, Apply(reserved, s, steps[0]), steps[1..])
  }

  /** A specialist run belongs to one RCA run. */
  ghost predicate TargetsFine(branches: map<Id, Request>) {
    forall a, b :: a in branches && b in branches && SameTarget(branches[a], branches[b]) ==>
      branches[a].run == branches[b].run
  }

  /** Nothing collected yet and no branch inside. */
  ghost predicate Start(s: State) {
    && s.phases.Keys == s.branches.Keys && TargetsFine(s.branches) && s.records == map[] && s.batches == map[]
    && forall b :: b in s.phases ==> s.phases[b].Outside?
  }

  ghost predicate OneInside(s: State) {
    forall a, b {:trigger Inside(s, a), Inside(s, b)} ::
      Inside(s, a) && Inside(s, b) && SameTarget(s.branches[a], s.branches[b]) ==> a == b
  }

  ghost predicate BranchAgrees(s: State, b: Id)
    requires At(s, b)
  {
    && OneBatchIn(s.records, s.batches, s.branches[b].run, s.branches[b].specialistRun)
    && (s.phases[b] == Listed(true) ==> ListsNothing(s, s.branches[b]))
  }

  ghost predicate Inv(s: State) {
    && s.phases.Keys == s.branches.Keys && TargetsFine(s.branches) && OneInside(s)
    && forall b :: b in s.branches ==> BranchAgrees(s, b)
  }

  lemma StartIsInv(s: State)
    requires Start(s)
    ensures Inv(s)
  {
  }

  /** A commit gives its own specialist run its first batch and leaves every other run alone. */
  lemma {:induction false} CommitAgrees(s: State, b: Id, drafts: seq<Draft>, ids: seq<Id>, after: map<Id, Record>,
                                        x: Id)
    requires Inv(s) && MayCommit(s, b, drafts, ids, after) && x in s.branches
    ensures BranchAgrees(Committed(s, b, after), x)
  {
    hide StoredAs, OwnIds, TargetsFine;
    var r, q := s.branches[b], s.branches[x];
    assert BranchAgrees(s, b) && BranchAgrees(s, x);
    StoredRows(r, s.records, after, drafts, ids);
    if SameTarget(q, r) {
      assert q.run == r.run by {
        assert TargetsFine(s.branches);
        SameRun(s.branches, x, b);
      }
      assert x != b ==> s.phases[x] != Listed(true) by {
        assert Inside(s, b);
        assert s.phases[x] == Listed(true) ==> Inside(s, x);
      }
      assert Members(ids) != {};
    } else {
      OtherTargetKeeps(r, s.records, after, drafts, ids, q);
    }
  }

  lemma SameRun(branches: map<Id, Request>, a: Id, b: Id)
    requires TargetsFine(branches) && a in branches && b in branches && SameTarget(branches[a], branches[b])
    ensures branches[a].run == branches[b].run
  {
  }

  lemma OtherTargetKeeps(r: Request, before: map<Id, Record>, after: map<Id, Record>, drafts: seq<Draft>, ids: seq<Id>,
                         q: Request)
    requires StoredAs(r, before, after, drafts, ids) && !SameTarget(q, r)
    ensures OwnIds(after, q.run, q.specialistRun) == OwnIds(before, q.run, q.specialistRun)
  {
    hide StoredAs, Members;
    StoredGrows(r, before, after, drafts, ids);
  }

  lemma {:induction false} StepAgrees(s: State, step: Step, x: Id)
    requires Inv(s) && x in s.branches
    ensures At(Apply(true, s, step), x) && BranchAgrees(Apply(true, s, step), x)
  {
    hide StoredAs, OwnIds, TargetsFine, OneBatchIn, OneInside;
    assert BranchAgrees(s, x);
    if step.Commit? && MayCommit(s, step.b, step.drafts, step.ids, step.records) {
      CommitAgrees(s, step.b, step.drafts, step.ids, step.records, x);
    }
  }

  /** A branch enters only when no other one of its specialist run is inside. */
  lemma {:induction false} StepKeepsOneInside(s: State, step: Step)
    requires OneInside(s) && s.phases.Keys == s.branches.Keys
    ensures OneInside(Apply(true, s, step))
  {
    hide StoredAs, OwnIds;
    var t := Apply(true, s, step);
    forall a, b | Inside(t, a) && Inside(t, b) && SameTarget(t.branches[a], t.branches[b])
      ensures a == b
    {
      assert Inside(s, a) || (step.Enter? && a == step.b);
      assert Inside(s, b) || (step.Enter? && b == step.b);
    }
  }

  lemma {:induction false} ReservedStepKeepsInv(s: State, step: Step)
    requires Inv(s)
    ensures Inv(Apply(true, s, step)) && Apply(true, s, step).branches == s.branches
  {
    hide StoredAs, OwnIds, TargetsFine, OneInside, BranchAgrees;
    StepKeepsOneInside(s, step);
    forall x | x in s.branches
      ensures At(Apply(true, s, step), x) && BranchAgrees(Apply(true, s, step), x)
    {
      StepAgrees(s, step, x);
    }
  }

  lemma {:induction false} ReservedRunsKeepInv(s: State, steps: seq<Step>)
    requires Inv(s)
    ensures Inv(ApplyAll(true, s, steps)) && ApplyAll(true, s, steps).branches == s.branches
    decreases |steps|
  {
    hide Apply, Inv;
    if steps != [] {
      ReservedStepKeepsInv(s, steps[0]);
      ReservedRunsKeepInv(Apply(true, s, steps[0]), steps[1..]);
    }
  }

  /** All evidence that the branch's specialist run has in the table came from at most one transaction. */
  ghost predicate OneBatchOf(reserved: bool, s: State, steps: seq<Step>, b: Id)
    requires b in s.branches
  {
    var t := ApplyAll(reserved, s, steps);
    OneBatchIn(t.records, t.batches, s.branches[b].run, s.branches[b].specialistRun)
  }

  /**
   Under the reservation, however the sessions of concurrent branches and their retries interleave, the
   evidence of every specialist run comes from at most one committed transaction.
   */
  lemma {:induction false} ReservedRunsCommitOnce(s: State, steps: seq<Step>, b: Id)
    requires Start(s) && b in s.branches
    ensures OneBatchOf(true, s, steps, b)
  {
    hide OneBatchIn;
    StartIsInv(s);
    ReservedRunsKeepInv(s, steps);
    assert BranchAgrees(ApplyAll(true, s, steps), b);
  }

  ghost predicate CommitsOnce(reserved: bool, s: State) {
    forall steps: seq<Step>, b: Id :: b in s.branches ==> OneBatchOf(reserved, s, steps, b)
  }

  ghost predicate SharedRun(s: State, a: Id, b: Id) {
    a in s.branches && b in s.branches && a != b && SameTarget(s.branches[a], s.branches[b])
  }

  lemma {:induction false} OneRowStored(r: Request, before: map<Id, Record>, d: Draft, id: Id)
    requires id !in before
    ensures StoredAs(r, before, before[id := RowOf(r, d)], [d], [id])
  {
    assert Members([id]) == {id};
  }

  /** Two branches of one specialist run both list nothing and both commit. */
  ghost function TwoCommits(s: State, a: Id, b: Id, d: Draft): seq<Step>
    requires a in s.branches && b in s.branches
  {
    var first := map["x" := RowOf(s.branches[a], d)];
    [Enter(a), Enter(b), List(a), List(b),
     Commit(a, [d], ["x"], first), Commit(b, [d], ["y"], first["y" := RowOf(s.branches[b], d)])]
  }

  lemma {:induction false} ApplySix(s: State, steps: seq<Step>)
    requires |steps| == 6
    ensures var s2 := Apply(false, Apply(false, s, steps[0]), steps[1]);
            var s4 := Apply(false, Apply(false, s2, steps[2]), steps[3]);
            ApplyAll(false, s, steps) == Apply(false, Apply(false, s4, steps[4]), steps[5])
  {
    hide Apply;
    ApplyTwo(s, steps);
    var s2 := Apply(false, Apply(false, s, steps[0]), steps[1]);
    ApplyTwo(s2, steps[2..]);
    var s4 := Apply(false, Apply(false, s2, steps[2]), steps[3]);
    ApplyTwo(s4, steps[2..][2..]);
  }

  lemma {:induction false} ApplyTwo(s: State, steps: seq<Step>)
    requires |steps| >= 2
    ensures ApplyAll(false, s, steps) == ApplyAll(false, Apply(false, Apply(false, s, steps[0]), steps[1]), steps[2..])
  {
    hide Apply;
    assert steps[1..][1..] == steps[2..];
  }

  lemma {:induction false} UnreservedCommitsTwice(s: State, a: Id, b: Id, d: Draft)
    requires Start(s) && SharedRun(s, a, b)
    ensures !OneBatchOf(false, s, TwoCommits(s, a, b, d), a)
  {
    hide Apply, StoredAs, Start;
    var steps := TwoCommits(s, a, b, d);
    BothListNothing(s, a, b);
    var s4 := Apply(false, Apply(false, Apply(false, Apply(false, s, steps[0]), steps[1]), steps[2]), steps[3]);
    BothCommit(s4, a, b, d);
    ApplySix(s, steps);
  }

  lemma {:induction false} BothListNothing(s: State, a: Id, b: Id)
    requires Start(s) && SharedRun(s, a, b)
    ensures var t := Apply(false, Apply(false, Apply(false, Apply(false, s, Enter(a)), Enter(b)), List(a)), List(b));
            && t.branches == s.branches && At(t, a) && At(t, b) && t.phases[a] == Listed(true)
               && t.phases[b] == Listed(true)
            && t.records == map[] && t.batches == map[]
  {
    hide OneInside, Free;
  }

  lemma {:induction false} BothCommit(s: State, a: Id, b: Id, d: Draft)
    requires SharedRun(s, a, b) && At(s, a) && At(s, b) && s.phases[a] == Listed(true) && s.phases[b] == Listed(true)
    requires s.records == map[] && s.batches == map[]
    ensures var steps := TwoCommits(s, a, b, d);
            BatchesIn(Apply(false, Apply(false, s, steps[4]), steps[5]).batches, s.branches[a].specialistRun) == 2
  {
    hide StoredAs;
    var first := map["x" := RowOf(s.branches[a], d)];
    OneRowStored(s.branches[a], map[], d, "x");
    OneRowStored(s.branches[b], first, d, "y");
    var s1 := Apply(false, s, TwoCommits(s, a, b, d)[4]);
    assert s1.phases[b] == Listed(true) && s1.records == first;
  }

  /** The reservation is what makes one transaction per specialist run a guarantee. */
  lemma {:induction false} ReservationIsNeeded(s: State, a: Id, b: Id)
    requires Start(s) && SharedRun(s, a, b)
    ensures CommitsOnce(true, s) && !CommitsOnce(false, s)
  {
    hide Start, OneBatchOf;
    forall steps: seq<Step>, x: Id | x in s.branches
      ensures OneBatchOf(true, s, steps, x)
    {
      ReservedRunsCommitOnce(s, steps, x);
    }
    var d := Draft("", "", "", Scope("", "", false), Scope("", "", false), 0, "");
    UnreservedCommitsTwice(s, a, b, d);
  }
}
