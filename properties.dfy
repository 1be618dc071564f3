/** What the licensing gate guarantees: the order of the checks in a
    license request, what each kind of answer changes, what approval and
    rejection do, and what holds after any sequence of requests and operator
    decisions. */
module ServerProperties {
  import opened Lists
  import opened Credentials
  import opened Paths
  import opened LicenseServer

  /** Both fields present and non-empty, and the program is the licensed one. */
  predicate Admissible(req: Request)
  {
    Truthy(req.machineId) && Truthy(req.programId) && req.programId.value == ProgramId
  }

  /** A well-formed request for machine `m`. */
  function RequestFor(m: string): Request
  {
    Request(Some(m), Some(ProgramId))
  }

  /** The five answers, each with exactly the condition that produces it;
      the rejected list is consulted before the allowed list. */
  lemma GenerateOutcomes(s: Store, req: Request)
    ensures Generate(s, req).outcome == MissingField <==> !Truthy(req.machineId) || !Truthy(req.programId)
    ensures Generate(s, req).outcome == InvalidProgram <==>
      Truthy(req.machineId) && Truthy(req.programId) && req.programId.value != ProgramId
    ensures Generate(s, req).outcome == Rejected <==>
      Admissible(req) && req.machineId.value in s.rejected
    ensures Generate(s, req).outcome == PendingApproval <==>
      Admissible(req) && req.machineId.value !in s.rejected && req.machineId.value !in s.allowed
    ensures Generate(s, req).outcome.Granted? <==>
      Admissible(req) && req.machineId.value !in s.rejected && req.machineId.value in s.allowed
  {
  }

  /** A missing field, a foreign program or a rejected id changes nothing:
      no list, no license file, no copy. */
  lemma RefusalsChangeNothing(s: Store, req: Request)
    requires Generate(s, req).outcome in {MissingField, InvalidProgram, Rejected}
    ensures Generate(s, req).next == s
  {
  }

  /** Rejection wins even for an id that is also in the allowed list. */
  lemma RejectedWins(s: Store, m: string)
    requires m != "" && m in s.rejected && m in s.allowed
    ensures Generate(s, RequestFor(m)) == Step(Rejected, s)
  {
  }

  /** An undecided id is queued at the end of pending, at most once; nothing
      else changes. */
  lemma PendingRequest(s: Store, m: string)
    requires m != "" && m !in s.rejected && m !in s.allowed
    ensures Generate(s, RequestFor(m)).outcome == PendingApproval
    ensures var n := Generate(s, RequestFor(m)).next;
      && n == s.(pending := n.pending)
      && m in n.pending
      && IsPrefix(s.pending, n.pending)
      && |n.pending| == (if m in s.pending then |s.pending| else |s.pending| + 1)
      && (forall y :: y != m ==> (y in n.pending <==> y in s.pending))
      && (NoDups(s.pending) ==> multiset(n.pending)[m] == 1)
  {
    var n := Generate(s, RequestFor(m)).next;
    if NoDups(s.pending) {
      AppendIfAbsentNoDups(s.pending, m);
      NoDupsOccursOnce(n.pending, m);
    }
  }

  /** An allowed, unrejected id gets the four download URLs, its license file
      is (re)written with its id and password, and the template is copied for
      it only if its spreadsheet does not exist yet; the lists do not change. */
  lemma GrantedRequest(s: Store, m: string)
    requires m != "" && m !in s.rejected && m in s.allowed
    ensures Generate(s, RequestFor(m)).outcome ==
      Granted("/download_license/" + m, "/download_xlsm/" + m,
              "/download/installer_lifetime.exe", "/download/Launcher.xlsm")
    ensures var n := Generate(s, RequestFor(m)).next;
      && n.allowed == s.allowed && n.pending == s.pending && n.rejected == s.rejected
      && n.licenses == s.licenses[LicensePath(m) := m + "\n" + Password(m)]
      && n.artifacts == s.artifacts + {ArtifactName(m)}
      && n.copies == if ArtifactName(m) in s.artifacts then s.copies else s.copies + [ArtifactName(m)]
  {
  }

  /** Asking again with the same request gives the same answer and changes
      nothing more: no second queue entry, no second copy. */
  lemma GenerateIdempotent(s: Store, req: Request)
    ensures Generate(Generate(s, req).next, req) == Generate(s, req)
  {
  }

  /** approve_id puts the id in allowed once, keeps the earlier entries in
      order, takes it out of pending and leaves everything else alone; in
      particular the rejected list. */
  lemma ApproveEffect(s: Store, m: string)
    ensures var a := Approve(s, m);
      && a == s.(allowed := a.allowed, pending := a.pending)
      && m in a.allowed && IsPrefix(s.allowed, a.allowed)
      && |a.allowed| == (if m in s.allowed then |s.allowed| else |s.allowed| + 1)
      && (m in s.pending ==>
            a.pending == s.pending[..IndexOf(s.pending, m)] + s.pending[IndexOf(s.pending, m) + 1..])
      && (m !in s.pending ==> a.pending == s.pending)
      && (forall y :: y != m ==> (y in a.allowed <==> y in s.allowed))
      && (forall y :: y != m ==> (y in a.pending <==> y in s.pending))
      && (NoDups(s.allowed) ==> multiset(a.allowed)[m] == 1)
      && (NoDups(s.pending) ==> m !in a.pending)
  {
    var a := Approve(s, m);
    if NoDups(s.allowed) {
      AppendIfAbsentNoDups(s.allowed, m);
      NoDupsOccursOnce(a.allowed, m);
    }
    if m in s.pending {
      if NoDups(s.pending) {
        RemoveFirstNoDups(s.pending, m);
      } else {
        RemoveFirstOthers(s.pending, m);
      }
    }
  }

  /** reject_id puts the id in rejected once, keeps the earlier entries in
      order, takes it out of pending and leaves everything else alone; in
      particular the allowed list. */
  lemma RejectEffect(s: Store, m: string)
    ensures var r := Reject(s, m);
      && r == s.(rejected := r.rejected, pending := r.pending)
      && m in r.rejected && IsPrefix(s.rejected, r.rejected)
      && |r.rejected| == (if m in s.rejected then |s.rejected| else |s.rejected| + 1)
      && (m in s.pending ==>
            r.pending == s.pending[..IndexOf(s.pending, m)] + s.pending[IndexOf(s.pending, m) + 1..])
      && (m !in s.pending ==> r.pending == s.pending)
      && (forall y :: y != m ==> (y in r.rejected <==> y in s.rejected))
      && (forall y :: y != m ==> (y in r.pending <==> y in s.pending))
      && (NoDups(s.rejected) ==> multiset(r.rejected)[m] == 1)
      && (NoDups(s.pending) ==> m !in r.pending)
  {
    var r := Reject(s, m);
    if NoDups(s.rejected) {
      AppendIfAbsentNoDups(s.rejected, m);
      NoDupsOccursOnce(r.rejected, m);
    }
    if m in s.pending {
      if NoDups(s.pending) {
        RemoveFirstNoDups(s.pending, m);
      } else {
        RemoveFirstOthers(s.pending, m);
      }
    }
  }

  /** Approving twice is approving once, provided pending has no duplicate
      (Python's `remove` drops one occurrence per call). */
  lemma ApproveIdempotent(s: Store, m: string)
    requires NoDups(s.pending)
    ensures Approve(Approve(s, m), m) == Approve(s, m)
  {
    if m in s.pending {
      RemoveFirstNoDups(s.pending, m);
    }
  }

  /** Rejecting twice is rejecting once, provided pending has no duplicate. */
  lemma RejectIdempotent(s: Store, m: string)
    requires NoDups(s.pending)
    ensures Reject(Reject(s, m), m) == Reject(s, m)
  {
    if m in s.pending {
      RemoveFirstNoDups(s.pending, m);
    }
  }

  /** With a duplicated pending entry approval is not idempotent: the second
      call removes the second copy. */
  lemma ApproveNotIdempotentOnDuplicatePending()
    ensures var s := Initial.(pending := ["A", "A"]);
      Approve(Approve(s, "A"), "A") != Approve(s, "A")
  {
    var s := Initial.(pending := ["A", "A"]);
    assert Approve(s, "A").pending == ["A"];
    assert Approve(Approve(s, "A"), "A").pending == [];
  }

  /** Once approved (and not rejected), the next request is granted. */
  lemma ApproveThenGranted(s: Store, m: string)
    requires m != "" && m !in s.rejected
    ensures Generate(Approve(s, m), RequestFor(m)).outcome.Granted?
  {
  }

  /** Once rejected, the next request is refused, even for an approved id. */
  lemma RejectThenRefused(s: Store, m: string)
    requires m != ""
    ensures Generate(Reject(s, m), RequestFor(m)).outcome == Rejected
  {
  }

  /** Approval does not lift a rejection: the id ends up in both lists and
      keeps being refused. */
  lemma ApprovalKeepsRejection(s: Store, m: string)
    requires m != "" && m in s.rejected
    ensures m in Approve(s, m).allowed && m in Approve(s, m).rejected
    ensures Generate(Approve(s, m), RequestFor(m)) == Step(Rejected, Approve(s, m))
  {
  }

  /** One request or operator action. */
  datatype Op = GenerateOp(req: Request) | ApproveOp(id: string) | RejectOp(id: string)

  function Apply(s: Store, op: Op): Store
  {
    match op
    case GenerateOp(req) => Generate(s, req).next
    case ApproveOp(m) => Approve(s, m)
    case RejectOp(m) => Reject(s, m)
  }

  /** The state after performing `ops` one after the other. */
  function Run(s: Store, ops: seq<Op>): Store
    decreases |ops|
  {
    if ops == [] then s else Run(Apply(s, ops[0]), ops[1..])
  }

  lemma InitialInv()
    ensures Inv(Initial)
  {
  }

  lemma ApplyPreservesInv(s: Store, op: Op)
    requires Inv(s)
    ensures Inv(Apply(s, op))
  {
    match op
    case GenerateOp(req) => InvPreservedByGenerate(s, req);
    case ApproveOp(m) => InvPreservedByApprove(s, m);
    case RejectOp(m) => InvPreservedByReject(s, m);
  }

  /** Each operation keeps every list duplicate-free, whatever else the
      files on disk hold. */
  lemma ApplyKeepsListsDistinct(s: Store, op: Op)
    requires ListsDistinct(s)
    ensures ListsDistinct(Apply(s, op))
  {
    match op
    case GenerateOp(req) =>
      if Admissible(req) { AppendIfAbsentNoDups(s.pending, req.machineId.value); }
    case ApproveOp(m) =>
      AppendIfAbsentNoDups(s.allowed, m);
      if m in s.pending { RemoveFirstNoDups(s.pending, m); }
    case RejectOp(m) =>
      AppendIfAbsentNoDups(s.rejected, m);
      if m in s.pending { RemoveFirstNoDups(s.pending, m); }
  }

  /** Any sequence of operations keeps every list duplicate-free. */
  lemma {:induction false} RunKeepsListsDistinct(s: Store, ops: seq<Op>)
    requires ListsDistinct(s)
    ensures ListsDistinct(Run(s, ops))
    decreases |ops|
  {
    if ops != [] {
      ApplyKeepsListsDistinct(s, ops[0]);
      RunKeepsListsDistinct(Apply(s, ops[0]), ops[1..]);
    }
  }

  /** Every sequence of requests and decisions keeps the invariant. */
  lemma {:induction false} RunPreservesInv(s: Store, ops: seq<Op>)
    requires Inv(s)
    ensures Inv(Run(s, ops))
    decreases |ops|
  {
    if ops != [] {
      ApplyPreservesInv(s, ops[0]);
      RunPreservesInv(Apply(s, ops[0]), ops[1..]);
    }
  }

  /** No operation takes anything away from allowed, rejected, the
      spreadsheets on disk or the copy log: each only grows at its end. */
  lemma ApplyOnlyGrows(s: Store, op: Op)
    ensures var n := Apply(s, op);
      && IsPrefix(s.allowed, n.allowed) && IsPrefix(s.rejected, n.rejected)
      && s.artifacts <= n.artifacts && IsPrefix(s.copies, n.copies)
  {
  }

  lemma {:induction false} RunOnlyGrows(s: Store, ops: seq<Op>)
    ensures var n := Run(s, ops);
      && IsPrefix(s.allowed, n.allowed) && IsPrefix(s.rejected, n.rejected)
      && s.artifacts <= n.artifacts && IsPrefix(s.copies, n.copies)
    decreases |ops|
  {
    if ops != [] {
      var s1 := Apply(s, ops[0]);
      var n := Run(s, ops);
      ApplyOnlyGrows(s, ops[0]);
      RunOnlyGrows(s1, ops[1..]);
      IsPrefixTransitive(s.allowed, s1.allowed, n.allowed);
      IsPrefixTransitive(s.rejected, s1.rejected, n.rejected);
      IsPrefixTransitive(s.copies, s1.copies, n.copies);
    }
  }

  /** A rejection is permanent: whatever happens afterwards, requests for a
      rejected id are refused. */
  lemma RejectionIsFinal(s: Store, ops: seq<Op>, m: string)
    requires m != "" && m in s.rejected
    ensures Generate(Run(s, ops), RequestFor(m)).outcome == Rejected
  {
    RunOnlyGrows(s, ops);
    var n := Run(s, ops);
    assert n.rejected[..|s.rejected|] == s.rejected;
  }

  /** From a fresh deployment, whatever the requests and decisions: the
      template is copied at most once per spreadsheet name, only for allowed
      machines, and every license file belongs to an allowed machine and
      holds its id and password; no id waits in pending once decided. */
  lemma FromFreshDeployment(ops: seq<Op>)
    ensures var n := Run(Initial, ops);
      && NoDups(n.copies)
      && (forall m :: ArtifactName(m) in n.copies ==> m in n.allowed)
      && (forall m :: LicensePath(m) in n.licenses ==>
            m in n.allowed && n.licenses[LicensePath(m)] == LicenseText(m))
      && (forall x :: x in n.pending ==> x !in n.allowed && x !in n.rejected)
      && NoDups(n.allowed) && NoDups(n.pending) && NoDups(n.rejected)
  {
    InitialInv();
    RunPreservesInv(Initial, ops);
  }

  /** An id can be both allowed and rejected: approve it, then reject it. */
  lemma AllowedAndRejected()
    ensures var n := Run(Initial, [ApproveOp("ABC123"), RejectOp("ABC123")]);
      "ABC123" in n.allowed && "ABC123" in n.rejected
      && Generate(n, RequestFor("ABC123")).outcome == Rejected
  {
    var n := Run(Initial, [ApproveOp("ABC123"), RejectOp("ABC123")]);
    assert n == Reject(Approve(Initial, "ABC123"), "ABC123");
  }

  /** A first request queues the id; after approval the request is granted
      and the spreadsheet is copied once; a repeat copies nothing; a
      rejection then refuses it; a foreign program is refused without
      effect. */
  lemma Walkthrough()
    ensures Generate(Initial, RequestFor("ABC123")) ==
      Step(PendingApproval, Initial.(pending := ["ABC123"]))
    ensures var s2 := Approve(Initial.(pending := ["ABC123"]), "ABC123");
      && s2.allowed == ["ABC123"] && s2.pending == []
      && var s3 := Generate(s2, RequestFor("ABC123"));
      && s3.outcome.Granted?
      && s3.next.licenses[LicensePath("ABC123")] == "ABC123\n" + Password("ABC123")
      && s3.next.copies == [ArtifactName("ABC123")]
      && Generate(s3.next, RequestFor("ABC123")).next.copies == [ArtifactName("ABC123")]
      && Generate(Reject(s3.next, "ABC123"), RequestFor("ABC123")).outcome == Rejected
    ensures Generate(Initial, Request(Some("ABC123"), Some("other"))) == Step(InvalidProgram, Initial)
  {
    var m := "ABC123";
    var s1 := Initial.(pending := [m]);
    assert AppendIfAbsent([], m) == [m];
    var s2 := Approve(s1, m);
    assert s2.allowed == [m] && s2.pending == [];
    GrantedRequest(s2, m);
    var s3 := Generate(s2, RequestFor(m));
    GenerateIdempotent(s2, RequestFor(m));
    RejectThenRefused(s3.next, m);
  }
}
