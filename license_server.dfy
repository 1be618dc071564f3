/** The licensing gate: a license request is checked against the allowed,
    pending and rejected id lists, and an operator approves or rejects ids.
    The three JSON files are the sequence fields of a `Server`, the license
    text files a map from path to content, and the spreadsheet copies a set
    of file names; `copies` records, in order, every copy of the template the
    server makes. */
module LicenseServer {
  import opened Lists
  import opened Credentials
  import opened Paths

  /** The only program this server licenses. */
  const ProgramId: string := "xlsm_tool"

  const LicenseUrlPrefix: string := "/download_license/"
  const XlsmUrlPrefix: string := "/download_xlsm/"
  const InstallerUrl: string := "/download/installer_lifetime.exe"
  const LauncherUrl: string := "/download/Launcher.xlsm"

  datatype Option<T> = None | Some(value: T)

  /** The two fields of the JSON body; `None` is a missing key or `null`. */
  datatype Request = Request(machineId: Option<string>, programId: Option<string>)

  /** Python's truth value of a field: present and not the empty string. */
  predicate Truthy(f: Option<string>)
  {
    f.Some? && f.value != ""
  }

  /** The five answers to a license request. */
  datatype Outcome =
    | MissingField
    | InvalidProgram
    | Rejected
    | PendingApproval
    | Granted(licenseUrl: string, xlsmUrl: string, installerUrl: string, launcherUrl: string)

  /** The HTTP status the answer is sent with. */
  function StatusCode(o: Outcome): (code: int)
    ensures code == 200 <==> o.Granted?
    ensures code == 400 <==> o.MissingField?
    ensures code == 200 || code == 400 || code == 403
  {
    match o
    case MissingField => 400
    case Granted(_, _, _, _) => 200
    case _ => 403
  }

  /** The "reason" field of a refusal; a grant has none. */
  function Reason(o: Outcome): (r: Option<string>)
    ensures r.None? <==> o.Granted?
  {
    match o
    case MissingField => Some("Missing machine_id or program_id")
    case InvalidProgram => Some("Invalid program ID")
    case Rejected => Some("Rejected")
    case PendingApproval => Some("Pending approval")
    case Granted(_, _, _, _) => None
  }

  /** Everything the server keeps on disk, plus the log of template copies. */
  datatype Store = Store(
    allowed: seq<string>,
    pending: seq<string>,
    rejected: seq<string>,
    licenses: map<string, string>,
    artifacts: set<string>,
    copies: seq<string>)

  /** A fresh deployment: no JSON files (each list loads as []), no license
      files, no spreadsheet copies. */
  const Initial: Store := Store([], [], [], map[], {}, [])

  /** The answer to a request together with the state it leaves behind. */
  datatype Step = Step(outcome: Outcome, next: Store)

  /** What the license file of machine `m` holds: the id, a newline, the password. */
  function LicenseText(m: string): string
  {
    m + "\n" + Password(m)
  }

  /** Splits a text at its last newline. A password has no newline, so this
      is how a reader of a license file gets the id and the password back. */
  function SplitAtLastNewline(t: string): Option<(string, string)>
  {
    if t == [] then None
    else if t[|t| - 1] == '\n' then Some((t[..|t| - 1], ""))
    else
      match SplitAtLastNewline(t[..|t| - 1])
      case None => None
      case Some((a, b)) => Some((a, b + [t[|t| - 1]]))
  }

  /** Text ending in a newline-free tail splits back into its two parts. */
  lemma {:induction false} SplitAtLastNewlineOfJoin(a: string, b: string)
    requires '\n' !in b
    ensures SplitAtLastNewline(a + "\n" + b) == Some((a, b))
  {
    var t := a + "\n" + b;
    if b != [] {
      var b' := b[..|b| - 1];
      assert t[..|t| - 1] == a + "\n" + b';
      assert t[|t| - 1] == b[|b| - 1];
      SplitAtLastNewlineOfJoin(a, b');
      assert b' + [b[|b| - 1]] == b;
    } else {
      assert t[..|t| - 1] == a;
    }
  }

  /** A license file gives back exactly the machine id and its password,
      whatever characters the id holds. */
  lemma LicenseTextSplits(m: string)
    ensures SplitAtLastNewline(LicenseText(m)) == Some((m, Password(m)))
  {
    var p := Password(m);
    assert p == p[..|Prefix|] + p[|Prefix|..];
    assert '\n' !in p by {
      forall i | 0 <= i < |p| ensures p[i] != '\n' {
        if i >= |Prefix| { assert p[i] == p[|Prefix|..][i - |Prefix|]; }
        else { assert p[i] == Prefix[i]; }
      }
    }
    SplitAtLastNewlineOfJoin(m, p);
  }

  /** The answer a granted machine receives. */
  function Grant(m: string): Outcome
  {
    Granted(LicenseUrlPrefix + m, XlsmUrlPrefix + m, InstallerUrl, LauncherUrl)
  }

  /** generate_license: validate the fields, then consult rejected, allowed
      and pending in that order. */
  function Generate(s: Store, req: Request): Step
  {
    if !Truthy(req.machineId) || !Truthy(req.programId) then Step(MissingField, s)
    else if req.programId.value != ProgramId then Step(InvalidProgram, s)
    else
      var m := req.machineId.value;
      if m in s.rejected then Step(Rejected, s)
      else if m !in s.allowed then Step(PendingApproval, s.(pending := AppendIfAbsent(s.pending, m)))
      else
        var t := ArtifactName(m);
        var written := s.(licenses := s.licenses[LicensePath(m) := LicenseText(m)]);
        if t in s.artifacts then Step(Grant(m), written)
        else Step(Grant(m), written.(artifacts := s.artifacts + {t}, copies := s.copies + [t]))
  }

  /** approve_id: add to allowed if absent, remove from pending if present.
      The rejected list is not consulted. */
  function Approve(s: Store, m: string): Store
  {
    s.(allowed := AppendIfAbsent(s.allowed, m),
       pending := if m in s.pending then RemoveFirst(s.pending, m) else s.pending)
  }

  /** reject_id: add to rejected if absent, remove from pending if present.
      The allowed list is not consulted. */
  function Reject(s: Store, m: string): Store
  {
    s.(rejected := AppendIfAbsent(s.rejected, m),
       pending := if m in s.pending then RemoveFirst(s.pending, m) else s.pending)
  }

  /** Each JSON list is duplicate-free. */
  predicate ListsDistinct(s: Store)
  {
    NoDups(s.allowed) && NoDups(s.pending) && NoDups(s.rejected)
  }

  /** An id waits for a decision only while no decision about it exists. */
  predicate PendingUndecided(s: Store)
  {
    forall x :: x in s.pending ==> x !in s.allowed && x !in s.rejected
  }

  /** The template was copied at most once per file name, and only onto
      names that now exist, and only for allowed machines. */
  ghost predicate CopiesOnce(s: Store)
  {
    && NoDups(s.copies)
    && (forall t :: t in s.copies ==> t in s.artifacts)
    && (forall m :: ArtifactName(m) in s.copies ==> m in s.allowed)
  }

  /** Every license file belongs to an allowed machine and holds that
      machine's id and password. */
  ghost predicate LicensesIssued(s: Store)
  {
    forall m :: LicensePath(m) in s.licenses ==>
      m in s.allowed && s.licenses[LicensePath(m)] == LicenseText(m)
  }

  /** The invariant every operation preserves. */
  ghost predicate Inv(s: Store)
  {
    ListsDistinct(s) && PendingUndecided(s) && CopiesOnce(s) && LicensesIssued(s)
  }

  /** The running server: the in-memory view of its files. */
  class Server {
    var allowed: seq<string>
    var pending: seq<string>
    var rejected: seq<string>
    var licenses: map<string, string>
    var artifacts: set<string>
    /** The template copies made so far, in order. The program keeps no such
        log: it exists only to state that each spreadsheet is copied once. */
    ghost var copies: seq<string>

    ghost function State(): Store
      reads this
    {
      Store(allowed, pending, rejected, licenses, artifacts, copies)
    }

    ghost predicate Valid()
      reads this
    {
      Inv(State())
    }

    /** Start on whatever the data folder holds; nothing has been copied yet. */
    constructor (allowedIds: seq<string>, pendingIds: seq<string>, rejectedIds: seq<string>,
                 licenseFiles: map<string, string>, existing: set<string>)
      ensures State() == Store(allowedIds, pendingIds, rejectedIds, licenseFiles, existing, [])
    {
      allowed, pending, rejected := allowedIds, pendingIds, rejectedIds;
      licenses, artifacts, copies := licenseFiles, existing, [];
    }

    /** generate_license */
    method GenerateLicense(req: Request) returns (outcome: Outcome)
      modifies this
      ensures Generate(old(State()), req) == Step(outcome, State())
      ensures old(Valid()) ==> Valid()
    {
      if !Truthy(req.machineId) || !Truthy(req.programId) {
        return MissingField;
      }
      var machineId, programId := req.machineId.value, req.programId.value;
      if programId != ProgramId {
        return InvalidProgram;
      }
      var allowedIds, pendingIds, rejectedIds := allowed, pending, rejected;
      if machineId in rejectedIds {
        return Rejected;
      }
      if machineId !in allowedIds {
        if machineId !in pendingIds {
          pendingIds := pendingIds + [machineId];
          pending := pendingIds;
        }
        if old(Valid()) { InvPreservedByGenerate(old(State()), req); }
        return PendingApproval;
      }
      var password := GeneratePassword(machineId);
      licenses := licenses[LicensePath(machineId) := machineId + "\n" + password];
      var target := ArtifactName(machineId);
      if target !in artifacts {
        artifacts := artifacts + {target};
        copies := copies + [target];
      }
      outcome := Granted(LicenseUrlPrefix + machineId, XlsmUrlPrefix + machineId, InstallerUrl, LauncherUrl);
      if old(Valid()) { InvPreservedByGenerate(old(State()), req); }
    }

    /** approve_id */
    method ApproveId(machineId: string)
      modifies this
      ensures State() == Approve(old(State()), machineId)
      ensures old(Valid()) ==> Valid()
    {
      var allowedIds, pendingIds := allowed, pending;
      if machineId !in allowedIds {
        allowedIds := allowedIds + [machineId];
      }
      if machineId in pendingIds {
        pendingIds := RemoveFirst(pendingIds, machineId);
      }
      allowed, pending := allowedIds, pendingIds;
      if old(Valid()) { InvPreservedByApprove(old(State()), machineId); }
    }

    /** reject_id */
    method RejectId(machineId: string)
      modifies this
      ensures State() == Reject(old(State()), machineId)
      ensures old(Valid()) ==> Valid()
    {
      var rejectedIds, pendingIds := rejected, pending;
      if machineId !in rejectedIds {
        rejectedIds := rejectedIds + [machineId];
      }
      if machineId in pendingIds {
        pendingIds := RemoveFirst(pendingIds, machineId);
      }
      rejected, pending := rejectedIds, pendingIds;
      if old(Valid()) { InvPreservedByReject(old(State()), machineId); }
    }
  }

  /** A license request keeps the invariant. */
  lemma InvPreservedByGenerate(s: Store, req: Request)
    requires Inv(s)
    ensures Inv(Generate(s, req).next)
  {
    if Truthy(req.machineId) && Truthy(req.programId) && req.programId.value == ProgramId {
      var m := req.machineId.value;
      var n := Generate(s, req).next;
      if m !in s.rejected && m !in s.allowed {
        AppendIfAbsentNoDups(s.pending, m);
      } else if m !in s.rejected {
        forall k | LicensePath(k) in n.licenses
          ensures k in n.allowed && n.licenses[LicensePath(k)] == LicenseText(k)
        {
          LicensePathInjective(k, m);
        }
        forall k | ArtifactName(k) in n.copies ensures k in n.allowed {
          ArtifactNameInjective(k, m);
        }
        if ArtifactName(m) !in s.artifacts {
          assert ArtifactName(m) !in s.copies;
          forall i, j | 0 <= i < j < |n.copies| ensures n.copies[i] != n.copies[j] {
            if j == |s.copies| { assert n.copies[i] == s.copies[i]; }
          }
        }
      }
    }
  }

  /** Approval keeps the invariant. */
  lemma InvPreservedByApprove(s: Store, m: string)
    requires Inv(s)
    ensures Inv(Approve(s, m))
  {
    AppendIfAbsentNoDups(s.allowed, m);
    if m in s.pending {
      RemoveFirstNoDups(s.pending, m);
    }
  }

  /** Rejection keeps the invariant. */
  lemma InvPreservedByReject(s: Store, m: string)
    requires Inv(s)
    ensures Inv(Reject(s, m))
  {
    AppendIfAbsentNoDups(s.rejected, m);
    if m in s.pending {
      RemoveFirstNoDups(s.pending, m);
    }
  }
}
