/**
 The life of one build: the pipeline and deployment worker (factory/workers/pipeline_worker.py)
 and the review, retry and stream handlers (factory/api/builds.py) over one stored row.

 A save writes the columns that differ from what its session last loaded or saved, as the
 unit-of-work sessions of the program do (factory/database.py keeps them loaded after a commit).
 */
module BuildLifecycle {
  import opened Common

  datatype Status =
    | Queued | Assembling | Generating | Packaging | Evaluating | Passed
    | PendingReview | PendingClientAction | Failed | Deploying | Deployed

  datatype DeploymentStatus = Pending | Active | AwaitingClient | RolledBack | OtherDeployment

  /** The columns of the build row that matter here. */
  datatype Build = Build(status: Status, logs: seq<string>)

  /** A session's view: what it last loaded or saved, and the build object in hand. */
  datatype Session = Session(loaded: Build, build: Build)

  function Open(row: Build): Session {
    Session(row, row)
  }

  function SaveColumns(row: Build, loaded: Build, build: Build): Build {
    Build(if build.status != loaded.status then build.status else row.status,
          if build.logs != loaded.logs then build.logs else row.logs)
  }

  const RESUMING := "Human review approved. Resuming deployment."
  const APPROVED := "Human review approved. Deployment has been queued."
  const REJECTED := "Human review rejected the build before deployment."
  const RETRIED := "Retry requested from factory portal."
  const AWAITING := "Build passed evaluation and is awaiting required human review before deployment."

  // ----- deployment -----

  /** What an external stage does: it raises, or leaves the deployment in some status. */
  datatype Stage = Raised | Gave(status: DeploymentStatus)

  /** The stages of one deployment; `stored` and `restored` are false when the first or second save of its row raises. */
  datatype Deployment = Deployment(provision: Stage, connect: Stage, stored: bool, activate: Stage, rollbackWorks: bool,
                                   restored: bool)

  /** The status a deployment ends in; None when the rollback itself or the second save raises. */
  function DeploymentResult(d: Deployment): Option<DeploymentStatus> {
    if !d.restored then None
    else if d.provision.Gave? && d.connect.Gave? && d.stored && d.connect.status == AwaitingClient then Some(AwaitingClient)
    else if d.provision.Gave? && d.connect.Gave? && d.stored && d.activate.Gave? then Some(d.activate.status)
    else if d.rollbackWorks then Some(RolledBack)
    else None
  }

  /** No stage that the deployment came to has raised: the client is awaited behind the second, or all three returned. */
  predicate WentThrough(d: Deployment) {
    d.provision.Gave? && d.connect.Gave? && d.stored && (d.connect.status == AwaitingClient || d.activate.Gave?)
  }

  function FinalStatus(d: DeploymentStatus): Status {
    match d
    case Active => Deployed
    case AwaitingClient => PendingClientAction
    case _ => Failed
  }

  const SETTLED: set<Status> := {Deployed, PendingClientAction, Failed}

  class BuildSession {
    var row: Build
    var loaded: Build

    constructor (row: Build)
      ensures this.row == row && loaded == row
    {
      this.row := row;
      this.loaded := row;
    }

    method Save(build: Build)
      modifies this
      ensures row == SaveColumns(old(row), old(loaded), build) && loaded == build
      ensures row.status == build.status || (row.status == old(row).status && build.status == old(loaded).status)
      ensures row.logs == build.logs || (row.logs == old(row).logs && build.logs == old(loaded).logs)
      ensures build.status == old(loaded).status ==> row.status == old(row).status
      ensures build.logs == old(loaded).logs ==> row.logs == old(row).logs
    {
      var status := if build.status != loaded.status then build.status else row.status;
      var logs := if build.logs != loaded.logs then build.logs else row.logs;
      row, loaded := Build(status, logs), build;
    }

    /** The error path of the pipeline: a new session reloads the row and stores the build as failed. */
    method StoreFailed(build: Build) returns (failed: Build)
      modifies this
      ensures failed == build.(status := Failed) && row == failed && loaded == failed
    {
      failed := build.(status := Failed);
      loaded := row;
      Save(failed);
    }

    /** `_deploy_build`, run without interference: it settles the build unless the rollback or the last save raises. */
    method DeployBuild(build: Build, d: Deployment) returns (result: Option<Build>)
      modifies this
      ensures match DeploymentResult(d)
              case Some(s) =>
                && result == Some(build.(status := FinalStatus(s)))
                && loaded == result.value
                && FinalStatus(s) in SETTLED
                && (old(loaded) == build && old(row) == build ==> row == result.value)
              case None => result == None && (old(loaded) == build && old(row) == build ==> row == build.(status := Deploying))
      ensures result == None <==> !d.restored || (!WentThrough(d) && !d.rollbackWorks)
      ensures result.Some? ==>
                && (result.value.status == Deployed <==>
                      WentThrough(d) && d.connect.status != AwaitingClient && d.activate.status == Active)
                && (result.value.status == PendingClientAction <==>
                      WentThrough(d) && (d.connect.status == AwaitingClient || d.activate == Gave(AwaitingClient)))
                && result.value.status in {Deployed, PendingClientAction, Failed}
                && result.value.logs == build.logs
    {
      var current := build.(status := Deploying);
      Save(current);
      var deployment := Pending;
      var raised := true;
      if d.provision.Gave? {
        deployment := d.provision.status;
        if d.connect.Gave? {
          deployment := d.connect.status;
          if d.stored {
            if deployment == AwaitingClient {
              raised := false;
            } else if d.activate.Gave? {
              deployment := d.activate.status;
              raised := false;
            }
          }
        }
      }
      if raised {
        if !d.rollbackWorks {
          return None;
        }
        deployment := RolledBack;
      }
      if !d.restored {
        return None;
      }
      current := current.(status := if deployment == Active then Deployed
                                    else if deployment == AwaitingClient then PendingClientAction
                                    else Failed);
      Save(current);
      result := Some(current);
    }

    /** `resume_deployment` on the row as it stands. */
    method ResumeDeployment(d: Deployment) returns (result: Option<Build>)
      requires loaded == row
      modifies this
      ensures match DeploymentResult(d)
              case Some(s) => row == Build(FinalStatus(s), old(row).logs + [RESUMING]) && result == Some(row)
              case None => row == Build(Deploying, old(row).logs + [RESUMING]) && result == None
    {
      var build := Build(Passed, row.logs + [RESUMING]);
      Save(build);
      result := DeployBuild(build, d);
    }
  }

  // ----- the pipeline -----

  /** A pipeline stage raises, or returns the build with a status and some further log entries. */
  datatype StageResult = StageRaised | StageGave(status: Status, entries: seq<string>)

  datatype Stages = Stages(assemble: StageResult, generate: StageResult, package: StageResult, evaluate: StageResult,
                           correct: StageResult)

  /** Statuses that only review and deployment set. */
  const REVIEW_STATUSES: set<Status> := {PendingReview, PendingClientAction, Deploying, Deployed}

  ghost predicate Ordinary(r: StageResult) {
    r.StageGave? ==> r.status !in REVIEW_STATUSES
  }

  ghost predicate OrdinaryStages(s: Stages) {
    Ordinary(s.assemble) && Ordinary(s.generate) && Ordinary(s.package) && Ordinary(s.evaluate) && Ordinary(s.correct)
  }

  /** Both stages of the generation returned, and the second one did not fail the build. */
  predicate Generated(s: Stages) {
    s.assemble.StageGave? && s.generate.StageGave? && s.generate.status != Failed
  }

  /** How the stages leave the build before the review decision; None when one raises. */
  function StagesResult(s: Stages): Option<Status> {
    if s.assemble.StageRaised? || s.generate.StageRaised? then None
    else if !Generated(s) then Some(Failed)
    else EvaluationResult(s)
  }

  /** How the stages after the generation leave the build. */
  function EvaluationResult(s: Stages): Option<Status> {
    if s.package.StageRaised? || s.evaluate.StageRaised? then None
    else if s.evaluate.status != Failed then Some(s.evaluate.status)
    else if s.correct.StageRaised? then None
    else Some(s.correct.status)
  }

  function Entries(r: StageResult): seq<string> {
    if r.StageGave? then r.entries else []
  }

  /** The log entries of the stages that returned, in order. */
  function StagesLogs(s: Stages): seq<string> {
    GenerationLogs(s) + if Generated(s) then EvaluationLogs(s) else []
  }

  function GenerationLogs(s: Stages): seq<string> {
    if s.assemble.StageRaised? then [] else s.assemble.entries + Entries(s.generate)
  }

  function EvaluationLogs(s: Stages): seq<string> {
    if s.package.StageRaised? then []
    else if s.evaluate.StageRaised? then s.package.entries
    else s.package.entries + s.evaluate.entries + if s.evaluate.status == Failed then Entries(s.correct) else []
  }

  /** What the stages leave, read off the first of them that raises or gives the build up. */
  lemma StagesByCase(s: Stages)
    ensures s.assemble.StageRaised? ==> StagesResult(s) == None && StagesLogs(s) == []
    ensures s.assemble.StageGave? && s.generate.StageRaised? ==> StagesResult(s) == None && StagesLogs(s) == s.assemble.entries
    ensures s.assemble.StageGave? && s.generate.StageGave? ==>
              var generated := s.assemble.entries + s.generate.entries;
              if s.generate.status == Failed then StagesResult(s) == Some(Failed) && StagesLogs(s) == generated
              else if s.package.StageRaised? then StagesResult(s) == None && StagesLogs(s) == generated
              else if s.evaluate.StageRaised? then StagesResult(s) == None && StagesLogs(s) == generated + s.package.entries
              else
                var evaluated := generated + s.package.entries + s.evaluate.entries;
                if s.evaluate.status != Failed then StagesResult(s) == Some(s.evaluate.status) && StagesLogs(s) == evaluated
                else if s.correct.StageRaised? then StagesResult(s) == None && StagesLogs(s) == evaluated
                else StagesResult(s) == Some(s.correct.status) && StagesLogs(s) == evaluated + s.correct.entries
  {
    if Generated(s) && s.package.StageGave? {
      assert s.assemble.entries + s.generate.entries + s.package.entries
             == s.assemble.entries + s.generate.entries + (s.package.entries);
      if s.evaluate.StageGave? {
        EvaluationJoins(s.assemble.entries + s.generate.entries, s.package.entries, s.evaluate.entries, Entries(s.correct));
      }
    }
  }

  lemma EvaluationJoins(a: seq<string>, b: seq<string>, c: seq<string>, d: seq<string>)
    ensures a + (b + c + d) == a + b + c + d && a + (b + c + []) == a + b + c
  {
  }

  class Pipeline {
    const session: BuildSession
    /** Ghost record of the builds handed to `_deploy_build`. */
    ghost var deployed: seq<Build>

    constructor (session: BuildSession)
      ensures this.session == session && deployed == []
    {
      this.session := session;
      this.deployed := [];
    }

    /** The stages up to the review decision; a stage that raises leaves the build of the one before, failed. */
    method RunStages(build: Build, s: Stages) returns (result: Build)
      requires session.loaded == build && session.row == build
      modifies session
      ensures result == Build(if StagesResult(s).Some? then StagesResult(s).value else Failed, build.logs + StagesLogs(s))
      ensures session.row == result && session.loaded == result
    {
      result := RunGeneration(build, s);
      if Generated(s) {
        result := RunEvaluation(result, s);
        assert (build.logs + GenerationLogs(s)) + EvaluationLogs(s) == build.logs + StagesLogs(s);
      } else {
        assert StagesLogs(s) == GenerationLogs(s);
      }
    }

    method RunGeneration(build: Build, s: Stages) returns (result: Build)
      requires session.loaded == build && session.row == build
      modifies session
      ensures result.logs == build.logs + GenerationLogs(s) && (!Generated(s) ==> result.status == Failed)
      ensures session.row == result && session.loaded == result
    {
      result := build;
      if s.assemble.StageRaised? {
        result := session.StoreFailed(result);
        return;
      }
      result := Build(s.assemble.status, result.logs + s.assemble.entries);
      session.Save(result);
      if s.generate.StageRaised? {
        result := session.StoreFailed(result);
        return;
      }
      result := Build(s.generate.status, result.logs + s.generate.entries);
      session.Save(result);
      assert (build.logs + s.assemble.entries) + s.generate.entries == build.logs + GenerationLogs(s);
    }

    method RunEvaluation(build: Build, s: Stages) returns (result: Build)
      requires session.loaded == build && session.row == build
      modifies session
      ensures result.logs == build.logs + EvaluationLogs(s)
      ensures result.status == if EvaluationResult(s).Some? then EvaluationResult(s).value else Failed
      ensures session.row == result && session.loaded == result
    {
      result := build;
      if s.package.StageRaised? {
        result := session.StoreFailed(result);
        return;
      }
      result := Build(s.package.status, result.logs + s.package.entries);
      session.Save(result);
      if s.evaluate.StageRaised? {
        result := session.StoreFailed(result);
        return;
      }
      result := Build(s.evaluate.status, result.logs + s.evaluate.entries);
      session.Save(result);
      assert result.logs == build.logs + (s.package.entries + s.evaluate.entries);
      if result.status == Failed {
        if s.correct.StageRaised? {
          result := session.StoreFailed(result);
          return;
        }
        result := Build(s.correct.status, result.logs + s.correct.entries);
        session.Save(result);
        assert result.logs == build.logs + (s.package.entries + s.evaluate.entries + s.correct.entries);
      }
    }

    /** `start_pipeline` after the blueprint is designed; `build` is the queued build. */
    method Start(build: Build, s: Stages, reviewRequired: bool, d: Deployment) returns (result: Build)
      requires session.loaded == build && session.row == build
      modifies this, session
      ensures deployed == old(deployed) || (!reviewRequired && StagesResult(s) == Some(Passed) && |deployed| == |old(deployed)| + 1)
      ensures match StagesResult(s)
              case None => result.status == Failed
              case Some(Passed) =>
                if reviewRequired then result.status == PendingReview
                else result.status == (if DeploymentResult(d).Some? then FinalStatus(DeploymentResult(d).value) else Failed)
              case Some(other) => result.status == other
      ensures OrdinaryStages(s) ==> (result.status == PendingReview <==> reviewRequired && StagesResult(s) == Some(Passed))
      ensures result.logs
              == build.logs + StagesLogs(s) + if StagesResult(s) == Some(Passed) && reviewRequired then [AWAITING] else []
      ensures session.row == result
    {
      result := RunStages(build, s);
      if result.status == Passed {
        if reviewRequired {
          result := Build(PendingReview, result.logs + [AWAITING]);
          session.Save(result);
        } else {
          deployed := deployed + [result];
          var after := session.DeployBuild(result, d);
          if after.None? {
            result := session.StoreFailed(result);
          } else {
            result := after.value;
          }
        }
      }
    }
  }

  // ----- the API and the workers together -----

  /**
   An API request between reading the row and committing; a queued one has enqueued its job.  A
   retry has written the row by then, and so keeps other sessions from writing it until it commits.
   */
  datatype Request =
    | Approving(session: Session, queued: bool)
    | Rejecting(session: Session)
    | Retrying(session: Session, queued: bool)

  /** The deployment job of an approval, from the queue to its end. */
  datatype Resume =
    | Waiting
    | Reread(session: Session)
    | Resumed(session: Session)
    | InDeployment(session: Session)

  /** A pipeline job: queued with the build it was given, at work in its session, or deploying without review. */
  datatype Job = Awaiting(snapshot: Build) | Working(session: Session) | Releasing(session: Session)

  /** The build a job has in hand. */
  function InHand(job: Job): Build {
    if job.Awaiting? then job.snapshot else job.session.build
  }

  datatype Event =
    | Read(request: nat, status: Status)
    | Approved(request: nat)
    | Committed(request: nat)
    | Took(request: nat)
    | DeployStarted(approval: Option<nat>)
    | Finished(request: nat)

  datatype System = System(
    row: Build,
    requests: map<nat, Request>,
    resumes: map<nat, Resume>,
    pipelines: map<nat, Job>,
    history: seq<Event>)

  datatype Step =
    | BeginApprove(k: nat)
    | Enqueue(k: nat)
    | CommitApprove(k: nat)
    | BeginReject(k: nat)
    | CommitReject(k: nat)
    | BeginRetry(k: nat)
    | EnqueueRetry(k: nat, pipeline: nat)
    | CommitRetry(k: nat)
    | TakeResume(k: nat)
    | SavePassed(k: nat)
    | StartDeploy(k: nat)
    | Finish(k: nat, result: DeploymentStatus)
    | BeginPipeline(pipeline: nat)
    | Stage(pipeline: nat, status: Status, entries: seq<string>)
    | EndPipeline(pipeline: nat)
    | FinishPipeline(pipeline: nat, result: DeploymentStatus)
    | FailPipeline(pipeline: nat)
    | Die(worker: nat)
    | Abandon(k: nat)

  predicate HoldsRow(request: Request) {
    request.Retrying? && request.queued
  }

  /** An uncommitted write of the row is waiting. */
  ghost predicate Locked(sys: System) {
    exists k :: k in sys.requests && HoldsRow(sys.requests[k])
  }

  ghost predicate Unused(sys: System, k: nat) {
    forall e :: e in sys.history && e.Read? ==> e.request != k
  }

  ghost predicate Enabled(sys: System, step: Step) {
    match step
    case BeginApprove(k) => Unused(sys, k)
    case BeginReject(k) => Unused(sys, k)
    case BeginRetry(k) => Unused(sys, k)
    case Enqueue(k) => k in sys.requests && sys.requests[k].Approving? && !sys.requests[k].queued
    case CommitApprove(k) => k in sys.requests && sys.requests[k].Approving? && sys.requests[k].queued && !Locked(sys)
    case CommitReject(k) => k in sys.requests && sys.requests[k].Rejecting? && !Locked(sys)
    case EnqueueRetry(k, p) =>
      k in sys.requests && sys.requests[k].Retrying? && !sys.requests[k].queued && p !in sys.pipelines && !Locked(sys)
    case CommitRetry(k) => k in sys.requests && HoldsRow(sys.requests[k])
    case TakeResume(k) => k in sys.resumes && sys.resumes[k].Waiting?
    case SavePassed(k) => k in sys.resumes && sys.resumes[k].Reread? && !Locked(sys)
    case StartDeploy(k) => k in sys.resumes && sys.resumes[k].Resumed? && !Locked(sys)
    case Finish(k, _) => k in sys.resumes && sys.resumes[k].InDeployment? && !Locked(sys)
    case BeginPipeline(p) => p in sys.pipelines && sys.pipelines[p].Awaiting? && !Locked(sys)
    case Stage(p, status, _) => p in sys.pipelines && sys.pipelines[p].Working? && status !in REVIEW_STATUSES && !Locked(sys)
    case EndPipeline(p) => p in sys.pipelines && sys.pipelines[p].Working? && !Locked(sys)
    case FinishPipeline(p, _) => p in sys.pipelines && sys.pipelines[p].Releasing? && !Locked(sys)
    case FailPipeline(p) => p in sys.pipelines && !Locked(sys)
    case Die(w) => true
    case Abandon(k) => k in sys.requests
  }

  /** A session after saving `build`, and the row it leaves. */
  function Saved(row: Build, s: Session, build: Build): (Build, Session) {
    (SaveColumns(row, s.loaded, build), Session(build, build))
  }

  function Begin(sys: System, k: nat, wanted: Status, request: Request): System {
    sys.(requests := if sys.row.status == wanted then sys.requests[k := request] else sys.requests,
         history := sys.history + [Read(k, sys.row.status)])
  }

  ghost function Take(reviewRequired: bool, sys: System, step: Step): System {
    if !Enabled(sys, step) then sys
    else match step
    case BeginApprove(k) => Begin(sys, k, PendingReview, Approving(Open(sys.row), false))
    case BeginReject(k) => Begin(sys, k, PendingReview, Rejecting(Open(sys.row)))
    case BeginRetry(k) => Begin(sys, k, Failed, Retrying(Open(sys.row), false))
    case Enqueue(k) =>
      sys.(requests := sys.requests[k := sys.requests[k].(queued := true)], resumes := sys.resumes[k := Waiting],
           history := sys.history + [Approved(k)])
    case CommitApprove(k) =>
      var s := sys.requests[k].session;
      sys.(row := Saved(sys.row, s, Build(Deploying, s.build.logs + [APPROVED])).0, requests := sys.requests - {k},
           history := sys.history + [Committed(k)])
    case CommitReject(k) =>
      var s := sys.requests[k].session;
      sys.(row := Saved(sys.row, s, Build(Failed, s.build.logs + [REJECTED])).0, requests := sys.requests - {k},
           history := sys.history + [Committed(k)])
    case EnqueueRetry(k, p) =>
      var s := sys.requests[k].session;
      var snapshot := Build(Queued, s.build.logs + [RETRIED]);
      sys.(requests := sys.requests[k := sys.requests[k].(queued := true)],
           pipelines := sys.pipelines[p := Awaiting(snapshot)])
    case CommitRetry(k) =>
      var s := sys.requests[k].session;
      sys.(row := Saved(sys.row, s, Build(Queued, s.build.logs + [RETRIED])).0, requests := sys.requests - {k},
           history := sys.history + [Committed(k)])
    case TakeResume(k) =>
      sys.(resumes := sys.resumes[k := Reread(Open(sys.row))], history := sys.history + [Took(k)])
    case SavePassed(k) =>
      var s := sys.resumes[k].session;
      var (row, after) := Saved(sys.row, s, Build(Passed, s.build.logs + [RESUMING]));
      sys.(row := row, resumes := sys.resumes[k := Resumed(after)])
    case StartDeploy(k) =>
      var s := sys.resumes[k].session;
      var (row, after) := Saved(sys.row, s, s.build.(status := Deploying));
      sys.(row := row, resumes := sys.resumes[k := InDeployment(after)], history := sys.history + [DeployStarted(Some(k))])
    case Finish(k, result) =>
      var s := sys.resumes[k].session;
      sys.(row := Saved(sys.row, s, s.build.(status := FinalStatus(result))).0, resumes := sys.resumes - {k},
           history := sys.history + [Finished(k)])
    case BeginPipeline(p) =>
      var (row, after) := Saved(sys.row, Open(sys.row), sys.pipelines[p].snapshot);
      sys.(row := row, pipelines := sys.pipelines[p := Working(after)])
    case Stage(p, status, entries) =>
      var s := sys.pipelines[p].session;
      var (row, after) := Saved(sys.row, s, Build(status, s.build.logs + entries));
      sys.(row := row, pipelines := sys.pipelines[p := Working(after)])
    case EndPipeline(p) =>
      var s := sys.pipelines[p].session;
      if s.build.status != Passed then sys.(pipelines := sys.pipelines - {p})
      else if reviewRequired then
        sys.(row := Saved(sys.row, s, Build(PendingReview, s.build.logs + [AWAITING])).0, pipelines := sys.pipelines - {p})
      else
        var (row, after) := Saved(sys.row, s, s.build.(status := Deploying));
        sys.(row := row, pipelines := sys.pipelines[p := Releasing(after)], history := sys.history + [DeployStarted(None)])
    case FinishPipeline(p, result) =>
      var s := sys.pipelines[p].session;
      sys.(row := Saved(sys.row, s, s.build.(status := FinalStatus(result))).0, pipelines := sys.pipelines - {p})
    case FailPipeline(p) =>
      sys.(row := Build(Failed, InHand(sys.pipelines[p]).logs), pipelines := sys.pipelines - {p})
    case Die(w) => sys.(resumes := sys.resumes - {w}, pipelines := sys.pipelines - {w})
    case Abandon(k) => sys.(requests := sys.requests - {k})
  }

  ghost function Run(reviewRequired: bool, sys: System, steps: seq<Step>): System
    decreases |steps|
  {
    if steps == [] then sys else Run(reviewRequired, Take(reviewRequired, sys, steps[0]), steps[1..])
  }

  /** Before any request: the row, and the jobs commissioned so far. */
  function Fresh(row: Build, jobs: map<nat, Job>): System {
    System(row, map[], map[], jobs, [])
  }

  // ----- every deployment has its own approval -----

  ghost predicate Before(h: seq<Event>, first: Event, second: Event) {
    forall i :: 0 <= i < |h| && h[i] == second ==> exists j :: 0 <= j < i && h[j] == first
  }

  ghost predicate Once(h: seq<Event>, e: Event) {
    forall i, j :: 0 <= i < |h| && 0 <= j < |h| && h[i] == e && h[j] == e ==> i == j
  }

  /** The history and the work in progress of one approval request. */
  ghost predicate TraceOf(sys: System, k: nat) {
    && Before(sys.history, Read(k, PendingReview), Approved(k))
    && Before(sys.history, Approved(k), DeployStarted(Some(k)))
    && Once(sys.history, DeployStarted(Some(k)))
    && InProgress(sys.history, if k in sys.requests then Some(sys.requests[k]) else None,
                  if k in sys.resumes then Some(sys.resumes[k]) else None, k)
  }

  /** What the history holds while the request and its job are at some point. */
  ghost predicate InProgress(h: seq<Event>, request: Option<Request>, resume: Option<Resume>, k: nat) {
    && (request.Some? && request.value.Approving? ==>
          Read(k, PendingReview) in h && (request.value.queued <==> Approved(k) in h))
    && (resume.Some? ==> Approved(k) in h)
    && (resume.Some? && !resume.value.InDeployment? ==> DeployStarted(Some(k)) !in h)
    && (DeployStarted(Some(k)) in h ==> Approved(k) in h)
    && (Approved(k) in h ==> Read(k, PendingReview) in h)
  }

  ghost predicate Traced(reviewRequired: bool, sys: System) {
    && (forall k :: TraceOf(sys, k))
    && (reviewRequired ==> DeployStarted(None) !in sys.history)
  }

  lemma AppendKeepsBefore(h: seq<Event>, e: Event, first: Event, second: Event)
    requires Before(h, first, second) && (e == second ==> first in h)
    ensures Before(h + [e], first, second)
  {
    var after := h + [e];
    forall i | 0 <= i < |after| && after[i] == second ensures exists j :: 0 <= j < i && after[j] == first {
      var j :| 0 <= j < |h| && j < i && h[j] == first;
      assert after[j] == first;
    }
  }

  lemma AppendKeepsOnce(h: seq<Event>, e: Event, x: Event)
    requires Once(h, x) && (e == x ==> x !in h)
    ensures Once(h + [e], x)
  {
    assert forall i :: 0 <= i < |h| ==> (h + [e])[i] == h[i] && h[i] in h;
  }

  /** Appending an event keeps the order of the others. */
  lemma AppendKeepsOrder(sys: System, e: Event, k: nat)
    requires TraceOf(sys, k)
    requires e == Approved(k) ==> Read(k, PendingReview) in sys.history
    requires e == DeployStarted(Some(k)) ==> Approved(k) in sys.history && e !in sys.history
    ensures var h := sys.history + [e];
            && Before(h, Read(k, PendingReview), Approved(k))
            && Before(h, Approved(k), DeployStarted(Some(k)))
            && Once(h, DeployStarted(Some(k)))
            && forall x :: x in h <==> x in sys.history || x == e
  {
    AppendKeepsBefore(sys.history, e, Read(k, PendingReview), Approved(k));
    AppendKeepsBefore(sys.history, e, Approved(k), DeployStarted(Some(k)));
    AppendKeepsOnce(sys.history, e, DeployStarted(Some(k)));
  }

  lemma BeginKeepsTrace(sys: System, b: nat, wanted: Status, request: Request, k: nat)
    requires TraceOf(sys, k) && Unused(sys, b)
    requires request.Approving? ==> wanted == PendingReview && !request.queued
    ensures TraceOf(Begin(sys, b, wanted, request), k)
  {
    AppendKeepsOrder(sys, Read(b, sys.row.status), k);
    if b == k {
      assert Read(k, PendingReview) !in sys.history;
    }
  }

  lemma EnqueueKeepsTrace(reviewRequired: bool, sys: System, b: nat, k: nat)
    requires TraceOf(sys, k) && TraceOf(sys, b) && Enabled(sys, Enqueue(b))
    ensures TraceOf(Take(reviewRequired, sys, Enqueue(b)), k)
  {
    AppendKeepsOrder(sys, Approved(b), k);
  }

  lemma DeployInProgress(h: seq<Event>, request: Option<Request>, resume: Option<Resume>, resume': Option<Resume>, b: nat, k: nat)
    requires InProgress(h, request, resume, k) && Approved(b) in h
    requires if b == k then resume'.Some? && resume'.value.InDeployment? else resume' == resume
    ensures InProgress(h + [DeployStarted(Some(b))], request, resume', k)
  {
  }

  lemma StartDeployKeepsTrace(reviewRequired: bool, sys: System, b: nat, k: nat)
    requires TraceOf(sys, k) && TraceOf(sys, b) && Enabled(sys, StartDeploy(b))
    ensures TraceOf(Take(reviewRequired, sys, StartDeploy(b)), k)
  {
    AppendKeepsOrder(sys, DeployStarted(Some(b)), k);
    var after := Take(reviewRequired, sys, StartDeploy(b));
    assert after.requests == sys.requests && after.history == sys.history + [DeployStarted(Some(b))];
    assert after.resumes == sys.resumes[b := after.resumes[b]] && after.resumes[b].InDeployment?;
    DeployInProgress(sys.history, if k in sys.requests then Some(sys.requests[k]) else None,
                     if k in sys.resumes then Some(sys.resumes[k]) else None,
                     if k in after.resumes then Some(after.resumes[k]) else None, b, k);
  }

  /** The other steps only end or advance requests and jobs, and record events that no approval depends on. */
  lemma OtherStepKeepsTrace(reviewRequired: bool, sys: System, step: Step, k: nat)
    requires TraceOf(sys, k) && Enabled(sys, step)
    requires !step.BeginApprove? && !step.BeginReject? && !step.BeginRetry? && !step.Enqueue? && !step.StartDeploy?
    ensures TraceOf(Take(reviewRequired, sys, step), k)
  {
    var after := Take(reviewRequired, sys, step);
    if after.history != sys.history {
      var e := after.history[|sys.history|];
      AppendKeepsOrder(sys, e, k);
      assert after.history == sys.history + [e];
    }
  }

  lemma StepKeepsTrace(reviewRequired: bool, sys: System, step: Step, k: nat)
    requires Traced(reviewRequired, sys)
    ensures TraceOf(Take(reviewRequired, sys, step), k)
  {
    assert TraceOf(sys, k);
    if Enabled(sys, step) {
      match step
      case BeginApprove(b) => BeginKeepsTrace(sys, b, PendingReview, Approving(Open(sys.row), false), k);
      case BeginReject(b) => BeginKeepsTrace(sys, b, PendingReview, Rejecting(Open(sys.row)), k);
      case BeginRetry(b) => BeginKeepsTrace(sys, b, Failed, Retrying(Open(sys.row), false), k);
      case Enqueue(b) => assert TraceOf(sys, b); EnqueueKeepsTrace(reviewRequired, sys, b, k);
      case StartDeploy(b) => assert TraceOf(sys, b); StartDeployKeepsTrace(reviewRequired, sys, b, k);
      case _ => OtherStepKeepsTrace(reviewRequired, sys, step, k);
    }
  }

  lemma {:induction false} RunKeepsTrace(reviewRequired: bool, sys: System, steps: seq<Step>)
    requires Traced(reviewRequired, sys)
    ensures Traced(reviewRequired, Run(reviewRequired, sys, steps))
    decreases |steps|
  {
    if steps != [] {
      forall k ensures TraceOf(Take(reviewRequired, sys, steps[0]), k) {
        StepKeepsTrace(reviewRequired, sys, steps[0], k);
      }
      RunKeepsTrace(reviewRequired, Take(reviewRequired, sys, steps[0]), steps[1..]);
    }
  }

  /**
   With human review required, under any interleaving of requests, pipelines and workers, each run
   of `_deploy_build` comes after an approval of its own, and that approval after its request read
   the build pending review.
   */
  lemma EveryDeploymentIsApproved(row: Build, jobs: map<nat, Job>, steps: seq<Step>, i: nat)
    requires i < |Run(true, Fresh(row, jobs), steps).history|
    requires Run(true, Fresh(row, jobs), steps).history[i].DeployStarted?
    ensures var h := Run(true, Fresh(row, jobs), steps).history;
            exists k, a, r ::
              && 0 <= r < a < i
              && h[r] == Read(k, PendingReview) && h[a] == Approved(k) && h[i] == DeployStarted(Some(k))
              && forall j :: 0 <= j < |h| && j != i ==> h[j] != DeployStarted(Some(k))
  {
    RunKeepsTrace(true, Fresh(row, jobs), steps);
    var sys := Run(true, Fresh(row, jobs), steps);
    var h := sys.history;
    assert h[i] != DeployStarted(None);
    var k := h[i].approval.value;
    assert TraceOf(sys, k);
    var a :| 0 <= a < i && h[a] == Approved(k);
    var r :| 0 <= r < a && h[r] == Read(k, PendingReview);
  }

  /** Without required review a passed pipeline deploys with no approval at all. */
  lemma UnreviewedPipelineDeploys(row: Build, p: nat, s: Session)
    requires s.build.status == Passed
    ensures Take(false, Fresh(row, map[p := Working(s)]), EndPipeline(p)).history == [DeployStarted(None)]
  {
  }

  // ----- the race between the approval's commit and its worker -----

  ghost predicate Precedes(h: seq<Event>, a: Event, b: Event) {
    exists i, j :: 0 <= i < j < |h| && h[i] == a && h[j] == b
  }

  lemma PrecedesAppend(h: seq<Event>, e: Event, a: Event, b: Event)
    ensures Precedes(h + [e], a, b) <==> Precedes(h, a, b) || (e == b && a in h)
  {
    var after := h + [e];
    if Precedes(after, a, b) {
      var i, j :| 0 <= i < j < |after| && after[i] == a && after[j] == b;
      assert i < |h| && h[i] == a;
      if j < |h| {
        assert h[j] == b;
      }
    }
    if Precedes(h, a, b) {
      var i, j :| 0 <= i < j < |h| && h[i] == a && h[j] == b;
      assert after[i] == a && after[j] == b;
    }
    if e == b && a in h {
      var i :| 0 <= i < |h| && h[i] == a;
      assert after[i] == a && after[|h|] == b;
    }
  }

  /** The steps of one approval request and of its job. */
  predicate Own(step: Step, k: nat) {
    step in {Enqueue(k), CommitApprove(k), TakeResume(k), SavePassed(k), StartDeploy(k)} || (step.Finish? && step.k == k)
  }

  /** The system just after request `k` read a build pending review, with nothing else in progress. */
  function UnderReview(k: nat, logs: seq<string>): System {
    var row := Build(PendingReview, logs);
    System(row, map[k := Approving(Open(row), false)], map[], map[], [Read(k, PendingReview)])
  }

  /** The approval committed before its worker read the row. */
  ghost predicate Early(sys: System, k: nat) {
    Precedes(sys.history, Committed(k), Took(k))
  }

  /** The approval committed after its worker's last save. */
  ghost predicate Late(sys: System, k: nat) {
    Precedes(sys.history, Finished(k), Committed(k))
  }

  /** The logs the worker holds once it has added its entry. */
  ghost function WorkerLogs(sys: System, k: nat, logs: seq<string>): seq<string> {
    if Early(sys, k) then logs + [APPROVED] + [RESUMING] else logs + [RESUMING]
  }

  ghost predicate RowDuringJob(sys: System, k: nat, logs: seq<string>, mine: Build) {
    sys.row == mine || (Committed(k) in sys.history && !Early(sys, k) && sys.row == Build(Deploying, logs + [APPROVED]))
  }

  /** How far each side is, and what the row and the worker hold as a result. */
  ghost predicate RaceState(sys: System, k: nat, logs: seq<string>) {
    var reviewed := Build(PendingReview, logs);
    var approved := Build(Deploying, logs + [APPROVED]);
    var committed := Committed(k) in sys.history;
    var took := Took(k) in sys.history;
    var finished := Finished(k) in sys.history;
    && (if committed then k !in sys.requests
        else k in sys.requests && sys.requests[k].Approving? && sys.requests[k].session == Open(reviewed)
             && (k in sys.resumes || finished <==> sys.requests[k].queued))
    && !(Late(sys, k) && Early(sys, k))
    && (Late(sys, k) ==> finished && committed) && (Early(sys, k) ==> took && committed)
    && (committed && took && !Early(sys, k) ==> Precedes(sys.history, Took(k), Committed(k)))
    && if k in sys.resumes then
         && !finished
         && match sys.resumes[k]
            case Waiting => !took && sys.row == (if committed then approved else reviewed)
            case Reread(s) =>
              took && s == Open(if Early(sys, k) then approved else reviewed) && sys.row == (if committed then approved else reviewed)
            case Resumed(s) =>
              var mine := Build(Passed, WorkerLogs(sys, k, logs));
              took && s == Session(mine, mine) && RowDuringJob(sys, k, logs, mine)
            case InDeployment(s) =>
              var mine := Build(Deploying, WorkerLogs(sys, k, logs));
              took && s == Session(mine, mine) && RowDuringJob(sys, k, logs, mine)
       else if finished then
         took && if Late(sys, k) then sys.row == approved
                 else
                   && sys.row.status in SETTLED
                   && (sys.row.logs == WorkerLogs(sys, k, logs)
                       || (committed && !Early(sys, k) && sys.row.logs == logs + [APPROVED]))
       else
         !committed && !took && sys.row == reviewed
  }

  /** How an appended event changes the order facts the race depends on. */
  lemma OrderAppend(h: seq<Event>, e: Event, k: nat)
    ensures var after := h + [e];
            && (forall x :: x in after <==> x in h || x == e)
            && (Precedes(after, Committed(k), Took(k)) <==>
                  Precedes(h, Committed(k), Took(k)) || (e == Took(k) && Committed(k) in h))
            && (Precedes(after, Finished(k), Committed(k)) <==>
                  Precedes(h, Finished(k), Committed(k)) || (e == Committed(k) && Finished(k) in h))
            && (Precedes(after, Took(k), Committed(k)) <==>
                  Precedes(h, Took(k), Committed(k)) || (e == Committed(k) && Took(k) in h))
  {
    PrecedesAppend(h, e, Committed(k), Took(k));
    PrecedesAppend(h, e, Finished(k), Committed(k));
    PrecedesAppend(h, e, Took(k), Committed(k));
  }

  lemma EnqueueKeepsRace(sys: System, k: nat, logs: seq<string>)
    requires RaceState(sys, k, logs) && Enabled(sys, Enqueue(k))
    ensures RaceState(Take(true, sys, Enqueue(k)), k, logs)
  {
    OrderAppend(sys.history, Approved(k), k);
  }

  lemma CommitKeepsRace(sys: System, k: nat, logs: seq<string>)
    requires RaceState(sys, k, logs) && Enabled(sys, CommitApprove(k))
    ensures RaceState(Take(true, sys, CommitApprove(k)), k, logs)
  {
    OrderAppend(sys.history, Committed(k), k);
    var after := Take(true, sys, CommitApprove(k));
    assert logs + [APPROVED] != logs;
    assert after.row == Build(Deploying, logs + [APPROVED]);
    assert after.history == sys.history + [Committed(k)] && after.resumes == sys.resumes;
  }

  lemma TakeKeepsRace(sys: System, k: nat, logs: seq<string>)
    requires RaceState(sys, k, logs) && Enabled(sys, TakeResume(k))
    ensures RaceState(Take(true, sys, TakeResume(k)), k, logs)
  {
    OrderAppend(sys.history, Took(k), k);
  }

  lemma SavePassedKeepsRace(sys: System, k: nat, logs: seq<string>)
    requires RaceState(sys, k, logs) && Enabled(sys, SavePassed(k))
    ensures RaceState(Take(true, sys, SavePassed(k)), k, logs)
  {
    assert logs + [RESUMING] != logs && logs + [APPROVED] + [RESUMING] != logs + [APPROVED];
    var after := Take(true, sys, SavePassed(k));
    assert after.history == sys.history && after.requests == sys.requests;
    assert after.row == Build(Passed, WorkerLogs(sys, k, logs));
  }

  lemma StartDeployKeepsRace(sys: System, k: nat, logs: seq<string>)
    requires RaceState(sys, k, logs) && Enabled(sys, StartDeploy(k))
    ensures RaceState(Take(true, sys, StartDeploy(k)), k, logs)
  {
    OrderAppend(sys.history, DeployStarted(Some(k)), k);
    var after := Take(true, sys, StartDeploy(k));
    assert after.row.status == Deploying && after.row.logs == sys.row.logs;
    assert after.history == sys.history + [DeployStarted(Some(k))] && after.requests == sys.requests;
  }

  lemma FinishKeepsRace(sys: System, k: nat, logs: seq<string>, result: DeploymentStatus)
    requires RaceState(sys, k, logs) && Enabled(sys, Finish(k, result))
    ensures RaceState(Take(true, sys, Finish(k, result)), k, logs)
  {
    OrderAppend(sys.history, Finished(k), k);
    var after := Take(true, sys, Finish(k, result));
    assert FinalStatus(result) in SETTLED;
    assert after.row.status == FinalStatus(result) && after.row.logs == sys.row.logs;
    assert after.history == sys.history + [Finished(k)] && after.requests == sys.requests;
  }

  lemma {:induction false} RunKeepsRace(sys: System, k: nat, logs: seq<string>, steps: seq<Step>)
    requires RaceState(sys, k, logs) && forall s :: s in steps ==> Own(s, k)
    ensures RaceState(Run(true, sys, steps), k, logs)
    decreases |steps|
  {
    if steps != [] {
      assert steps[0] in steps;
      if Enabled(sys, steps[0]) {
        match steps[0]
        case Enqueue(_) => EnqueueKeepsRace(sys, k, logs);
        case CommitApprove(_) => CommitKeepsRace(sys, k, logs);
        case TakeResume(_) => TakeKeepsRace(sys, k, logs);
        case SavePassed(_) => SavePassedKeepsRace(sys, k, logs);
        case StartDeploy(_) => StartDeployKeepsRace(sys, k, logs);
        case Finish(_, result) => FinishKeepsRace(sys, k, logs, result);
      }
      RunKeepsRace(Take(true, sys, steps[0]), k, logs, steps[1..]);
    }
  }

  /**
   Whatever the interleaving of an approval and its worker, once both are done the build has
   settled exactly when the commit did not come after the worker's last save (otherwise it stays
   deploying), and its log keeps both entries exactly when the commit came before the worker's read.
   */
  lemma ApprovalRaceOutcome(k: nat, logs: seq<string>, steps: seq<Step>)
    requires forall s :: s in steps ==> Own(s, k)
    requires Committed(k) in Run(true, UnderReview(k, logs), steps).history
    requires Finished(k) in Run(true, UnderReview(k, logs), steps).history
    ensures var sys := Run(true, UnderReview(k, logs), steps);
            && (sys.row.status in SETTLED <==> !Late(sys, k))
            && (Late(sys, k) ==> sys.row == Build(Deploying, logs + [APPROVED]))
            && (sys.row.logs == logs + [APPROVED] + [RESUMING] <==> Early(sys, k))
            && (!Early(sys, k) ==> sys.row.logs in {logs + [APPROVED], logs + [RESUMING]})
  {
    RunKeepsRace(UnderReview(k, logs), k, logs, steps);
    var sys := Run(true, UnderReview(k, logs), steps);
    assert |logs + [APPROVED] + [RESUMING]| == |logs| + 2;
    assert |logs + [APPROVED]| == |logs| + 1 && |logs + [RESUMING]| == |logs| + 1;
  }

  /** A run in which the approval commits after its worker's last save. */
  function LateSteps(k: nat, result: DeploymentStatus): seq<Step> {
    [Enqueue(k), TakeResume(k)] + [SavePassed(k), StartDeploy(k)] + [Finish(k, result), CommitApprove(k)]
  }

  lemma RunStep(reviewRequired: bool, sys: System, step: Step, rest: seq<Step>)
    ensures Run(reviewRequired, sys, [step] + rest) == Run(reviewRequired, Take(reviewRequired, sys, step), rest)
  {
    assert ([step] + rest)[1..] == rest;
  }

  lemma {:induction false} RunAppend(reviewRequired: bool, sys: System, a: seq<Step>, b: seq<Step>)
    ensures Run(reviewRequired, sys, a + b) == Run(reviewRequired, Run(reviewRequired, sys, a), b)
    decreases |a|
  {
    if a == [] {
      assert a + b == b;
    } else {
      assert (a + b)[1..] == a[1..] + b;
      RunAppend(reviewRequired, Take(reviewRequired, sys, a[0]), a[1..], b);
    }
  }

  lemma RunTwo(reviewRequired: bool, sys: System, first: Step, second: Step)
    ensures Run(reviewRequired, sys, [first, second]) == Take(reviewRequired, Take(reviewRequired, sys, first), second)
  {
    assert [first, second] == [first] + [second];
    RunStep(reviewRequired, sys, first, [second]);
    RunStep(reviewRequired, Take(reviewRequired, sys, first), second, []);
    assert [second] + [] == [second];
  }

  lemma JobIsTaken(k: nat, logs: seq<string>)
    ensures var row := Build(PendingReview, logs);
            Run(true, UnderReview(k, logs), [Enqueue(k), TakeResume(k)])
            == System(row, map[k := Approving(Open(row), true)], map[k := Reread(Open(row))], map[],
                      [Read(k, PendingReview), Approved(k), Took(k)])
  {
    var row := Build(PendingReview, logs);
    RunTwo(true, UnderReview(k, logs), Enqueue(k), TakeResume(k));
    var s1 := Take(true, UnderReview(k, logs), Enqueue(k));
    assert s1 == System(row, map[k := Approving(Open(row), true)], map[k := Waiting], map[], [Read(k, PendingReview), Approved(k)]);
    var s2 := Take(true, s1, TakeResume(k));
    assert s2.resumes == map[k := Reread(Open(row))];
  }

  /** The two saves a resumed job starts with. */
  lemma DeploymentStarts(sys: System, k: nat, was: Build)
    requires k in sys.resumes && sys.resumes[k] == Reread(Open(was)) && sys.row == was && was.status != Passed && !Locked(sys)
    ensures var row := Build(Deploying, was.logs + [RESUMING]);
            Run(true, sys, [SavePassed(k), StartDeploy(k)])
            == sys.(row := row, resumes := sys.resumes[k := InDeployment(Open(row))], history := sys.history + [DeployStarted(Some(k))])
  {
    RunTwo(true, sys, SavePassed(k), StartDeploy(k));
    var passed := Build(Passed, was.logs + [RESUMING]);
    assert was.logs + [RESUMING] != was.logs;
    var s1 := Take(true, sys, SavePassed(k));
    assert s1 == sys.(row := passed, resumes := sys.resumes[k := Resumed(Open(passed))]);
    var deploying := passed.(status := Deploying);
    assert s1.resumes[k := InDeployment(Open(deploying))] == sys.resumes[k := InDeployment(Open(deploying))];
  }

  /** The worker's part of that run, up to the start of the deployment. */
  lemma LateStart(k: nat, logs: seq<string>)
    ensures var row := Build(Deploying, logs + [RESUMING]);
            Run(true, UnderReview(k, logs), [Enqueue(k), TakeResume(k)] + [SavePassed(k), StartDeploy(k)])
            == System(row, map[k := Approving(Open(Build(PendingReview, logs)), true)], map[k := InDeployment(Open(row))], map[],
                      [Read(k, PendingReview), Approved(k), Took(k), DeployStarted(Some(k))])
  {
    RunAppend(true, UnderReview(k, logs), [Enqueue(k), TakeResume(k)], [SavePassed(k), StartDeploy(k)]);
    JobIsTaken(k, logs);
    var sys := Run(true, UnderReview(k, logs), [Enqueue(k), TakeResume(k)]);
    DeploymentStarts(sys, k, Build(PendingReview, logs));
    var row := Build(Deploying, logs + [RESUMING]);
    assert sys.resumes[k := InDeployment(Open(row))] == map[k := InDeployment(Open(row))];
    assert [Read(k, PendingReview), Approved(k), Took(k)] + [DeployStarted(Some(k))]
           == [Read(k, PendingReview), Approved(k), Took(k), DeployStarted(Some(k))];
  }

  lemma CommitIsLate(sys: System, k: nat, logs: seq<string>, result: DeploymentStatus)
    requires k in sys.resumes && sys.resumes[k].InDeployment?
    requires sys.requests == map[k := Approving(Open(Build(PendingReview, logs)), true)]
    ensures var after := Run(true, sys, [Finish(k, result), CommitApprove(k)]);
            && after.row == Build(Deploying, logs + [APPROVED])
            && after.requests == map[] && after.resumes == sys.resumes - {k}
            && after.history == sys.history + [Finished(k), Committed(k)]
  {
    RunTwo(true, sys, Finish(k, result), CommitApprove(k));
    assert logs + [APPROVED] != logs;
    assert sys.history + [Finished(k)] + [Committed(k)] == sys.history + [Finished(k), Committed(k)];
  }

  /** The late order happens, and leaves a build that is finished but stored as deploying, without the worker's entry. */
  lemma LateCommitHappens(k: nat, logs: seq<string>, result: DeploymentStatus)
    ensures var sys := Run(true, UnderReview(k, logs), LateSteps(k, result));
            && Late(sys, k) && Committed(k) in sys.history && Finished(k) in sys.history
            && sys.row == Build(Deploying, logs + [APPROVED]) && sys.requests == map[] && sys.resumes == map[]
  {
    LateStart(k, logs);
    var first := [Enqueue(k), TakeResume(k)] + [SavePassed(k), StartDeploy(k)];
    RunAppend(true, UnderReview(k, logs), first, [Finish(k, result), CommitApprove(k)]);
    var s4 := Run(true, UnderReview(k, logs), first);
    CommitIsLate(s4, k, logs, result);
    var h := Run(true, UnderReview(k, logs), LateSteps(k, result)).history;
    assert h[4] == Finished(k) && h[5] == Committed(k);
  }

  // ----- who decides the status, over arbitrary runs -----

  /** The status the session of an enabled step holds, and the one it saves; None when it saves nothing. */
  ghost function Saves(reviewRequired: bool, sys: System, step: Step): Option<(Status, Status)>
    requires Enabled(sys, step)
  {
    match step
    case CommitApprove(k) => Some((sys.requests[k].session.loaded.status, Deploying))
    case CommitReject(k) => Some((sys.requests[k].session.loaded.status, Failed))
    case CommitRetry(k) => Some((sys.requests[k].session.loaded.status, Queued))
    case SavePassed(k) => Some((sys.resumes[k].session.loaded.status, Passed))
    case StartDeploy(k) => Some((sys.resumes[k].session.loaded.status, Deploying))
    case Finish(k, result) => Some((sys.resumes[k].session.loaded.status, FinalStatus(result)))
    case BeginPipeline(p) => Some((sys.row.status, sys.pipelines[p].snapshot.status))
    case Stage(p, status, _) => Some((sys.pipelines[p].session.loaded.status, status))
    case EndPipeline(p) =>
      if sys.pipelines[p].session.build.status != Passed then None
      else Some((sys.pipelines[p].session.loaded.status, if reviewRequired then PendingReview else Deploying))
    case FinishPipeline(p, result) => Some((sys.pipelines[p].session.loaded.status, FinalStatus(result)))
    case FailPipeline(p) => Some((sys.row.status, Failed))
    case _ => None
  }

  /** The status of the last save that changed what its own session held, and `status` if there was none. */
  ghost function LastWord(reviewRequired: bool, sys: System, steps: seq<Step>, status: Status): Status
    decreases |steps|
  {
    if steps == [] then status
    else
      var save := if Enabled(sys, steps[0]) then Saves(reviewRequired, sys, steps[0]) else None;
      LastWord(reviewRequired, Take(reviewRequired, sys, steps[0]), steps[1..],
               if save.Some? && save.value.0 != save.value.1 then save.value.1 else status)
  }

  lemma StepSaves(reviewRequired: bool, sys: System, step: Step)
    requires Enabled(sys, step)
    ensures var save := Saves(reviewRequired, sys, step);
            Take(reviewRequired, sys, step).row.status
            == if save.Some? && save.value.0 != save.value.1 then save.value.1 else sys.row.status
  {
  }

  /**
   From every state and over every run, the status stored is that of the last save that changed
   the status its own session held, whatever other sessions have stored in between.
   */
  lemma {:induction false} LastSaveDecides(reviewRequired: bool, sys: System, steps: seq<Step>)
    ensures Run(reviewRequired, sys, steps).row.status == LastWord(reviewRequired, sys, steps, sys.row.status)
    decreases |steps|
  {
    if steps != [] {
      if Enabled(sys, steps[0]) {
        StepSaves(reviewRequired, sys, steps[0]);
      }
      LastSaveDecides(reviewRequired, Take(reviewRequired, sys, steps[0]), steps[1..]);
    }
  }

  /** Requests hold the status they act on, and at most one of them holds the row. */
  ghost predicate RequestsKnown(requests: map<nat, Request>) {
    && (forall k :: k in requests ==> requests[k].session.loaded.status == if requests[k].Retrying? then Failed else PendingReview)
    && (forall k, j :: k in requests && j in requests && HoldsRow(requests[k]) && HoldsRow(requests[j]) ==> k == j)
  }

  /** So do deployment jobs from their first save on. */
  ghost predicate ResumesKnown(resumes: map<nat, Resume>) {
    && (forall k :: k in resumes && resumes[k].Resumed? ==> resumes[k].session.loaded.status == Passed)
    && (forall k :: k in resumes && resumes[k].InDeployment? ==> resumes[k].session.loaded.status == Deploying)
  }

  /** Pipelines are queued with queued builds. */
  ghost predicate JobsKnown(jobs: map<nat, Job>) {
    && (forall p :: p in jobs && jobs[p].Awaiting? ==> jobs[p].snapshot.status == Queued)
    && (forall p :: p in jobs && jobs[p].Releasing? ==> jobs[p].session.loaded.status == Deploying)
  }

  ghost predicate SessionsKnown(sys: System) {
    RequestsKnown(sys.requests) && ResumesKnown(sys.resumes) && JobsKnown(sys.pipelines)
  }

  lemma BeginKeepsSessions(reviewRequired: bool, sys: System, step: Step)
    requires SessionsKnown(sys) && (step.BeginApprove? || step.BeginReject? || step.BeginRetry?)
    ensures SessionsKnown(Take(reviewRequired, sys, step))
  {
  }

  lemma EnqueueKeepsSessions(reviewRequired: bool, sys: System, step: Step)
    requires SessionsKnown(sys) && (step.Enqueue? || step.EnqueueRetry?)
    ensures SessionsKnown(Take(reviewRequired, sys, step))
  {
  }

  lemma CommitKeepsSessions(reviewRequired: bool, sys: System, step: Step)
    requires SessionsKnown(sys) && (step.CommitApprove? || step.CommitReject? || step.CommitRetry? || step.Abandon?)
    ensures SessionsKnown(Take(reviewRequired, sys, step))
  {
  }

  lemma ResumeStepKeepsSessions(reviewRequired: bool, sys: System, step: Step)
    requires SessionsKnown(sys)
    requires step.TakeResume? || step.SavePassed? || step.StartDeploy? || step.Finish?
    ensures SessionsKnown(Take(reviewRequired, sys, step))
  {
  }

  lemma WorkKeepsSessions(reviewRequired: bool, sys: System, step: Step)
    requires SessionsKnown(sys) && (step.BeginPipeline? || step.Stage? || step.Die?)
    ensures SessionsKnown(Take(reviewRequired, sys, step))
  {
  }

  lemma EndKeepsSessions(reviewRequired: bool, sys: System, step: Step)
    requires SessionsKnown(sys) && (step.EndPipeline? || step.FinishPipeline? || step.FailPipeline?)
    ensures SessionsKnown(Take(reviewRequired, sys, step))
  {
  }

  lemma StepKeepsSessions(reviewRequired: bool, sys: System, step: Step)
    requires SessionsKnown(sys)
    ensures SessionsKnown(Take(reviewRequired, sys, step))
  {
    if step.TakeResume? || step.SavePassed? || step.StartDeploy? || step.Finish? {
      ResumeStepKeepsSessions(reviewRequired, sys, step);
    } else if step.BeginPipeline? || step.Stage? || step.Die? {
      WorkKeepsSessions(reviewRequired, sys, step);
    } else if step.EndPipeline? || step.FinishPipeline? || step.FailPipeline? {
      EndKeepsSessions(reviewRequired, sys, step);
    } else if step.BeginApprove? || step.BeginReject? || step.BeginRetry? {
      BeginKeepsSessions(reviewRequired, sys, step);
    } else if step.Enqueue? || step.EnqueueRetry? {
      EnqueueKeepsSessions(reviewRequired, sys, step);
    } else {
      CommitKeepsSessions(reviewRequired, sys, step);
    }
  }

  /** Runs that start so stay so; a build with queued jobs alone does. */
  lemma {:induction false} SessionsStayKnown(reviewRequired: bool, sys: System, steps: seq<Step>)
    requires SessionsKnown(sys)
    ensures SessionsKnown(Run(reviewRequired, sys, steps))
    decreases |steps|
  {
    if steps != [] {
      StepKeepsSessions(reviewRequired, sys, steps[0]);
      SessionsStayKnown(reviewRequired, Take(reviewRequired, sys, steps[0]), steps[1..]);
    }
  }

  // ----- what the work in progress can still store -----

  /** What a run is to end with. */
  datatype Goal = Is(status: Status) | IsNot(status: Status)

  predicate Meets(goal: Goal, status: Status) {
    match goal
    case Is(wanted) => status == wanted
    case IsNot(unwanted) => status != unwanted
  }

  /** The status a new request looks for. */
  function LooksFor(step: Step): Option<Status> {
    match step
    case BeginApprove(_) => Some(PendingReview)
    case BeginReject(_) => Some(PendingReview)
    case BeginRetry(_) => Some(Failed)
    case _ => None
  }

  /** Some run without new requests meets the goal. */
  ghost predicate Leads(reviewRequired: bool, sys: System, goal: Goal) {
    exists steps: seq<Step> ::
      (forall step :: step in steps ==> LooksFor(step) == None) && Meets(goal, Run(reviewRequired, sys, steps).row.status)
  }

  lemma LeadsFrom(reviewRequired: bool, sys: System, step: Step, goal: Goal)
    requires LooksFor(step) == None && Leads(reviewRequired, Take(reviewRequired, sys, step), goal)
    ensures Leads(reviewRequired, sys, goal)
  {
    var rest: seq<Step> :| (forall s :: s in rest ==> LooksFor(s) == None)
                           && Meets(goal, Run(reviewRequired, Take(reviewRequired, sys, step), rest).row.status);
    RunStep(reviewRequired, sys, step, rest);
    assert Meets(goal, Run(reviewRequired, sys, [step] + rest).row.status);
  }

  lemma LeadsByStep(reviewRequired: bool, sys: System, step: Step, goal: Goal)
    requires LooksFor(step) == None && Meets(goal, Take(reviewRequired, sys, step).row.status)
    ensures Leads(reviewRequired, sys, goal)
  {
    var after := Take(reviewRequired, sys, step);
    assert Run(reviewRequired, after, []) == after;
    LeadsFrom(reviewRequired, sys, step, goal);
  }

  lemma DeployingLeads(reviewRequired: bool, sys: System, k: nat, result: DeploymentStatus, goal: Goal)
    requires SessionsKnown(sys) && k in sys.resumes && sys.resumes[k].InDeployment? && Meets(goal, FinalStatus(result)) && !Locked(sys)
    ensures Leads(reviewRequired, sys, goal)
  {
    assert FinalStatus(result) in SETTLED;
    LeadsByStep(reviewRequired, sys, Finish(k, result), goal);
  }

  lemma ResumedLeads(reviewRequired: bool, sys: System, k: nat, result: DeploymentStatus, goal: Goal)
    requires SessionsKnown(sys) && k in sys.resumes && sys.resumes[k].Resumed? && Meets(goal, FinalStatus(result)) && !Locked(sys)
    ensures Leads(reviewRequired, sys, goal)
  {
    ResumeStepKeepsSessions(reviewRequired, sys, StartDeploy(k));
    DeployingLeads(reviewRequired, Take(reviewRequired, sys, StartDeploy(k)), k, result, goal);
    LeadsFrom(reviewRequired, sys, StartDeploy(k), goal);
  }

  lemma RereadLeads(reviewRequired: bool, sys: System, k: nat, result: DeploymentStatus, goal: Goal)
    requires SessionsKnown(sys) && k in sys.resumes && sys.resumes[k].Reread? && Meets(goal, FinalStatus(result)) && !Locked(sys)
    ensures Leads(reviewRequired, sys, goal)
  {
    ResumeStepKeepsSessions(reviewRequired, sys, SavePassed(k));
    ResumedLeads(reviewRequired, Take(reviewRequired, sys, SavePassed(k)), k, result, goal);
    LeadsFrom(reviewRequired, sys, SavePassed(k), goal);
  }

  lemma WaitingLeads(reviewRequired: bool, sys: System, k: nat, result: DeploymentStatus, goal: Goal)
    requires SessionsKnown(sys) && k in sys.resumes && sys.resumes[k].Waiting? && Meets(goal, FinalStatus(result)) && !Locked(sys)
    ensures Leads(reviewRequired, sys, goal)
  {
    ResumeStepKeepsSessions(reviewRequired, sys, TakeResume(k));
    RereadLeads(reviewRequired, Take(reviewRequired, sys, TakeResume(k)), k, result, goal);
    LeadsFrom(reviewRequired, sys, TakeResume(k), goal);
  }

  /** A deployment job, wherever it is, can bring about every status a deployment ends in. */
  lemma ResumeLeads(reviewRequired: bool, sys: System, k: nat, result: DeploymentStatus, goal: Goal)
    requires SessionsKnown(sys) && k in sys.resumes && Meets(goal, FinalStatus(result)) && !Locked(sys)
    ensures Leads(reviewRequired, sys, goal)
  {
    match sys.resumes[k]
    case Waiting => WaitingLeads(reviewRequired, sys, k, result, goal);
    case Reread(_) => RereadLeads(reviewRequired, sys, k, result, goal);
    case Resumed(_) => ResumedLeads(reviewRequired, sys, k, result, goal);
    case InDeployment(_) => DeployingLeads(reviewRequired, sys, k, result, goal);
  }

  /** A deployment ends in some status that is not the given one. */
  function OtherResult(status: Status): (result: DeploymentStatus)
    ensures FinalStatus(result) != status
  {
    if status == Failed then Active else RolledBack
  }

  /** So does an approval that has yet to enqueue that job. */
  lemma ApprovalLeads(reviewRequired: bool, sys: System, k: nat, result: DeploymentStatus, goal: Goal)
    requires SessionsKnown(sys) && Enabled(sys, Enqueue(k)) && Meets(goal, FinalStatus(result)) && !Locked(sys)
    ensures Leads(reviewRequired, sys, goal)
  {
    EnqueueKeepsSessions(reviewRequired, sys, Enqueue(k));
    WaitingLeads(reviewRequired, Take(reviewRequired, sys, Enqueue(k)), k, result, goal);
    LeadsFrom(reviewRequired, sys, Enqueue(k), goal);
  }

  /** A pipeline can fail at any point, and before its deployment can also come to any other stage. */
  lemma PipelineLeadsAway(reviewRequired: bool, sys: System, p: nat, status: Status)
    requires SessionsKnown(sys) && p in sys.pipelines && !Locked(sys)
    ensures Leads(reviewRequired, sys, IsNot(status))
  {
    if status != Failed {
      LeadsByStep(reviewRequired, sys, FailPipeline(p), IsNot(status));
    } else {
      match sys.pipelines[p]
      case Awaiting(_) => LeadsByStep(reviewRequired, sys, BeginPipeline(p), IsNot(status));
      case Working(s) =>
        var other := if s.loaded.status == Generating then Packaging else Generating;
        LeadsByStep(reviewRequired, sys, Stage(p, other, []), IsNot(status));
      case Releasing(_) => LeadsByStep(reviewRequired, sys, FinishPipeline(p, Active), IsNot(status));
    }
  }

  /** Without review, or once it is deploying, a pipeline can end deployed. */
  lemma PipelineDeploys(reviewRequired: bool, sys: System, p: nat)
    requires SessionsKnown(sys) && p in sys.pipelines && (sys.pipelines[p].Releasing? || !reviewRequired) && !Locked(sys)
    ensures Leads(reviewRequired, sys, Is(Deployed))
  {
    match sys.pipelines[p]
    case Awaiting(_) =>
      var s1 := Take(reviewRequired, sys, BeginPipeline(p));
      WorkingDeploys(s1, p);
      LeadsFrom(reviewRequired, sys, BeginPipeline(p), Is(Deployed));
    case Working(_) => WorkingDeploys(sys, p);
    case Releasing(_) => LeadsByStep(reviewRequired, sys, FinishPipeline(p, Active), Is(Deployed));
  }

  lemma WorkingDeploys(sys: System, p: nat)
    requires p in sys.pipelines && sys.pipelines[p].Working? && !Locked(sys)
    ensures Leads(false, sys, Is(Deployed))
  {
    PassedDeploys(Take(false, sys, Stage(p, Passed, [])), p);
    LeadsFrom(false, sys, Stage(p, Passed, []), Is(Deployed));
  }

  lemma PassedDeploys(sys: System, p: nat)
    requires p in sys.pipelines && sys.pipelines[p].Working? && sys.pipelines[p].session.build.status == Passed && !Locked(sys)
    ensures Leads(false, sys, Is(Deployed))
  {
    var after := Take(false, sys, EndPipeline(p));
    assert after.pipelines[p].session.loaded.status == Deploying;
    LeadsByStep(false, after, FinishPipeline(p, Active), Is(Deployed));
    LeadsFrom(false, sys, EndPipeline(p), Is(Deployed));
  }

  // ----- when a status stands -----

  ghost predicate NoneLooksFor(steps: seq<Step>, status: Status) {
    forall step :: step in steps ==> LooksFor(step) != Some(status)
  }

  ghost predicate NoNewRetry(steps: seq<Step>) {
    forall step :: step in steps ==> !step.BeginRetry?
  }

  /** The status stays through every run, unless a new request finds in it what it looks for. */
  ghost predicate Stands(reviewRequired: bool, sys: System) {
    forall steps :: NoneLooksFor(steps, sys.row.status) ==>
      Run(reviewRequired, sys, steps).row.status == sys.row.status
  }

  /** The status a request will store. */
  function Word(request: Request): Status {
    match request
    case Approving(_, _) => Deploying
    case Rejecting(_) => Failed
    case Retrying(_, _) => Queued
  }

  function CommitOf(k: nat, request: Request): Step {
    match request
    case Approving(_, _) => CommitApprove(k)
    case Rejecting(_) => CommitReject(k)
    case Retrying(_, _) => CommitRetry(k)
  }

  /** The request has no job left to enqueue. */
  predicate IsReady(request: Request) {
    request.Rejecting? || request.queued
  }

  /** No job is in progress, and every open request only has to store the status once more. */
  ghost predicate AtRest(sys: System, status: Status) {
    && sys.resumes == map[] && sys.pipelines == map[]
    && forall k :: k in sys.requests ==> Word(sys.requests[k]) == status && IsReady(sys.requests[k])
  }

  lemma RestStepStands(reviewRequired: bool, sys: System, step: Step, status: Status)
    requires AtRest(sys, status) && sys.row.status == status && LooksFor(step) != Some(status)
    ensures var after := Take(reviewRequired, sys, step);
            AtRest(after, status) && after.row.status == status
  {
  }

  lemma {:induction false} RestStands(reviewRequired: bool, sys: System, steps: seq<Step>, status: Status)
    requires AtRest(sys, status) && sys.row.status == status
    requires NoneLooksFor(steps, status)
    ensures Run(reviewRequired, sys, steps).row.status == status
    decreases |steps|
  {
    if steps != [] {
      assert steps[0] in steps;
      RestStepStands(reviewRequired, sys, steps[0], status);
      RestStands(reviewRequired, Take(reviewRequired, sys, steps[0]), steps[1..], status);
    }
  }

  /** A retry ready to enqueue leads to a pipeline, with the row free again. */
  lemma RetryBrings(reviewRequired: bool, sys: System, k: nat) returns (after: System)
    requires SessionsKnown(sys) && Enabled(sys, EnqueueRetry(k, 0))
    ensures SessionsKnown(after) && !Locked(after) && 0 in after.pipelines
    ensures forall goal :: Leads(reviewRequired, after, goal) ==> Leads(reviewRequired, sys, goal)
  {
    var queued := Take(reviewRequired, sys, EnqueueRetry(k, 0));
    EnqueueKeepsSessions(reviewRequired, sys, EnqueueRetry(k, 0));
    after := CommitFrees(reviewRequired, queued, k);
    forall goal | Leads(reviewRequired, after, goal) ensures Leads(reviewRequired, sys, goal) {
      LeadsFrom(reviewRequired, queued, CommitRetry(k), goal);
      LeadsFrom(reviewRequired, sys, EnqueueRetry(k, 0), goal);
    }
  }

  /** Once the retry that holds the row has committed, the row is free. */
  lemma CommitFrees(reviewRequired: bool, sys: System, k: nat) returns (after: System)
    requires SessionsKnown(sys) && k in sys.requests && HoldsRow(sys.requests[k])
    ensures after == Take(reviewRequired, sys, CommitRetry(k)) && SessionsKnown(after) && !Locked(after)
    ensures after.row.status == Queued && after.requests == sys.requests - {k}
    ensures after.resumes == sys.resumes && after.pipelines == sys.pipelines
  {
    after := Take(reviewRequired, sys, CommitRetry(k));
    CommitKeepsSessions(reviewRequired, sys, CommitRetry(k));
    assert sys.requests[k].session.loaded.status == Failed;
  }

  /** What a ready request stores, whatever the row holds by then. */
  lemma CommitStores(reviewRequired: bool, sys: System, k: nat)
    requires SessionsKnown(sys) && k in sys.requests && Enabled(sys, CommitOf(k, sys.requests[k]))
    ensures var after := Take(reviewRequired, sys, CommitOf(k, sys.requests[k]));
            && after.row.status == Word(sys.requests[k])
            && after.requests == sys.requests - {k} && after.resumes == sys.resumes && after.pipelines == sys.pipelines
  {
  }

  /** An open request that is not about to repeat the status can end it. */
  lemma RequestLeadsAway(reviewRequired: bool, sys: System, k: nat, status: Status)
    requires SessionsKnown(sys) && sys.pipelines == map[] && k in sys.requests && !Locked(sys)
    requires Word(sys.requests[k]) != status || !IsReady(sys.requests[k])
    ensures Leads(reviewRequired, sys, IsNot(status))
  {
    if IsReady(sys.requests[k]) {
      CommitStores(reviewRequired, sys, k);
      LeadsByStep(reviewRequired, sys, CommitOf(k, sys.requests[k]), IsNot(status));
    } else if sys.requests[k].Approving? {
      ApprovalLeads(reviewRequired, sys, k, OtherResult(status), IsNot(status));
    } else {
      var after := RetryBrings(reviewRequired, sys, k);
      PipelineLeadsAway(reviewRequired, after, 0, status);
    }
  }

  lemma FreeUnrestLeadsAway(reviewRequired: bool, sys: System, status: Status)
    requires SessionsKnown(sys) && !AtRest(sys, status) && !Locked(sys)
    ensures Leads(reviewRequired, sys, IsNot(status))
  {
    if k :| k in sys.resumes {
      ResumeLeads(reviewRequired, sys, k, OtherResult(status), IsNot(status));
    } else if p :| p in sys.pipelines {
      PipelineLeadsAway(reviewRequired, sys, p, status);
    } else {
      var k :| k in sys.requests && (Word(sys.requests[k]) != status || !IsReady(sys.requests[k]));
      RequestLeadsAway(reviewRequired, sys, k, status);
    }
  }

  lemma UnrestLeadsAway(reviewRequired: bool, sys: System, status: Status)
    requires SessionsKnown(sys) && !AtRest(sys, status)
    ensures Leads(reviewRequired, sys, IsNot(status))
  {
    if k :| k in sys.requests && HoldsRow(sys.requests[k]) {
      var after := CommitFrees(reviewRequired, sys, k);
      if status == Queued {
        assert forall j :: j in sys.requests ==> j in after.requests || j == k;
        assert !AtRest(after, status);
        FreeUnrestLeadsAway(reviewRequired, after, status);
        LeadsFrom(reviewRequired, sys, CommitRetry(k), IsNot(status));
      } else {
        LeadsByStep(reviewRequired, sys, CommitRetry(k), IsNot(status));
      }
    } else {
      FreeUnrestLeadsAway(reviewRequired, sys, status);
    }
  }

  /** A status stands exactly when no job is in progress and open requests only repeat it. */
  lemma StatusStandsIff(reviewRequired: bool, sys: System)
    requires SessionsKnown(sys)
    ensures Stands(reviewRequired, sys) <==> AtRest(sys, sys.row.status)
  {
    var status := sys.row.status;
    if AtRest(sys, status) {
      forall steps | NoneLooksFor(steps, status)
        ensures Run(reviewRequired, sys, steps).row.status == status
      {
        RestStands(reviewRequired, sys, steps, status);
      }
    } else {
      UnrestLeadsAway(reviewRequired, sys, status);
      var steps: seq<Step> :| (forall step :: step in steps ==> LooksFor(step) == None)
                              && Meets(IsNot(status), Run(reviewRequired, sys, steps).row.status);
      assert NoneLooksFor(steps, status);
    }
  }

  /**
   What a request commits stands if and only if, when it commits, no job is in progress and all
   other open requests are about to store the same.  So an approval that commits after its own job
   has ended leaves the build deploying for good, and a retry whose queued job was lost leaves it queued.
   */
  lemma CommitStandsIff(reviewRequired: bool, sys: System, k: nat)
    requires SessionsKnown(sys) && k in sys.requests && Enabled(sys, CommitOf(k, sys.requests[k]))
    ensures var word, after := Word(sys.requests[k]), Take(reviewRequired, sys, CommitOf(k, sys.requests[k]));
            after.row.status == word && (Stands(reviewRequired, after) <==> AtRest(sys, word))
  {
    var commit := CommitOf(k, sys.requests[k]);
    var after := Take(reviewRequired, sys, commit);
    CommitStores(reviewRequired, sys, k);
    CommitKeepsSessions(reviewRequired, sys, commit);
    StatusStandsIff(reviewRequired, after);
    assert forall j :: j in sys.requests <==> j in after.requests || j == k;
  }

  /** A committed rejection stands if and only if nothing but rejections is in progress when it commits. */
  lemma RejectionStandsIff(reviewRequired: bool, sys: System, k: nat)
    requires SessionsKnown(sys) && Enabled(sys, CommitReject(k))
    ensures var after := Take(reviewRequired, sys, CommitReject(k));
            && after.row.status == Failed
            && ((forall steps :: NoNewRetry(steps) ==> Run(reviewRequired, after, steps).row.status == Failed)
                <==> sys.resumes == map[] && sys.pipelines == map[] && forall j :: j in sys.requests ==> sys.requests[j].Rejecting?)
  {
    var after := Take(reviewRequired, sys, CommitReject(k));
    CommitStandsIff(reviewRequired, sys, k);
    forall steps ensures NoneLooksFor(steps, Failed) <==> NoNewRetry(steps) {
    }
    assert AtRest(sys, Failed)
           <==> sys.resumes == map[] && sys.pipelines == map[] && forall j :: j in sys.requests ==> sys.requests[j].Rejecting?;
  }

  // ----- when a build can still be deployed -----

  /** Not a request that asks for a deployment: an approval, or without required review a retry. */
  predicate Uninvited(reviewRequired: bool, step: Step) {
    !step.BeginApprove? && (reviewRequired || !step.BeginRetry?)
  }

  ghost predicate NeverDeployed(reviewRequired: bool, sys: System) {
    forall steps: seq<Step> :: (forall step :: step in steps ==> Uninvited(reviewRequired, step)) ==>
      Run(reviewRequired, sys, steps).row.status != Deployed
  }

  /** No deployment job is in progress or about to be enqueued, and no pipeline is there that deploys by itself. */
  ghost predicate NothingDeploys(reviewRequired: bool, sys: System) {
    && sys.resumes == map[]
    && (forall k :: k in sys.requests && sys.requests[k].Approving? ==> sys.requests[k].queued)
    && (forall p :: p in sys.pipelines ==> reviewRequired && !sys.pipelines[p].Releasing?)
    && (forall k :: k in sys.requests && sys.requests[k].Retrying? ==> reviewRequired || sys.requests[k].queued)
  }

  /** No uninvited step saves the status deployed. */
  lemma UninvitedSave(reviewRequired: bool, sys: System, step: Step)
    requires SessionsKnown(sys) && NothingDeploys(reviewRequired, sys) && sys.row.status != Deployed
    ensures Take(reviewRequired, sys, step).row.status != Deployed
  {
    if Enabled(sys, step) {
      StepSaves(reviewRequired, sys, step);
    }
  }

  lemma UninvitedStep(reviewRequired: bool, sys: System, step: Step)
    requires NothingDeploys(reviewRequired, sys) && Uninvited(reviewRequired, step)
    ensures NothingDeploys(reviewRequired, Take(reviewRequired, sys, step))
  {
  }

  lemma {:induction false} UninvitedRun(reviewRequired: bool, sys: System, steps: seq<Step>)
    requires SessionsKnown(sys) && NothingDeploys(reviewRequired, sys) && sys.row.status != Deployed
    requires forall step :: step in steps ==> Uninvited(reviewRequired, step)
    ensures Run(reviewRequired, sys, steps).row.status != Deployed
    decreases |steps|
  {
    if steps != [] {
      assert steps[0] in steps;
      UninvitedSave(reviewRequired, sys, steps[0]);
      UninvitedStep(reviewRequired, sys, steps[0]);
      StepKeepsSessions(reviewRequired, sys, steps[0]);
      UninvitedRun(reviewRequired, Take(reviewRequired, sys, steps[0]), steps[1..]);
    }
  }

  lemma SomethingFreeDeploys(reviewRequired: bool, sys: System)
    requires SessionsKnown(sys) && !NothingDeploys(reviewRequired, sys) && !Locked(sys)
    ensures Leads(reviewRequired, sys, Is(Deployed))
  {
    if k :| k in sys.resumes {
      ResumeLeads(reviewRequired, sys, k, Active, Is(Deployed));
    } else if p :| p in sys.pipelines && !(reviewRequired && !sys.pipelines[p].Releasing?) {
      PipelineDeploys(reviewRequired, sys, p);
    } else if k :| k in sys.requests && sys.requests[k].Approving? && !sys.requests[k].queued {
      ApprovalLeads(reviewRequired, sys, k, Active, Is(Deployed));
    } else {
      var k :| k in sys.requests && sys.requests[k].Retrying? && !sys.requests[k].queued && !reviewRequired;
      var after := RetryBrings(reviewRequired, sys, k);
      PipelineDeploys(reviewRequired, after, 0);
    }
  }

  /** A request with no job left to enqueue deploys nothing. */
  lemma WithoutReadyRequest(reviewRequired: bool, sys: System, after: System, k: nat)
    requires k in sys.requests && IsReady(sys.requests[k]) && after.requests == sys.requests - {k}
    requires after.resumes == sys.resumes && after.pipelines == sys.pipelines
    ensures NothingDeploys(reviewRequired, after) <==> NothingDeploys(reviewRequired, sys)
  {
    assert forall j :: j in sys.requests <==> j in after.requests || j == k;
  }

  lemma SomethingDeploys(reviewRequired: bool, sys: System)
    requires SessionsKnown(sys) && !NothingDeploys(reviewRequired, sys)
    ensures Leads(reviewRequired, sys, Is(Deployed))
  {
    if k :| k in sys.requests && HoldsRow(sys.requests[k]) {
      var after := CommitFrees(reviewRequired, sys, k);
      WithoutReadyRequest(reviewRequired, sys, after, k);
      SomethingFreeDeploys(reviewRequired, after);
      LeadsFrom(reviewRequired, sys, CommitRetry(k), Is(Deployed));
    } else {
      SomethingFreeDeploys(reviewRequired, sys);
    }
  }

  /** A build that is not deployed cannot become so without a new approval exactly when nothing deploys it already. */
  lemma NeverDeployedIff(reviewRequired: bool, sys: System)
    requires SessionsKnown(sys) && sys.row.status != Deployed
    ensures NeverDeployed(reviewRequired, sys) <==> NothingDeploys(reviewRequired, sys)
  {
    if NothingDeploys(reviewRequired, sys) {
      forall steps: seq<Step> | forall step :: step in steps ==> Uninvited(reviewRequired, step)
        ensures Run(reviewRequired, sys, steps).row.status != Deployed
      {
        UninvitedRun(reviewRequired, sys, steps);
      }
    } else {
      SomethingDeploys(reviewRequired, sys);
      var steps: seq<Step> :| (forall step :: step in steps ==> LooksFor(step) == None)
                              && Meets(Is(Deployed), Run(reviewRequired, sys, steps).row.status);
      assert forall step :: step in steps ==> Uninvited(reviewRequired, step);
    }
  }

  /** A rejected build is never deployed without a new approval, exactly when nothing was about to deploy it at the rejection. */
  lemma RejectedIsNeverDeployedIff(reviewRequired: bool, sys: System, k: nat)
    requires SessionsKnown(sys) && Enabled(sys, CommitReject(k))
    ensures NeverDeployed(reviewRequired, Take(reviewRequired, sys, CommitReject(k))) <==> NothingDeploys(reviewRequired, sys)
  {
    var after := Take(reviewRequired, sys, CommitReject(k));
    CommitKeepsSessions(reviewRequired, sys, CommitReject(k));
    CommitStores(reviewRequired, sys, k);
    NeverDeployedIff(reviewRequired, after);
    WithoutReadyRequest(reviewRequired, sys, after, k);
  }

  // ----- the retry commits before its pipeline saves -----

  predicate EndsRequest(step: Step, k: nat) {
    step == CommitRetry(k) || step == Abandon(k)
  }

  lemma HeldRowStays(reviewRequired: bool, sys: System, k: nat, step: Step)
    requires SessionsKnown(sys) && k in sys.requests && HoldsRow(sys.requests[k]) && !EndsRequest(step, k)
    requires step.BeginApprove? || step.BeginReject? || step.BeginRetry? ==> step.k != k
    ensures var after := Take(reviewRequired, sys, step);
            after.row == sys.row && k in after.requests && after.requests[k] == sys.requests[k]
  {
    assert Locked(sys);
  }

  /**
   From the moment a retry has enqueued its pipeline until it commits or is given up, no run
   changes the row: unlike an approval, it cannot commit over what its own job has stored.
   */
  lemma {:induction false} RetryCommitsFirst(reviewRequired: bool, sys: System, k: nat, steps: seq<Step>)
    requires SessionsKnown(sys) && k in sys.requests && HoldsRow(sys.requests[k]) && !Unused(sys, k)
    requires forall step :: step in steps ==> !EndsRequest(step, k)
    ensures Run(reviewRequired, sys, steps).row == sys.row
    decreases |steps|
  {
    if steps != [] {
      assert steps[0] in steps;
      StepKeepsSessions(reviewRequired, sys, steps[0]);
      if Enabled(sys, steps[0]) {
        HeldRowStays(reviewRequired, sys, k, steps[0]);
      }
      UsedStays(reviewRequired, sys, k, steps[0]);
      RetryCommitsFirst(reviewRequired, Take(reviewRequired, sys, steps[0]), k, steps[1..]);
    }
  }

  lemma UsedStays(reviewRequired: bool, sys: System, k: nat, step: Step)
    requires !Unused(sys, k)
    ensures !Unused(Take(reviewRequired, sys, step), k)
  {
    var e :| e in sys.history && e.Read? && e.request == k;
    assert e in Take(reviewRequired, sys, step).history;
  }

  /** One approval and one rejection, both of a build read pending review. */
  function UnderBoth(k: nat, j: nat, logs: seq<string>): System {
    var row := Build(PendingReview, logs);
    System(row, map[k := Approving(Open(row), true), j := Rejecting(Open(row))], map[k := Waiting], map[],
           [Read(k, PendingReview), Read(j, PendingReview), Approved(k)])
  }

  lemma BothAreRead(k: nat, j: nat, logs: seq<string>)
    requires k != j
    ensures var row := Build(PendingReview, logs);
            Run(true, Fresh(row, map[]), [BeginApprove(k), BeginReject(j)])
            == System(row, map[k := Approving(Open(row), false), j := Rejecting(Open(row))], map[], map[],
                      [Read(k, PendingReview), Read(j, PendingReview)])
  {
    var row := Build(PendingReview, logs);
    RunTwo(true, Fresh(row, map[]), BeginApprove(k), BeginReject(j));
    var s1 := Take(true, Fresh(row, map[]), BeginApprove(k));
    assert s1 == System(row, map[k := Approving(Open(row), false)], map[], map[], [Read(k, PendingReview)]);
  }

  /** That state is reached from a build under review. */
  lemma UnderBothIsReached(k: nat, j: nat, logs: seq<string>)
    requires k != j
    ensures Run(true, Fresh(Build(PendingReview, logs), map[]), [BeginApprove(k), BeginReject(j)] + [Enqueue(k)])
            == UnderBoth(k, j, logs)
  {
    var row := Build(PendingReview, logs);
    RunAppend(true, Fresh(row, map[]), [BeginApprove(k), BeginReject(j)], [Enqueue(k)]);
    BothAreRead(k, j, logs);
    var both := Run(true, Fresh(row, map[]), [BeginApprove(k), BeginReject(j)]);
    RunStep(true, both, Enqueue(k), []);
    assert [Enqueue(k)] + [] == [Enqueue(k)];
    assert both.requests[k := Approving(Open(row), true)] == UnderBoth(k, j, logs).requests;
  }

  /** A rejected build is deployed: the worker resumes it whatever status it reads. */
  lemma RejectedBuildIsDeployed(k: nat, j: nat, logs: seq<string>)
    requires k != j
    ensures var steps := [CommitApprove(k), CommitReject(j)] + [TakeResume(k)] + ([SavePassed(k), StartDeploy(k)] + [Finish(k, Active)]);
            Run(true, UnderBoth(k, j, logs), steps).row == Build(Deployed, logs + [REJECTED] + [RESUMING])
  {
    var first := [CommitApprove(k), CommitReject(j)] + [TakeResume(k)];
    RejectionIsRead(k, j, logs);
    DeploymentEnds(Run(true, UnderBoth(k, j, logs), first), k, Build(Failed, logs + [REJECTED]));
    RunAppend(true, UnderBoth(k, j, logs), first, [SavePassed(k), StartDeploy(k)] + [Finish(k, Active)]);
  }

  lemma DeploymentEnds(sys: System, k: nat, was: Build)
    requires k in sys.resumes && sys.resumes[k] == Reread(Open(was)) && sys.row == was && was.status != Passed && !Locked(sys)
    ensures Run(true, sys, [SavePassed(k), StartDeploy(k)] + [Finish(k, Active)]).row == Build(Deployed, was.logs + [RESUMING])
  {
    RunAppend(true, sys, [SavePassed(k), StartDeploy(k)], [Finish(k, Active)]);
    DeploymentStarts(sys, k, was);
    var deploying := Run(true, sys, [SavePassed(k), StartDeploy(k)]);
    RunStep(true, deploying, Finish(k, Active), []);
    assert [Finish(k, Active)] + [] == [Finish(k, Active)];
  }

  lemma BothCommit(k: nat, j: nat, logs: seq<string>)
    requires k != j
    ensures var sys := Run(true, UnderBoth(k, j, logs), [CommitApprove(k), CommitReject(j)]);
            sys.row == Build(Failed, logs + [REJECTED]) && sys.resumes == map[k := Waiting] && sys.requests == map[]
  {
    RunTwo(true, UnderBoth(k, j, logs), CommitApprove(k), CommitReject(j));
    assert logs + [REJECTED] != logs;
    var s1 := Take(true, UnderBoth(k, j, logs), CommitApprove(k));
    assert s1.requests == map[j := Rejecting(Open(Build(PendingReview, logs)))] && s1.resumes == map[k := Waiting];
  }

  lemma RejectionIsRead(k: nat, j: nat, logs: seq<string>)
    requires k != j
    ensures var rejected := Build(Failed, logs + [REJECTED]);
            var sys := Run(true, UnderBoth(k, j, logs), [CommitApprove(k), CommitReject(j)] + [TakeResume(k)]);
            sys.row == rejected && sys.resumes == map[k := Reread(Open(rejected))] && sys.requests == map[]
  {
    var s0 := UnderBoth(k, j, logs);
    RunAppend(true, s0, [CommitApprove(k), CommitReject(j)], [TakeResume(k)]);
    BothCommit(k, j, logs);
    RunStep(true, Run(true, s0, [CommitApprove(k), CommitReject(j)]), TakeResume(k), []);
    assert [TakeResume(k)] + [] == [TakeResume(k)];
  }

  // ----- the event stream -----

  predicate IsTerminal(status: Status) {
    status.Passed? || status.PendingReview? || status.PendingClientAction? || status.Failed? || status.Deployed?
  }

  datatype Frame = NotFound | Update(status: Status, logs: seq<string>)

  /** Python's `logs[sent:]`. */
  function Rest(logs: seq<string>, sent: nat): seq<string> {
    if sent <= |logs| then logs[sent..] else []
  }

  /** The frames sent for the rows read one after the other (None: the build is gone). */
  function Frames(polls: seq<Option<Build>>, sent: nat): seq<Frame> {
    if polls == [] then []
    else match polls[0]
      case None => [NotFound]
      case Some(b) =>
        [Update(b.status, Rest(b.logs, sent))] + if IsTerminal(b.status) then [] else Frames(polls[1..], |b.logs|)
  }

  /** `event_stream`; `polls` are the rows its polls see, and end where the client leaves. */
  method StreamEvents(polls: seq<Option<Build>>) returns (frames: seq<Frame>)
    ensures frames == Frames(polls, 0)
  {
    frames := [];
    var sentCount: nat := 0;
    for i := 0 to |polls|
      invariant Frames(polls, 0) == frames + Frames(polls[i..], sentCount)
    {
      assert polls[i..][1..] == polls[i + 1..];
      if polls[i].None? {
        frames := frames + [NotFound];
        return;
      }
      var build := polls[i].value;
      frames := frames + [Update(build.status, Rest(build.logs, sentCount))];
      sentCount := |build.logs|;
      if IsTerminal(build.status) {
        return;
      }
    }
  }

  /** The log entries sent, in order. */
  function Sent(frames: seq<Frame>): seq<string> {
    if frames == [] then []
    else (if frames[0].Update? then frames[0].logs else []) + Sent(frames[1..])
  }

  /** Each row read extends the one before, up to the first terminal status or missing row. */
  ghost predicate LogsGrow(polls: seq<Option<Build>>, sofar: seq<string>) {
    polls != [] && polls[0].Some? ==>
      var b := polls[0].value;
      sofar <= b.logs && (IsTerminal(b.status) || LogsGrow(polls[1..], b.logs))
  }

  /** The last log the stream looked at. */
  function LastSeen(polls: seq<Option<Build>>, sofar: seq<string>): seq<string>
  {
    if polls == [] || polls[0].None? then sofar
    else if IsTerminal(polls[0].value.status) then polls[0].value.logs
    else LastSeen(polls[1..], polls[0].value.logs)
  }

  /** What was sent before and what is sent now make up the log last looked at. */
  ghost predicate SendsExactly(polls: seq<Option<Build>>, sofar: seq<string>) {
    sofar + Sent(Frames(polls, |sofar|)) == LastSeen(polls, sofar)
  }

  lemma SendsOne(polls: seq<Option<Build>>, sofar: seq<string>)
    requires polls != [] && polls[0].Some? && (IsTerminal(polls[0].value.status) || |polls| == 1)
    ensures SendsExactly(polls, sofar) <==> sofar <= polls[0].value.logs
  {
    var b := polls[0].value;
    var frames := Frames(polls, |sofar|);
    if !IsTerminal(b.status) {
      assert polls[1..] == [] && Frames(polls[1..], |b.logs|) == [];
    }
    assert frames == [Update(b.status, Rest(b.logs, |sofar|))];
    assert frames[1..] == [];
    assert Sent(frames) == Rest(b.logs, |sofar|);
    assert LastSeen(polls, sofar) == b.logs;
  }

  lemma SplitLog(sofar: seq<string>, logs: seq<string>, more: seq<string>)
    requires sofar <= logs
    ensures sofar + (logs[|sofar|..] + more) == logs + more
  {
    assert logs == sofar + logs[|sofar|..];
  }

  lemma SendsNext(polls: seq<Option<Build>>, sofar: seq<string>)
    requires polls != [] && polls[0].Some? && !IsTerminal(polls[0].value.status) && sofar <= polls[0].value.logs
    ensures SendsExactly(polls, sofar) <==> SendsExactly(polls[1..], polls[0].value.logs)
  {
    var b := polls[0].value;
    var frames, rest := Frames(polls, |sofar|), Frames(polls[1..], |b.logs|);
    assert frames[0] == Update(b.status, b.logs[|sofar|..]) && frames[1..] == rest;
    assert Sent(frames) == b.logs[|sofar|..] + Sent(rest);
    SplitLog(sofar, b.logs, Sent(rest));
  }

  /** While the stored log only grows, what is sent is exactly the part of the log not sent before, once. */
  lemma {:induction false} StreamSendsLogOnce(polls: seq<Option<Build>>, sofar: seq<string>)
    requires LogsGrow(polls, sofar)
    ensures sofar <= LastSeen(polls, sofar)
    ensures sofar + Sent(Frames(polls, |sofar|)) == LastSeen(polls, sofar)
  {
    if polls != [] && polls[0].Some? {
      if IsTerminal(polls[0].value.status) {
        SendsOne(polls, sofar);
      } else {
        StreamSendsLogOnce(polls[1..], polls[0].value.logs);
        SendsNext(polls, sofar);
      }
    }
  }

  lemma {:induction false} GrowthOfPrefix(polls: seq<Option<Build>>, sofar: seq<string>, n: nat)
    requires LogsGrow(polls, sofar) && n <= |polls|
    ensures LogsGrow(polls[..n], sofar)
  {
    if n > 0 && polls[0].Some? && !IsTerminal(polls[0].value.status) {
      GrowthOfPrefix(polls[1..], polls[0].value.logs, n - 1);
      assert polls[..n][1..] == polls[1..][..n - 1];
    }
  }

  lemma {:induction false} SendingNeedsGrowth(polls: seq<Option<Build>>, sofar: seq<string>)
    requires forall n :: 0 <= n <= |polls| ==> SendsExactly(polls[..n], sofar)
    ensures LogsGrow(polls, sofar)
  {
    if polls != [] && polls[0].Some? {
      var b, rest := polls[0].value, polls[1..];
      assert SendsExactly(polls[..1], sofar);
      SendsOne(polls[..1], sofar);
      if !IsTerminal(b.status) {
        forall n | 0 <= n <= |rest| ensures SendsExactly(rest[..n], b.logs) {
          assert SendsExactly(polls[..n + 1], sofar);
          assert polls[..n + 1][1..] == rest[..n];
          SendsNext(polls[..n + 1], sofar);
        }
        SendingNeedsGrowth(rest, b.logs);
      }
    }
  }

  /** After every poll each entry has been sent once and in order, if and only if each row read extends the one before. */
  lemma StreamSendsLogOnceIff(polls: seq<Option<Build>>, sofar: seq<string>)
    ensures (forall n :: 0 <= n <= |polls| ==> sofar + Sent(Frames(polls[..n], |sofar|)) == LastSeen(polls[..n], sofar))
            <==> LogsGrow(polls, sofar)
  {
    if LogsGrow(polls, sofar) {
      forall n | 0 <= n <= |polls| ensures SendsExactly(polls[..n], sofar) {
        GrowthOfPrefix(polls, sofar, n);
        StreamSendsLogOnce(polls[..n], sofar);
      }
    } else if forall n :: 0 <= n <= |polls| ==> SendsExactly(polls[..n], sofar) {
      SendingNeedsGrowth(polls, sofar);
    }
  }

  /** The stream looks no further than the first terminal status, also where that status is passing. */
  lemma {:induction false} StreamStopsAtTerminal(polls: seq<Option<Build>>, sent: nat, i: nat)
    requires i < |polls| && polls[i].Some? && IsTerminal(polls[i].value.status)
    ensures |Frames(polls, sent)| <= i + 1
    ensures Frames(polls, sent) == Frames(polls[..i + 1], sent)
  {
    var part := polls[..i + 1];
    assert part[0] == polls[0];
    if polls[0].Some? && !IsTerminal(polls[0].value.status) {
      var b := polls[0].value;
      StreamStopsAtTerminal(polls[1..], |b.logs|, i - 1);
      assert part[1..] == polls[1..][..i];
      assert Frames(polls, sent) == [Update(b.status, Rest(b.logs, sent))] + Frames(polls[1..], |b.logs|);
      assert Frames(part, sent) == [Update(b.status, Rest(b.logs, sent))] + Frames(part[1..], |b.logs|);
    }
  }

  lemma {:induction false} NothingMoreSent(polls: seq<Option<Build>>, sent: nat)
    requires forall i :: 0 <= i < |polls| ==> polls[i].Some? && |polls[i].value.logs| == sent
    ensures Sent(Frames(polls, sent)) == []
  {
    if polls != [] {
      var b := polls[0].value;
      assert Rest(b.logs, sent) == [];
      var frames := Frames(polls, sent);
      if IsTerminal(b.status) {
        assert frames == [Update(b.status, [])] && frames[1..] == [];
      } else {
        assert frames[1..] == Frames(polls[1..], sent);
        NothingMoreSent(polls[1..], sent);
      }
    }
  }

  lemma SecondEntryIsNotSent(logs: seq<string>, first: string, second: string, status: Status, more: seq<Option<Build>>)
    requires !IsTerminal(status)
    requires forall i :: 0 <= i < |more| ==>
               more[i] == Some(Build(status, logs + [first])) || more[i] == Some(Build(status, logs + [second]))
    ensures Sent(Frames([Some(Build(status, logs + [first]))] + more, 0)) == logs + [first]
  {
    var during := Build(status, logs + [first]);
    var polls := [Some(during)] + more;
    assert polls[1..] == more;
    NothingMoreSent(more, |during.logs|);
    var frames := Frames(polls, 0);
    assert frames[0] == Update(status, during.logs) && frames[1..] == Frames(more, |during.logs|);
  }

  lemma EntriesDiffer(logs: seq<string>)
    requires APPROVED !in logs
    ensures APPROVED in logs + [APPROVED] && APPROVED !in logs + [RESUMING]
  {
    assert |RESUMING| != |APPROVED|;
    assert (logs + [APPROVED])[|logs|] == APPROVED;
  }

  /** The row a poll sees while the late run's deployment is going on. */
  ghost function RowDuring(k: nat, logs: seq<string>): Build {
    Run(true, UnderReview(k, logs), [Enqueue(k), TakeResume(k)] + [SavePassed(k), StartDeploy(k)]).row
  }

  /** The row the late run leaves. */
  ghost function RowLeft(k: nat, logs: seq<string>, result: DeploymentStatus): Build {
    Run(true, UnderReview(k, logs), LateSteps(k, result)).row
  }

  lemma LateRows(k: nat, logs: seq<string>, result: DeploymentStatus)
    ensures RowDuring(k, logs) == Build(Deploying, logs + [RESUMING])
    ensures RowLeft(k, logs, result) == Build(Deploying, logs + [APPROVED])
  {
    LateStart(k, logs);
    LateCommitHappens(k, logs, result);
  }

  /**
   In the late run above the commit replaces the worker's entry by one of the same length.  A
   stream that polls the row between the start of the deployment and its end, and later only the
   row the run leaves, never sends the approval's entry, however often it polls.
   */
  lemma ReplacedEntryIsNeverSent(k: nat, logs: seq<string>, result: DeploymentStatus, more: seq<Option<Build>>)
    requires forall i :: 0 <= i < |more| ==> more[i] == Some(RowDuring(k, logs)) || more[i] == Some(RowLeft(k, logs, result))
    ensures Sent(Frames([Some(RowDuring(k, logs))] + more, 0)) == logs + [RESUMING]
    ensures RowLeft(k, logs, result).logs == logs + [APPROVED]
    ensures APPROVED !in logs ==> APPROVED !in logs + [RESUMING]
  {
    LateRows(k, logs, result);
    SecondEntryIsNotSent(logs, RESUMING, APPROVED, Deploying, more);
    if APPROVED !in logs {
      EntriesDiffer(logs);
    }
  }
}
