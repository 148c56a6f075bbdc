/** Railway deployment statuses and the two classifications the watchdog relies on. */
module RailwayStatus {
  import opened HeartbeatLifecycle

  /** Trimmed, upper-cased deployment status; `Absent` stands for a missing, blank or UNKNOWN one. */
  datatype DeploymentStatus =
    | SUCCESS | SLEEPING
    | BUILDING | DEPLOYING | INITIALIZING | NEEDS_APPROVAL | QUEUED | WAITING | REMOVING | THROTTLED
    | FAILED | CRASHED
    | REMOVED | STOPPED | CANCELED | SKIPPED
    | Absent | Unrecognised

  predicate IsBad(s: DeploymentStatus) { s.CRASHED? || s.FAILED? }

  predicate IsDeploying(s: DeploymentStatus) {
    s.BUILDING? || s.DEPLOYING? || s.INITIALIZING? || s.QUEUED? || s.WAITING?
  }

  predicate IsHealthy(s: DeploymentStatus) { s.SUCCESS? || s.SLEEPING? }

  /** The label shown for a deployment, as the listing computes it. */
  function DeploymentStatusToRailwayUi(s: DeploymentStatus, hasActiveDeployment: bool): OnlineStatus {
    if !hasActiveDeployment then Completed
    else
      match s
      case SUCCESS | SLEEPING => Online
      case BUILDING | DEPLOYING | INITIALIZING | NEEDS_APPROVAL => Deploying
      case QUEUED | WAITING | REMOVING | THROTTLED => Deploying
      case FAILED | CRASHED => Failed
      case REMOVED | STOPPED | CANCELED => Completed
      case SKIPPED => SkippedStatus
      case Absent | Unrecognised => Unknown
  }

  /**
   The label and the watchdog's own predicates agree: "online" is exactly a healthy active deployment,
   "failed" exactly one auto-recover would redeploy, and every deploying status is labelled so
   (the label also covers statuses that the watchdog does not count as deploying).
   */
  lemma LabelsAgreeWithWatchdog(s: DeploymentStatus, active: bool)
    ensures DeploymentStatusToRailwayUi(s, active).Online? <==> active && IsHealthy(s)
    ensures DeploymentStatusToRailwayUi(s, active).Failed? <==> active && IsBad(s)
    ensures active && IsDeploying(s) ==> DeploymentStatusToRailwayUi(s, active).Deploying?
    ensures !(IsHealthy(s) && IsBad(s)) && !(IsHealthy(s) && IsDeploying(s)) && !(IsBad(s) && IsDeploying(s))
  {
  }

  /** Which statuses each label and each of the watchdog's predicates stands for. */
  lemma LabelsStandFor(s: DeploymentStatus, active: bool)
    ensures var shown := DeploymentStatusToRailwayUi(s, active);
            (shown.Online? <==> active && s in {SUCCESS, SLEEPING})
            && (shown.Failed? <==> active && s in {CRASHED, FAILED})
            && (shown.Deploying? <==> active && (IsDeploying(s) || s in {NEEDS_APPROVAL, REMOVING, THROTTLED}))
            && (shown.Completed? <==> !active || s in {REMOVED, STOPPED, CANCELED})
            && (shown.SkippedStatus? <==> active && s == SKIPPED)
            && (shown.Unknown? <==> active && s in {Absent, Unrecognised})
    ensures IsDeploying(s) ==> s !in {NEEDS_APPROVAL, REMOVING, THROTTLED}
  {
  }
}
