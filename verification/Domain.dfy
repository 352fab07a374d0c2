/** The vocabulary shared by the store, the GitHub client and the watch manager. */
module Domain {
  import opened Base

  /** One authenticated user watching one pull request. */
  datatype WatchKey = WatchKey(login: string, owner: string, repo: string, pr: int)

  datatype PullRequest = PullRequest(owner: string, repo: string, number: int)

  datatype WatchStatus =
    | Watching | Completed | Blocked | Timeout | RateLimited | Failed | Stale | Cancelled

  datatype FailureReason = AuthExpired | GitHubError | InternalError

  datatype ReviewStatus =
    | NotRequested | Pending | InProgress | ReviewCompleted | ReviewBlocked
}
