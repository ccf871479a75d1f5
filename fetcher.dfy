/**
 * One run of the downloader: resolve the credential, derive the model
 * directory, call the hub, then either summarise the downloaded files
 * (exit status 0) or report the failure (exit status 1).
 *
 * The hub client is an injected function from the call's arguments to
 * what it produced: the path it returns together with the recursive walk
 * of the model directory afterwards (`None` when that directory does not
 * exist), or the error it raised.
 */
module Fetcher {
  import opened Wrappers
  import opened Sanitize
  import opened Credentials
  import opened DownloadSummary
  import opened Failures

  /** The arguments passed to `snapshot_download`; the local directory is `downloadDir / localSubdir`. */
  datatype HubCall = HubCall(repoId: string, downloadDir: string, localSubdir: string,
                             token: Option<string>, revision: string)

  datatype FetchResult =
    | Fetched(downloadedPath: string, walk: Option<seq<Entry>>)
    | Raised(error: FetchError)

  /** What `download_model` ends with: it returns the path, or the process exits. */
  datatype DownloadResult =
    | Downloaded(path: string, summary: Option<Summary>)
    | Exited(outcome: Outcome)

  const DefaultDownloadDir: string := "./models"
  const DefaultRevision: string := "main"

  /** The parsed command line. */
  datatype Arguments = Arguments(modelId: string, downloadDir: string, revision: string, token: Option<string>)

  /** The process environment: the `HF_TOKEN` variable and the lines of `.env`, if the file exists. */
  datatype Environment = Environment(hfToken: Option<string>, dotEnv: Option<seq<string>>)

  datatype Invocation = Invocation(credential: Credential, call: HubCall, result: DownloadResult, exitCode: int)

  /** The hub call `download_model` makes. */
  function PrepareCall(modelId: string, downloadDir: string, token: Option<string>, revision: string): (c: HubCall)
    ensures c.repoId == modelId && c.downloadDir == downloadDir && c.revision == revision
    ensures |c.localSubdir| == |modelId|
    ensures forall i :: 0 <= i < |c.localSubdir| ==> !IsSeparator(c.localSubdir[i])
    ensures c.token.None? <==> !Truthy(token)
    ensures c.token.Some? ==> c.token == token
    ensures c.localSubdir == SafeName(modelId) && c.token == HubToken(token)
  {
    HubCall(modelId, downloadDir, SafeName(modelId), HubToken(token), revision)
  }

  /** `download_model`: the hub call, then the summary or the classified failure. */
  function DownloadModel(modelId: string, downloadDir: string, token: Option<string>, revision: string,
                         hub: HubCall -> FetchResult): (r: DownloadResult)
    ensures var fetched := hub(PrepareCall(modelId, downloadDir, token, revision));
            && (r.Downloaded? <==> fetched.Fetched?)
            && (r.Downloaded? ==> r.path == fetched.downloadedPath)
            && (r.Downloaded? ==> (r.summary.Some? <==> fetched.walk.Some?))
            && (r.Downloaded? && r.summary.Some? ==>
                  r.summary.value.fileCount == |Files(fetched.walk.value)| &&
                  r.summary.value.totalBytes == TotalSize(Files(fetched.walk.value)))
            && (r.Exited? ==> r.outcome == Classify(fetched.error))
    ensures var fetched := hub(PrepareCall(modelId, downloadDir, token, revision));
            r.Downloaded? ==> r.summary == (if fetched.walk.Some? then Some(Summarize(fetched.walk.value)) else None)
  {
    match hub(PrepareCall(modelId, downloadDir, token, revision))
    case Fetched(path, walk) =>
      Downloaded(path, if walk.Some? then Some(Summarize(walk.value)) else None)
    case Raised(error) => Exited(Classify(error))
  }

  /** `main` after argument parsing. */
  function Run(args: Arguments, env: Environment, hub: HubCall -> FetchResult): (inv: Invocation)
    ensures inv.credential == ResolveToken(args.token, env.hfToken, env.dotEnv)
    ensures inv.call == PrepareCall(args.modelId, args.downloadDir, inv.credential.Token(), args.revision)
    ensures inv.result.Downloaded? <==> hub(inv.call).Fetched?
    ensures inv.exitCode == 0 <==> inv.result.Downloaded?
    ensures inv.result.Exited? ==> inv.exitCode == FailureExitCode
    ensures inv.result == DownloadModel(args.modelId, args.downloadDir, inv.credential.Token(), args.revision, hub)
  {
    var credential := ResolveToken(args.token, env.hfToken, env.dotEnv);
    var call := PrepareCall(args.modelId, args.downloadDir, credential.Token(), args.revision);
    var result := DownloadModel(args.modelId, args.downloadDir, credential.Token(), args.revision, hub);
    Invocation(credential, call, result, if result.Downloaded? then 0 else FailureExitCode)
  }

  /** Every error the hub raises ends the run with exit status 1 and its classified report. */
  lemma FailuresExitWithOne(args: Arguments, env: Environment, hub: HubCall -> FetchResult)
    requires hub(Run(args, env, hub).call).Raised?
    ensures var inv := Run(args, env, hub);
            inv.exitCode == 1 && inv.result == Exited(Classify(hub(inv.call).error))
  {
  }

  /** A non-empty `--token` is what the hub receives, whatever the environment holds. */
  lemma CommandLineTokenReachesHub(args: Arguments, env: Environment, hub: HubCall -> FetchResult)
    requires Truthy(args.token)
    ensures Run(args, env, hub).call.token == args.token
  {
  }

  /**
   * The hub is called with `token=None` exactly when no source supplies a
   * non-empty token (the hub client may then still fall back on a token
   * saved locally; that is outside this model).
   */
  lemma NoTokenArgumentIff(args: Arguments, env: Environment, hub: HubCall -> FetchResult)
    ensures Run(args, env, hub).call.token.None? <==>
            !Truthy(args.token) && !Truthy(env.hfToken) &&
            (env.dotEnv.None? || !Truthy(DotEnvLookup(env.dotEnv.value)))
  {
    HubTokenNoneIff(args.token, env.hfToken, env.dotEnv);
  }

  /** A model id with no credential anywhere and a 404 from the hub: called with `token=None`, reported as not found, exit status 1. */
  lemma NotFoundScenario(modelId: string)
    ensures var inv := Run(Arguments(modelId, DefaultDownloadDir, DefaultRevision, None),
                           Environment(None, None), _ => Raised(HttpError(404)));
            && inv.credential == Missing
            && inv.call == HubCall(modelId, DefaultDownloadDir, SafeName(modelId), None, DefaultRevision)
            && inv.result == Exited(NotFound)
            && inv.exitCode == 1
  {
  }

  /** A model id downloading three files of 10, 20 and 30 bytes: 3 files, 60 bytes, exit status 0. */
  lemma SuccessScenario(modelId: string, path: string)
    ensures var walk := [Entry("a", true, 10), Entry("b", true, 20), Entry("c", true, 30)];
            var inv := Run(Arguments(modelId, DefaultDownloadDir, DefaultRevision, None),
                           Environment(None, None), _ => Fetched(path, Some(walk)));
            && inv.exitCode == 0
            && inv.result.Downloaded? && inv.result.path == path
            && inv.result.summary.Some?
            && inv.result.summary.value.fileCount == 3
            && inv.result.summary.value.totalBytes == 60
            && inv.result.summary.value.moreFiles == None
  {
    var walk := [Entry("a", true, 10), Entry("b", true, 20), Entry("c", true, 30)];
    FilesOfRegularFiles(walk);
    assert TotalSize(walk[2..]) == 30;
    assert TotalSize(walk[1..]) == 50;
    assert TotalSize(walk) == 60;
    var summary := Summarize(walk);
    assert summary.fileCount == 3 && summary.totalBytes == 60 && summary.moreFiles == None;
    assert ResolveToken(None, None, None) == Missing;
  }
}
