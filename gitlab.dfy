/**
 * Request URLs for GitLab's REST API (version 4). Every request carries the access token as
 * a query parameter appended after the path.
 */
module GitLab {
  import opened Wrappers

  /** The `GITLAB_URL` and `GITLAB_OAUTH_ACCESS_TOKEN` settings. */
  datatype Api = Api(baseUrl: string, token: string)

  const ProjectsPath := "/api/v4/projects/"
  const TokenQuery := "?access_token="

  /** `buildUrl(endpoint)`. */
  function BuildUrl(api: Api, path: string): (url: string)
    ensures api.baseUrl <= url
  {
    api.baseUrl + path + TokenQuery + api.token
  }

  /** Reads back the path of a URL built for `api`; `None` when the URL is not one. */
  function RequestPath(api: Api, url: string): (path: Option<string>)
    ensures path.Some? ==> BuildUrl(api, path.value) == url
  {
    var suffix := TokenQuery + api.token;
    if |api.baseUrl| + |suffix| <= |url| && api.baseUrl <= url && url[|url| - |suffix|..] == suffix then
      var p := url[|api.baseUrl|..|url| - |suffix|];
      assert url == api.baseUrl + p + suffix by {
        assert url == url[..|api.baseUrl|] + p + url[|url| - |suffix|..];
      }
      Some(p)
    else None
  }

  /** A built URL determines its path: the token query is appended to the path and nothing else. */
  lemma RequestPathOfBuildUrl(api: Api, path: string)
    ensures RequestPath(api, BuildUrl(api, path)) == Some(path)
  {
    var url := BuildUrl(api, path);
    var suffix := TokenQuery + api.token;
    assert url == api.baseUrl + path + suffix;
    assert url[|url| - |suffix|..] == suffix;
    assert url[|api.baseUrl|..|url| - |suffix|] == path;
  }

  function JobsPath(projectId: string): string {
    ProjectsPath + projectId + "/jobs"
  }

  /**
   * The jobs-list URL of `job_last`: the built URL, with `&scope[]=<scope>` appended when the
   * message has a fourth piece.
   */
  function JobsUrl(api: Api, projectId: string, scope: Option<string>): (url: string)
    ensures scope.None? ==> RequestPath(api, url) == Some(JobsPath(projectId))
    ensures scope.Some? ==> url == BuildUrl(api, JobsPath(projectId)) + "&scope[]=" + scope.value
  {
    RequestPathOfBuildUrl(api, JobsPath(projectId));
    var endpoint := BuildUrl(api, JobsPath(projectId));
    if scope.Some? then endpoint + "&scope[]=" + scope.value else endpoint
  }

  function TracePath(projectId: string, jobId: string): string {
    ProjectsPath + projectId + "/jobs/" + jobId + "/trace"
  }

  /** The trace URL of one job. */
  function TraceUrl(api: Api, projectId: string, jobId: string): (url: string)
    ensures RequestPath(api, url) == Some(TracePath(projectId, jobId))
  {
    RequestPathOfBuildUrl(api, TracePath(projectId, jobId));
    BuildUrl(api, TracePath(projectId, jobId))
  }

  function RetryPath(projectId: string, jobId: string): string {
    ProjectsPath + projectId + "/jobs/" + jobId + "/retry"
  }

  /** The retry URL of one job. */
  function RetryUrl(api: Api, projectId: string, jobId: string): (url: string)
    ensures RequestPath(api, url) == Some(RetryPath(projectId, jobId))
  {
    RequestPathOfBuildUrl(api, RetryPath(projectId, jobId));
    BuildUrl(api, RetryPath(projectId, jobId))
  }
}
