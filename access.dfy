/** The project registry (`ci-projects.json`) and the access check `hasAccess`. */
module Access {
  import opened Wrappers
  import opened Errors

  /** One registry entry: the GitLab project id, the channel cards go to, and the allowed users. */
  datatype Project = Project(id: string, channel: string, users: seq<string>)

  type Registry = map<string, Project>

  /**
   * `hasAccess(project, user)`: whether `user` is listed for the project. A key that is not in
   * the registry makes `projects[project].users` read a property of `undefined`.
   */
  function HasAccess(projects: Registry, key: string, user: string): (r: Result<bool, JsError>)
    ensures r.Failure? <==> key !in projects
    ensures r.Failure? ==> r.error == UndefinedProperty("users")
    ensures r.Success? ==> (r.value <==> user in projects[key].users)
  {
    if key in projects then Success(user in projects[key].users)
    else Failure(UndefinedProperty("users"))
  }
}
