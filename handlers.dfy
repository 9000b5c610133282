/**
 * The three command handlers `hello`, `job_last` and `job_retry`. What a handler does is
 * modelled as the list of effects it performs, in order: HTTP requests to GitLab and Slack
 * posts. GitLab's responses are inputs (`Upstream`); a request that fails, or a callback that
 * throws, rejects a promise nobody handles, so the list simply ends there.
 */
module Handlers {
  import opened Wrappers
  import opened Errors
  import opened Access
  import opened GitLab
  import opened Cards
  import opened Trace

  /** A Slack `message` event: `type`, `subtype` (absent on plain messages), channel, user, text. */
  datatype Event = Event(kind: string, subtype: Option<string>, channel: string, user: string, text: string)

  datatype Effect =
    | HttpGet(url: string)
    | HttpPost(url: string)
    | Ephemeral(channel: string, user: string, text: string, card: Option<Card>)
    | ChannelMessage(channel: string, text: string, attachment: Card)

  /** GitLab's answers: the jobs list, the decoded trace, the retried job; `None` for a failed call. */
  datatype Upstream = Upstream(jobs: Option<seq<Job>>, trace: Option<string>, retried: Option<Job>)

  predicate IsRequest(e: Effect) {
    e.HttpGet? || e.HttpPost?
  }

  /** `params[i]` as a string concatenation or a property lookup sees it. */
  function Arg(params: seq<string>, i: nat): (a: string)
    ensures i < |params| ==> a == params[i]
    ensures i >= |params| ==> a == "undefined"
  {
    if i < |params| then params[i] else "undefined"
  }

  /** `hello(data)`: a private greeting to the sender. */
  function Greeting(ev: Event): (greeting: Effect)
    ensures greeting.Ephemeral? && greeting.channel == ev.channel && greeting.user == ev.user
    ensures greeting.text == "Hey there" && greeting.card.None?
  {
    Ephemeral(ev.channel, ev.user, "Hey there", None)
  }

  /**
   * `job_last(data, params)`: list the project's jobs (optionally filtered by scope), fetch the
   * trace of the most recent one, and post its card to the project's channel.
   */
  function JobLast(api: Api, projects: Registry, params: seq<string>, up: Upstream): (r: Result<seq<Effect>, JsError>)
    ensures r.Failure? <==> Arg(params, 2) !in projects
    ensures r.Failure? ==> r.error == UndefinedProperty("id")
    ensures r.Success? ==>
      var project := projects[Arg(params, 2)];
      var scope := if |params| > 3 then Some(params[3]) else None;
      && 1 <= |r.value| <= 3
      && r.value[0] == HttpGet(JobsUrl(api, project.id, scope))
      && (|r.value| >= 2 ==>
            && up.jobs.Some? && up.jobs.value != []
            && r.value[1] == HttpGet(TraceUrl(api, project.id, up.jobs.value[0].id)))
      && (|r.value| >= 2 <==> up.jobs.Some? && up.jobs.value != [])
      && (|r.value| == 3 <==> up.jobs.Some? && up.jobs.value != [] && up.trace.Some?)
      && (|r.value| == 3 ==>
            r.value[2] == ChannelMessage(project.channel, "", LastJobCard(up.jobs.value[0], TraceTail(up.trace.value))))
  {
    var key := Arg(params, 2);
    if key !in projects then Failure(UndefinedProperty("id"))
    else
      var project := projects[key];
      var scope := if |params| > 3 then Some(params[3]) else None;
      Success([HttpGet(JobsUrl(api, project.id, scope))] + AfterJobsList(api, project, up))
  }

  /** The continuation of `job_last` once the jobs list has arrived. */
  function AfterJobsList(api: Api, project: Project, up: Upstream): seq<Effect> {
    match up.jobs
    case None => []
    case Some(jobs) =>
      // with no job, `response.data[0]` is undefined and reading its `id` rejects the promise
      if jobs == [] then []
      else
        var lastJob := jobs[0];
        [HttpGet(TraceUrl(api, project.id, lastJob.id))] +
        match up.trace
        case None => []
        case Some(trace) => [ChannelMessage(project.channel, "", LastJobCard(lastJob, TraceTail(trace)))]
  }

  /**
   * `job_retry(data, params)`: retry job `params[3]` of the project and reply privately with
   * the card of the retried job.
   */
  function JobRetry(api: Api, projects: Registry, ev: Event, params: seq<string>, up: Upstream): (r: Result<seq<Effect>, JsError>)
    ensures r.Failure? <==> Arg(params, 2) !in projects
    ensures r.Failure? ==> r.error == UndefinedProperty("id")
    ensures r.Success? ==>
      var project := projects[Arg(params, 2)];
      && |r.value| >= 1
      && r.value[0] == HttpPost(RetryUrl(api, project.id, Arg(params, 3)))
      && (up.retried.None? ==> |r.value| == 1)
      && (up.retried.Some? ==>
            |r.value| == 2 && r.value[1] == Ephemeral(ev.channel, ev.user, "", Some(RetryCard(up.retried.value))))
  {
    var key := Arg(params, 2);
    if key !in projects then Failure(UndefinedProperty("id"))
    else
      var project := projects[key];
      var request := HttpPost(RetryUrl(api, project.id, Arg(params, 3)));
      match up.retried
      case None => Success([request])
      case Some(job) => Success([request, Ephemeral(ev.channel, ev.user, "", Some(RetryCard(job)))])
  }
}
