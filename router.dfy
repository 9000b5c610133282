/**
 * The `message` event handler: which events it ignores, which go to bootstrap, which mentions
 * it answers, and how a mention is tokenized, authorised and dispatched. The source resolves the
 * command with `eval`; here the resolution is a lookup in the closed table of the three handlers
 * the file defines.
 */
module Router {
  import opened Wrappers
  import opened Text
  import opened Tokenizer
  import opened Errors
  import opened Access
  import opened GitLab
  import opened Handlers

  /** The process settings the handler reads: `SLACK_BOT_USER_ID` and the GitLab settings. */
  datatype Env = Env(botUserId: string, api: Api)

  /**
   * What one event leads to: nothing at all (`Ignored`, or `Dropped` for a channel message that
   * does not mention the bot), the bootstrap `initialise(data)`, or the effects of a dispatch.
   */
  datatype Outcome = Ignored | Bootstrap | Dropped | Handled(effects: seq<Effect>)

  datatype Handler = HelloHandler | JobLastHandler | JobRetryHandler

  /** The handlers the file defines, by the name `eval` would reach them under. */
  const HandlerTable: map<string, Handler> :=
    map["hello" := HelloHandler, "job_last" := JobLastHandler, "job_retry" := JobRetryHandler]

  /** Exact lookup of a command name in the closed table. */
  function Resolve(name: string): (h: Option<Handler>)
    ensures h == Some(HelloHandler) <==> name == "hello"
    ensures h == Some(JobLastHandler) <==> name == "job_last"
    ensures h == Some(JobRetryHandler) <==> name == "job_retry"
    ensures h.None? <==> name !in {"hello", "job_last", "job_retry"}
  {
    if name in HandlerTable then Some(HandlerTable[name]) else None
  }

  /** `parts = word.split(":"); parts[0] + "_" + parts[1]` when the word has a colon. */
  function CompoundName(word: string): (name: string)
    ensures ':' !in word ==> name == word
  {
    if ':' in word then
      var parts := SplitOn(word, ':');
      parts[0] + "_" + parts[1]
    else word
  }

  /** `job:last` names `job_last`. */
  lemma CompoundNameOfPair(verb: string, subject: string)
    requires ':' !in verb && ':' !in subject
    ensures CompoundName(verb + ":" + subject) == verb + "_" + subject
  {
    assert Join([verb, subject], [':']) == verb + ":" + subject;
    SplitOnJoin([verb, subject], ':');
  }

  /** The mention prefix the handler waits for. */
  function Mention(botUserId: string): string {
    "<@" + botUserId + ">"
  }

  /** The private reply `errorResponse(error, data)`. */
  function ErrorResponse(ev: Event, e: JsError): (reply: Effect)
    ensures reply.Ephemeral? && reply.channel == ev.channel && reply.user == ev.user
    ensures reply.text == ErrorReplyText(e) && reply.card.None?
  {
    Ephemeral(ev.channel, ev.user, ErrorReplyText(e), None)
  }

  /** Runs a resolved handler; the handlers that read `params` throw when called without them. */
  function Invoke(env: Env, projects: Registry, ev: Event, h: Handler, params: Option<seq<string>>, up: Upstream)
    : (r: Result<seq<Effect>, JsError>)
    ensures h.HelloHandler? ==> r == Success([Greeting(ev)])
    ensures !h.HelloHandler? && params.None? ==> r == Failure(UndefinedProperty("2"))
    ensures h.JobLastHandler? && params.Some? ==> r == JobLast(env.api, projects, params.value, up)
    ensures h.JobRetryHandler? && params.Some? ==> r == JobRetry(env.api, projects, ev, params.value, up)
  {
    match h
    case HelloHandler => Success([Greeting(ev)])
    case JobLastHandler =>
      if params.None? then Failure(UndefinedProperty("2")) else JobLast(env.api, projects, params.value, up)
    case JobRetryHandler =>
      if params.None? then Failure(UndefinedProperty("2")) else JobRetry(env.api, projects, ev, params.value, up)
  }

  /**
   * The body of the `try` block, on the pieces of the message text: the access check when there
   * is a third piece, then the command named by the second piece.
   */
  function Dispatch(env: Env, projects: Registry, ev: Event, params: seq<string>, up: Upstream)
    : (r: Result<seq<Effect>, JsError>)
    ensures |params| > 2 && params[2] !in projects ==> r == Failure(UndefinedProperty("users"))
    ensures (|params| > 2 && params[2] in projects && ev.user !in projects[params[2]].users)
              ==> r == Failure(AuthorisationError)
    ensures r.Success? && |params| > 2 ==> params[2] in projects && ev.user in projects[params[2]].users
    ensures r.Success? ==> |params| >= 2 && Resolve(CompoundName(params[1])).Some?
    ensures (&& |params| >= 2 && Resolve(CompoundName(params[1])).None?
             && (|params| > 2 ==> params[2] in projects && ev.user in projects[params[2]].users))
              ==> r == Failure(NotDefined(CompoundName(params[1])))
    ensures |params| < 2 ==> r == Failure(UndefinedProperty("includes"))
    ensures (&& |params| >= 2 && Resolve(CompoundName(params[1])).Some?
             && (|params| > 2 ==> params[2] in projects && ev.user in projects[params[2]].users))
              ==> r == Invoke(env, projects, ev, Resolve(CompoundName(params[1])).value,
                              if ':' in params[1] then Some(params) else None, up)
  {
    if |params| > 2 && HasAccess(projects, params[2], ev.user).Failure? then
      Failure(HasAccess(projects, params[2], ev.user).error)
    else if |params| > 2 && !HasAccess(projects, params[2], ev.user).value then
      Failure(AuthorisationError)
    else if |params| < 2 then
      // `params[1]` is undefined and `includes` is read from it
      Failure(UndefinedProperty("includes"))
    else if ':' in params[1] then
      var name := CompoundName(params[1]);
      match Resolve(name)
      case None => Failure(NotDefined(name))
      case Some(h) => Invoke(env, projects, ev, h, Some(params), up)
    else
      match Resolve(params[1])
      case None => Failure(NotDefined(params[1]))
      case Some(h) => Invoke(env, projects, ev, h, None, up)
  }

  /** `data.type === "message" || data.subtype === "bot_message"`. */
  predicate Relayed(ev: Event) {
    ev.kind == "message" || ev.subtype == Some("bot_message")
  }

  predicate IsDirect(ev: Event) {
    "D" <= ev.channel
  }

  /** The `message` event handler. */
  function HandleMessage(env: Env, projects: Registry, ev: Event, up: Upstream): (o: Outcome)
    ensures o.Ignored? <==> !Relayed(ev)
    ensures o.Bootstrap? <==> Relayed(ev) && IsDirect(ev)
    ensures o.Dropped? <==> Relayed(ev) && !IsDirect(ev) && !(Mention(env.botUserId) <= ev.text)
    ensures o.Handled? ==>
      match Dispatch(env, projects, ev, Tokenize(ev.text), up)
      case Success(effects) => o.effects == effects
      case Failure(e) => o.effects == [ErrorResponse(ev, e)]
  {
    if !Relayed(ev) then Ignored
    else if IsDirect(ev) then Bootstrap
    else if Mention(env.botUserId) <= ev.text then
      match Dispatch(env, projects, ev, Tokenize(ev.text), up)
      case Success(effects) => Handled(effects)
      case Failure(e) => Handled([ErrorResponse(ev, e)])
    else Dropped
  }

  /**
   * Word pieces never hold a colon, so the colon branch never runs and the handler is always
   * called without `params`: only `hello` can succeed, and no mention ever reaches GitLab.
   */
  lemma DispatchOnlyGreets(env: Env, projects: Registry, ev: Event, up: Upstream)
    ensures var r := Dispatch(env, projects, ev, Tokenize(ev.text), up);
      r.Success? ==> r.value == [Greeting(ev)]
  {
    var params := Tokenize(ev.text);
    if |params| >= 2 {
      WordPiecesHaveNoColon(ev.text);
      assert ':' !in params[1];
    }
  }

  /** Every answered mention is exactly one private reply to its sender, and no GitLab request. */
  lemma HandledIsOnePrivateReply(env: Env, projects: Registry, ev: Event, up: Upstream)
    ensures var o := HandleMessage(env, projects, ev, up);
      o.Handled? ==>
        && |o.effects| == 1
        && o.effects[0].Ephemeral?
        && o.effects[0].channel == ev.channel
        && o.effects[0].user == ev.user
        && !IsRequest(o.effects[0])
  {
    DispatchOnlyGreets(env, projects, ev, up);
  }

  /**
   * With a bot id made of word characters, the second piece of every answered message is the
   * bot id itself and the third starts with `">"`: the access check looks that piece up as a
   * project key, and the command run is the one named like the bot, whatever the message says.
   */
  lemma MentionDispatchesOnBotId(env: Env, projects: Registry, ev: Event, up: Upstream)
    requires |env.botUserId| > 0 && AllWordChars(env.botUserId)
    requires Mention(env.botUserId) <= ev.text
    ensures var params := Tokenize(ev.text);
      && |params| >= 3 && params[1] == env.botUserId && |params[2]| > 0 && params[2][0] == '>'
      && Dispatch(env, projects, ev, params, up) ==
           if params[2] !in projects then Failure(UndefinedProperty("users"))
           else if ev.user !in projects[params[2]].users then Failure(AuthorisationError)
           else if env.botUserId == "hello" then Success([Greeting(ev)])
           else if env.botUserId in {"job_last", "job_retry"} then Failure(UndefinedProperty("2"))
           else Failure(NotDefined(env.botUserId))
  {
    MentionPieces(env.botUserId, ev.text);
    WordPiecesHaveNoColon(ev.text);
  }
}
