/** The message attachments ("cards") the bot posts for a job. */
module Cards {
  import opened Wrappers
  import opened Text

  datatype Commit = Commit(shortId: string, title: string)

  /**
   * A job as GitLab's jobs API returns it. The bot renders `Math.round(duration)` and
   * `new Date(created_at).getTime() / 1000`; those two values are kept here as their rendered
   * text (`roundedDuration`, `createdSeconds`).
   */
  datatype Job = Job(
    id: string,
    name: string,
    stage: string,
    status: string,
    roundedDuration: string,
    webUrl: string,
    commit: Commit,
    createdSeconds: string)

  /** One attachment field; the trace field of the last-job card has no title. */
  datatype Field = Field(title: Option<string>, value: string, short: bool)

  datatype Card = Card(
    color: string,
    title: string,
    titleLink: string,
    mrkdwnIn: seq<string>,
    fields: seq<Field>,
    footer: string,
    footerIcon: string,
    ts: string)

  const Footer := "GitLab API"
  const FooterIcon := "https://about.gitlab.com/images/press/logo/png/gitlab-icon-rgb.png"

  /** The `colours` table of `statusColour` and its fallback, written as the source has them. */
  const Colours: map<string, string> :=
    map["success" := "#2eb67d", "failed" := "#e01e5a", "canceled" := "#ecb22e"]
  const DefaultColour := "#36C5F0"

  /** `statusColour(status)`. */
  function StatusColour(status: string): (colour: string)
    ensures status == "success" ==> colour == "#2eb67d"
    ensures status == "failed" ==> colour == "#e01e5a"
    ensures status == "canceled" ==> colour == "#ecb22e"
    ensures status !in {"success", "failed", "canceled"} ==> colour == "#36C5F0"
  {
    if status in Colours then Colours[status] else DefaultColour
  }

  /** The field titles of a card, in order. */
  function Titles(fields: seq<Field>): (titles: seq<Option<string>>)
    ensures |titles| == |fields|
    ensures forall k :: 0 <= k < |fields| ==> titles[k] == fields[k].title
  {
    if fields == [] then [] else [fields[0].title] + Titles(fields[1..])
  }

  const LastJobTitles: seq<Option<string>> :=
    [Some("Name"), Some("Stage"), Some("Duration"), Some("Status"), Some("Last Commit"), None]
  const RetryTitles: seq<Option<string>> :=
    [Some("Name"), Some("Status"), Some("Last Commit")]

  function CommitLine(c: Commit): string {
    "#" + c.shortId + " - " + c.title
  }

  function Title(job: Job): string {
    "Job - " + job.id
  }

  /**
   * The card `job_last` posts: coloured by the job's status, six fields in a fixed order, the
   * last one the trace tail as a code block.
   */
  function LastJobCard(job: Job, tail: seq<string>): (card: Card)
    ensures card.color == StatusColour(job.status)
    ensures card.title == Title(job) && card.titleLink == job.webUrl
    ensures Titles(card.fields) == LastJobTitles
    ensures card.fields[0].value == job.name && card.fields[1].value == job.stage
    ensures card.fields[2].value == job.roundedDuration + "s"
    ensures card.fields[3].value == job.status
    ensures card.fields[4].value == "#" + job.commit.shortId + " - " + job.commit.title
    ensures card.fields[5].value == "```" + Join(tail, "\n") + "```"
    ensures forall k :: 0 <= k < |card.fields| ==> card.fields[k].short == (k < 4)
    ensures card.mrkdwnIn == ["fields", "text"]
    ensures card.footer == Footer && card.footerIcon == FooterIcon
    ensures card.ts == job.createdSeconds
  {
    Card(
      StatusColour(job.status),
      Title(job),
      job.webUrl,
      ["fields", "text"],
      [ Field(Some("Name"), job.name, true),
        Field(Some("Stage"), job.stage, true),
        Field(Some("Duration"), job.roundedDuration + "s", true),
        Field(Some("Status"), job.status, true),
        Field(Some("Last Commit"), CommitLine(job.commit), false),
        Field(None, "```" + Join(tail, "\n") + "```", false) ],
      Footer,
      FooterIcon,
      job.createdSeconds)
  }

  /** The card `job_retry` replies with: always in the success colour, three fields. */
  function RetryCard(job: Job): (card: Card)
    ensures card.color == "#2eb67d"
    ensures card.title == Title(job) && card.titleLink == job.webUrl
    ensures Titles(card.fields) == RetryTitles
    ensures card.fields[0].value == job.name && card.fields[1].value == job.status
    ensures card.fields[2].value == "#" + job.commit.shortId + " - " + job.commit.title
    ensures forall k :: 0 <= k < |card.fields| ==> card.fields[k].short == (k < 2)
    ensures card.mrkdwnIn == []
    ensures card.footer == Footer && card.footerIcon == FooterIcon
    ensures card.ts == job.createdSeconds
  {
    Card(
      StatusColour("success"),
      Title(job),
      job.webUrl,
      [],
      [ Field(Some("Name"), job.name, true),
        Field(Some("Status"), job.status, true),
        Field(Some("Last Commit"), CommitLine(job.commit), false) ],
      Footer,
      FooterIcon,
      job.createdSeconds)
  }
}
