/** `send_to_teams`: the message posted to the Teams incoming webhook. */
module Teams {
  import opened Json
  import opened Outbound

  /** `{"text": text}` posted to `TEAMS_WEBHOOK_URL` with a 10-second
      timeout and no headers of its own. */
  function TeamsPost(cfg: Config, text: string): (p: Post)
    ensures p.url == cfg.teamsWebhookUrl && p.headers == map[] && p.timeout == 10
    ensures p.body.Obj? && p.body.fields.Keys == {"text"} && p.body.fields["text"] == Str(text)
  {
    Post(cfg.teamsWebhookUrl, map[], Obj(map["text" := Str(text)]), 10)
  }
}
