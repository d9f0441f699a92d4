/** The outbound HTTP calls the handler attempts, recorded as values: the
    network itself is not modelled, only what is sent where. */
module Outbound {
  import opened Json

  /** The deployment settings read from the environment at start-up
      (`GRAFANA_URL`, `GRAFANA_API_KEY`, `TEAMS_WEBHOOK_URL`, `OLLAMA_URL`). */
  datatype Config = Config(
    grafanaUrl: string,
    grafanaApiKey: string,
    teamsWebhookUrl: string,
    ollamaUrl: string)

  /** One `requests.post(url, json=body, headers=headers, timeout=seconds)`;
      `headers` holds only the headers the code passes itself. */
  datatype Post = Post(url: string, headers: map<string, string>, body: JSON, timeout: nat)
}
