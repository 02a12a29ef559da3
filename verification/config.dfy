/**
 * The supervisor's configuration: one `(retrytimes, action)` policy per
 * failure category, loaded once and never changed.
 */
module Config {
  import opened Outcomes

  /** What to do when a streak reaches its threshold. */
  datatype Action = Restart | NoAction

  /** Only the exact text "restart" selects a restart; anything else does nothing. */
  function ParseAction(text: string): (a: Action)
    ensures a == Restart <==> text == "restart"
    ensures a == NoAction <==> text != "restart"
  {
    if text == "restart" then Restart else NoAction
  }

  /** A threshold and the action text as configured; the text is read through `ParseAction`. */
  datatype Policy = Policy(retrytimes: int, action: string)

  /** The `http403`, `http500` and `timeoutConfig` entries of the configuration. */
  datatype Config = Config(http403: Policy, http500: Policy, timeoutConfig: Policy)

  function PolicyFor(cfg: Config, cat: Category): Policy
  {
    match cat
    case Forbidden => cfg.http403
    case ServerError => cfg.http500
    case Timeout => cfg.timeoutConfig
  }

  /** Every threshold is at least one, as the configuration is meant to be written. */
  predicate Positive(cfg: Config)
  {
    forall cat: Category :: PolicyFor(cfg, cat).retrytimes >= 1
  }
}
