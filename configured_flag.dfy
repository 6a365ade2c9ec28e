/** How the Watson credential probe and the admin menu meet: the probe
    writes the `classifai_configured` option and the services manager reads
    it to decide whether the menu carries the notification badge. */
module ConfiguredFlag {
  import opened Php
  import Options
  import WatsonNlu
  import Services

  /** `get_option( 'classifai_configured' )`, false when it is absent. */
  function ConfiguredValue(options: map<string, Val>): Val
  {
    if Options.ConfiguredOption in options then options[Options.ConfiguredOption] else Bool(false)
  }

  /** After a probe with complete credentials, the menu shows the plain
      title exactly when the probe succeeded; after a failed probe it
      shows the badge. */
  lemma ProbeDecidesMenuTitle(settings: Val, transport: WatsonNlu.ProbeRequest -> bool, options: map<string, Val>)
    requires WatsonNlu.CredentialsComplete(settings)
    ensures var check := WatsonNlu.CheckCredentials(settings, transport);
            var after := WatsonNlu.FlagAfter(options, check);
            && (Services.MenuTitle(ConfiguredValue(after)) == Services.Title <==> !WatsonNlu.AuthFailed(check))
            && (WatsonNlu.AuthFailed(check) ==>
                  Services.MenuTitle(ConfiguredValue(after)) == Services.Title + " " + Services.Badge)
  {
    var check := WatsonNlu.CheckCredentials(settings, transport);
    WatsonNlu.ProbeDecidesFlag(settings, transport, options);
    if !check.isError {
      assert ConfiguredValue(WatsonNlu.FlagAfter(options, check)) == Bool(true);
    } else {
      assert Options.ConfiguredOption !in WatsonNlu.FlagAfter(options, check);
    }
  }
}
