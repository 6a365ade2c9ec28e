/** The plugin-wide ClassifAI settings kept by the services manager: the
    registration polyfill applied when they are read, the sanitiser that
    builds the license section from a license verdict, and the admin menu
    title chosen from the "configured" flag. */
module Services {
  import opened Php
  import Options

  /** The option holding the plugin-wide settings. */
  const SettingsOption: string := "classifai_settings"

  // =====================================================================
  // Reading: the pre-1.3 registration polyfill

  /** Before 1.3 the registration fields were nested under `registration`:
      `$settings[field]` takes `$settings['registration'][field]` when it
      is not set itself. No other key changes. */
  function LiftRegistration(settings: Val, field: string): (r: Val)
    ensures forall k :: Get(r, k) ==
              if k == field && !Isset(settings, field) && IssetIn(settings, "registration", field)
              then Some(ReadIn(settings, "registration", field))
              else Get(settings, k)
  {
    if !Isset(settings, field) && IssetIn(settings, "registration", field) then
      var lifted := Put(settings, field, ReadIn(settings, "registration", field));
      assert forall k :: Get(lifted, k) == if k == field then Some(ReadIn(settings, "registration", field)) else Get(settings, k) by {
        forall k ensures Get(lifted, k) == if k == field then Some(ReadIn(settings, "registration", field)) else Get(settings, k) {
          GetPut(settings, field, ReadIn(settings, "registration", field), k);
        }
      }
      lifted
    else settings
  }

  /** The polyfill for both registration fields, email first: a top-level
      `email` or `license_key` that is set is never overwritten; an unset
      one takes the nested registration value when that is set; every
      other key is left alone. */
  function RegistrationPolyfill(settings: Val): (r: Val)
    ensures forall k :: Get(r, k) ==
              if (k == "email" || k == "license_key") && !Isset(settings, k) && IssetIn(settings, "registration", k)
              then Some(ReadIn(settings, "registration", k))
              else Get(settings, k)
  {
    LiftRegistration(LiftRegistration(settings, "email"), "license_key")
  }

  /** Applying the polyfill twice is applying it once. */
  lemma PolyfillIdempotent(settings: Val)
    ensures RegistrationPolyfill(RegistrationPolyfill(settings)) == RegistrationPolyfill(settings)
  {
    var once := RegistrationPolyfill(settings);
    assert Get(once, "email") == (if !Isset(settings, "email") && IssetIn(settings, "registration", "email")
                                  then Some(ReadIn(settings, "registration", "email")) else Get(settings, "email"));
    assert Get(once, "license_key") == (if !Isset(settings, "license_key") && IssetIn(settings, "registration", "license_key")
                                        then Some(ReadIn(settings, "registration", "license_key")) else Get(settings, "license_key"));
    assert Get(once, "registration") == Get(settings, "registration");
    assert LiftRegistration(once, "email") == once;
  }

  /** `get_settings( $index )` on the stored option. Without a truthy
      index, the whole polyfilled settings. Otherwise the stored value at
      that index when set; for `email` and `license_key` the nested
      registration value next; and `''` when nothing is set. */
  function GetSettings(stored: Val, index: Option<string>): (r: Val)
    ensures !TruthyArg(index) ==> r == RegistrationPolyfill(stored)
    ensures TruthyArg(index) ==>
              r == if Isset(stored, index.value) then Read(stored, index.value)
                   else if (index.value == "email" || index.value == "license_key") && IssetIn(stored, "registration", index.value)
                   then ReadIn(stored, "registration", index.value)
                   else Str("")
  {
    var settings := RegistrationPolyfill(stored);
    if !TruthyArg(index) then settings
    else
      assert Get(settings, index.value) ==
             if (index.value == "email" || index.value == "license_key") && !Isset(stored, index.value) && IssetIn(stored, "registration", index.value)
             then Some(ReadIn(stored, "registration", index.value)) else Get(stored, index.value);
      if !Isset(settings, index.value) then Str("")
      else Read(settings, index.value)
  }

  // =====================================================================
  // Saving: the license section

  /** What `sanitize_settings` produces: the settings to save, and whether
      it registered the "invalid registration" settings error. */
  datatype Saved = Saved(settings: Val, registrationError: bool)

  /** The license section keys. */
  predicate LicenseKey(k: string)
  {
    k == "valid_license" || k == "email" || k == "license_key"
  }

  /** `sanitize_settings( $settings )`. `licenseValid` is the verdict of
      the license server, consulted only when both fields were submitted;
      `cleanText` stands for `sanitize_text_field`. */
  function SanitizeSettings(submitted: Val, licenseValid: bool, cleanText: Val -> Val): (saved: Saved)
    ensures saved.settings.Arr?
    ensures forall k :: HasKey(saved.settings.entries, k) ==> LicenseKey(k)
    ensures !(Isset(submitted, "email") && Isset(submitted, "license_key")) ==>
              saved == Saved(Arr([]), false)
    ensures Isset(submitted, "email") && Isset(submitted, "license_key") && licenseValid ==>
              && Get(saved.settings, "valid_license") == Some(Bool(true))
              && Get(saved.settings, "email") == Some(cleanText(Read(submitted, "email")))
              && Get(saved.settings, "license_key") == Some(cleanText(Read(submitted, "license_key")))
              && !saved.registrationError
    ensures Isset(submitted, "email") && Isset(submitted, "license_key") && !licenseValid ==>
              && Get(saved.settings, "valid_license") == Some(Bool(false))
              && Get(saved.settings, "email") == Some(Str(""))
              && Get(saved.settings, "license_key") == Some(Str(""))
              && saved.registrationError
  {
    if Isset(submitted, "email") && Isset(submitted, "license_key") then
      // Three assignments into an empty array, in this order.
      var (flag, email, key) := if licenseValid
                                then (true, cleanText(Read(submitted, "email")), cleanText(Read(submitted, "license_key")))
                                else (false, Str(""), Str(""));
      var es := [("valid_license", Bool(flag)), ("email", email), ("license_key", key)];
      assert es[1..] == [("email", email), ("license_key", key)];
      assert es[1..][1..] == [("license_key", key)];
      assert "valid_license"[0] != "email"[0] && "valid_license"[0] != "license_key"[0];
      assert "email"[0] != "license_key"[0];
      assert Lookup(es[1..], "license_key") == Lookup(es[1..][1..], "license_key");
      assert Lookup(es, "email") == Some(email);
      assert Lookup(es, "license_key") == Some(key);
      Saved(Arr(es), !licenseValid)
    else
      Saved(Arr([]), false)
  }

  /** Saved settings read back as saved: they have no `registration` key,
      so the polyfill leaves them alone, and the email shown in the form
      is the one just saved. */
  lemma SavedReadsBack(submitted: Val, licenseValid: bool, cleanText: Val -> Val)
    ensures var saved := SanitizeSettings(submitted, licenseValid, cleanText).settings;
            && RegistrationPolyfill(saved) == saved
            && GetSettings(saved, Some("email")) == (if Isset(saved, "email") then Read(saved, "email") else Str(""))
  {
    var saved := SanitizeSettings(submitted, licenseValid, cleanText).settings;
    assert !HasKey(saved.entries, "registration");
    LookupNoneIffAbsent(saved.entries, "registration");
  }

  // =====================================================================
  // The admin menu title

  const Title: string := "ClassifAI"

  /** The notification badge appended while the plugin is not configured. */
  const Badge: string := "<span class=\"update-plugins\"><span class=\"update-count\">!</span></span>"

  /** The menu title for a value of the `classifai_configured` option:
      the plain title once configured, the title with the badge before. */
  function MenuTitle(isSetup: Val): (t: string)
    ensures t == Title <==> !Empty(isSetup)
    ensures Empty(isSetup) ==> t == Title + " " + Badge
  {
    if Empty(isSetup) then Title + " " + Badge else Title
  }

  class ServicesManager {
    /** The registered service class names. */
    var services: seq<string>
    var title: string
    var menuTitle: string

    /** `__construct( $services )`, which also computes the menu title. */
    constructor (services: seq<string>, store: Options.OptionStore)
      ensures this.services == services
      ensures title == Title
      ensures menuTitle == MenuTitle(store.GetOption(Options.ConfiguredOption, Bool(false)))
    {
      this.services := services;
      new;
      GetMenuTitle(store);
    }

    /** `get_menu_title()`. */
    method GetMenuTitle(store: Options.OptionStore)
      modifies this
      ensures services == old(services)
      ensures title == Title
      ensures menuTitle == MenuTitle(store.GetOption(Options.ConfiguredOption, Bool(false)))
    {
      var isSetup := store.GetOption(Options.ConfiguredOption, Bool(false));
      title := Title;
      menuTitle := title;
      if Empty(isSetup) {
        menuTitle := Title + " " + Badge;
      }
    }

  }
}
