/** The IBM Watson Natural Language Understanding provider's settings:
    the feature catalog, resolving the stored settings (with the pre-1.3
    fallback), the credential probe that sets the "configured" flag, and
    the sanitiser that overlays a submitted settings form. */
module WatsonNlu {
  import opened Php
  import opened Watson
  import Options

  /** Where settings lived before version 1.3. */
  const LegacyOption: string := "classifai_settings"

  // =====================================================================
  // The feature catalog

  /** One entry of the provider's feature catalog: the setting labels and
      the default threshold and taxonomy. */
  datatype FeatureDescriptor = FeatureDescriptor(
    name: string,
    featureLabel: string,
    thresholdLabel: string,
    taxonomyLabel: string,
    thresholdDefault: Val,
    taxonomyDefault: Val)

  /** The plugin's configuration defines the eight catalog constants. */
  predicate DefinesCatalogConstants(constants: map<string, Val>)
  {
    && "WATSON_CATEGORY_THRESHOLD" in constants && "WATSON_CATEGORY_TAXONOMY" in constants
    && "WATSON_KEYWORD_THRESHOLD" in constants && "WATSON_KEYWORD_TAXONOMY" in constants
    && "WATSON_ENTITY_THRESHOLD" in constants && "WATSON_ENTITY_TAXONOMY" in constants
    && "WATSON_CONCEPT_THRESHOLD" in constants && "WATSON_CONCEPT_TAXONOMY" in constants
  }

  /** The catalog the constructor builds, in its order. Labels are shown
      untranslated. */
  function NluFeatures(constants: map<string, Val>): (catalog: seq<FeatureDescriptor>)
    requires DefinesCatalogConstants(constants)
    ensures |catalog| == |FeatureNames()|
    ensures forall i :: 0 <= i < |catalog| ==> catalog[i].name == FeatureNames()[i]
  {
    [ FeatureDescriptor("category", "Category", "Category Threshold (%)", "Category Taxonomy",
                        constants["WATSON_CATEGORY_THRESHOLD"], constants["WATSON_CATEGORY_TAXONOMY"]),
      FeatureDescriptor("keyword", "Keyword", "Keyword Threshold (%)", "Keyword Taxonomy",
                        constants["WATSON_KEYWORD_THRESHOLD"], constants["WATSON_KEYWORD_TAXONOMY"]),
      FeatureDescriptor("entity", "Entity", "Entity Threshold (%)", "Entity Taxonomy",
                        constants["WATSON_ENTITY_THRESHOLD"], constants["WATSON_ENTITY_TAXONOMY"]),
      FeatureDescriptor("concept", "Concept", "Concept Threshold (%)", "Concept Taxonomy",
                        constants["WATSON_CONCEPT_THRESHOLD"], constants["WATSON_CONCEPT_TAXONOMY"]) ]
  }

  /** Every feature takes its defaults from the constants named after it,
      `WATSON_<FEATURE>_THRESHOLD` and `WATSON_<FEATURE>_TAXONOMY`. */
  lemma CatalogDefaultsFromConstants(constants: map<string, Val>, i: int)
    requires DefinesCatalogConstants(constants) && 0 <= i < |FeatureNames()|
    ensures var d := NluFeatures(constants)[i];
            && ThresholdConstant(d.name) in constants
            && TaxonomyConstant(d.name) in constants
            && d.thresholdDefault == constants[ThresholdConstant(d.name)]
            && d.taxonomyDefault == constants[TaxonomyConstant(d.name)]
  {
    var catalog := NluFeatures(constants);
    if i == 0 {
      assert catalog[0].name == "category";
      CategoryConstantNames();
    } else if i == 1 {
      assert catalog[1].name == "keyword";
      KeywordConstantNames();
    } else if i == 2 {
      assert catalog[2].name == "entity";
      EntityConstantNames();
    } else {
      assert catalog[3].name == "concept";
      ConceptConstantNames();
    }
  }

  // =====================================================================
  // Resolving the stored settings

  /** The three groups a settings array is made of. */
  predicate IsGroup(k: string)
  {
    k == "credentials" || k == "post_types" || k == "features"
  }

  /** A stored settings option is an array, or nothing at all. */
  predicate StoredShape(v: Val)
  {
    v.Arr? || Empty(v)
  }

  /** The defaults taken from the pre-1.3 option: its three groups, those
      that are set, and nothing else. */
  function LegacyDefaults(legacy: Val): (d: Val)
    ensures d.Arr? && DistinctKeys(d.entries)
  {
    var d0 := Arr([]);
    var d1 := if Isset(legacy, "credentials") then Put(d0, "credentials", Read(legacy, "credentials")) else d0;
    var d2 := if Isset(legacy, "post_types") then Put(d1, "post_types", Read(legacy, "post_types")) else d1;
    var d3 := if Isset(legacy, "features") then Put(d2, "features", Read(legacy, "features")) else d2;
    PutEntryKeepsDistinct(d0.entries, "credentials", Read(legacy, "credentials"));
    PutEntryKeepsDistinct(d1.entries, "post_types", Read(legacy, "post_types"));
    PutEntryKeepsDistinct(d2.entries, "features", Read(legacy, "features"));
    d3
  }

  /** A stored scalar that `parse_str` reads as the single entry
      `0 => ''`: the string "0", and the integer 0 (cast to "0"). */
  predicate ParsesToZeroKey(v: Val)
  {
    v == Str("0") || v == Int(0)
  }

  /** What `wp_parse_args` makes of the stored option: an array's entries;
      any other value goes through `parse_str`, which yields `0 => ''` for
      "0" and 0, and nothing for null, false and ''. Either way no key is
      repeated, and a stored scalar adds at most one key, never one of the
      three settings groups, so it cannot hide a legacy group. */
  function StoredArgs(current: Val): (args: Entries)
    requires StoredShape(current)
    ensures (current.Arr? ==> DistinctKeys(current.entries)) ==> DistinctKeys(args)
    ensures !current.Arr? ==> |args| <= 1 && forall i :: 0 <= i < |args| ==> !IsGroup(args[i].0)
  {
    if current.Arr? then current.entries
    else if ParsesToZeroKey(current) then [("0", Str(""))]
    else []
  }

  /** `get_settings()` without an index: the stored option parsed over the
      legacy defaults, which are consulted only when nothing is stored. */
  function ResolveSettings(current: Val, legacy: Val): (settings: Val)
    requires StoredShape(current)
    ensures settings.Arr?
  {
    var defaults := if Empty(current) then LegacyDefaults(legacy) else Arr([]);
    Arr(ParseArgs(StoredArgs(current), defaults.entries))
  }

  /** A non-empty stored option is returned as stored; the legacy option
      contributes nothing. */
  lemma ResolveKeepsStoredSettings(current: Val, legacy: Val)
    requires current.Arr? && current.entries != [] && DistinctKeys(current.entries)
    ensures ResolveSettings(current, legacy) == current
  {
    ParseArgsOntoNothing(current.entries);
  }

  /** With nothing stored, the settings hold exactly the credentials,
      post types and features groups that the legacy option sets, plus the
      entry `0 => ''` when the stored value is "0" or 0. */
  lemma ResolveFallsBackToLegacy(current: Val, legacy: Val)
    requires StoredShape(current) && Empty(current)
    ensures forall k :: Get(ResolveSettings(current, legacy), k) ==
                        if k == "0" && ParsesToZeroKey(current) then Some(Str(""))
                        else if IsGroup(k) && Isset(legacy, k) then Get(legacy, k)
                        else None
  {
    var d0 := Arr([]);
    var d1 := if Isset(legacy, "credentials") then Put(d0, "credentials", Read(legacy, "credentials")) else d0;
    var d2 := if Isset(legacy, "post_types") then Put(d1, "post_types", Read(legacy, "post_types")) else d1;
    var d3 := if Isset(legacy, "features") then Put(d2, "features", Read(legacy, "features")) else d2;
    assert LegacyDefaults(legacy) == d3;
    forall k ensures Get(d3, k) == if IsGroup(k) && Isset(legacy, k) then Get(legacy, k) else None {
      GetPut(d0, "credentials", Read(legacy, "credentials"), k);
      GetPut(d1, "post_types", Read(legacy, "post_types"), k);
      GetPut(d2, "features", Read(legacy, "features"), k);
    }
    var resolved := ResolveSettings(current, legacy);
    if ParsesToZeroKey(current) {
      var zero := [("0", Str(""))];
      assert StoredArgs(current) == zero;
      assert zero[..|zero| - 1] == [];
      assert ParseArgs(zero, d3.entries) == PutEntry(ParseArgs([], d3.entries), "0", Str(""));
      assert resolved.entries == PutEntry(d3.entries, "0", Str(""));
      forall k ensures Get(resolved, k) == if k == "0" then Some(Str("")) else Get(d3, k) {
        LookupPutEntry(d3.entries, "0", Str(""), k);
      }
    } else {
      assert resolved == d3;
    }
  }

  /** A stored "0" is not "nothing stored" to `wp_parse_args`: with no
      legacy option it resolves to the single entry `0 => ''`. */
  lemma ResolveZeroString()
    ensures ResolveSettings(Str("0"), Bool(false)) == Arr([("0", Str(""))])
  {
    ResolveFallsBackToLegacy(Str("0"), Bool(false));
    var r := ResolveSettings(Str("0"), Bool(false));
    assert LegacyDefaults(Bool(false)) == Arr([]);
    assert StoredArgs(Str("0")) == [("0", Str(""))];
    assert [("0", Str(""))][..0] == [];
  }

  /** The resolved settings of a well-formed option never repeat a key. */
  lemma ResolveKeepsDistinct(current: Val, legacy: Val)
    requires StoredShape(current) && (current.Arr? ==> DistinctKeys(current.entries))
    ensures DistinctKeys(ResolveSettings(current, legacy).entries)
  {
    var defaults := if Empty(current) then LegacyDefaults(legacy) else Arr([]);
    assert DistinctKeys(StoredArgs(current));
    ParseArgsKeepsDistinct(StoredArgs(current), defaults.entries);
  }

  /** `get_settings( $index )`: the group stored under a truthy `index`
      when it is set, and otherwise the whole settings array. Once
      anything is stored that is the stored option itself; with nothing
      stored it is built from the legacy option's groups. */
  function GetSettings(current: Val, legacy: Val, index: Option<string>): (r: Val)
    requires StoredShape(current)
    ensures current.Arr? && current.entries != [] && DistinctKeys(current.entries) ==>
              r == if TruthyArg(index) && Isset(current, index.value) then Read(current, index.value) else current
    ensures Empty(current) && TruthyArg(index) && IsGroup(index.value) && Isset(legacy, index.value) ==>
              r == Read(legacy, index.value)
    ensures Empty(current) && !(TruthyArg(index) && IsGroup(index.value) && Isset(legacy, index.value)) ==>
              r.Arr? && forall k :: (Get(r, k) ==
                if k == "0" && ParsesToZeroKey(current) then Some(Str(""))
                else if IsGroup(k) && Isset(legacy, k) then Get(legacy, k)
                else None)
  {
    var settings := ResolveSettings(current, legacy);
    assert current.Arr? && current.entries != [] && DistinctKeys(current.entries) ==> settings == current by {
      if current.Arr? && current.entries != [] && DistinctKeys(current.entries) {
        ResolveKeepsStoredSettings(current, legacy);
      }
    }
    assert Empty(current) ==> forall k :: (Get(settings, k) ==
             if k == "0" && ParsesToZeroKey(current) then Some(Str(""))
             else if IsGroup(k) && Isset(legacy, k) then Get(legacy, k)
             else None) by {
      if Empty(current) {
        ResolveFallsBackToLegacy(current, legacy);
      }
    }
    if TruthyArg(index) && Isset(settings, index.value) then Read(settings, index.value) else settings
  }

  /** Once anything is stored, `get_settings( 'features' )` never looks at
      the legacy option: it is the stored features group, or, when that is
      not set, the whole stored array. */
  lemma StoredFeaturesHideLegacy(current: Val, legacy: Val)
    requires current.Arr? && current.entries != [] && DistinctKeys(current.entries)
    ensures GetSettings(current, legacy, Some("features")) ==
            if Isset(current, "features") then Read(current, "features") else current
  {
    ResolveKeepsStoredSettings(current, legacy);
  }

  // =====================================================================
  // The credential probe

  /** The request the probe would send: the submitted username, password
      and API URL. */
  datatype ProbeRequest = ProbeRequest(username: Val, password: Val, url: Val)

  /** What the credential check did: gave up before any request because a
      credential was missing, or sent the probe and saw whether it failed. */
  datatype AuthCheck = CredentialsMissing | Probed(request: ProbeRequest, isError: bool)

  /** The credentials group is set and none of its three fields is empty. */
  predicate CredentialsComplete(settings: Val)
  {
    && Isset(settings, "credentials")
    && !EmptyAt(Read(settings, "credentials"), "watson_username")
    && !EmptyAt(Read(settings, "credentials"), "watson_password")
    && !EmptyAt(Read(settings, "credentials"), "watson_url")
  }

  /** The decision `nlu_authentication_check_failed` takes. `transport`
      stands for the HTTP call; it answers whether the response was an
      error. */
  function CheckCredentials(settings: Val, transport: ProbeRequest -> bool): (check: AuthCheck)
    ensures check.CredentialsMissing? <==> !CredentialsComplete(settings)
    ensures check.Probed? ==>
              && check.request.username == ReadIn(settings, "credentials", "watson_username")
              && check.request.password == ReadIn(settings, "credentials", "watson_password")
              && check.request.url == ReadIn(settings, "credentials", "watson_url")
              && check.isError == transport(check.request)
  {
    if !Isset(settings, "credentials")
       || EmptyAt(Read(settings, "credentials"), "watson_username")
       || EmptyAt(Read(settings, "credentials"), "watson_password")
       || EmptyAt(Read(settings, "credentials"), "watson_url")
    then CredentialsMissing
    else
      var request := ProbeRequest(ReadIn(settings, "credentials", "watson_username"),
                                  ReadIn(settings, "credentials", "watson_password"),
                                  ReadIn(settings, "credentials", "watson_url"));
      Probed(request, transport(request))
  }

  predicate AuthFailed(check: AuthCheck)
  {
    check.CredentialsMissing? || check.isError
  }

  /** The option store after the check: untouched when no request was
      sent, the flag set after a successful probe and deleted after a
      failed one. */
  function FlagAfter(options: map<string, Val>, check: AuthCheck): (after: map<string, Val>)
    ensures forall n :: n != Options.ConfiguredOption ==>
              (n in after <==> n in options) && (n in options ==> after[n] == options[n])
    ensures check.CredentialsMissing? ==> after == options
    ensures AuthFailed(check) && check.Probed? ==> Options.ConfiguredOption !in after
    ensures !AuthFailed(check) ==> Options.ConfiguredOption in after && after[Options.ConfiguredOption] == Bool(true)
  {
    match check
    case CredentialsMissing => options
    case Probed(_, isError) =>
      if isError then options - {Options.ConfiguredOption}
      else options[Options.ConfiguredOption := Bool(true)]
  }

  /** A missing or empty credential fails the check before any request:
      the outcome does not depend on the transport at all. */
  lemma MissingCredentialSkipsProbe(settings: Val, t1: ProbeRequest -> bool, t2: ProbeRequest -> bool)
    requires !Isset(settings, "credentials")
             || EmptyAt(Read(settings, "credentials"), "watson_username")
             || EmptyAt(Read(settings, "credentials"), "watson_password")
             || EmptyAt(Read(settings, "credentials"), "watson_url")
    ensures CheckCredentials(settings, t1) == CheckCredentials(settings, t2) == CredentialsMissing
    ensures AuthFailed(CheckCredentials(settings, t1))
    ensures forall options :: FlagAfter(options, CheckCredentials(settings, t1)) == options
  {
  }

  /** After a probe, the configured flag is present exactly when the probe
      succeeded, and the check reports failure exactly when it did not. */
  lemma ProbeDecidesFlag(settings: Val, transport: ProbeRequest -> bool, options: map<string, Val>)
    requires CredentialsComplete(settings)
    ensures var check := CheckCredentials(settings, transport);
            && (Options.ConfiguredOption in FlagAfter(options, check) <==> !transport(check.request))
            && (AuthFailed(check) <==> transport(check.request))
            && (forall name :: name != Options.ConfiguredOption ==>
                  && (name in FlagAfter(options, check) <==> name in options)
                  && (name in options ==> FlagAfter(options, check)[name] == options[name]))
  {
  }

  /** `nlu_authentication_check_failed( $settings )`. */
  method AuthenticationCheckFailed(store: Options.OptionStore, settings: Val, transport: ProbeRequest -> bool)
    returns (failed: bool)
    modifies store
    ensures failed == AuthFailed(CheckCredentials(settings, transport))
    ensures store.options == FlagAfter(old(store.options), CheckCredentials(settings, transport))
  {
    if !Isset(settings, "credentials")
       || EmptyAt(Read(settings, "credentials"), "watson_username")
       || EmptyAt(Read(settings, "credentials"), "watson_password")
       || EmptyAt(Read(settings, "credentials"), "watson_url")
    {
      return true;
    }
    var request := ProbeRequest(ReadIn(settings, "credentials", "watson_username"),
                                ReadIn(settings, "credentials", "watson_password"),
                                ReadIn(settings, "credentials", "watson_url"));
    var isError := transport(request);
    if !isError {
      store.UpdateOption(Options.ConfiguredOption, Bool(true));
    } else {
      store.DeleteOption(Options.ConfiguredOption);
    }
    failed := isError;
  }

  // =====================================================================
  // Sanitising a submitted settings form

  /** The stored flag for a public post type: `absint` of the submitted
      value, or an explicit null when none was submitted. */
  function PostTypeFlag(submitted: Val, postType: string): Val
  {
    if IssetIn(submitted, "post_types", postType)
    then Int(AbsInt(ReadIn(submitted, "post_types", postType)))
    else Null
  }

  /** The stored enabled flag of a feature, by the same rule. */
  function EnabledFlag(submitted: Val, feature: string): Val
  {
    if IssetIn(submitted, "features", feature)
    then Int(AbsInt(ReadIn(submitted, "features", feature)))
    else Null
  }

  /** `min( absint( $threshold ), 100 )`. */
  function ClampedThreshold(v: Val): (t: nat)
    ensures t <= 100
    ensures AbsInt(v) <= 100 ==> t == AbsInt(v)
    ensures AbsInt(v) >= 100 ==> t == 100
  {
    if AbsInt(v) < 100 then AbsInt(v) else 100
  }

  /** An array whose three groups can be written into. */
  predicate SettingsShape(s: Val)
  {
    && s.Arr?
    && Writable(Read(s, "credentials"))
    && Writable(Read(s, "post_types"))
    && Writable(Read(s, "features"))
  }

  /** One nested write into a group: that key of that group changes, and
      nothing else. */
  lemma PutInGroup(s: Val, g: string, k: string, x: Val)
    requires IsGroup(g)
    ensures SettingsShape(s) ==>
              && SettingsShape(PutIn(s, g, k, x))
              && (forall g' :: g' != g ==> Get(PutIn(s, g, k, x), g') == Get(s, g'))
              && (forall k' :: GetIn(PutIn(s, g, k, x), g, k') == if k' == k then Some(x) else GetIn(s, g, k'))
              && (DistinctKeys(s.entries) ==> DistinctKeys(PutIn(s, g, k, x).entries))
  {
    if SettingsShape(s) {
      forall g' | g' != g ensures Get(PutIn(s, g, k, x), g') == Get(s, g') {
        GetInPutIn(s, g, k, x, g', k);
      }
      forall k' ensures GetIn(PutIn(s, g, k, x), g, k') == if k' == k then Some(x) else GetIn(s, g, k') {
        GetInPutIn(s, g, k, x, g, k');
      }
      GetInPutIn(s, g, k, x, "credentials", k);
      GetInPutIn(s, g, k, x, "post_types", k);
      GetInPutIn(s, g, k, x, "features", k);
      if DistinctKeys(s.entries) {
        PutInKeepsDistinct(s, g, k, x);
      }
    }
  }

  /** A threshold in exponent notation is read as a number before the
      clamp: "1e3" is 1000, stored as 100. */
  lemma ClampedExponentThreshold()
    ensures ClampedThreshold(Str("1e3")) == 100
  {
    StringToIntExponent();
  }

  /** `$new_settings['credentials'][$field]`, cleaned, when submitted:
      that credential is replaced and nothing else changes. */
  function WriteCredential(settings: Val, submitted: Val, field: string, clean: Val -> Val): (r: Val)
    ensures SettingsShape(settings) ==>
              && SettingsShape(r)
              && (forall g :: g != "credentials" ==> Get(r, g) == Get(settings, g))
              && (forall k :: GetIn(r, "credentials", k) ==
                    if k == field && IssetIn(submitted, "credentials", field)
                    then Some(clean(ReadIn(submitted, "credentials", field)))
                    else GetIn(settings, "credentials", k))
              && (DistinctKeys(settings.entries) ==> DistinctKeys(r.entries))
  {
    PutInGroup(settings, "credentials", field, clean(ReadIn(submitted, "credentials", field)));
    if IssetIn(submitted, "credentials", field)
    then PutIn(settings, "credentials", field, clean(ReadIn(submitted, "credentials", field)))
    else settings
  }

  /** The three credential fields, in the order they are copied: each is
      replaced by its cleaned submitted value when one was submitted (the
      URL through `cleanUrl`, the others through `cleanText`), and the rest
      of the settings are as they were. */
  function WriteCredentials(settings: Val, submitted: Val, cleanText: Val -> Val, cleanUrl: Val -> Val): (r: Val)
    ensures SettingsShape(settings) ==>
              && SettingsShape(r)
              && (forall g :: g != "credentials" ==> Get(r, g) == Get(settings, g))
              && (forall k :: GetIn(r, "credentials", k) ==
                    if k == "watson_url" && IssetIn(submitted, "credentials", k)
                    then Some(cleanUrl(ReadIn(submitted, "credentials", k)))
                    else if (k == "watson_username" || k == "watson_password") && IssetIn(submitted, "credentials", k)
                    then Some(cleanText(ReadIn(submitted, "credentials", k)))
                    else GetIn(settings, "credentials", k))
              && (DistinctKeys(settings.entries) ==> DistinctKeys(r.entries))
  {
    var s1 := WriteCredential(settings, submitted, "watson_url", cleanUrl);
    var s2 := WriteCredential(s1, submitted, "watson_username", cleanText);
    WriteCredential(s2, submitted, "watson_password", cleanText)
  }

  /** The post-type loop over the given post types, in order: it sets the
      flag of every listed post type and touches nothing else. */
  function WritePostTypes(settings: Val, submitted: Val, postTypes: seq<string>): (r: Val)
    ensures SettingsShape(settings) ==>
              && SettingsShape(r)
              && (forall g :: g != "post_types" ==> Get(r, g) == Get(settings, g))
              && (forall k :: GetIn(r, "post_types", k) ==
                    if k in postTypes then Some(PostTypeFlag(submitted, k)) else GetIn(settings, "post_types", k))
              && (DistinctKeys(settings.entries) ==> DistinctKeys(r.entries))
  {
    if postTypes == [] then settings
    else
      var init := postTypes[..|postTypes| - 1];
      var name := postTypes[|postTypes| - 1];
      var before := WritePostTypes(settings, submitted, init);
      PutInGroup(before, "post_types", name, PostTypeFlag(submitted, name));
      assert postTypes == init + [name];
      PutIn(before, "post_types", name, PostTypeFlag(submitted, name))
  }

  /** What one pass of the feature loop for `feature` writes at key `k` of
      the features group, if anything. */
  function FeatureField(submitted: Val, feature: string, k: string, cleanText: Val -> Val): (w: Option<Val>)
    ensures w.Some? ==> k in FeatureKeys(feature)
  {
    if k == feature then Some(EnabledFlag(submitted, feature))
    else if k == ThresholdKey(feature) && IssetIn(submitted, "features", k)
    then Some(Int(ClampedThreshold(ReadIn(submitted, "features", k))))
    else if k == TaxonomyKey(feature) && IssetIn(submitted, "features", k)
    then Some(cleanText(ReadIn(submitted, "features", k)))
    else None
  }

  /** One pass of the feature loop: the enabled flag always, the
      threshold and the taxonomy only when submitted. It writes what
      `FeatureField` prescribes and keeps every other key. */
  function WriteFeature(settings: Val, submitted: Val, feature: string, cleanText: Val -> Val): (r: Val)
    ensures SettingsShape(settings) ==>
              && SettingsShape(r)
              && (forall g :: g != "features" ==> Get(r, g) == Get(settings, g))
              && (forall k :: GetIn(r, "features", k) ==
                    var w := FeatureField(submitted, feature, k, cleanText);
                    if w.Some? then w else GetIn(settings, "features", k))
              && (DistinctKeys(settings.entries) ==> DistinctKeys(r.entries))
  {
    var tk := ThresholdKey(feature);
    var xk := TaxonomyKey(feature);
    assert |tk| != |feature| && |xk| != |feature| && |tk| != |xk|;
    var s1 := PutIn(settings, "features", feature, EnabledFlag(submitted, feature));
    PutInGroup(settings, "features", feature, EnabledFlag(submitted, feature));
    var s2 := if IssetIn(submitted, "features", tk)
              then PutIn(s1, "features", tk, Int(ClampedThreshold(ReadIn(submitted, "features", tk))))
              else s1;
    PutInGroup(s1, "features", tk, Int(ClampedThreshold(ReadIn(submitted, "features", tk))));
    PutInGroup(s2, "features", xk, cleanText(ReadIn(submitted, "features", xk)));
    if IssetIn(submitted, "features", xk)
    then PutIn(s2, "features", xk, cleanText(ReadIn(submitted, "features", xk)))
    else s2
  }

  /** The value the feature loop over `features` leaves at key `k`: the
      write of the last feature that writes there. */
  function WrittenBy(submitted: Val, features: seq<string>, k: string, cleanText: Val -> Val): Option<Val>
  {
    if features == [] then None
    else
      var w := FeatureField(submitted, features[|features| - 1], k, cleanText);
      if w.Some? then w else WrittenBy(submitted, features[..|features| - 1], k, cleanText)
  }

  /** The feature loop over the given features, in order: each key of the
      features group holds the last write to it, and the other groups are
      kept. */
  function WriteFeatures(settings: Val, submitted: Val, features: seq<string>, cleanText: Val -> Val): (r: Val)
    ensures SettingsShape(settings) ==>
              && SettingsShape(r)
              && (forall g :: g != "features" ==> Get(r, g) == Get(settings, g))
              && (forall k :: GetIn(r, "features", k) ==
                    var w := WrittenBy(submitted, features, k, cleanText);
                    if w.Some? then w else GetIn(settings, "features", k))
              && (DistinctKeys(settings.entries) ==> DistinctKeys(r.entries))
  {
    if features == [] then settings
    else
      WriteFeature(WriteFeatures(settings, submitted, features[..|features| - 1], cleanText),
                   submitted, features[|features| - 1], cleanText)
  }

  /** What `sanitize_settings` returns, given the resolved settings it
      starts from. `cleanText` and `cleanUrl` stand for
      `sanitize_text_field` and `esc_url_raw`. Keys outside the three
      groups keep their stored values, and no key is repeated. */
  function Sanitized(base: Val, submitted: Val, postTypes: seq<string>, cleanText: Val -> Val, cleanUrl: Val -> Val): (out: Val)
    ensures SettingsShape(base) ==>
              && SettingsShape(out)
              && (forall g :: !IsGroup(g) ==> Get(out, g) == Get(base, g))
              && (DistinctKeys(base.entries) ==> DistinctKeys(out.entries))
  {
    WriteFeatures(WritePostTypes(WriteCredentials(base, submitted, cleanText, cleanUrl), submitted, postTypes),
                  submitted, FeatureNames(), cleanText)
  }

  // ---------------------------------------------------------------------
  // What the sanitiser writes

  /** When features occupy disjoint keys, a key of one of them holds what
      that feature's pass wrote. */
  lemma {:induction false} WrittenByOwner(submitted: Val, features: seq<string>, i: int, k: string, cleanText: Val -> Val)
    requires KeysApart(features) && 0 <= i < |features| && k in FeatureKeys(features[i])
    ensures WrittenBy(submitted, features, k, cleanText) == FeatureField(submitted, features[i], k, cleanText)
  {
    var n := |features| - 1;
    if i < n {
      assert FeatureKeys(features[i]) !! FeatureKeys(features[n]);
      assert KeysApart(features[..n]);
      WrittenByOwner(submitted, features[..n], i, k, cleanText);
    } else {
      forall j | 0 <= j < |features[..n]| ensures k !in FeatureKeys(features[..n][j]) {
        assert FeatureKeys(features[j]) !! FeatureKeys(features[n]);
      }
      WrittenByNobody(submitted, features[..n], k, cleanText);
    }
  }

  /** A key no feature owns is never written. */
  lemma {:induction false} WrittenByNobody(submitted: Val, features: seq<string>, k: string, cleanText: Val -> Val)
    requires forall i :: 0 <= i < |features| ==> k !in FeatureKeys(features[i])
    ensures WrittenBy(submitted, features, k, cleanText) == None
  {
    if features != [] {
      WrittenByNobody(submitted, features[..|features| - 1], k, cleanText);
    }
  }

  /** The keys the catalog's features occupy in the features group. */
  function CatalogKeys(): set<string>
  {
    FeatureKeys("category") + FeatureKeys("keyword") + FeatureKeys("entity") + FeatureKeys("concept")
  }

  /** The credentials group: the API URL is replaced by its `esc_url_raw`
      form and the username and password by their `sanitize_text_field`
      forms when submitted; every other credential is kept. */
  lemma SanitizedCredentials(base: Val, submitted: Val, postTypes: seq<string>, cleanText: Val -> Val, cleanUrl: Val -> Val)
    requires SettingsShape(base)
    ensures var out := Sanitized(base, submitted, postTypes, cleanText, cleanUrl);
            forall k :: GetIn(out, "credentials", k) ==
              if k == "watson_url" && IssetIn(submitted, "credentials", k)
              then Some(cleanUrl(ReadIn(submitted, "credentials", k)))
              else if (k == "watson_username" || k == "watson_password") && IssetIn(submitted, "credentials", k)
              then Some(cleanText(ReadIn(submitted, "credentials", k)))
              else GetIn(base, "credentials", k)
  {
    var c := WriteCredentials(base, submitted, cleanText, cleanUrl);
    LaterStagesKeepGroup(c, submitted, postTypes, cleanText, "credentials");
  }

  /** The credentials stage leaves every other group as it found it. */
  lemma CredentialStageKeepsGroup(settings: Val, submitted: Val, cleanText: Val -> Val, cleanUrl: Val -> Val, g: string)
    requires SettingsShape(settings) && g != "credentials"
    ensures forall k :: GetIn(WriteCredentials(settings, submitted, cleanText, cleanUrl), g, k) == GetIn(settings, g, k)
  {
    assert Get(WriteCredentials(settings, submitted, cleanText, cleanUrl), g) == Get(settings, g);
  }

  /** The post-type loop leaves every other group as it found it. */
  lemma PostTypeStageKeepsGroup(settings: Val, submitted: Val, postTypes: seq<string>, g: string)
    requires SettingsShape(settings) && g != "post_types"
    ensures forall k :: GetIn(WritePostTypes(settings, submitted, postTypes), g, k) == GetIn(settings, g, k)
  {
    assert Get(WritePostTypes(settings, submitted, postTypes), g) == Get(settings, g);
  }

  /** The post-type flags survive the feature loop that follows. */
  lemma PostTypeStageThenFeatures(settings: Val, submitted: Val, postTypes: seq<string>, cleanText: Val -> Val)
    requires SettingsShape(settings)
    ensures forall k :: GetIn(WriteFeatures(WritePostTypes(settings, submitted, postTypes), submitted, FeatureNames(), cleanText), "post_types", k)
                        == if k in postTypes then Some(PostTypeFlag(submitted, k)) else GetIn(settings, "post_types", k)
  {
    FeatureStageKeepsGroup(WritePostTypes(settings, submitted, postTypes), submitted, cleanText, "post_types");
  }

  /** The feature loop leaves every other group as it found it. */
  lemma FeatureStageKeepsGroup(settings: Val, submitted: Val, cleanText: Val -> Val, g: string)
    requires SettingsShape(settings) && g != "features"
    ensures forall k :: GetIn(WriteFeatures(settings, submitted, FeatureNames(), cleanText), g, k) == GetIn(settings, g, k)
  {
    assert Get(WriteFeatures(settings, submitted, FeatureNames(), cleanText), g) == Get(settings, g);
  }

  /** The post-type and feature loops leave every other group as they
      found it. */
  lemma LaterStagesKeepGroup(settings: Val, submitted: Val, postTypes: seq<string>, cleanText: Val -> Val, g: string)
    requires SettingsShape(settings) && g != "post_types" && g != "features"
    ensures forall k :: GetIn(WriteFeatures(WritePostTypes(settings, submitted, postTypes), submitted, FeatureNames(), cleanText), g, k)
                        == GetIn(settings, g, k)
  {
    var p := WritePostTypes(settings, submitted, postTypes);
    FeatureStageKeepsGroup(p, submitted, cleanText, g);
    assert Get(p, g) == Get(settings, g);
  }

  /** The post-types group: every public post type gets its flag, whether
      or not it was submitted; other entries are kept. */
  lemma SanitizedPostTypes(base: Val, submitted: Val, postTypes: seq<string>, cleanText: Val -> Val, cleanUrl: Val -> Val)
    requires SettingsShape(base)
    ensures var out := Sanitized(base, submitted, postTypes, cleanText, cleanUrl);
            forall k :: GetIn(out, "post_types", k) ==
              if k in postTypes then Some(PostTypeFlag(submitted, k)) else GetIn(base, "post_types", k)
  {
    var c := WriteCredentials(base, submitted, cleanText, cleanUrl);
    CredentialStageKeepsGroup(base, submitted, cleanText, cleanUrl, "post_types");
    PostTypeStageThenFeatures(c, submitted, postTypes, cleanText);
  }

  /** The features group: each catalog feature's enabled flag is always
      written, its threshold (capped at 100) and taxonomy only when
      submitted; keys no feature owns are kept. */
  lemma SanitizedFeatures(base: Val, submitted: Val, postTypes: seq<string>, cleanText: Val -> Val, cleanUrl: Val -> Val)
    requires SettingsShape(base)
    ensures var out := Sanitized(base, submitted, postTypes, cleanText, cleanUrl);
            forall f :: f in FeatureNames() ==>
              && GetIn(out, "features", f) == Some(EnabledFlag(submitted, f))
              && GetIn(out, "features", ThresholdKey(f)) ==
                   (if IssetIn(submitted, "features", ThresholdKey(f))
                    then Some(Int(ClampedThreshold(ReadIn(submitted, "features", ThresholdKey(f)))))
                    else GetIn(base, "features", ThresholdKey(f)))
              && GetIn(out, "features", TaxonomyKey(f)) ==
                   (if IssetIn(submitted, "features", TaxonomyKey(f))
                    then Some(cleanText(ReadIn(submitted, "features", TaxonomyKey(f))))
                    else GetIn(base, "features", TaxonomyKey(f)))
  {
    forall f | f in FeatureNames() {
      SanitizedFeature(base, submitted, postTypes, cleanText, cleanUrl, f);
    }
  }

  /** The three keys of one catalog feature after sanitising. */
  lemma SanitizedFeature(base: Val, submitted: Val, postTypes: seq<string>, cleanText: Val -> Val, cleanUrl: Val -> Val, f: string)
    requires SettingsShape(base) && f in FeatureNames()
    ensures var out := Sanitized(base, submitted, postTypes, cleanText, cleanUrl);
            && GetIn(out, "features", f) == Some(EnabledFlag(submitted, f))
            && GetIn(out, "features", ThresholdKey(f)) ==
                 (if IssetIn(submitted, "features", ThresholdKey(f))
                  then Some(Int(ClampedThreshold(ReadIn(submitted, "features", ThresholdKey(f)))))
                  else GetIn(base, "features", ThresholdKey(f)))
            && GetIn(out, "features", TaxonomyKey(f)) ==
                 (if IssetIn(submitted, "features", TaxonomyKey(f))
                  then Some(cleanText(ReadIn(submitted, "features", TaxonomyKey(f))))
                  else GetIn(base, "features", TaxonomyKey(f)))
  {
    SanitizedFeaturesWritten(base, submitted, postTypes, cleanText, cleanUrl);
    CatalogFeatureWrites(submitted, f, cleanText);
  }

  /** Within the catalog, each of a feature's keys holds that feature's
      own write. */
  lemma CatalogFeatureWrites(submitted: Val, f: string, cleanText: Val -> Val)
    requires f in FeatureNames()
    ensures WrittenBy(submitted, FeatureNames(), f, cleanText) == Some(EnabledFlag(submitted, f))
    ensures WrittenBy(submitted, FeatureNames(), ThresholdKey(f), cleanText) ==
            FeatureField(submitted, f, ThresholdKey(f), cleanText)
    ensures WrittenBy(submitted, FeatureNames(), TaxonomyKey(f), cleanText) ==
            FeatureField(submitted, f, TaxonomyKey(f), cleanText)
  {
    var names := FeatureNames();
    CatalogKeysApart();
    var i :| 0 <= i < |names| && names[i] == f;
    WrittenByOwner(submitted, names, i, f, cleanText);
    WrittenByOwner(submitted, names, i, ThresholdKey(f), cleanText);
    WrittenByOwner(submitted, names, i, TaxonomyKey(f), cleanText);
  }

  /** Keys of the features group that no catalog feature owns keep their
      stored values. */
  lemma SanitizedKeepsUnownedFeatureKeys(base: Val, submitted: Val, postTypes: seq<string>, cleanText: Val -> Val, cleanUrl: Val -> Val)
    requires SettingsShape(base)
    ensures var out := Sanitized(base, submitted, postTypes, cleanText, cleanUrl);
            forall k :: k !in CatalogKeys() ==> GetIn(out, "features", k) == GetIn(base, "features", k)
  {
    SanitizedFeaturesWritten(base, submitted, postTypes, cleanText, cleanUrl);
    forall k | k !in CatalogKeys() ensures WrittenBy(submitted, FeatureNames(), k, cleanText) == None {
      WrittenByNobody(submitted, FeatureNames(), k, cleanText);
    }
  }

  /** The features group after the feature loop, in terms of the last
      feature pass that writes each key. */
  lemma SanitizedFeaturesWritten(base: Val, submitted: Val, postTypes: seq<string>, cleanText: Val -> Val, cleanUrl: Val -> Val)
    requires SettingsShape(base)
    ensures var out := Sanitized(base, submitted, postTypes, cleanText, cleanUrl);
            forall k :: GetIn(out, "features", k) ==
              var w := WrittenBy(submitted, FeatureNames(), k, cleanText);
              if w.Some? then w else GetIn(base, "features", k)
  {
    var c := WriteCredentials(base, submitted, cleanText, cleanUrl);
    CredentialStageKeepsGroup(base, submitted, cleanText, cleanUrl, "features");
    PostTypeStageKeepsGroup(c, submitted, postTypes, "features");
  }

  /** Sanitising a submission equal to the saved settings leaves every
      public post-type flag, every enabled flag and every submitted
      threshold as it was: the flags are already non-negative integers and
      the thresholds already within 100. */
  lemma SanitizedFlagsStable(base: Val, submitted: Val, postTypes: seq<string>, cleanText: Val -> Val,
                             cleanUrl: Val -> Val, base2: Val)
    requires SettingsShape(base) && SettingsShape(base2)
    ensures var out := Sanitized(base, submitted, postTypes, cleanText, cleanUrl);
            var again := Sanitized(base2, out, postTypes, cleanText, cleanUrl);
            && (forall k :: k in postTypes ==> GetIn(again, "post_types", k) == GetIn(out, "post_types", k))
            && (forall f :: f in FeatureNames() ==> GetIn(again, "features", f) == GetIn(out, "features", f))
            && (forall f :: f in FeatureNames() && IssetIn(submitted, "features", ThresholdKey(f)) ==>
                  GetIn(again, "features", ThresholdKey(f)) == GetIn(out, "features", ThresholdKey(f)))
  {
    var out := Sanitized(base, submitted, postTypes, cleanText, cleanUrl);
    SanitizedPostTypes(base, submitted, postTypes, cleanText, cleanUrl);
    SanitizedPostTypes(base2, out, postTypes, cleanText, cleanUrl);
    forall k | k in postTypes ensures PostTypeFlag(out, k) == PostTypeFlag(submitted, k) {
      if IssetIn(submitted, "post_types", k) {
        AbsIntOfNonNegative(AbsInt(ReadIn(submitted, "post_types", k)));
      }
    }
    forall f | f in FeatureNames() {
      FeatureFlagsStable(base, submitted, postTypes, cleanText, cleanUrl, base2, f);
    }
  }

  /** One catalog feature's enabled flag, and its threshold when one was
      submitted, survive a second pass over the saved settings. */
  lemma FeatureFlagsStable(base: Val, submitted: Val, postTypes: seq<string>, cleanText: Val -> Val,
                           cleanUrl: Val -> Val, base2: Val, f: string)
    requires SettingsShape(base) && SettingsShape(base2) && f in FeatureNames()
    ensures var out := Sanitized(base, submitted, postTypes, cleanText, cleanUrl);
            var again := Sanitized(base2, out, postTypes, cleanText, cleanUrl);
            && GetIn(again, "features", f) == GetIn(out, "features", f)
            && (IssetIn(submitted, "features", ThresholdKey(f)) ==>
                  GetIn(again, "features", ThresholdKey(f)) == GetIn(out, "features", ThresholdKey(f)))
  {
    var out := Sanitized(base, submitted, postTypes, cleanText, cleanUrl);
    SanitizedFeature(base, submitted, postTypes, cleanText, cleanUrl, f);
    SanitizedFeature(base2, out, postTypes, cleanText, cleanUrl, f);
    if IssetIn(submitted, "features", f) {
      AbsIntOfNonNegative(AbsInt(ReadIn(submitted, "features", f)));
    }
    if IssetIn(submitted, "features", ThresholdKey(f)) {
      AbsIntOfNonNegative(ClampedThreshold(ReadIn(submitted, "features", ThresholdKey(f))));
    }
  }

  /** Saved settings read back unchanged: what the sanitiser returns is a
      non-empty array without repeated keys, so `get_settings` returns it
      as saved and never consults the legacy option. */
  lemma SanitizedReadsBack(base: Val, submitted: Val, postTypes: seq<string>, cleanText: Val -> Val,
                           cleanUrl: Val -> Val, legacy: Val)
    requires SettingsShape(base) && DistinctKeys(base.entries)
    ensures var out := Sanitized(base, submitted, postTypes, cleanText, cleanUrl);
            StoredShape(out) && ResolveSettings(out, legacy) == out
  {
    var out := Sanitized(base, submitted, postTypes, cleanText, cleanUrl);
    SanitizedFeaturesWritten(base, submitted, postTypes, cleanText, cleanUrl);
    CatalogFeatureWrites(submitted, "category", cleanText);
    assert GetIn(out, "features", "category").Some?;
    assert Read(out, "features") != Null;
    assert out.entries != [];
    ResolveKeepsStoredSettings(out, legacy);
  }

  /** `sanitize_settings( $settings )`: starts from the resolved settings,
      runs the credential check (whose failure only raises a warning), then
      overlays the submitted form. `publicPostTypes` are the names of the
      registered public post types. */
  method SanitizeSettings(store: Options.OptionStore, optionName: string, submitted: Val,
                          publicPostTypes: seq<string>, transport: ProbeRequest -> bool,
                          cleanText: Val -> Val, cleanUrl: Val -> Val)
    returns (newSettings: Val, authWarning: bool)
    requires StoredShape(store.GetOption(optionName, Arr([])))
    modifies store
    ensures newSettings == Sanitized(ResolveSettings(old(store.GetOption(optionName, Arr([]))),
                                                     old(store.GetOption(LegacyOption, Bool(false)))),
                                     submitted, publicPostTypes, cleanText, cleanUrl)
    ensures authWarning == AuthFailed(CheckCredentials(submitted, transport))
    ensures store.options == FlagAfter(old(store.options), CheckCredentials(submitted, transport))
  {
    newSettings := ResolveSettings(store.GetOption(optionName, Arr([])), store.GetOption(LegacyOption, Bool(false)));
    ghost var base := newSettings;
    authWarning := AuthenticationCheckFailed(store, submitted, transport);

    if IssetIn(submitted, "credentials", "watson_url") {
      newSettings := PutIn(newSettings, "credentials", "watson_url", cleanUrl(ReadIn(submitted, "credentials", "watson_url")));
    }
    ghost var s1 := newSettings;
    assert s1 == WriteCredential(base, submitted, "watson_url", cleanUrl);
    if IssetIn(submitted, "credentials", "watson_username") {
      newSettings := PutIn(newSettings, "credentials", "watson_username", cleanText(ReadIn(submitted, "credentials", "watson_username")));
    }
    ghost var s2 := newSettings;
    assert s2 == WriteCredential(s1, submitted, "watson_username", cleanText);
    if IssetIn(submitted, "credentials", "watson_password") {
      newSettings := PutIn(newSettings, "credentials", "watson_password", cleanText(ReadIn(submitted, "credentials", "watson_password")));
    }
    assert newSettings == WriteCredential(s2, submitted, "watson_password", cleanText);

    newSettings := OverlayPostTypes(newSettings, submitted, publicPostTypes);
    newSettings := OverlayFeatures(newSettings, submitted, cleanText);
  }

  /** The post-type loop of `sanitize_settings`: each public post type
      gets `absint` of its submitted flag, or an explicit null. */
  method OverlayPostTypes(settings: Val, submitted: Val, publicPostTypes: seq<string>) returns (newSettings: Val)
    ensures newSettings == WritePostTypes(settings, submitted, publicPostTypes)
  {
    newSettings := settings;
    var i := 0;
    while i < |publicPostTypes|
      invariant 0 <= i <= |publicPostTypes|
      invariant newSettings == WritePostTypes(settings, submitted, publicPostTypes[..i])
    {
      var name := publicPostTypes[i];
      if IssetIn(submitted, "post_types", name) {
        newSettings := PutIn(newSettings, "post_types", name, Int(AbsInt(ReadIn(submitted, "post_types", name))));
      } else {
        newSettings := PutIn(newSettings, "post_types", name, Null);
      }
      assert publicPostTypes[..i + 1][..i] == publicPostTypes[..i];
      i := i + 1;
    }
    assert publicPostTypes[..i] == publicPostTypes;
  }

  /** The feature loop of `sanitize_settings`, over the catalog: the
      enabled flag always, a capped threshold and a cleaned taxonomy when
      submitted. */
  method OverlayFeatures(settings: Val, submitted: Val, cleanText: Val -> Val) returns (newSettings: Val)
    ensures newSettings == WriteFeatures(settings, submitted, FeatureNames(), cleanText)
  {
    newSettings := settings;
    var features := FeatureNames();
    var j := 0;
    while j < |features|
      invariant 0 <= j <= |features|
      invariant newSettings == WriteFeatures(settings, submitted, features[..j], cleanText)
    {
      var feature := features[j];
      newSettings := OverlayFeature(newSettings, submitted, feature, cleanText);
      assert features[..j + 1][..j] == features[..j];
      j := j + 1;
    }
    assert features[..j] == features;
  }

  /** One pass of the feature loop: the enabled flag always, a capped
      threshold and a cleaned taxonomy when submitted. */
  method OverlayFeature(settings: Val, submitted: Val, feature: string, cleanText: Val -> Val) returns (newSettings: Val)
    ensures newSettings == WriteFeature(settings, submitted, feature, cleanText)
  {
    if IssetIn(submitted, "features", feature) {
      newSettings := PutIn(settings, "features", feature, Int(AbsInt(ReadIn(submitted, "features", feature))));
    } else {
      newSettings := PutIn(settings, "features", feature, Null);
    }
    if IssetIn(submitted, "features", ThresholdKey(feature)) {
      var t := AbsInt(ReadIn(submitted, "features", ThresholdKey(feature)));
      newSettings := PutIn(newSettings, "features", ThresholdKey(feature), Int(if t < 100 then t else 100));
    }
    if IssetIn(submitted, "features", TaxonomyKey(feature)) {
      newSettings := PutIn(newSettings, "features", TaxonomyKey(feature), cleanText(ReadIn(submitted, "features", TaxonomyKey(feature))));
    }
  }
}
