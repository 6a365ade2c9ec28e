/** The legacy Klasifai helper functions that read the `klasifai_settings`
    option: the Watson credentials, the supported post types and the
    per-feature switches and thresholds. `settings` is the stored option
    (false when it does not exist) and `constants` the PHP constants that
    are defined, with their values. */
module Klasifai {
  import opened Php
  import opened Watson

  // =====================================================================
  // Credentials

  /** `$creds['field']` if non-empty, else the constant when defined,
      else the empty string. `$creds` is the credentials group when it is
      non-empty and an empty array otherwise. */
  function WatsonCredential(settings: Val, field: string, constant: string, constants: map<string, Val>): (r: Val)
    ensures r == if !Empty(ReadIn(settings, "credentials", field)) then ReadIn(settings, "credentials", field)
                 else if constant in constants then constants[constant]
                 else Str("")
  {
    var creds := if !EmptyAt(settings, "credentials") then Read(settings, "credentials") else Arr([]);
    if !EmptyAt(creds, field) then Read(creds, field)
    else if constant in constants then constants[constant]
    else Str("")
  }

  /** `get_watson_username()`. */
  function GetWatsonUsername(settings: Val, constants: map<string, Val>): (r: Val)
    ensures r == if !Empty(ReadIn(settings, "credentials", "watson_username"))
                 then ReadIn(settings, "credentials", "watson_username")
                 else if UsernameConstant in constants then constants[UsernameConstant]
                 else Str("")
  {
    WatsonCredential(settings, "watson_username", UsernameConstant, constants)
  }

  /** `get_watson_password()`. */
  function GetWatsonPassword(settings: Val, constants: map<string, Val>): (r: Val)
    ensures r == if !Empty(ReadIn(settings, "credentials", "watson_password"))
                 then ReadIn(settings, "credentials", "watson_password")
                 else if PasswordConstant in constants then constants[PasswordConstant]
                 else Str("")
  {
    WatsonCredential(settings, "watson_password", PasswordConstant, constants)
  }

  /** A stored credential always wins over the constant, and the constant
      is only consulted when the stored one is empty: the result is empty
      only when neither supplies a non-empty value. */
  lemma CredentialPrecedence(settings: Val, constants: map<string, Val>)
    ensures var u := GetWatsonUsername(settings, constants);
            Empty(u) <==> Empty(ReadIn(settings, "credentials", "watson_username")) &&
                          (UsernameConstant in constants ==> Empty(constants[UsernameConstant]))
    ensures var p := GetWatsonPassword(settings, constants);
            Empty(p) <==> Empty(ReadIn(settings, "credentials", "watson_password")) &&
                          (PasswordConstant in constants ==> Empty(constants[PasswordConstant]))
  {
  }

  // =====================================================================
  // Supported post types

  /** The keys of the entries whose value is non-empty, in stored order. */
  function EnabledKeys(es: Entries): seq<string>
  {
    if es == [] then []
    else
      var last := es[|es| - 1];
      EnabledKeys(es[..|es| - 1]) + (if !Empty(last.1) then [last.0] else [])
  }

  /** The post types before the `klasifai_post_types` filter: the enabled
      ones, or just "post" when there are none. A `post_types` group that
      is not an array yields nothing to iterate over. */
  function SupportedBeforeFilter(settings: Val): (r: seq<string>)
    ensures r != []
    ensures Empty(settings) || !Read(settings, "post_types").Arr? ==> r == ["post"]
    ensures !Empty(settings) && Read(settings, "post_types").Arr? ==>
              var es := Read(settings, "post_types").entries;
              forall k :: k in r <==>
                (exists i :: 0 <= i < |es| && es[i].0 == k && !Empty(es[i].1)) ||
                (k == "post" && forall i :: 0 <= i < |es| ==> Empty(es[i].1))
  {
    var group := Read(settings, "post_types");
    var found := if Empty(settings) || !group.Arr? then [] else EnabledKeys(group.entries);
    assert !Empty(settings) && group.Arr? ==>
             && (forall k :: k in found <==> exists i :: 0 <= i < |group.entries| && group.entries[i].0 == k && !Empty(group.entries[i].1))
             && (found == [] <==> forall i :: 0 <= i < |group.entries| ==> Empty(group.entries[i].1)) by {
      if !Empty(settings) && group.Arr? {
        forall k ensures k in found <==> exists i :: 0 <= i < |group.entries| && group.entries[i].0 == k && !Empty(group.entries[i].1) {
          EnabledKeysMembership(group.entries, k);
        }
        EnabledKeysNoneEnabled(group.entries);
      }
    }
    if found == [] then ["post"] else found
  }

  /** `get_supported_post_types()`. `filter` stands for the
      `klasifai_post_types` filter hook. */
  method GetSupportedPostTypes(settings: Val, filter: seq<string> -> seq<string>) returns (postTypes: seq<string>)
    ensures postTypes == filter(SupportedBeforeFilter(settings))
  {
    postTypes := [];
    if !Empty(settings) {
      var group := Read(settings, "post_types");
      if group.Arr? {
        var es := group.entries;
        var i := 0;
        while i < |es|
          invariant 0 <= i <= |es|
          invariant postTypes == EnabledKeys(es[..i])
        {
          var (postType, enabled) := es[i];
          if !Empty(enabled) {
            postTypes := postTypes + [postType];
          }
          assert es[..i + 1][..i] == es[..i];
          i := i + 1;
        }
        assert es[..i] == es;
      }
    }
    if postTypes == [] {
      postTypes := ["post"];
    }
    postTypes := filter(postTypes);
  }

  /** A key is listed exactly when some entry with that key has a
      non-empty value. */
  lemma {:induction false} EnabledKeysMembership(es: Entries, k: string)
    ensures k in EnabledKeys(es) <==> exists i :: 0 <= i < |es| && es[i].0 == k && !Empty(es[i].1)
  {
    if es != [] {
      var init := es[..|es| - 1];
      EnabledKeysMembership(init, k);
      if k in EnabledKeys(init) {
        var i :| 0 <= i < |init| && init[i].0 == k && !Empty(init[i].1);
        assert es[i] == init[i];
      }
      if exists i :: 0 <= i < |es| && es[i].0 == k && !Empty(es[i].1) {
        var i :| 0 <= i < |es| && es[i].0 == k && !Empty(es[i].1);
        if i < |init| {
          assert init[i] == es[i];
        }
      }
    }
  }

  /** The enabled keys keep the stored order: those of a concatenation
      are those of the first part followed by those of the second. */
  lemma {:induction false} EnabledKeysAppend(a: Entries, b: Entries)
    ensures EnabledKeys(a + b) == EnabledKeys(a) + EnabledKeys(b)
  {
    if b != [] {
      var init := b[..|b| - 1];
      EnabledKeysAppend(a, init);
      assert (a + b)[..|a + b| - 1] == a + init;
    } else {
      assert a + b == a;
    }
  }

  /** No key is listed exactly when every stored value is empty. */
  lemma {:induction false} EnabledKeysNoneEnabled(es: Entries)
    ensures EnabledKeys(es) == [] <==> forall i :: 0 <= i < |es| ==> Empty(es[i].1)
  {
    if es != [] {
      var init := es[..|es| - 1];
      EnabledKeysNoneEnabled(init);
      assert forall i :: 0 <= i < |init| ==> init[i] == es[i];
    }
  }

  // =====================================================================
  // Feature switches

  /** Behind an empty settings option or an empty features group, every
      feature key reads as null. */
  lemma EmptyGuardsReadNull(settings: Val, k: string)
    requires Empty(settings) || EmptyAt(settings, "features")
    ensures ReadIn(settings, "features", k) == Null
  {
    if Empty(settings) {
      assert Read(settings, "features") == Null;
    }
  }

  /** `get_feature_enabled( $feature )`: the stored switch through
      `FILTER_VALIDATE_BOOLEAN`, guarded by three `empty()` checks. The
      guards never change the outcome: an empty value is never a true
      token. */
  function GetFeatureEnabled(settings: Val, feature: string): (enabled: bool)
    ensures enabled <==> FilterBoolean(ReadIn(settings, "features", feature))
    ensures enabled ==> !Empty(settings) && !EmptyAt(settings, "features") &&
                        !EmptyAt(Read(settings, "features"), feature)
  {
    FilterBooleanNonEmpty(ReadIn(settings, "features", feature));
    if Empty(settings) || EmptyAt(settings, "features") then
      EmptyGuardsReadNull(settings, feature);
      false
    else if !EmptyAt(Read(settings, "features"), feature) then
      FilterBoolean(ReadIn(settings, "features", feature))
    else false
  }

  /** A stored string switch is on exactly for the four true tokens, in
      any letter case and with surrounding whitespace. */
  lemma FeatureEnabledTokens(settings: Val, feature: string, s: string)
    requires ReadIn(settings, "features", feature) == Str(s)
    ensures GetFeatureEnabled(settings, feature) <==> IsTrueToken(LowerAscii(FilterTrim(s)))
  {
  }

  // =====================================================================
  // Feature thresholds

  /** `$threshold` after the settings lookup: the validated stored
      percentage, false when it does not validate, 0 when nothing is
      stored. */
  function StoredThreshold(settings: Val, feature: string): (t: Val)
    ensures var v := ValidatedThreshold(settings, feature);
            !Empty(t) <==> v.Some? && v.value != 0
    ensures var v := ValidatedThreshold(settings, feature);
            v.Some? && v.value != 0 ==> t == Int(v.value)
  {
    ValidateIntNonZeroNonEmpty(ReadIn(settings, "features", ThresholdKey(feature)));
    if Empty(settings) || EmptyAt(settings, "features") then
      EmptyGuardsReadNull(settings, ThresholdKey(feature));
      Int(0)
    else if !EmptyAt(Read(settings, "features"), ThresholdKey(feature)) then
      match ValidateInt(ReadIn(settings, "features", ThresholdKey(feature)))
      case Some(n) => Int(n)
      case None => Bool(false)
    else Int(0)
  }

  /** `$threshold / 100` for a non-empty threshold, else 0.7. The
      threshold is always an integer or false here. */
  function ThresholdFraction(threshold: Val): real
  {
    match threshold
    case Int(n) => if n != 0 then n as real / 100.0 else 0.7
    case _ => 0.7
  }

  /** `get_feature_threshold( $feature )` as written: the constant
      fallback converts the constant's NAME with `intval`, not its value,
      so the result is N/100 for a stored value that validates to a
      non-zero integer N, and 0.7 otherwise, whatever the constants.
      Nothing limits N to 0..100. */
  function GetFeatureThreshold(settings: Val, feature: string, constants: map<string, Val>): (r: real)
    ensures var v := ValidatedThreshold(settings, feature);
            r == if v.Some? && v.value != 0 then v.value as real / 100.0 else 0.7
  {
    ConstantNameIsZero(feature);
    var threshold := StoredThreshold(settings, feature);
    var constant := ThresholdConstant(feature);
    var threshold' := if Empty(threshold) && constant in constants then Int(IntVal(Str(constant))) else threshold;
    ThresholdFraction(threshold')
  }

  /** The stored threshold as `FILTER_VALIDATE_INT` reads it. */
  function ValidatedThreshold(settings: Val, feature: string): Option<int>
  {
    ValidateInt(ReadIn(settings, "features", ThresholdKey(feature)))
  }

  /** The name of a threshold constant is not a number: `intval` of it is 0. */
  lemma ConstantNameIsZero(feature: string)
    ensures IntVal(Str(ThresholdConstant(feature))) == 0
  {
    StringToIntOfWord(ThresholdConstant(feature));
  }

  /** No upper clamp: a stored 150 gives 1.5. */
  lemma ThresholdNotClamped(constants: map<string, Val>)
    ensures GetFeatureThreshold(Arr([("features", Arr([("category_threshold", Int(150))]))]), "category", constants) == 1.5
  {
    var settings := Arr([("features", Arr([("category_threshold", Int(150))]))]);
    assert ThresholdKey("category") == "category_threshold";
    assert ReadIn(settings, "features", "category_threshold") == Int(150);
    assert ValidatedThreshold(settings, "category") == Some(150);
  }

  /** `FILTER_VALIDATE_INT` accepts "-20". */
  lemma ValidateMinusTwenty()
    ensures ValidateInt(Str("-20")) == Some(-20)
  {
    assert TrimStart("-20") == "-20";
    assert TrimEnd("-20") == "-20";
    assert FilterTrim("-20") == "-20";
    assert "-20"[1..] == "20";
    assert "20"[..1] == "2";
    assert DigitsValue("2") == 2;
    assert DigitsValue("20") == 20;
  }

  /** No lower bound either: a stored "-20" gives -0.2. */
  lemma ThresholdNegative(constants: map<string, Val>)
    ensures GetFeatureThreshold(Arr([("features", Arr([("keyword_threshold", Str("-20"))]))]), "keyword", constants) == -0.2
  {
    var settings := Arr([("features", Arr([("keyword_threshold", Str("-20"))]))]);
    assert ThresholdKey("keyword") == "keyword_threshold";
    assert ReadIn(settings, "features", "keyword_threshold") == Str("-20");
    ValidateMinusTwenty();
    assert ValidatedThreshold(settings, "keyword") == Some(-20);
  }

  /** The defined constant is ignored: with `WATSON_CATEGORY_THRESHOLD`
      defined as 50 and nothing stored, the getter gives 0.7, not 0.5. */
  lemma ThresholdIgnoresConstant()
    ensures GetFeatureThreshold(Bool(false), "category", map["WATSON_CATEGORY_THRESHOLD" := Int(50)]) == 0.7
    ensures GetFeatureThresholdIntended(Bool(false), "category", map["WATSON_CATEGORY_THRESHOLD" := Int(50)]) == 0.5
  {
    var constants := map["WATSON_CATEGORY_THRESHOLD" := Int(50)];
    CategoryConstantNames();
    assert ValidatedThreshold(Bool(false), "category") == None;
    assert IntVal(constants[ThresholdConstant("category")]) == 50;
  }

  /** `get_feature_threshold` as evidently intended: the fallback reads the
      constant's value, `intval( constant( $constant ) )`. The lookup order
      is a valid non-zero stored percentage, then a defined constant with a
      non-zero integer value, then 0.7. */
  function GetFeatureThresholdIntended(settings: Val, feature: string, constants: map<string, Val>): (r: real)
    ensures var v := ValidatedThreshold(settings, feature);
            var c := ThresholdConstant(feature);
            r == if v.Some? && v.value != 0 then v.value as real / 100.0
                 else if c in constants && IntVal(constants[c]) != 0 then IntVal(constants[c]) as real / 100.0
                 else 0.7
  {
    var threshold := StoredThreshold(settings, feature);
    var constant := ThresholdConstant(feature);
    var threshold' := if Empty(threshold) && constant in constants then Int(IntVal(constants[constant])) else threshold;
    ThresholdFraction(threshold')
  }
}
