# ClassifAI settings, modelled in Dafny

This project models how the ClassifAI WordPress plugin resolves, sanitises
and reads its settings. It covers three parts:

- the IBM Watson NLU provider (`NLU.php`): the feature catalog, settings
  resolution with the pre-1.3 fallback, the credential probe that sets the
  `classifai_configured` flag, and the sanitiser that overlays a submitted
  settings form;
- the services manager (`ServicesManager.php`): the registration polyfill,
  the license section sanitiser and the admin menu title;
- the legacy Klasifai helpers (`Helpers.php`): credential lookup, supported
  post types, feature switches and feature thresholds.

PHP values are modelled by `Php.Val`. Arrays are ordered association lists,
because `get_supported_post_types` returns post types in stored order.
`Php` also defines `isset`, `empty`, `intval`/`absint`, nested writes with
autovivification, `wp_parse_args`, and `filter_var` with
`FILTER_VALIDATE_INT` and `FILTER_VALIDATE_BOOLEAN`. These follow PHP 7.1
or later on a 64-bit build: `intval` of a string reads decimal and
exponent notation ("1e3" is 1000), truncates toward zero, and saturates at
`PHP_INT_MAX` and `PHP_INT_MIN`.

The options table is `Options.OptionStore`, a class with a map field. The
credential check and the NLU sanitiser are methods that change it.

These become parameters of the model:

- the HTTP probe: a function that says whether the response was an error;
- the license server's verdict: a boolean;
- the registered public post types: a sequence;
- the defined PHP constants: a map;
- the `klasifai_post_types` filter;
- `sanitize_text_field` and `esc_url_raw`: uninterpreted functions.

Files:

| file | module | role |
|---|---|---|
| `php.dfy` | `Php` | PHP values, arrays, `empty`, `intval`, `filter_var` |
| `watson.dfy` | `Watson` | feature names, their settings keys and constant names |
| `options.dfy` | `Options` | the options table |
| `nlu.dfy` | `WatsonNlu` | the Watson NLU provider's settings |
| `services_manager.dfy` | `Services` | the plugin-wide settings and the menu title |
| `configured_flag.dfy` | `ConfiguredFlag` | how the probe's flag reaches the menu title |
| `helpers.dfy` | `Klasifai` | the legacy helpers |

Behaviour worth noting:

- The legacy fallback in NLU `get_settings` applies only when nothing at
  all is stored. It takes whole groups, not single fields.
- A submitted post-type flag is stored as `absint` of the submitted value,
  not normalised to 0/1.
- The NLU sanitiser keeps every key of the settings it starts from.
- The legacy threshold getter does not clamp.

## Model

| member | source | states |
|---|---|---|
| WatsonNlu.NluFeatures | includes/Classifai/Providers/Watson/NLU.php:37-66 | the catalog holds the four features category, keyword, entity and concept, in that order |
| WatsonNlu.CatalogDefaultsFromConstants | includes/Classifai/Providers/Watson/NLU.php:42-43 | each feature's default threshold and taxonomy are the values of `WATSON_<FEATURE>_THRESHOLD` and `WATSON_<FEATURE>_TAXONOMY` |
| Watson.CatalogKeysApart | includes/Classifai/Providers/Watson/NLU.php:495-511 | no two catalog features share a key (`f`, `f_threshold`, `f_taxonomy`) in the features group |
| WatsonNlu.LegacyDefaults | includes/Classifai/Providers/Watson/NLU.php:109-123 | the fallback defaults form an array without repeated keys |
| WatsonNlu.StoredArgs | includes/Classifai/Providers/Watson/NLU.php:125 | the arguments `wp_parse_args` takes from the stored option repeat no key unless the stored array does, and a stored scalar contributes at most one key and never one of the three settings groups, so it cannot hide a legacy group |
| WatsonNlu.ResolveSettings | includes/Classifai/Providers/Watson/NLU.php:103-125 | resolving always yields an array; a stored `"0"` or `0` is parsed by `parse_str` to `0 => ''` (stated by ResolveFallsBackToLegacy and ResolveZeroString) |
| WatsonNlu.ResolveZeroString | includes/Classifai/Providers/Watson/NLU.php:103-125 | a stored `"0"` with no legacy option resolves to `[0 => '']`, not to an empty array |
| WatsonNlu.ResolveKeepsStoredSettings | includes/Classifai/Providers/Watson/NLU.php:103-125 | a non-empty stored option is returned unchanged, whatever the legacy option holds |
| WatsonNlu.ResolveFallsBackToLegacy | includes/Classifai/Providers/Watson/NLU.php:109-125 | with nothing stored, a key is present exactly when it is `credentials`, `post_types` or `features` and is set in the legacy option, with the legacy value, or when it is `0` and the stored option was `"0"` or `0`, with value `''`; nothing else (such as `registration`) is copied |
| WatsonNlu.ResolveKeepsDistinct | includes/Classifai/Providers/Watson/NLU.php:125 | resolved settings never repeat a key |
| WatsonNlu.GetSettings | includes/Classifai/Providers/Watson/NLU.php:103-131 | once a non-empty option without repeated keys is stored: the stored group at a truthy set index, else the stored array, whatever the legacy option holds; with nothing stored: the legacy group at a truthy index naming a group the legacy option sets, else an array holding exactly the groups the legacy option sets, plus `0 => ''` when the stored option was `"0"` or `0`; when the index is unset, the settings array, not `''` |
| WatsonNlu.StoredFeaturesHideLegacy | includes/Classifai/Providers/Watson/NLU.php:105-131 | once anything is stored, `get_settings('features')` is the stored features group or the whole stored array, independent of the legacy option |
| WatsonNlu.CheckCredentials | includes/Classifai/Providers/Watson/NLU.php:414-443 | no request is made exactly when `credentials` is unset or a username, password or URL is empty; otherwise the request carries the submitted credentials and the outcome is the transport's |
| WatsonNlu.MissingCredentialSkipsProbe | includes/Classifai/Providers/Watson/NLU.php:414-420 | a missing credential fails the check for every transport and leaves the options untouched |
| WatsonNlu.ProbeDecidesFlag | includes/Classifai/Providers/Watson/NLU.php:441-450 | after a probe the flag is present iff the response is not an error, the check fails iff it is, and every other option keeps its presence and its value |
| WatsonNlu.FlagAfter | includes/Classifai/Providers/Watson/NLU.php:443-448 | no option other than `classifai_configured` changes; no request leaves the options as they were; a failed probe removes the flag; a successful one sets it to true |
| WatsonNlu.AuthenticationCheckFailed | includes/Classifai/Providers/Watson/NLU.php:411-452 | returns the check's failure and leaves the options table as the check prescribes (flag set, deleted or untouched) |
| WatsonNlu.ClampedThreshold | includes/Classifai/Providers/Watson/NLU.php:505 | a sanitised threshold is `absint` of the input when that is at most 100, and 100 when it is larger |
| WatsonNlu.ClampedExponentThreshold | includes/Classifai/Providers/Watson/NLU.php:505 | a submitted threshold "1e3" reads as 1000 and is stored as 100 |
| WatsonNlu.SanitizeSettings | includes/Classifai/Providers/Watson/NLU.php:462-514 | the loop-by-loop sanitiser returns the overlay of the submission on the resolved settings, its warning is the check's failure, and the options table changes only by the check |
| WatsonNlu.OverlayPostTypes | includes/Classifai/Providers/Watson/NLU.php:486-493 | the post-type loop computes the post-type overlay `WritePostTypes` |
| WatsonNlu.OverlayFeatures | includes/Classifai/Providers/Watson/NLU.php:495-511 | the feature loop over the catalog computes the feature overlay `WriteFeatures` |
| WatsonNlu.OverlayFeature | includes/Classifai/Providers/Watson/NLU.php:496-510 | one pass of the feature loop computes one feature's writes `WriteFeature`: the enabled flag always, the threshold and taxonomy only when submitted |
| WatsonNlu.PutInGroup | includes/Classifai/Providers/Watson/NLU.php:473-511 | on settings whose groups are writable, a nested write changes that key of that group and nothing else, and keeps keys distinct |
| WatsonNlu.WriteCredential | includes/Classifai/Providers/Watson/NLU.php:473-483 | one credential block: that credential is replaced by its cleaned submitted value when submitted; no other key or group changes |
| WatsonNlu.WriteCredentials | includes/Classifai/Providers/Watson/NLU.php:473-483 | the URL is replaced through `esc_url_raw`, username and password through `sanitize_text_field`, each only when submitted; other credentials and groups are kept |
| WatsonNlu.WritePostTypes | includes/Classifai/Providers/Watson/NLU.php:486-493 | exactly the listed post types get their flag (`absint` of the submitted value, or null); other entries and groups are kept |
| WatsonNlu.FeatureField | includes/Classifai/Providers/Watson/NLU.php:497-510 | one feature pass writes only that feature's own keys |
| WatsonNlu.WriteFeature | includes/Classifai/Providers/Watson/NLU.php:497-510 | one pass of the feature loop writes what `FeatureField` prescribes and keeps every other key and group |
| WatsonNlu.WriteFeatures | includes/Classifai/Providers/Watson/NLU.php:495-511 | the feature loop leaves each key with the last write to it, and keeps other groups |
| WatsonNlu.WrittenByOwner | includes/Classifai/Providers/Watson/NLU.php:495-511 | when features own disjoint keys, a feature's key holds that feature's own write |
| WatsonNlu.WrittenByNobody | includes/Classifai/Providers/Watson/NLU.php:495-511 | a key no feature owns is never written by the feature loop |
| WatsonNlu.CatalogFeatureWrites | includes/Classifai/Providers/Watson/NLU.php:495-511 | for the catalog, each feature's enabled, threshold and taxonomy keys hold its own writes |
| WatsonNlu.Sanitized | includes/Classifai/Providers/Watson/NLU.php:462-514 | keys outside the three groups keep their resolved values, whether or not authentication failed, and no key is repeated |
| WatsonNlu.SanitizedCredentials | includes/Classifai/Providers/Watson/NLU.php:463-483 | submitted credential fields are written cleaned (URL through `esc_url_raw`, the others through `sanitize_text_field`) even when authentication fails; unsubmitted ones keep their resolved values |
| WatsonNlu.SanitizedPostTypes | includes/Classifai/Providers/Watson/NLU.php:486-493 | every public post type has an entry, `absint` of the submitted value or an explicit null; other entries are kept |
| WatsonNlu.SanitizedFeatures | includes/Classifai/Providers/Watson/NLU.php:495-511 | for each catalog feature the enabled flag is always written, a submitted threshold becomes `min(absint, 100)`, a submitted taxonomy is cleaned, and unsubmitted thresholds and taxonomies keep their resolved values |
| WatsonNlu.SanitizedFeature | includes/Classifai/Providers/Watson/NLU.php:497-510 | one catalog feature's enabled, threshold and taxonomy keys after sanitising |
| WatsonNlu.SanitizedKeepsUnownedFeatureKeys | includes/Classifai/Providers/Watson/NLU.php:495-511 | keys of the features group that no catalog feature owns keep their resolved values |
| WatsonNlu.SanitizedFeaturesWritten | includes/Classifai/Providers/Watson/NLU.php:495-511 | the features group after sanitising is the resolved one overlaid with the last write to each key |
| WatsonNlu.SanitizedFlagsStable | includes/Classifai/Providers/Watson/NLU.php:486-511 | re-submitting the saved settings leaves every post-type flag, enabled flag and submitted threshold unchanged |
| WatsonNlu.FeatureFlagsStable | includes/Classifai/Providers/Watson/NLU.php:497-506 | one feature's enabled flag and submitted threshold survive re-sanitising the saved settings |
| WatsonNlu.SanitizedReadsBack | includes/Classifai/Providers/Watson/NLU.php:462-514 | saved settings are a non-empty array without repeated keys, so `get_settings` returns them as saved and ignores the legacy option |
| Services.LiftRegistration | includes/Classifai/Services/ServicesManager.php:78-84 | one lift sets the top-level field only when it is unset and the nested one is set; no other key changes |
| Services.RegistrationPolyfill | includes/Classifai/Services/ServicesManager.php:78-84 | a set top-level `email` or `license_key` is never overwritten; an unset one takes `registration.<field>` when that is set; other keys are unchanged |
| Services.PolyfillIdempotent | includes/Classifai/Services/ServicesManager.php:78-84 | applying the polyfill twice equals applying it once |
| Services.GetSettings | includes/Classifai/Services/ServicesManager.php:74-92 | no truthy index returns the whole polyfilled settings; otherwise the stored value when set, else for `email` and `license_key` the nested registration value when set, else `''` |
| Services.SanitizeSettings | includes/Classifai/Services/ServicesManager.php:128-149 | output keys lie within `valid_license`, `email`, `license_key`; empty unless both fields are submitted; a valid verdict stores true and the cleaned fields; an invalid one stores false, `''`, `''` and raises the settings error |
| Services.SavedReadsBack | includes/Classifai/Services/ServicesManager.php:128-149 | the saved license section passes the polyfill unchanged, and the email read back is the one saved |
| Services.MenuTitle | includes/Classifai/Services/ServicesManager.php:220-229 | the menu title equals the title iff the configured flag is truthy; otherwise it is the title, a space and the badge |
| Services.ServicesManager.GetMenuTitle | includes/Classifai/Services/ServicesManager.php:219-230 | sets `title` and `menu_title` from the stored configured flag, keeping the services list |
| Services.ServicesManager.constructor | includes/Classifai/Services/ServicesManager.php:36-40 | stores the services and computes the menu title |
| Options.OptionStore.UpdateOption | includes/Classifai/Providers/Watson/NLU.php:445 | `get_option` of the name now returns the value, whatever the default; every other name reads as before |
| Options.OptionStore.DeleteOption | includes/Classifai/Providers/Watson/NLU.php:447 | `get_option` of the name now returns the default; every other name reads as before |
| ConfiguredFlag.ProbeDecidesMenuTitle | includes/Classifai/Providers/Watson/NLU.php:443-448 | after a probe with complete credentials, the menu shows the plain title iff the probe succeeded, and the badge after a failure |
| Klasifai.WatsonCredential | includes/Klasifai/Helpers.php:79-88 | the stored credential if non-empty, else the constant when defined, else `''`; an empty credentials group counts as no stored value |
| Klasifai.GetWatsonUsername | includes/Klasifai/Helpers.php:78-89 | the stored username if non-empty, else `WATSON_USERNAME` when defined, else `''` |
| Klasifai.GetWatsonPassword | includes/Klasifai/Helpers.php:99-110 | the stored password if non-empty, else `WATSON_PASSWORD` when defined, else `''` |
| Klasifai.CredentialPrecedence | includes/Klasifai/Helpers.php:78-110 | the result is empty iff the stored value is empty and the constant is undefined or empty |
| Klasifai.GetSupportedPostTypes | includes/Klasifai/Helpers.php:118-139 | the loop returns the filter applied to the enabled post types, or to `['post']` when there are none |
| Klasifai.EnabledKeysMembership | includes/Klasifai/Helpers.php:125-129 | a post type is listed iff its stored value is non-empty |
| Klasifai.EnabledKeysAppend | includes/Klasifai/Helpers.php:125-129 | the listed post types keep the stored order |
| Klasifai.EnabledKeysNoneEnabled | includes/Klasifai/Helpers.php:125-134 | nothing is listed exactly when every stored value is empty |
| Klasifai.SupportedBeforeFilter | includes/Klasifai/Helpers.php:121-134 | never empty; `["post"]` when settings are empty or `post_types` is not an array; otherwise a post type is listed iff its stored value is non-empty, and "post" also when every stored value is empty |
| Klasifai.EmptyGuardsReadNull | includes/Klasifai/Helpers.php:147-183 | behind an empty settings option or features group every feature key reads as null |
| Klasifai.GetFeatureEnabled | includes/Klasifai/Helpers.php:147-159 | enabled iff the stored value passes `FILTER_VALIDATE_BOOLEAN`, and only when settings, features and the value are all non-empty |
| Klasifai.FeatureEnabledTokens | includes/Klasifai/Helpers.php:152-154 | a stored string switch is on iff it is "1", "true", "on" or "yes", in any case, after trimming |
| Klasifai.ConstantNameIsZero | includes/Klasifai/Helpers.php:186-189 | `intval` of a threshold constant's name is 0 |
| Klasifai.StoredThreshold | includes/Klasifai/Helpers.php:177-183 | the looked-up threshold is non-empty iff the stored value validates to a non-zero integer, and is then that integer |
| Klasifai.GetFeatureThreshold | includes/Klasifai/Helpers.php:173-198 | the getter returns N/100 for a stored value validating to a non-zero N and 0.7 otherwise, whatever constants are defined |
| Klasifai.ThresholdNotClamped | includes/Klasifai/Helpers.php:177-198 | no upper clamp: a stored 150 gives 1.5 |
| Klasifai.ThresholdNegative | includes/Klasifai/Helpers.php:177-198 | no lower bound: a stored "-20" passes `FILTER_VALIDATE_INT` and gives -0.2 |
| Klasifai.ThresholdIgnoresConstant | includes/Klasifai/Helpers.php:185-191 | with `WATSON_CATEGORY_THRESHOLD` defined as 50 and nothing stored, the getter gives 0.7, where the intended lookup gives 0.5 |
| Klasifai.GetFeatureThresholdIntended | includes/Klasifai/Helpers.php:173-198 | the intended lookup: a valid non-zero stored N gives N/100, else a defined constant with non-zero integer value C gives C/100, else 0.7 |
| Php.FilterBooleanNonEmpty | includes/Klasifai/Helpers.php:151-154 | an empty value never passes `FILTER_VALIDATE_BOOLEAN` |
| Php.ValidateIntNonZeroNonEmpty | includes/Klasifai/Helpers.php:178-181 | only a non-empty value validates to a non-zero integer |
| Php.ParseArgsOntoNothing | includes/Classifai/Providers/Watson/NLU.php:125 | `wp_parse_args` over no defaults returns the arguments unchanged |
| Php.StringToIntOfDigits | includes/Classifai/Providers/Watson/NLU.php:489 | `intval` of a digit string is the number it spells, saturated to the 64-bit range |
| Php.StringToIntSaturates | includes/Classifai/Providers/Watson/NLU.php:489 | a submitted flag "99999999999999999999" reads as `PHP_INT_MAX` |
| Php.StringToIntExponent | includes/Classifai/Providers/Watson/NLU.php:505 | `intval("1e3")` is 1000 |

## Left out

- Rendering and admin wiring: the `render_*` methods, field and section
  registration, editor assets, `register`, `register_services`,
  `do_settings` and menu-page registration. These only output HTML or
  attach hooks.
- `check_license_key` in both classes and the Watson `APIRequest`: network
  calls. Their outcome is an input: a license verdict, or a transport that
  answers whether the response was an error.
- WatsonNlu.CheckCredentials: the probe URL is built from `watson_url` with
  `trailingslashit`, `v1/analyze` and the API version. The model hands the
  raw URL to the transport, which stands for the whole request.
- `add_settings_error`: the NLU sanitiser returns the failure as a boolean.
  The services sanitiser returns it as a flag in `Saved`.
- `sanitize_text_field`, `esc_url_raw` and the `klasifai_post_types`
  filter are uninterpreted function parameters. No property of them is
  assumed.
- `get_post_types` and the registered public post types: the model takes
  their names as a sequence.
- WatsonNlu.ResolveSettings: requires the stored option to be an array or
  PHP-empty. A stored `"0"` or `0` is modelled: `wp_parse_args` parses it
  as the query string `0` and yields `[0 => '']`. Query-string parsing of
  any other scalar, which can only be non-empty, is not modelled.
- Writes into a scalar container: `$s['k'] = v` where `$s` is a string
  (the empty string included), a number or true leaves the value
  unchanged in the model. PHP
  raises an error or writes a string offset here. The sanitiser lemmas
  require the three groups to be arrays, null or false.
- Integer-like array keys: PHP stores a key such as "0" or "42" as an
  integer, so a list-shaped `post_types` group yields `[0, 1]` from
  `get_supported_post_types`. The model keeps every key a string and
  yields `["0", "1"]`.
- Php.StringToInt: values past the double range (such as "1e400") read
  as 0 in PHP and saturate in the model; decimal strings with more
  significant digits than a double holds are truncated exactly, where
  PHP first rounds to the nearest double.
- Php.AbsInt: `absint` of `PHP_INT_MIN` is the float 2^63 in PHP; the
  model gives the integer 2^63.
- Reads of string offsets: `$str['key']` reads as null in the model. PHP
  reads a character or raises an error.
- Floating point: thresholds are exact `real` fractions (N/100 and 7/10),
  not IEEE doubles.
- `reset_plugin_settings` builds an array and never stores it, so it has
  no observable effect. `get_plugin` and `set_plugin_settings` are plain
  delegations to WordPress.
- Translation: labels and titles are the untranslated strings.
- `register` appending instances to `service_classes`: this relies on
  class loading by name (`class_exists`, `new $service`).
- ServicesManager.get_settings reads `classifai_settings` directly. The
  model takes the stored value as a parameter, with false standing for an
  absent option.

## Findings

| source | as written | input that shows it | evidently intended | confidence | as-written member | corrected member |
|---|---|---|---|---|---|---|
| includes/Klasifai/Helpers.php:185-191 | the constant fallback calls `intval( $constant )` on the constant's name, which is always 0, so a defined `WATSON_<FEATURE>_THRESHOLD` is never used | nothing stored and `WATSON_CATEGORY_THRESHOLD` defined as 50: the getter returns 0.7 | use the constant's value, `intval( constant( $constant ) )`, so the example gives 0.5 | not executed | Klasifai.GetFeatureThreshold (shown by Klasifai.ThresholdIgnoresConstant) | Klasifai.GetFeatureThresholdIntended |
