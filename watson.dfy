/** Names shared by the Watson provider and the legacy Klasifai helpers:
    the four classification features, the keys a feature occupies in the
    `features` settings group, and the PHP constants that hold defaults. */
module Watson {
  import opened Php

  /** The feature catalog's keys, in catalog order. */
  function FeatureNames(): seq<string>
  {
    ["category", "keyword", "entity", "concept"]
  }

  /** `"{$feature}_threshold"`. */
  function ThresholdKey(feature: string): string
  {
    feature + "_threshold"
  }

  /** `"{$feature}_taxonomy"`. */
  function TaxonomyKey(feature: string): string
  {
    feature + "_taxonomy"
  }

  /** The three keys of the `features` group that belong to one feature. */
  function FeatureKeys(feature: string): set<string>
  {
    {feature, ThresholdKey(feature), TaxonomyKey(feature)}
  }

  /** `'WATSON_' . strtoupper( $feature ) . '_THRESHOLD'`. */
  function ThresholdConstant(feature: string): string
  {
    "WATSON_" + UpperAscii(feature) + "_THRESHOLD"
  }

  /** `'WATSON_' . strtoupper( $feature ) . '_TAXONOMY'`. */
  function TaxonomyConstant(feature: string): string
  {
    "WATSON_" + UpperAscii(feature) + "_TAXONOMY"
  }

  /** `strtoupper` of a feature name, spelled out for the four features. */
  lemma UpperFeatureNames()
    ensures UpperAscii("category") == "CATEGORY" && UpperAscii("keyword") == "KEYWORD"
    ensures UpperAscii("entity") == "ENTITY" && UpperAscii("concept") == "CONCEPT"
  {
  }

  lemma CategoryConstantNames()
    ensures ThresholdConstant("category") == "WATSON_CATEGORY_THRESHOLD"
    ensures TaxonomyConstant("category") == "WATSON_CATEGORY_TAXONOMY"
  {
    UpperFeatureNames();
    assert "WATSON_" + "CATEGORY" + "_THRESHOLD" == "WATSON_CATEGORY_THRESHOLD";
    assert "WATSON_" + "CATEGORY" + "_TAXONOMY" == "WATSON_CATEGORY_TAXONOMY";
  }

  lemma KeywordConstantNames()
    ensures ThresholdConstant("keyword") == "WATSON_KEYWORD_THRESHOLD"
    ensures TaxonomyConstant("keyword") == "WATSON_KEYWORD_TAXONOMY"
  {
    UpperFeatureNames();
    assert "WATSON_" + "KEYWORD" + "_THRESHOLD" == "WATSON_KEYWORD_THRESHOLD";
    assert "WATSON_" + "KEYWORD" + "_TAXONOMY" == "WATSON_KEYWORD_TAXONOMY";
  }

  lemma EntityConstantNames()
    ensures ThresholdConstant("entity") == "WATSON_ENTITY_THRESHOLD"
    ensures TaxonomyConstant("entity") == "WATSON_ENTITY_TAXONOMY"
  {
    UpperFeatureNames();
    assert "WATSON_" + "ENTITY" + "_THRESHOLD" == "WATSON_ENTITY_THRESHOLD";
    assert "WATSON_" + "ENTITY" + "_TAXONOMY" == "WATSON_ENTITY_TAXONOMY";
  }

  lemma ConceptConstantNames()
    ensures ThresholdConstant("concept") == "WATSON_CONCEPT_THRESHOLD"
    ensures TaxonomyConstant("concept") == "WATSON_CONCEPT_TAXONOMY"
  {
    UpperFeatureNames();
    assert "WATSON_" + "CONCEPT" + "_THRESHOLD" == "WATSON_CONCEPT_THRESHOLD";
    assert "WATSON_" + "CONCEPT" + "_TAXONOMY" == "WATSON_CONCEPT_TAXONOMY";
  }

  const UsernameConstant: string := "WATSON_USERNAME"
  const PasswordConstant: string := "WATSON_PASSWORD"

  /** No two features of a list share a settings key. */
  predicate KeysApart(features: seq<string>)
  {
    forall i, j :: 0 <= i < j < |features| ==> FeatureKeys(features[i]) !! FeatureKeys(features[j])
  }

  /** Every key of a feature starts with the feature's first two letters. */
  lemma FeatureKeysPrefix(feature: string, k: string)
    requires |feature| >= 2 && k in FeatureKeys(feature)
    ensures |k| >= |feature| && k[0] == feature[0] && k[1] == feature[1]
  {
  }

  /** The catalog's features occupy disjoint keys. */
  lemma CatalogKeysApart()
    ensures KeysApart(FeatureNames())
  {
    var names := FeatureNames();
    forall i, j | 0 <= i < j < |names| ensures FeatureKeys(names[i]) !! FeatureKeys(names[j]) {
      forall k | k in FeatureKeys(names[i]) && k in FeatureKeys(names[j]) ensures false {
        FeatureKeysPrefix(names[i], k);
        FeatureKeysPrefix(names[j], k);
      }
    }
  }
}
