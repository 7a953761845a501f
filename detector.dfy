/**
 * What happens when the user asks for a verdict on a URL: the feature
 * dictionary is built, turned into a one-row table, cut down to the columns
 * the classifier was trained on, classified, and the classifier's answer is
 * overridden by three of the rule features.
 */
module Detector {
  import opened FeatureNames
  import opened Extractors
  import opened Dicts
  import opened Frames
  import opened Features

  datatype Label = Legitimate | Phishing

  /** The rule features that can overrule the classifier. */
  const Vetoes: seq<Feature> := [BrandMismatch, ProtocolSafety, SuspiciousSubdomain]

  /**
   * The final label: "Legitimate" only when the classifier predicted 1 and
   * none of the three rule features objects.
   */
  function Decide(prediction: int, features: map<Feature, int>): (decision: Label)
    requires BrandMismatch in features && ProtocolSafety in features
    requires SuspiciousSubdomain in features
    ensures decision == Legitimate <==>
              prediction == 1 && forall k | 0 <= k < |Vetoes| :: features[Vetoes[k]] == 1
  {
    if prediction == 1 && features[Vetoes[0]] == 1 && features[Vetoes[1]] == 1
       && features[Vetoes[2]] == 1
    then Legitimate
    else Phishing
  }

  /** A rule feature at -1, or any prediction other than 1, gives "Phishing". */
  lemma VetoWins(prediction: int, features: map<Feature, int>, k: nat)
    requires BrandMismatch in features && ProtocolSafety in features
    requires SuspiciousSubdomain in features
    requires k < |Vetoes| && features[Vetoes[k]] == -1
    ensures Decide(prediction, features) == Phishing
  {
  }

  /** A prediction other than 1 is never overruled towards "Legitimate". */
  lemma ClassifierPhishingStands(prediction: int, features: map<Feature, int>)
    requires BrandMismatch in features && ProtocolSafety in features
    requires SuspiciousSubdomain in features
    requires prediction != 1
    ensures Decide(prediction, features) == Phishing
  {
  }

  /** With all three rule features at 1, the label is the classifier's. */
  lemma NoVetoFollowsClassifier(prediction: int, features: map<Feature, int>)
    requires BrandMismatch in features && ProtocolSafety in features
    requires SuspiciousSubdomain in features
    requires features[BrandMismatch] == 1 && features[ProtocolSafety] == 1
    requires features[SuspiciousSubdomain] == 1
    ensures Decide(prediction, features) == Legitimate <==> prediction == 1
  {
  }

  /**
   * The column names used for selection: the classifier's own list when it
   * has one, otherwise the table's columns.
   */
  function ModelColumns(schema: Option<seq<string>>, frame: Frame): (names: seq<string>)
    ensures schema.Some? ==> names == schema.value
    ensures schema.None? ==> names == frame.keys
  {
    match schema
    case Some(names) => names
    case None => frame.keys
  }

  /** The outcome for one URL: its features, the row the classifier saw and the final label. */
  datatype Verdict = Verdict(features: map<Feature, int>, row: seq<Cell>, decision: Label)

  /** What one press of the Detect button leads to. */
  datatype Outcome =
    | NoUrl                    // the input box is empty: nothing is shown
    | Unparsable               // `urlparse` rejects the URL and its exception escapes
    | Judged(verdict: Verdict)

  /**
   * One press of the Detect button. An empty URL gives no verdict, and
   * neither does a URL `urlparse` rejects (`netloc` is then `None`): inside
   * `extract_features` the failing call is caught once and then repeated
   * in the `except` branch, so the exception escapes. Otherwise the
   * features are extracted from the URL and its netloc, the table gets its `index`
   * column, the columns the classifier knows are selected (names it knows
   * but the table lacks are skipped), `classify` predicts on that row, and
   * the rule features may overrule its answer.
   */
  method Detect(url: string, netloc: Option<string>, probe: Probe, schema: Option<seq<string>>,
                classify: seq<Cell> -> int)
    returns (outcome: Outcome)
    ensures outcome.NoUrl? <==> url == []
    ensures outcome.Unparsable? <==> url != [] && netloc.None?
    ensures outcome.Judged? ==> netloc.Some?
    ensures outcome.Judged? && netloc.Some? ==>
              Extracted(outcome.verdict.features, url, netloc.value, probe)
    ensures outcome.Judged? ==>
              var frame := FeatureFrame(outcome.verdict.features);
              outcome.verdict.row == SelectColumns(frame, ModelColumns(schema, frame))
    ensures outcome.Judged? ==>
              outcome.verdict.decision == Decide(classify(outcome.verdict.row), outcome.verdict.features)
  {
    if url == [] {
      return NoUrl;
    }
    if netloc.None? {
      return Unparsable;
    }
    var features := ExtractFeatures(url, netloc.value, probe);
    var frame := FeatureFrame(features);
    var row := SelectColumns(frame, ModelColumns(schema, frame));
    var prediction := classify(row);
    var decision := Decide(prediction, features);
    return Judged(Verdict(features, row, decision));
  }

  /**
   * On extracted features, the label is "Legitimate" exactly when the
   * classifier predicts 1, the brand check passes, the URL does not start
   * with `http://`, and the first label of the netloc is not both longer
   * than 6 characters and holding a digit.
   */
  lemma DecideOnUrl(prediction: int, features: map<Feature, int>, url: string, domain: string,
                    probe: Probe)
    requires Extracted(features, url, domain, probe)
    ensures Decide(prediction, features) == Legitimate <==>
              prediction == 1 && BrandMismatchScore(url, domain) == 1 &&
              CheckProtocol(url) == 1 && CheckSuspiciousSubdomain(domain) == 1
  {
  }

  /** A plain `http://` URL is always reported as phishing, whatever the classifier says. */
  lemma PlainHttpIsPhishing(url: string, domain: string, prediction: int,
                            features: map<Feature, int>, probe: Probe)
    requires Extracted(features, url, domain, probe)
    requires "http://" <= url
    ensures Decide(prediction, features) == Phishing
  {
    VetoWins(prediction, features, 1);
  }

  /**
   * Every cell of the row the classifier sees is -1, 0 or 1, and is the
   * table's value for that column.
   */
  lemma RowCells(features: map<Feature, int>, url: string, domain: string, probe: Probe,
                 names: seq<string>)
    requires Extracted(features, url, domain, probe)
    ensures forall i | 0 <= i < |SelectColumns(FeatureFrame(features), names)| ::
              var cell := SelectColumns(FeatureFrame(features), names)[i];
              -1 <= cell.value <= 1 && cell.value == FeatureFrame(features).values[cell.name]
  {
    ExtractedRange(features, url, domain, probe);
    FeatureFrameRange(features);
  }

  /**
   * With no column list from the classifier the row is the whole table:
   * every feature's value in insertion order, then `index` at 0.
   */
  lemma DefaultRow(features: map<Feature, int>)
    requires Complete(features)
    ensures SelectColumns(FeatureFrame(features), FeatureFrame(features).keys) ==
            Entries(features) + [Cell("index", 0)]
  {
    var frame := FeatureFrame(features);
    var entries := Entries(features) + [Cell("index", 0)];
    assert Names(entries) == ColumnOrder() + ["index"];
    forall i | 0 <= i < |entries|
      ensures frame.values[entries[i].name] == entries[i].value
    {
      if i < |KeyOrder| {
        assert entries[i] == Cell(Name(KeyOrder[i]), features[KeyOrder[i]]);
      }
    }
    SelectAllCells(frame, entries);
  }

  /**
   * Every feature column and the `index` column that the classifier's
   * column list names reaches the classifier; with no column list the row
   * is the whole table.
   */
  lemma RowFollowsSchema(features: map<Feature, int>, schema: Option<seq<string>>)
    requires Complete(features)
    ensures var frame := FeatureFrame(features);
            var row := SelectColumns(frame, ModelColumns(schema, frame));
            (forall f | Name(f) in ModelColumns(schema, frame) :: Name(f) in Names(row)) &&
            ("index" in ModelColumns(schema, frame) ==> "index" in Names(row)) &&
            (schema.None? ==> row == Entries(features) + [Cell("index", 0)])
  {
    if schema.None? {
      DefaultRow(features);
    }
  }
}
