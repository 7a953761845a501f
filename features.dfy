/**
 * The feature dictionary built for one URL: thirteen computed scores,
 * assigned in a fixed order, followed by twenty placeholder entries fixed at
 * 0, and the one-row table made from it for the classifier.
 */
module Features {
  import opened FeatureNames
  import opened Extractors
  import opened Dicts
  import opened Frames

  /** `dummy_features`: every placeholder feature, with value 0. */
  const Placeholders: map<Feature, int> := map f: Feature | IsPlaceholder(f) :: 0

  /** Every feature has an entry. */
  ghost predicate Complete(features: map<Feature, int>) {
    forall f: Feature :: f in features
  }

  /**
   * Merging the placeholders into a dictionary that has every computed
   * feature completes it, sets every placeholder to 0 and leaves the
   * computed entries alone.
   */
  lemma MergePlaceholders(computed: map<Feature, int>)
    requires HavingIpAddress in computed && UrlLength in computed && ShortiningService in computed
    requires HavingAtSymbol in computed && DoubleSlashRedirecting in computed
    requires PrefixSuffix in computed && HavingSubDomain in computed && SslFinalState in computed
    requires DomainRegisterationLength in computed && DnsRecord in computed
    requires BrandMismatch in computed && ProtocolSafety in computed && SuspiciousSubdomain in computed
    ensures Complete(computed + Placeholders)
    ensures forall f | IsPlaceholder(f) :: (computed + Placeholders)[f] == 0
    ensures forall f | !IsPlaceholder(f) :: (computed + Placeholders)[f] == computed[f]
  {
  }

  /**
   * What the network told the scorer about the host: whether the TLS
   * handshake succeeded, whether the WHOIS lookup answered, and the
   * registration length in days from the WHOIS dates, when there was one.
   */
  datatype Probe = Probe(handshakeSucceeded: bool, whoisAnswered: bool,
                         registrationDays: Option<int>)

  /**
   * The value `extract_features` stores under each key: the extractor's
   * score for the thirteen computed features, 0 for every placeholder.
   */
  function Score(f: Feature, url: string, domain: string, probe: Probe): int {
    match f
    case HavingIpAddress => IpLiteralScore(url)
    case UrlLength => UrlLengthScore(url)
    case ShortiningService => ShortenerScore(url)
    case HavingAtSymbol => AtSymbolScore(url)
    case DoubleSlashRedirecting => DoubleSlashScore(url)
    case PrefixSuffix => PrefixSuffixScore(domain)
    case HavingSubDomain => SubDomainScore(domain)
    case SslFinalState => SslStateScore(probe.handshakeSucceeded)
    case DomainRegisterationLength => RegistrationLengthScore(probe.registrationDays)
    case DnsRecord => DnsRecordScore(probe.whoisAnswered)
    case BrandMismatch => BrandMismatchScore(url, domain)
    case ProtocolSafety => CheckProtocol(url)
    case SuspiciousSubdomain => CheckSuspiciousSubdomain(domain)
    case _ => 0
  }

  /**
   * The dictionary `extract_features` returns for `url`, whose netloc is
   * `domain`: every feature has an entry, and it holds the feature's score.
   */
  ghost predicate Extracted(features: map<Feature, int>, url: string, domain: string, probe: Probe) {
    Complete(features) && forall f :: features[f] == Score(f, url, domain, probe)
  }

  /**
   * The thirteen assignments of `extract_features`, read back, are the
   * scores of the computed features.
   */
  lemma ComputedScores(computed: map<Feature, int>, url: string, domain: string, probe: Probe)
    requires HavingIpAddress in computed && computed[HavingIpAddress] == IpLiteralScore(url)
    requires UrlLength in computed && computed[UrlLength] == UrlLengthScore(url)
    requires ShortiningService in computed && computed[ShortiningService] == ShortenerScore(url)
    requires HavingAtSymbol in computed && computed[HavingAtSymbol] == AtSymbolScore(url)
    requires DoubleSlashRedirecting in computed
    requires computed[DoubleSlashRedirecting] == DoubleSlashScore(url)
    requires PrefixSuffix in computed && computed[PrefixSuffix] == PrefixSuffixScore(domain)
    requires HavingSubDomain in computed && computed[HavingSubDomain] == SubDomainScore(domain)
    requires SslFinalState in computed
    requires computed[SslFinalState] == SslStateScore(probe.handshakeSucceeded)
    requires DomainRegisterationLength in computed
    requires computed[DomainRegisterationLength] == RegistrationLengthScore(probe.registrationDays)
    requires DnsRecord in computed && computed[DnsRecord] == DnsRecordScore(probe.whoisAnswered)
    requires BrandMismatch in computed
    requires computed[BrandMismatch] == BrandMismatchScore(url, domain)
    requires ProtocolSafety in computed && computed[ProtocolSafety] == CheckProtocol(url)
    requires SuspiciousSubdomain in computed
    requires computed[SuspiciousSubdomain] == CheckSuspiciousSubdomain(domain)
    ensures forall f | !IsPlaceholder(f) :: f in computed && computed[f] == Score(f, url, domain, probe)
  {
  }

  /** Adding the placeholders to the computed scores gives the extracted dictionary. */
  lemma MergedScores(computed: map<Feature, int>, url: string, domain: string, probe: Probe)
    requires forall f | !IsPlaceholder(f) :: f in computed && computed[f] == Score(f, url, domain, probe)
    ensures Extracted(computed + Placeholders, url, domain, probe)
  {
    forall f
      ensures f in computed + Placeholders
      ensures (computed + Placeholders)[f] == Score(f, url, domain, probe)
    {
      if IsPlaceholder(f) {
        assert f in Placeholders;
      }
    }
  }

  /**
   * `extract_features` on a URL whose netloc is `domain`: the thirteen
   * computed entries are assigned in order, then
   * `features.update(dummy_features)` adds the placeholders. The netloc and
   * the outcome of the network probes are parameters.
   */
  method ExtractFeatures(url: string, domain: string, probe: Probe)
    returns (features: map<Feature, int>)
    ensures Extracted(features, url, domain, probe)
  {
    features := map[];
    features := features[HavingIpAddress := IpLiteralScore(url)];
    features := features[UrlLength := UrlLengthScore(url)];
    features := features[ShortiningService := ShortenerScore(url)];
    features := features[HavingAtSymbol := AtSymbolScore(url)];
    features := features[DoubleSlashRedirecting := DoubleSlashScore(url)];
    features := features[PrefixSuffix := PrefixSuffixScore(domain)];
    features := features[HavingSubDomain := SubDomainScore(domain)];
    features := features[SslFinalState := SslStateScore(probe.handshakeSucceeded)];
    features := features[DomainRegisterationLength :=
                           RegistrationLengthScore(probe.registrationDays)];
    features := features[DnsRecord := DnsRecordScore(probe.whoisAnswered)];
    var brand := CheckBrandMismatch(url, domain);
    features := features[BrandMismatch := brand];
    features := features[ProtocolSafety := CheckProtocol(url)];
    features := features[SuspiciousSubdomain := CheckSuspiciousSubdomain(domain)];
    ComputedScores(features, url, domain, probe);
    MergedScores(features, url, domain, probe);
    features := features + Placeholders;
  }

  /** Every score is -1, 0 or 1. */
  lemma ScoreRange(f: Feature, url: string, domain: string, probe: Probe)
    ensures -1 <= Score(f, url, domain, probe) <= 1
  {
  }

  /** Every value of the extracted dictionary is -1, 0 or 1. */
  lemma ExtractedRange(features: map<Feature, int>, url: string, domain: string, probe: Probe)
    requires Extracted(features, url, domain, probe)
    ensures forall f :: -1 <= features[f] <= 1
  {
    forall f {
      ScoreRange(f, url, domain, probe);
    }
  }

  /** The two probe features are 1 whatever the network answered. */
  lemma ExtractedProbesConstant(features: map<Feature, int>, url: string, domain: string, probe: Probe)
    requires Extracted(features, url, domain, probe)
    ensures features[SslFinalState] == 1 && features[DnsRecord] == 1
  {
  }

  // ---------------------------------------------------------------------
  // The table handed to the classifier
  // ---------------------------------------------------------------------

  /** The entries of the feature dictionary in insertion order, under their column names. */
  function Entries(features: map<Feature, int>): (entries: seq<Cell>)
    requires Complete(features)
    ensures |entries| == |KeyOrder|
    ensures forall i | 0 <= i < |KeyOrder| ::
              entries[i] == Cell(Name(KeyOrder[i]), features[KeyOrder[i]])
  {
    seq(|KeyOrder|, i requires 0 <= i < |KeyOrder| => Cell(Name(KeyOrder[i]), features[KeyOrder[i]]))
  }

  /**
   * The table built from the entries, with `index` set last, has the
   * feature columns in insertion order followed by `index`, and each
   * feature's column holds that feature's value.
   */
  lemma FeatureFrameCells(features: map<Feature, int>)
    requires Complete(features)
    ensures Valid(Assign(FromEntries(Entries(features)), "index", 0))
    ensures Assign(FromEntries(Entries(features)), "index", 0).keys == ColumnOrder() + ["index"]
    ensures forall f :: Name(f) in Assign(FromEntries(Entries(features)), "index", 0).values &&
                        Assign(FromEntries(Entries(features)), "index", 0).values[Name(f)] == features[f]
    ensures "index" in Assign(FromEntries(Entries(features)), "index", 0).values
    ensures Assign(FromEntries(Entries(features)), "index", 0).values["index"] == 0
  {
    var entries := Entries(features);
    var d := FromEntries(entries);
    assert Names(entries) == ColumnOrder();
    ColumnsDistinct();
    var cols := ColumnOrder() + ["index"];
    assert forall i | 0 <= i < |ColumnOrder()| :: cols[i] == ColumnOrder()[i];
    assert "index" !in ColumnOrder() by {
      assert forall i | 0 <= i < |ColumnOrder()| :: cols[i] != cols[|ColumnOrder()|];
    }
    FromEntriesValid(entries);
    FromDistinctEntries(entries);
    AssignValid(d, "index", 0);
    forall f
      ensures Name(f) in d.values && d.values[Name(f)] == features[f]
    {
      AtPosition(f);
      assert entries[Position(f)] == Cell(Name(f), features[f]);
    }
    forall f
      ensures Name(f) != "index"
    {
      NameNotIndex(f);
    }
  }

  /** `features_df = pd.DataFrame([features])`, then `features_df['index'] = 0`. */
  function FeatureFrame(features: map<Feature, int>): (frame: Frame)
    requires Complete(features)
    ensures Valid(frame)
    ensures frame.keys == ColumnOrder() + ["index"]
    ensures forall f :: Name(f) in frame.values && frame.values[Name(f)] == features[f]
    ensures "index" in frame.values && frame.values["index"] == 0
  {
    FeatureFrameCells(features);
    Assign(FromEntries(Entries(features)), "index", 0)
  }

  /** Every column of the table is a feature's column or `index`. */
  lemma FeatureFrameColumns(features: map<Feature, int>)
    requires Complete(features)
    ensures forall c | c in FeatureFrame(features).values ::
              c == "index" || exists f :: Name(f) == c
  {
    var frame := FeatureFrame(features);
    forall c | c in frame.values
      ensures c == "index" || exists f :: Name(f) == c
    {
      assert c in ColumnOrder() + ["index"];
      if c != "index" {
        var i :| 0 <= i < |ColumnOrder()| && ColumnOrder()[i] == c;
        assert Name(KeyOrder[i]) == c;
      }
    }
  }

  /** When every feature value is -1, 0 or 1, so is every cell of the table. */
  lemma FeatureFrameRange(features: map<Feature, int>)
    requires Complete(features)
    requires forall f :: -1 <= features[f] <= 1
    ensures forall c | c in FeatureFrame(features).values :: -1 <= FeatureFrame(features).values[c] <= 1
  {
    var frame := FeatureFrame(features);
    FeatureFrameColumns(features);
    forall c | c in frame.values
      ensures -1 <= frame.values[c] <= 1
    {
      if c != "index" {
        var f :| Name(f) == c;
      }
    }
  }
}
