/**
 * The keys of the feature dictionary, their column names and the order in
 * which `extract_features` inserts them, with the proof that the column
 * names are pairwise distinct and never `index`.
 */
module FeatureNames {
  import opened Dicts

  /** The keys of the feature dictionary. */
  datatype Feature =
    | HavingIpAddress | UrlLength | ShortiningService | HavingAtSymbol
    | DoubleSlashRedirecting | PrefixSuffix | HavingSubDomain | SslFinalState
    | DomainRegisterationLength | DnsRecord | BrandMismatch | ProtocolSafety
    | SuspiciousSubdomain
    // the placeholders
    | Favicon | Port | HttpsToken | RequestUrl | UrlOfAnchor | LinksInTags | Sfh
    | SubmittingToEmail | AbnormalUrl | Redirect | OnMouseover | RightClick | PopUpWidnow
    | Iframe | AgeOfDomain | WebTraffic | PageRank | GoogleIndex | LinksPointingToPage
    | StatisticalReport

  /** The column name of each feature, as the trained classifier knows it. */
  function Name(f: Feature): string {
    match f
    case HavingIpAddress => "having_IPhaving_IP_Address"
    case UrlLength => "URLURL_Length"
    case ShortiningService => "Shortining_Service"
    case HavingAtSymbol => "having_At_Symbol"
    case DoubleSlashRedirecting => "double_slash_redirecting"
    case PrefixSuffix => "Prefix_Suffix"
    case HavingSubDomain => "having_Sub_Domain"
    case SslFinalState => "SSLfinal_State"
    case DomainRegisterationLength => "Domain_registeration_length"
    case DnsRecord => "DNSRecord"
    case BrandMismatch => "Brand_Mismatch"
    case ProtocolSafety => "Protocol_Safety"
    case SuspiciousSubdomain => "Suspicious_Subdomain"
    case Favicon => "Favicon"
    case Port => "port"
    case HttpsToken => "HTTPS_token"
    case RequestUrl => "Request_URL"
    case UrlOfAnchor => "URL_of_Anchor"
    case LinksInTags => "Links_in_tags"
    case Sfh => "SFH"
    case SubmittingToEmail => "Submitting_to_email"
    case AbnormalUrl => "Abnormal_URL"
    case Redirect => "Redirect"
    case OnMouseover => "on_mouseover"
    case RightClick => "RightClick"
    case PopUpWidnow => "popUpWidnow"
    case Iframe => "Iframe"
    case AgeOfDomain => "age_of_domain"
    case WebTraffic => "web_traffic"
    case PageRank => "Page_Rank"
    case GoogleIndex => "Google_Index"
    case LinksPointingToPage => "Links_pointing_to_page"
    case StatisticalReport => "Statistical_report"
  }

  /**
   * The order in which `extract_features` inserts its keys: the computed
   * features in the order they are assigned, then the placeholders in the
   * order of `dummy_features`.
   */
  const KeyOrder: seq<Feature> :=
    [HavingIpAddress, UrlLength, ShortiningService, HavingAtSymbol,
     DoubleSlashRedirecting, PrefixSuffix, HavingSubDomain, SslFinalState,
     DomainRegisterationLength, DnsRecord, BrandMismatch, ProtocolSafety,
     SuspiciousSubdomain,
     Favicon, Port, HttpsToken, RequestUrl, UrlOfAnchor, LinksInTags, Sfh,
     SubmittingToEmail, AbnormalUrl, Redirect, OnMouseover, RightClick, PopUpWidnow,
     Iframe, AgeOfDomain, WebTraffic, PageRank, GoogleIndex, LinksPointingToPage,
     StatisticalReport]

  /** The features that `dummy_features` lists. */
  predicate IsPlaceholder(f: Feature) {
    match f
    case Favicon | Port | HttpsToken | RequestUrl | UrlOfAnchor | LinksInTags | Sfh
       | SubmittingToEmail | AbnormalUrl | Redirect | OnMouseover | RightClick | PopUpWidnow
       | Iframe | AgeOfDomain | WebTraffic | PageRank | GoogleIndex | LinksPointingToPage
       | StatisticalReport => true
    case _ => false
  }

  // ---------------------------------------------------------------------
  // The column names are pairwise distinct
  // ---------------------------------------------------------------------

  /** Length, first and last character of each column name: already distinct. */
  function NameKey(f: Feature): (int, char, char) {
    match f
    case HavingIpAddress => (26, 'h', 's')
    case UrlLength => (13, 'U', 'h')
    case ShortiningService => (18, 'S', 'e')
    case HavingAtSymbol => (16, 'h', 'l')
    case DoubleSlashRedirecting => (24, 'd', 'g')
    case PrefixSuffix => (13, 'P', 'x')
    case HavingSubDomain => (17, 'h', 'n')
    case SslFinalState => (14, 'S', 'e')
    case DomainRegisterationLength => (27, 'D', 'h')
    case DnsRecord => (9, 'D', 'd')
    case BrandMismatch => (14, 'B', 'h')
    case ProtocolSafety => (15, 'P', 'y')
    case SuspiciousSubdomain => (20, 'S', 'n')
    case Favicon => (7, 'F', 'n')
    case Port => (4, 'p', 't')
    case HttpsToken => (11, 'H', 'n')
    case RequestUrl => (11, 'R', 'L')
    case UrlOfAnchor => (13, 'U', 'r')
    case LinksInTags => (13, 'L', 's')
    case Sfh => (3, 'S', 'H')
    case SubmittingToEmail => (19, 'S', 'l')
    case AbnormalUrl => (12, 'A', 'L')
    case Redirect => (8, 'R', 't')
    case OnMouseover => (12, 'o', 'r')
    case RightClick => (10, 'R', 'k')
    case PopUpWidnow => (11, 'p', 'w')
    case Iframe => (6, 'I', 'e')
    case AgeOfDomain => (13, 'a', 'n')
    case WebTraffic => (11, 'w', 'c')
    case PageRank => (9, 'P', 'k')
    case GoogleIndex => (12, 'G', 'x')
    case LinksPointingToPage => (22, 'L', 'e')
    case StatisticalReport => (18, 'S', 't')
  }

  /** The features in groups of 6, in insertion order, to keep each proof small. */
  function Group(f: Feature): nat {
    match f
    case HavingIpAddress | UrlLength | ShortiningService | HavingAtSymbol | DoubleSlashRedirecting | PrefixSuffix => 0
    case HavingSubDomain | SslFinalState | DomainRegisterationLength | DnsRecord | BrandMismatch | ProtocolSafety => 1
    case SuspiciousSubdomain | Favicon | Port | HttpsToken | RequestUrl | UrlOfAnchor => 2
    case LinksInTags | Sfh | SubmittingToEmail | AbnormalUrl | Redirect | OnMouseover => 3
    case RightClick | PopUpWidnow | Iframe | AgeOfDomain | WebTraffic | PageRank => 4
    case GoogleIndex | LinksPointingToPage | StatisticalReport => 5
  }

  /** Length, first and last character of a non-empty string. */
  function KeyOf(s: string): (int, char, char)
    requires |s| > 0
  {
    (|s|, s[0], s[|s| - 1])
  }

  /** The key of the names of group 0. */
  lemma NameHasKey0(f: Feature)
    requires Group(f) == 0
    ensures |Name(f)| > 0 && NameKey(f) == KeyOf(Name(f))
  {
  }

  /** The key of the names of group 1. */
  lemma NameHasKey1(f: Feature)
    requires Group(f) == 1
    ensures |Name(f)| > 0 && NameKey(f) == KeyOf(Name(f))
  {
  }

  /** The key of the names of group 2. */
  lemma NameHasKey2(f: Feature)
    requires Group(f) == 2
    ensures |Name(f)| > 0 && NameKey(f) == KeyOf(Name(f))
  {
  }

  /** The key of the names of group 3. */
  lemma NameHasKey3(f: Feature)
    requires Group(f) == 3
    ensures |Name(f)| > 0 && NameKey(f) == KeyOf(Name(f))
  {
  }

  /** The key of the names of group 4. */
  lemma NameHasKey4(f: Feature)
    requires Group(f) == 4
    ensures |Name(f)| > 0 && NameKey(f) == KeyOf(Name(f))
  {
  }

  /** The key of the names of group 5. */
  lemma NameHasKey5(f: Feature)
    requires Group(f) == 5
    ensures |Name(f)| > 0 && NameKey(f) == KeyOf(Name(f))
  {
  }

  /** The key is the length and the end characters of the name. */
  lemma NameHasKey(f: Feature)
    ensures |Name(f)| > 0 && NameKey(f) == KeyOf(Name(f))
  {
    if Group(f) == 0 {
      NameHasKey0(f);
    } else if Group(f) == 1 {
      NameHasKey1(f);
    } else if Group(f) == 2 {
      NameHasKey2(f);
    } else if Group(f) == 3 {
      NameHasKey3(f);
    } else if Group(f) == 4 {
      NameHasKey4(f);
    } else {
      NameHasKey5(f);
    }
  }

  /** No feature of group 0 shares its key with another feature. */
  lemma NameKeyInjective0(f: Feature, g: Feature)
    requires Group(f) == 0 && NameKey(f) == NameKey(g)
    ensures f == g
  {
  }

  /** No feature of group 1 shares its key with another feature. */
  lemma NameKeyInjective1(f: Feature, g: Feature)
    requires Group(f) == 1 && NameKey(f) == NameKey(g)
    ensures f == g
  {
  }

  /** No feature of group 2 shares its key with another feature. */
  lemma NameKeyInjective2(f: Feature, g: Feature)
    requires Group(f) == 2 && NameKey(f) == NameKey(g)
    ensures f == g
  {
  }

  /** No feature of group 3 shares its key with another feature. */
  lemma NameKeyInjective3(f: Feature, g: Feature)
    requires Group(f) == 3 && NameKey(f) == NameKey(g)
    ensures f == g
  {
  }

  /** No feature of group 4 shares its key with another feature. */
  lemma NameKeyInjective4(f: Feature, g: Feature)
    requires Group(f) == 4 && NameKey(f) == NameKey(g)
    ensures f == g
  {
  }

  /** No feature of group 5 shares its key with another feature. */
  lemma NameKeyInjective5(f: Feature, g: Feature)
    requires Group(f) == 5 && NameKey(f) == NameKey(g)
    ensures f == g
  {
  }

  /** No two features share a key. */
  lemma NameKeyInjective(f: Feature, g: Feature)
    requires NameKey(f) == NameKey(g)
    ensures f == g
  {
    if Group(f) == 0 {
      NameKeyInjective0(f, g);
    } else if Group(f) == 1 {
      NameKeyInjective1(f, g);
    } else if Group(f) == 2 {
      NameKeyInjective2(f, g);
    } else if Group(f) == 3 {
      NameKeyInjective3(f, g);
    } else if Group(f) == 4 {
      NameKeyInjective4(f, g);
    } else {
      NameKeyInjective5(f, g);
    }
  }

  /** No two features share a column name. */
  lemma NameInjective(f: Feature, g: Feature)
    requires Name(f) == Name(g)
    ensures f == g
  {
    NameHasKey(f);
    NameHasKey(g);
    NameKeyInjective(f, g);
  }

  /** No feature is named like the extra `index` column. */
  lemma NameNotIndex(f: Feature)
    ensures Name(f) != "index"
  {
    NameHasKey(f);
  }

  /** The position of each feature in the insertion order. */
  function Position(f: Feature): nat {
    match f
    case HavingIpAddress => 0
    case UrlLength => 1
    case ShortiningService => 2
    case HavingAtSymbol => 3
    case DoubleSlashRedirecting => 4
    case PrefixSuffix => 5
    case HavingSubDomain => 6
    case SslFinalState => 7
    case DomainRegisterationLength => 8
    case DnsRecord => 9
    case BrandMismatch => 10
    case ProtocolSafety => 11
    case SuspiciousSubdomain => 12
    case Favicon => 13
    case Port => 14
    case HttpsToken => 15
    case RequestUrl => 16
    case UrlOfAnchor => 17
    case LinksInTags => 18
    case Sfh => 19
    case SubmittingToEmail => 20
    case AbnormalUrl => 21
    case Redirect => 22
    case OnMouseover => 23
    case RightClick => 24
    case PopUpWidnow => 25
    case Iframe => 26
    case AgeOfDomain => 27
    case WebTraffic => 28
    case PageRank => 29
    case GoogleIndex => 30
    case LinksPointingToPage => 31
    case StatisticalReport => 32
  }

  /** The positions 0 to 5 hold the features placed there. */
  lemma PositionsOfGroup0()
    ensures forall i | 0 <= i < 6 :: Position(KeyOrder[i]) == i
  {
  }

  /** The positions 6 to 11 hold the features placed there. */
  lemma PositionsOfGroup1()
    ensures forall i | 6 <= i < 12 :: Position(KeyOrder[i]) == i
  {
  }

  /** The positions 12 to 17 hold the features placed there. */
  lemma PositionsOfGroup2()
    ensures forall i | 12 <= i < 18 :: Position(KeyOrder[i]) == i
  {
  }

  /** The positions 18 to 23 hold the features placed there. */
  lemma PositionsOfGroup3()
    ensures forall i | 18 <= i < 24 :: Position(KeyOrder[i]) == i
  {
  }

  /** The positions 24 to 29 hold the features placed there. */
  lemma PositionsOfGroup4()
    ensures forall i | 24 <= i < 30 :: Position(KeyOrder[i]) == i
  {
  }

  /** The positions 30 to 32 hold the features placed there. */
  lemma PositionsOfGroup5()
    ensures forall i | 30 <= i < 33 :: Position(KeyOrder[i]) == i
  {
  }

  /** The insertion order lists no feature twice. */
  lemma KeyOrderDistinct()
    ensures |KeyOrder| == 33
    ensures forall i | 0 <= i < |KeyOrder| :: Position(KeyOrder[i]) == i
    ensures Distinct(KeyOrder)
  {
    PositionsOfGroup0();
    PositionsOfGroup1();
    PositionsOfGroup2();
    PositionsOfGroup3();
    PositionsOfGroup4();
    PositionsOfGroup5();
  }

  /** Each key occurs in the insertion order. */
  lemma InKeyOrder(f: Feature)
    ensures f in KeyOrder
  {
  }

  /** Each feature sits at its position in the insertion order. */
  lemma AtPosition(f: Feature)
    ensures Position(f) < |KeyOrder| && KeyOrder[Position(f)] == f
  {
    InKeyOrder(f);
    KeyOrderDistinct();
    var i :| 0 <= i < |KeyOrder| && KeyOrder[i] == f;
  }

  /** The column names of the feature dictionary, in insertion order. */
  function ColumnOrder(): (cols: seq<string>)
    ensures |cols| == |KeyOrder| && forall i | 0 <= i < |KeyOrder| :: cols[i] == Name(KeyOrder[i])
  {
    seq(|KeyOrder|, i requires 0 <= i < |KeyOrder| => Name(KeyOrder[i]))
  }

  /** The feature columns and `index` are pairwise distinct names. */
  lemma ColumnsDistinct()
    ensures Distinct(ColumnOrder() + ["index"])
  {
    KeyOrderDistinct();
    var cols := ColumnOrder() + ["index"];
    forall i, j | 0 <= i < j < |cols|
      ensures cols[i] != cols[j]
    {
      if j < |ColumnOrder()| {
        if cols[i] == cols[j] {
          NameInjective(KeyOrder[i], KeyOrder[j]);
        }
      } else {
        NameNotIndex(KeyOrder[i]);
      }
    }
  }
}
