/**
 * The lexical feature extractors of the phishing URL scorer. Each one maps
 * the URL text, or the netloc of the URL (its "domain": the host with any
 * user information and port `urlparse` leaves in it), to a score in
 * {-1, 1} (-1: suspicious, 1: looks safe); the URL length and the
 * registration length scores also use 0.
 * The domain is a parameter: how it is parsed out of the URL is not part of
 * this model.
 */
module Extractors {
  import opened Text

  /** The brand names whose appearance outside the domain is suspicious. */
  const Brands: seq<string> :=
    ["google", "facebook", "amazon", "skype", "microsoft",
     "paypal", "apple", "youtube", "linkedin", "instagram"]

  /** The URL-shortener names, as the alternatives of the shortener regex. */
  const Shorteners: seq<string> :=
    ["bit.ly", "goo.gl", "shorte.st", "tinyurl", "t.co",
     "is.gd", "cli.gs", "wp.me", "buff.ly", "ow.ly"]

  // ---------------------------------------------------------------------
  // Brand mismatch
  // ---------------------------------------------------------------------

  /** `brand` occurs in the lower-cased URL but not in the lower-cased domain. */
  predicate Mismatched(url: string, domain: string, brand: string) {
    Contains(Lower(url), brand) && !Contains(Lower(domain), brand)
  }

  /** Reference definition of the brand-mismatch score. */
  function BrandMismatchScore(url: string, domain: string): int {
    if exists k | 0 <= k < |Brands| :: Mismatched(url, domain, Brands[k]) then -1 else 1
  }

  /**
   * `check_brand_mismatch`: walks the brand list in order and stops at the
   * first brand found in the URL but not in the domain.
   */
  method CheckBrandMismatch(url: string, domain: string) returns (score: int)
    ensures score == -1 <==> exists k | 0 <= k < |Brands| :: Mismatched(url, domain, Brands[k])
    ensures score == 1 <==> forall k | 0 <= k < |Brands| :: !Mismatched(url, domain, Brands[k])
    ensures score == BrandMismatchScore(url, domain)
  {
    var i := 0;
    while i < |Brands|
      invariant 0 <= i <= |Brands|
      invariant forall k | 0 <= k < i :: !Mismatched(url, domain, Brands[k])
    {
      var brand := Brands[i];
      if Contains(Lower(url), brand) && !Contains(Lower(domain), brand) {
        return -1;
      }
      i := i + 1;
    }
    return 1;
  }

  /** The brand check ignores letter case in both the URL and the domain. */
  lemma BrandMismatchIgnoresCase(url: string, domain: string)
    ensures BrandMismatchScore(Lower(url), Lower(domain)) == BrandMismatchScore(url, domain)
  {
    LowerIdempotent(url);
    LowerIdempotent(domain);
  }

  /** A URL that mentions no listed brand never has a brand mismatch. */
  lemma NoBrandNoMismatch(url: string, domain: string)
    requires forall k | 0 <= k < |Brands| :: !Contains(Lower(url), Brands[k])
    ensures BrandMismatchScore(url, domain) == 1
  {
  }

  // ---------------------------------------------------------------------
  // Protocol
  // ---------------------------------------------------------------------

  /** `check_protocol`: plain HTTP is suspicious. */
  function CheckProtocol(url: string): int {
    if "http://" <= url then -1 else 1
  }

  /** Only URLs starting with `http://` are flagged; `https://` URLs never are. */
  lemma CheckProtocolFlags(url: string)
    ensures CheckProtocol(url) == -1 <==> |url| >= 7 && url[..7] == "http://"
    ensures CheckProtocol(url) == 1 <==> !("http://" <= url)
    ensures "https://" <= url ==> CheckProtocol(url) == 1
  {
    if "https://" <= url {
      assert url[4] == 's';
    }
  }

  // ---------------------------------------------------------------------
  // Suspicious subdomain
  // ---------------------------------------------------------------------

  /** `domain.split('.')[0]`: the text before the first dot, or all of it. */
  function FirstLabel(domain: string): (first: string)
    ensures first <= domain
    ensures '.' !in first
    ensures |first| == |domain| || domain[|first|] == '.'
    decreases |domain|
  {
    if domain == [] || domain[0] == '.' then [] else [domain[0]] + FirstLabel(domain[1..])
  }

  /** The three properties of FirstLabel determine it. */
  lemma {:induction false} FirstLabelUnique(domain: string, first: string)
    requires first <= domain && '.' !in first
    requires |first| == |domain| || domain[|first|] == '.'
    ensures first == FirstLabel(domain)
    decreases |domain|
  {
    if domain != [] && domain[0] != '.' {
      assert first != [] && first[0] == domain[0];
      FirstLabelUnique(domain[1..], first[1..]);
      assert first == [first[0]] + first[1..];
    }
  }

  /** `check_suspicious_subdomain`: a long first label with a digit in it. */
  function CheckSuspiciousSubdomain(domain: string): int {
    var first := FirstLabel(domain);
    if (exists i | 0 <= i < |first| :: IsDigit(first[i])) && |first| > 6 then -1 else 1
  }

  /**
   * The suspicious-subdomain flag in terms of any dot-free prefix of the
   * domain that ends at a dot or at the end of the domain.
   */
  lemma SuspiciousSubdomainFlags(domain: string, first: string)
    requires first <= domain && '.' !in first
    requires |first| == |domain| || domain[|first|] == '.'
    ensures CheckSuspiciousSubdomain(domain) == -1 <==>
              |first| > 6 && exists c | c in first :: IsDigit(c)
  {
    FirstLabelUnique(domain, first);
  }

  // ---------------------------------------------------------------------
  // IP address literal at the start of the URL
  // ---------------------------------------------------------------------

  predicate AllDigits(s: string) {
    forall i | 0 <= i < |s| :: IsDigit(s[i])
  }

  /**
   * `s` begins with `n` groups of one to three digits separated by dots:
   * the regular expression `\d{1,3}(\.\d{1,3}){n-1}` matched at the start of
   * `s`, with nothing required after the last group.
   */
  predicate DigitGroupsAtStart(s: string, n: nat)
    requires n >= 1
    decreases n
  {
    exists g | 1 <= g <= 3 && g <= |s| ::
      AllDigits(s[..g]) &&
      (n == 1 || (g < |s| && s[g] == '.' && DigitGroupsAtStart(s[g + 1..], n - 1)))
  }

  /** `having_IPhaving_IP_Address`: the URL text starts with a dotted quad. */
  function IpLiteralScore(url: string): int {
    if DigitGroupsAtStart(url, 4) then -1 else 1
  }

  /** The length of the run of digits that `s` starts with. */
  function LeadingDigits(s: string): (r: nat)
    ensures r <= |s| && AllDigits(s[..r])
    ensures r < |s| ==> !IsDigit(s[r])
    decreases |s|
  {
    if s != [] && IsDigit(s[0]) then 1 + LeadingDigits(s[1..]) else 0
  }

  /**
   * A deterministic reading of the same pattern: each group is the whole
   * run of digits where it starts; all but the last must be one to three
   * digits long and be followed by a dot.
   */
  function ScanDigitGroups(s: string, n: nat): bool
    requires n >= 1
    decreases n
  {
    var r := LeadingDigits(s);
    if n == 1 then r >= 1
    else 1 <= r <= 3 && r < |s| && s[r] == '.' && ScanDigitGroups(s[r + 1..], n - 1)
  }

  /** A run of digits that ends at a non-digit is the leading run. */
  lemma DigitRunIsLeading(s: string, g: nat)
    requires g <= |s| && AllDigits(s[..g])
    requires g == |s| || !IsDigit(s[g])
    ensures g == LeadingDigits(s)
  {
    var r := LeadingDigits(s);
    assert forall i | 0 <= i < g :: IsDigit(s[..g][i]);
    assert forall i | 0 <= i < r :: IsDigit(s[..r][i]);
  }

  /** One group: a leading run of at least one digit. */
  lemma ScanMatchesOneGroup(s: string)
    ensures ScanDigitGroups(s, 1) <==> DigitGroupsAtStart(s, 1)
  {
    var r := LeadingDigits(s);
    if r >= 1 {
      assert s[..1] == s[..r][..1];
    }
    if DigitGroupsAtStart(s, 1) {
      var g :| 1 <= g <= 3 && g <= |s| && AllDigits(s[..g]);
      assert IsDigit(s[..g][0]);
    }
  }

  /** The scan accepts exactly the strings the regular expression matches. */
  lemma {:induction false} ScanMatchesPattern(s: string, n: nat)
    requires n >= 1
    ensures ScanDigitGroups(s, n) <==> DigitGroupsAtStart(s, n)
    decreases n
  {
    if n == 1 {
      ScanMatchesOneGroup(s);
    } else {
      var r := LeadingDigits(s);
      PatternGroupIsRun(s, n);
      if 1 <= r <= 3 && r < |s| && s[r] == '.' {
        ScanMatchesPattern(s[r + 1..], n - 1);
      }
    }
  }

  /** When the pattern matches, its first group is the leading digit run. */
  lemma PatternGroupIsRun(s: string, n: nat)
    requires n >= 2
    ensures DigitGroupsAtStart(s, n) <==>
              var r := LeadingDigits(s);
              1 <= r <= 3 && r < |s| && s[r] == '.' && DigitGroupsAtStart(s[r + 1..], n - 1)
  {
    var r := LeadingDigits(s);
    if DigitGroupsAtStart(s, n) {
      var g :| 1 <= g <= 3 && g <= |s| && AllDigits(s[..g]) &&
               g < |s| && s[g] == '.' && DigitGroupsAtStart(s[g + 1..], n - 1);
      DigitRunIsLeading(s, g);
    }
  }

  /** The pattern is anchored at the start: a URL not starting with a digit never matches. */
  lemma IpLiteralNeedsLeadingDigit(url: string)
    requires url == [] || !IsDigit(url[0])
    ensures IpLiteralScore(url) == 1
  {
  }

  /** So a URL with a scheme, such as `http://1.2.3.4`, is never scored as an IP literal. */
  lemma SchemeIsNeverIpLiteral(url: string)
    requires "http://" <= url || "https://" <= url
    ensures IpLiteralScore(url) == 1
  {
    assert url[0] == 'h';
    IpLiteralNeedsLeadingDigit(url);
  }

  /** One more group of one to three digits and a dot in front of a match. */
  lemma GroupThenDot(d: string, t: string, n: nat)
    requires n >= 2 && 1 <= |d| <= 3 && AllDigits(d) && DigitGroupsAtStart(t, n - 1)
    ensures DigitGroupsAtStart(d + "." + t, n)
  {
    var s := d + "." + t;
    assert s[..|d|] == d && s[|d|] == '.' && s[|d| + 1..] == t;
  }

  /** A group of one to three digits, followed by anything, is a match of one group. */
  lemma LastGroup(d: string, rest: string)
    requires 1 <= |d| <= 3 && AllDigits(d)
    ensures DigitGroupsAtStart(d + rest, 1)
  {
    assert (d + rest)[..|d|] == d;
  }

  /** The dotted quad written as nested concatenations. */
  lemma Regroup(a: string, b: string, c: string, d: string, rest: string)
    ensures a + "." + (b + "." + (c + "." + (d + rest))) == a + "." + b + "." + c + "." + d + rest
  {
  }

  /** Four dot-separated groups of one to three digits, followed by anything, are an IP literal. */
  lemma DottedQuadIsIpLiteral(a: string, b: string, c: string, d: string, rest: string)
    requires 1 <= |a| <= 3 && 1 <= |b| <= 3 && 1 <= |c| <= 3 && 1 <= |d| <= 3
    requires AllDigits(a) && AllDigits(b) && AllDigits(c) && AllDigits(d)
    ensures IpLiteralScore(a + "." + b + "." + c + "." + d + rest) == -1
  {
    var t1 := d + rest;
    LastGroup(d, rest);
    GroupThenDot(c, t1, 2);
    var t2 := c + "." + t1;
    GroupThenDot(b, t2, 3);
    var t3 := b + "." + t2;
    GroupThenDot(a, t3, 4);
    Regroup(a, b, c, d, rest);
  }

  // ---------------------------------------------------------------------
  // The remaining per-feature expressions
  // ---------------------------------------------------------------------

  /** `URLURL_Length`: short URLs are safe, long ones suspicious. */
  function UrlLengthScore(url: string): int {
    if |url| < 54 then 1 else if |url| <= 75 then 0 else -1
  }

  /** The three length bands and their boundaries. */
  lemma UrlLengthBands(url: string)
    ensures UrlLengthScore(url) == 1 <==> |url| <= 53
    ensures UrlLengthScore(url) == 0 <==> 54 <= |url| <= 75
    ensures UrlLengthScore(url) == -1 <==> |url| >= 76
  {
  }

  /** A longer URL never scores better than a shorter one. */
  lemma UrlLengthMonotone(shorter: string, longer: string)
    requires |shorter| <= |longer|
    ensures UrlLengthScore(longer) <= UrlLengthScore(shorter)
  {
  }

  /** `Shortining_Service`: a shortener name anywhere in the URL, case-sensitively. */
  function ShortenerScore(url: string): int {
    if exists k | 0 <= k < |Shorteners| :: Contains(url, Shorteners[k]) then -1 else 1
  }

  /** The shortener search is a plain substring search: `t.co` inside `microsoft.com` trips it. */
  lemma ShortenerInsideName()
    ensures ShortenerScore("https://microsoft.com") == -1
  {
    assert Shorteners[4] == "t.co";
    assert OccursAt("https://microsoft.com", "t.co", 16);
  }

  /** A URL holding a shortener's name is still flagged once text is added before and after it. */
  lemma ShortenerStaysFlagged(a: string, url: string, b: string)
    requires ShortenerScore(url) == -1
    ensures ShortenerScore(a + url + b) == -1
  {
    var k :| 0 <= k < |Shorteners| && Contains(url, Shorteners[k]);
    ContainsWithin(a, url, b, Shorteners[k]);
  }

  /** `having_At_Symbol`. */
  function AtSymbolScore(url: string): int {
    if '@' in url then -1 else 1
  }

  /** The `@` flag is Python's substring test `"@" in url`. */
  lemma AtSymbolFlags(url: string)
    ensures AtSymbolScore(url) == -1 <==> Contains(url, "@")
  {
    ContainsChar(url, '@');
  }

  /** `double_slash_redirecting`: more than one non-overlapping `//`. */
  function DoubleSlashScore(url: string): int {
    if Count(url, "//") > 1 then -1 else 1
  }

  /** The redirect flag is raised exactly by two non-overlapping `//`. */
  lemma DoubleSlashTwoApart(url: string)
    ensures DoubleSlashScore(url) == -1 <==> TwoApart(url, "//")
  {
    CountAtLeastTwo(url, "//");
  }

  /** `Prefix_Suffix`: a hyphen in the domain. */
  function PrefixSuffixScore(domain: string): int {
    if '-' in domain then -1 else 1
  }

  /** The hyphen flag is Python's substring test `'-' in domain`. */
  lemma PrefixSuffixFlags(domain: string)
    ensures PrefixSuffixScore(domain) == -1 <==> Contains(domain, "-")
  {
    ContainsChar(domain, '-');
  }

  /** `having_Sub_Domain`: more than one dot in the domain. */
  function SubDomainScore(domain: string): int {
    if Count(domain, ".") > 1 then -1 else 1
  }

  /** The sub-domain flag counts the dots of the domain. */
  lemma SubDomainDots(domain: string)
    ensures SubDomainScore(domain) == -1 <==> multiset(domain)['.'] > 1
  {
    CountChar(domain, '.');
  }

  /**
   * `SSLfinal_State`: the TLS handshake is attempted, but both its outcomes
   * give 1.
   */
  function SslStateScore(handshakeSucceeded: bool): int {
    if handshakeSucceeded then 1 else 1
  }

  /** `DNSRecord`: 1 whether or not the WHOIS lookup produced an answer. */
  function DnsRecordScore(whoisAnswered: bool): int {
    if whoisAnswered then 1 else 1
  }

  datatype Option<T> = None | Some(value: T)

  /**
   * `Domain_registeration_length` from the registration length in days
   * (expiration minus creation), or None when the lookup failed or a date
   * was missing.
   */
  function RegistrationLengthScore(days: Option<int>): int {
    match days
    case None => 0
    case Some(d) => if d >= 365 then 1 else -1
  }

  /** The network-derived features do not depend on what the network answered. */
  lemma ProbesAreConstant(ok: bool)
    ensures SslStateScore(ok) == 1 && DnsRecordScore(ok) == 1
  {
  }

  /** The registration-length score in its three cases. */
  lemma RegistrationLengthCases(days: Option<int>)
    ensures RegistrationLengthScore(days) == 0 <==> days.None?
    ensures RegistrationLengthScore(days) == 1 <==> days.Some? && days.value >= 365
    ensures RegistrationLengthScore(days) == -1 <==> days.Some? && days.value < 365
  {
  }
}
