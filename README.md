# Phishing URL detector: the scoring core in Dafny

`app3.py` is a Streamlit page that asks for a URL and labels it "Legitimate"
or "Phishing". Under the page is a small deterministic core, and this
project models that core:

- **Lexical feature extractors.** Each turns the URL text, or its netloc
  (the "domain": the host together with any user information and port),
  into a score of -1 (suspicious), 0 or 1 (looks safe). They
  cover an IP literal at the start of the URL, length bands, URL-shortener
  names, `@`, repeated `//`, a hyphen and the dot count in the domain, brand
  names outside the domain, plain `http://`, and a long first label of the
  netloc containing a digit.
- **Feature dictionary assembly** (`extract_features`). Thirteen computed
  entries are assigned in order, then `dummy_features` merges in twenty
  placeholder entries fixed at 0.
- **The one-row table and column selection.** The dictionary becomes a
  one-row table and gets an extra `index` column set to 0. The columns the
  trained classifier knows are then selected, in the classifier's order. Names
  the table lacks are dropped without error. With no column list, the table's
  own columns are used.
- **The override decision.** The label is "Legitimate" only when the
  classifier predicts 1 and the three rule features `Brand_Mismatch`,
  `Protocol_Safety` and `Suspicious_Subdomain` are all 1.

Modules, in dependency order:

- `Text` (`text.dfy`): the Python string primitives the extractors use. These
  are ASCII `lower()` and `isdigit()`, substring `in`, and the
  non-overlapping `str.count`.
- `Extractors` (`extractors.dfy`): one function per feature expression, with
  the brand check as a loop with early exit.
- `Dicts` (`dicts.dfy`): an insertion-ordered dictionary, with `d[k] = v` as
  `Assign`.
- `Frames` (`frames.dfy`): the one-row table built from a dictionary, and
  column selection.
- `FeatureNames` (`names.dfy`): the feature keys, their column names, the
  order in which they are inserted, and the proof that the 33 column names
  are pairwise distinct and differ from `index`.
- `Features` (`features.dfy`): `extract_features` as a method that updates a
  map step by step, and the table made from its result.
- `Detector` (`detector.dfy`): the final decision and the whole path from the
  URL to the label.

External inputs are parameters:

- The netloc of the URL (`urlparse(url).netloc`) is the `domain` argument of
  the extractors. `Detect` takes it as an `Option<string>`, where `None`
  stands for a URL that `urlparse` rejects.
- The network probes are a `Probe` value: whether the TLS handshake
  succeeded, whether WHOIS answered, and the registration length in days when
  WHOIS gave both dates.
- The classifier is a function from the selected row to its prediction.
- The classifier's optional list of training columns (`feature_names_in_`) is
  an `Option<seq<string>>`.

Behaviour of the code that the model keeps:

- A column the classifier expects but the table lacks is skipped silently
  (app3.py:114). It is not an error.
- `index` is added to the table before selection (app3.py:111). It reaches
  the classifier whenever the column list names it, and always when there is
  no column list.
- For `http://g00gle123456.verify-login.com` the brand check gives 1, not -1.
  `google` is not a substring of `g00gle` (app3.py:18). The URL is still
  labelled "Phishing", because of the plain `http://` and the suspicious
  first label.
- When `urlparse` raises (for instance `ValueError` on `http://[x`, an
  unclosed IPv6 bracket), the exception inside the `try` at app3.py:32 is
  caught, but the `except` branch calls `urlparse` again at app3.py:36. The
  exception then escapes `extract_features`, and no label is produced.
  `Detect` returns `Unparsable` in that case.

## Model

| member | source | states |
|---|---|---|
| Text.Lower | app3.py:18 | lower-casing keeps the length, leaves no upper-case ASCII letter, and leaves every other character where it was |
| Text.LowerIdempotent | app3.py:18 | lower-casing an already lower-cased string changes nothing |
| Text.ContainsChar | app3.py:41 | for a one-character string, Python's substring `in` is membership of that character |
| Text.CountPositive | app3.py:42 | `s.count(p) >= 1` exactly when `p` occurs in `s` as a substring |
| Text.CountAtLeastTwo | app3.py:42 | `s.count(p) > 1` exactly when `p` occurs twice in `s` without overlapping |
| Text.TwoApartAfterPrefix | app3.py:42 | when `s` starts with `p`, a second non-overlapping occurrence exists exactly when `p` occurs after the first one |
| Text.TwoApartAfterMiss | app3.py:42 | when `s` does not start with `p`, its non-overlapping pairs are those of `s[1..]` |
| Text.ContainsWithin | app3.py:40 | a substring of `s` is still a substring once text is added before and after `s` |
| Text.CountChar | app3.py:44 | counting a one-character pattern gives the number of times that character occurs |
| Extractors.CheckBrandMismatch | app3.py:15-20 | the loop returns -1 exactly when some listed brand is in the lower-cased URL but not in the lower-cased domain, and 1 exactly when no brand is; this equals the reference score |
| Extractors.BrandMismatchIgnoresCase | app3.py:18 | the brand score is the same for the URL and domain as given and for their lower-cased forms |
| Extractors.NoBrandNoMismatch | app3.py:15-20 | a URL that contains none of the ten brands always scores 1 |
| Extractors.CheckProtocolFlags | app3.py:22-23 | the protocol score is -1 exactly when the URL's first seven characters are `http://`, and 1 otherwise; every `https://` URL scores 1 |
| Extractors.FirstLabel | app3.py:26 | `split('.')[0]` is a dot-free prefix of the domain that ends at the first dot or at the end of the domain |
| Extractors.FirstLabelUnique | app3.py:26 | any dot-free prefix ending at a dot or at the end is the first label, so those properties define `split('.')[0]` |
| Extractors.SuspiciousSubdomainFlags | app3.py:25-27 | the subdomain score is -1 exactly when the first label is longer than 6 characters and contains a digit |
| Extractors.ScanMatchesPattern | app3.py:38 | a scan over leading digit runs accepts exactly the strings the anchored pattern `\d{1,3}(\.\d{1,3}){3}` matches, backtracking included |
| Extractors.ScanMatchesOneGroup | app3.py:38 | one group of the pattern matches exactly when the string starts with a digit |
| Extractors.PatternGroupIsRun | app3.py:38 | when several groups match, the first one is the whole leading run of digits and is followed by a dot |
| Extractors.LeadingDigits | app3.py:38 | the leading run is all digits and is followed by a non-digit or by the end of the string |
| Extractors.DigitRunIsLeading | app3.py:38 | a run of digits that ends at a non-digit or at the end is the leading run |
| Extractors.IpLiteralNeedsLeadingDigit | app3.py:38 | a URL that does not start with a digit never scores as an IP literal |
| Extractors.SchemeIsNeverIpLiteral | app3.py:38 | a URL that starts with `http://` or `https://`, such as `http://1.2.3.4`, scores 1 |
| Extractors.GroupThenDot | app3.py:38 | a group of 1 to 3 digits and a dot in front of a match of n-1 groups gives a match of n groups |
| Extractors.LastGroup | app3.py:38 | 1 to 3 digits followed by anything match one group |
| Extractors.DottedQuadIsIpLiteral | app3.py:38 | four dot-separated groups of 1 to 3 digits at the start of the URL, followed by anything, score -1 |
| Extractors.UrlLengthBands | app3.py:39 | the length score is 1 up to 53 characters, 0 from 54 to 75 and -1 from 76 |
| Extractors.UrlLengthMonotone | app3.py:39 | a longer URL never scores better than a shorter one |
| Extractors.ShortenerInsideName | app3.py:40 | the shortener search is a plain substring search: `t.co` inside `https://microsoft.com` flags it |
| Extractors.ShortenerStaysFlagged | app3.py:40 | a URL flagged as using a shortener stays flagged when text is added before and after it |
| Extractors.AtSymbolFlags | app3.py:41 | the `@` score is -1 exactly when `"@"` is a substring of the URL |
| Extractors.DoubleSlashTwoApart | app3.py:42 | the redirect score is -1 exactly when the URL has two non-overlapping `//` |
| Extractors.PrefixSuffixFlags | app3.py:43 | the hyphen score is -1 exactly when `"-"` is a substring of the domain |
| Extractors.SubDomainDots | app3.py:44 | the sub-domain score is -1 exactly when the domain holds more than one dot |
| Extractors.ProbesAreConstant | app3.py:46-54 | the TLS state and the DNS record score are 1 whatever the probe answered |
| Extractors.RegistrationLengthCases | app3.py:56-65 | the registration score is 0 when no length is known, 1 from 365 days, and -1 below 365 |
| Dicts.Empty | app3.py:110 | the empty dictionary is well formed and lists no keys |
| Dicts.Assign | app3.py:111 | `d[k] = v` sets the value of `k`, keeps the key order for a present key, and appends a new key at the end |
| Dicts.AssignValid | app3.py:111 | assignment keeps the key list duplicate-free and in step with the entries |
| Frames.FromEntriesCells | app3.py:110 | the table built from a dictionary's entries is well formed, has exactly one column per entry name, and holds that entry's value |
| Frames.FromEntriesValid | app3.py:110 | the table built from any list of entries is well formed |
| Frames.FromDistinctEntries | app3.py:110 | when the entry names are pairwise distinct, the table's columns are those names in entry order, and each column holds its entry's value |
| Frames.PresentColumnsKeeps | app3.py:114 | the kept names form a subsequence of the requested names, are exactly those the table has, and are all of them when none is missing |
| Frames.PresentColumnsAppend | app3.py:114 | selecting over `a + b` is selecting over `a` then over `b`: the selection is a filter |
| Frames.PresentColumnsSingle | app3.py:114 | a single name is kept exactly when the table has that column |
| Frames.SelectColumns | app3.py:113-114 | the selected row's names are the requested names the table has, filtered in the requested order, and the row carries the table's values unchanged |
| Frames.SelectAllColumns | app3.py:113-114 | selecting a table's own columns gives the whole row, in column order |
| Frames.SelectAllCells | app3.py:113-114 | a table whose columns and values are those of a list of entries gives back exactly those entries when all its columns are selected |
| FeatureNames.NameInjective | app3.py:38-78 | no two features share a column name |
| FeatureNames.NameNotIndex | app3.py:111 | no feature's column name is `index` |
| FeatureNames.KeyOrderDistinct | app3.py:38-79 | the insertion order lists each of the 33 features once |
| FeatureNames.InKeyOrder | app3.py:38-79 | every feature key is in the insertion order |
| FeatureNames.ColumnsDistinct | app3.py:110-111 | the feature column names in insertion order, followed by `index`, are pairwise distinct |
| Features.MergePlaceholders | app3.py:72-79 | merging the placeholders into a dictionary with the 13 computed keys gives every key, sets each placeholder to 0 and keeps the computed entries |
| Features.ComputedScores | app3.py:38-70 | the thirteen assignments, read back, give every computed feature its extractor's score |
| Features.MergedScores | app3.py:72-79 | adding the placeholders to the computed scores gives every key its score, 0 for each placeholder |
| Features.ExtractFeatures | app3.py:29-81 | the built dictionary has all 33 keys, each computed key holds its extractor's score, and each placeholder holds 0 |
| Features.ScoreRange | app3.py:38-79 | every feature value is -1, 0 or 1 |
| Features.ExtractedRange | app3.py:29-81 | every value of the extracted dictionary is -1, 0 or 1 |
| Features.ExtractedProbesConstant | app3.py:46-67 | in the extracted dictionary `SSLfinal_State` and `DNSRecord` are always 1 |
| Features.FeatureFrame | app3.py:110-111 | the table is well formed, its columns are the 33 feature names in insertion order followed by `index`, each feature's column holds that feature's value, and `index` holds 0 |
| Features.FeatureFrameColumns | app3.py:110-111 | every column of the table is `index` or the name of a feature |
| Features.FeatureFrameRange | app3.py:110-111 | when every feature value is -1, 0 or 1, so is every cell of the table |
| Detector.Decide | app3.py:119 | the label is Legitimate exactly when the prediction is 1 and all three rule features are 1 |
| Detector.VetoWins | app3.py:119 | any rule feature at -1 gives Phishing, whatever the classifier said |
| Detector.ClassifierPhishingStands | app3.py:119 | a prediction other than 1 always gives Phishing |
| Detector.NoVetoFollowsClassifier | app3.py:119 | with all three rule features at 1, the label is Legitimate exactly when the prediction is 1 |
| Detector.Detect | app3.py:107-119 | an empty URL gives no verdict, and a URL `urlparse` rejects gives no verdict either; otherwise the features are the extracted ones, the row is the selection from their table, and the label is the decision on the classifier's answer for that row |
| Detector.DecideOnUrl | app3.py:68-70 | on extracted features, the label is Legitimate exactly when the prediction is 1, the brand check passes, the URL does not start with `http://`, and the first label of the netloc is not both longer than 6 characters and holding a digit |
| Detector.PlainHttpIsPhishing | app3.py:119 | a URL starting with `http://` is always labelled Phishing |
| Detector.RowCells | app3.py:110-114 | every cell the classifier sees is -1, 0 or 1 and is the table's value for that column |
| Detector.DefaultRow | app3.py:110-114 | with no column list, the row is every feature's column name and value in insertion order, then `index` at 0 |
| Detector.RowFollowsSchema | app3.py:111-114 | every feature column and the `index` column that the column list names reaches the classifier; with no column list the row is every feature's value in insertion order, then `index` at 0 |

## Left out

- The Streamlit page is not modelled: the sidebar, buttons, success, error and warning boxes, and the history dashboard (app3.py:97-142). The rule warnings at app3.py:127-132 only display the three rule features that `Detect` already returns.
- Loading and running the classifier is not modelled (app3.py:12, app3.py:116). `joblib.load` and the trained forest are opaque, so the classifier is a function parameter of `Detect`.
- `predict_proba` (app3.py:117) gives a floating-point confidence that only feeds the history file. It is not modelled.
- `save_to_history` (app3.py:83-95) is not modelled. It does file I/O, reads the wall clock and rounds floating-point numbers.
- The WHOIS lookup, the `list` or single-date handling and the date subtraction (app3.py:33, app3.py:57-60) are not modelled. They are network I/O and library date types. `Probe.registrationDays` is the resulting day count, or `None` when the lookup failed, a date was missing or the subtraction raised.
- The TLS connection attempt (app3.py:46-53) is network I/O. Its outcome is the `Probe.handshakeSucceeded` flag, and both outcomes give 1.
- `urlparse(url).netloc` (app3.py:32, app3.py:36) is library behaviour. The netloc is a parameter of every member that uses it, and `Detect` receives it as `None` when `urlparse` raises.
- Text.Lower: `str.lower()` and `str.isdigit()` are modelled for ASCII only. Non-ASCII letters and digits are treated as neither upper-case nor digits, because Unicode case tables are out of scope. The regular expression's `\d` is ASCII-only in the same way.
- FeatureNames.KeyOrder: the insertion order of the feature dictionary is stated as a constant. It is the order of the assignments in `ExtractFeatures` followed by the order of `dummy_features`, but it is not derived from the method.
- Detector.Detect: the labels are a two-valued datatype rather than the strings "Legitimate" and "Phishing".
