/** DetailComponents.kt: turning the receiver-proof reference of a delivery
    (a data URL, bare base64, an http or file URL, or a local path) into the
    string the image loader is given, or null when nothing is shown. The
    detail screen and the list thumbnail each carry a copy of the rule. */
module ProofReference {
  import opened Common
  import opened Text

  const DATA_PREFIX: string := "data:"
  const DATA_URL_PREFIX: string := "data:image/jpeg;base64,"
  const HTTP_PREFIX: string := "http"
  const FILE_PREFIX: string := "file:"
  const FILE_SCHEME: string := "file://"
  /** A compact text longer than this, in the base64 alphabet, is taken as a
      bare base64 image. */
  const MIN_BASE64_LENGTH: int := 40

  /** The outcome of a normaliser as written: a value, or the
      `StringIndexOutOfBoundsException` that `substring(1, 0)` raises. */
  datatype Normalized = Resolved(url: Option<string>) | Crashed

  /** A member of the regular-expression class `[A-Za-z0-9+/=]`. */
  predicate IsBase64Char(c: char) {
    ('A' <= c <= 'Z') || ('a' <= c <= 'z') || ('0' <= c <= '9') || c == '+' || c == '/' || c == '='
  }

  /** `Regex("^[A-Za-z0-9+/=]+$").matches(s)`. */
  predicate MatchesBase64(s: string) {
    |s| >= 1 && forall i :: 0 <= i < |s| ==> IsBase64Char(s[i])
  }

  /** The `isBase64` test on the whitespace-free text. */
  predicate LooksLikeBase64(compact: string) {
    |compact| > MIN_BASE64_LENGTH
    && (MatchesBase64(compact) || (HasPrefix(compact, "/") && MatchesBase64(compact[1..])))
  }

  /** Starts and ends with `"`, or starts and ends with `'`. */
  predicate QuoteWrapped(candidate: string) {
    (HasPrefix(candidate, "\"") && HasSuffix(candidate, "\""))
    || (HasPrefix(candidate, "'") && HasSuffix(candidate, "'"))
  }

  /** What both normalisers do once quotes are handled: bare base64 becomes
      a JPEG data URL, http and file URLs pass unchanged, a text with a slash
      becomes a file URL, anything else shows nothing. */
  function ClassifyCandidate(candidate: string): (r: Option<string>)
    ensures LooksLikeBase64(RemoveRegexSpaces(candidate)) ==>
              r == Some(DATA_URL_PREFIX + RemoveRegexSpaces(candidate))
    ensures r.Some? && !LooksLikeBase64(RemoveRegexSpaces(candidate)) ==>
              r.value == candidate || r.value == FILE_SCHEME + candidate
    ensures !LooksLikeBase64(RemoveRegexSpaces(candidate))
            && (HasPrefixIgnoreCase(candidate, HTTP_PREFIX) || HasPrefixIgnoreCase(candidate, FILE_PREFIX)) ==>
              r == Some(candidate)
    ensures !LooksLikeBase64(RemoveRegexSpaces(candidate))
            && !HasPrefixIgnoreCase(candidate, HTTP_PREFIX) && !HasPrefixIgnoreCase(candidate, FILE_PREFIX)
            && Contains(candidate, "/") ==>
              r == Some(FILE_SCHEME + candidate)
    ensures r.None? <==>
              !LooksLikeBase64(RemoveRegexSpaces(candidate)) && !HasPrefixIgnoreCase(candidate, HTTP_PREFIX)
              && !HasPrefixIgnoreCase(candidate, FILE_PREFIX) && !Contains(candidate, "/")
  {
    var compact := RemoveRegexSpaces(candidate);
    if LooksLikeBase64(compact) then Some(DATA_URL_PREFIX + compact)
    else if HasPrefixIgnoreCase(candidate, HTTP_PREFIX) then Some(candidate)
    else if HasPrefixIgnoreCase(candidate, FILE_PREFIX) then Some(candidate)
    else if Contains(candidate, "/") then Some(FILE_SCHEME + candidate)
    else None
  }

  /** The steps after the null check, as written: trim, keep a data URL,
      strip one pair of surrounding quotes with `substring(1, length - 1)`,
      classify. */
  function NormalizeTrimmedAsWritten(candidate: string): Normalized {
    if HasPrefixIgnoreCase(candidate, DATA_PREFIX) then Resolved(Some(candidate))
    else if QuoteWrapped(candidate) then
      if |candidate| - 1 < 1 then Crashed
      else Resolved(ClassifyCandidate(candidate[1..|candidate| - 1]))
    else Resolved(ClassifyCandidate(candidate))
  }

  /** The detail screen's `imageData` (DetailComponents.kt:175-231), as
      written: a null or blank reference shows nothing. */
  function DetailImageData(raw: Option<string>): (r: Normalized)
    ensures raw.None? || IsBlank(raw.value) ==> r == Resolved(None)
    ensures raw.Some? && HasPrefixIgnoreCase(Trim(raw.value), DATA_PREFIX) ==> r == Resolved(Some(Trim(raw.value)))
    ensures raw.Some? && !IsBlank(raw.value) && !HasPrefixIgnoreCase(Trim(raw.value), DATA_PREFIX) ==>
              var c := Trim(raw.value);
              (QuoteWrapped(c) && |c| >= 2 ==> r == Resolved(ClassifyCandidate(c[1..|c| - 1])))
              && (!QuoteWrapped(c) ==> r == Resolved(ClassifyCandidate(c)))
  {
    if raw.None? || IsBlank(raw.value) then Resolved(None)
    else NormalizeTrimmedAsWritten(Trim(raw.value))
  }

  /** The thumbnail's `thumbData` (DetailComponents.kt:337-357), as written:
      only a null path is turned away before trimming. */
  function ThumbnailData(path: Option<string>): (r: Normalized)
    ensures path.None? ==> r == Resolved(None)
    ensures path.Some? && HasPrefixIgnoreCase(Trim(path.value), DATA_PREFIX) ==> r == Resolved(Some(Trim(path.value)))
  {
    if path.None? then Resolved(None)
    else NormalizeTrimmedAsWritten(Trim(path.value))
  }

  /** The evidently intended steps after the null check: quotes are stripped
      only when there are two of them, so a lone quote character shows
      nothing. */
  function NormalizeTrimmed(candidate: string): Option<string> {
    if HasPrefixIgnoreCase(candidate, DATA_PREFIX) then Some(candidate)
    else if QuoteWrapped(candidate) && |candidate| >= 2 then
      ClassifyCandidate(candidate[1..|candidate| - 1])
    else ClassifyCandidate(candidate)
  }

  /** The evidently intended normaliser, used by both screens. */
  function NormalizeProofReference(raw: Option<string>): (r: Option<string>)
    ensures raw.None? || IsBlank(raw.value) ==> r.None?
    ensures raw.Some? && HasPrefixIgnoreCase(Trim(raw.value), DATA_PREFIX) ==> r == Some(Trim(raw.value))
    ensures raw.Some? && !IsBlank(raw.value) && !HasPrefixIgnoreCase(Trim(raw.value), DATA_PREFIX) ==>
              var c := Trim(raw.value);
              (QuoteWrapped(c) && |c| >= 2 ==> r == ClassifyCandidate(c[1..|c| - 1]))
              && (!QuoteWrapped(c) ==> r == ClassifyCandidate(c))
  {
    if raw.None? || IsBlank(raw.value) then None
    else NormalizeTrimmed(Trim(raw.value))
  }

  /** The empty text is no image reference. */
  lemma EmptyClassifiesAsNothing()
    ensures ClassifyCandidate([]).None?
    ensures NormalizeTrimmedAsWritten([]) == Resolved(None)
  {
    assert RemoveRegexSpaces([]) == [];
    assert !Contains([], "/");
  }

  /** The thumbnail and the detail screen agree on every reference: a blank
      path that the thumbnail lets through trims to the empty text and shows
      nothing. */
  lemma ThumbnailAgreesWithDetail(raw: Option<string>)
    ensures ThumbnailData(raw) == DetailImageData(raw)
  {
    if raw.Some? && IsBlank(raw.value) {
      TrimEmptyIffBlank(raw.value);
      EmptyClassifiesAsNothing();
    }
  }

  /** A lone quote character passes the "data:" test and the quote test and
      then makes `substring(1, 0)` throw. */
  lemma LoneQuoteCrashesTrimmed(candidate: string)
    requires candidate == "\"" || candidate == "'"
    ensures NormalizeTrimmedAsWritten(candidate).Crashed?
  {
    assert |candidate| < |DATA_PREFIX|;
    assert QuoteWrapped(candidate);
  }

  /** Only a lone quote character makes `substring(1, length - 1)` throw. */
  lemma CrashIsLoneQuote(candidate: string)
    requires NormalizeTrimmedAsWritten(candidate).Crashed?
    ensures candidate == "\"" || candidate == "'"
  {
    assert |candidate| == 1;
    assert candidate == candidate[..1];
  }

  /** After trimming, the normaliser as written fails exactly on a lone quote
      character. */
  lemma TrimmedCrashIffLoneQuote(candidate: string)
    ensures NormalizeTrimmedAsWritten(candidate).Crashed? <==> candidate == "\"" || candidate == "'"
  {
    if candidate == "\"" || candidate == "'" {
      LoneQuoteCrashesTrimmed(candidate);
    }
    if NormalizeTrimmedAsWritten(candidate).Crashed? {
      CrashIsLoneQuote(candidate);
    }
  }

  /** The detail screen crashes exactly when the trimmed reference is a lone
      `"` or `'`. */
  lemma DetailCrashIffLoneQuote(raw: Option<string>)
    ensures DetailImageData(raw).Crashed? <==>
              raw.Some? && (Trim(raw.value) == "\"" || Trim(raw.value) == "'")
  {
    if raw.Some? {
      TrimmedCrashIffLoneQuote(Trim(raw.value));
      if IsBlank(raw.value) {
        TrimEmptyIffBlank(raw.value);
      }
    }
  }

  /** A lone quote character crashes the detail screen as written, while the
      corrected normaliser shows nothing. */
  lemma LoneQuoteCrashes()
    ensures DetailImageData(Some("\"")) == Crashed
    ensures NormalizeProofReference(Some("\"")).None?
  {
    var q := "\"";
    assert !IsWhitespace(q[0]);
    assert Trim(q) == q;
    TrimmedCrashIffLoneQuote(q);
    assert !HasPrefixIgnoreCase(q, DATA_PREFIX);
    assert RemoveRegexSpaces(q) == q;
    AbsentCharBlocks(q, "/", '/');
  }

  /** On a trimmed text, the corrected steps agree with the steps as
      written wherever those do not crash, and show nothing where they do. */
  lemma CorrectedAgreesOnTrimmed(candidate: string)
    ensures !NormalizeTrimmedAsWritten(candidate).Crashed? ==>
              NormalizeTrimmedAsWritten(candidate) == Resolved(NormalizeTrimmed(candidate))
    ensures NormalizeTrimmedAsWritten(candidate).Crashed? ==> NormalizeTrimmed(candidate).None?
  {
    TrimmedCrashIffLoneQuote(candidate);
    if candidate == "\"" || candidate == "'" {
      assert RemoveRegexSpaces(candidate) == candidate;
      AbsentCharBlocks(candidate, "/", '/');
    }
  }

  /** Wherever the code as written does not crash, the corrected normaliser
      returns the same value; where it crashes, the corrected one shows
      nothing. */
  lemma CorrectedAgreesWithDetail(raw: Option<string>)
    ensures !DetailImageData(raw).Crashed? ==> DetailImageData(raw) == Resolved(NormalizeProofReference(raw))
    ensures DetailImageData(raw).Crashed? ==> NormalizeProofReference(raw).None?
  {
    if raw.Some? && !IsBlank(raw.value) {
      CorrectedAgreesOnTrimmed(Trim(raw.value));
    }
  }

  /** A data URL built from bare base64 starts with "data:". */
  lemma DataUrlIsData(compact: string)
    ensures HasPrefixIgnoreCase(DATA_URL_PREFIX + compact, DATA_PREFIX)
  {
    var u := DATA_URL_PREFIX + compact;
    assert u[..|DATA_PREFIX|] == DATA_PREFIX;
  }

  /** A file URL built from a path starts with "file:". */
  lemma FileUrlIsFile(candidate: string)
    ensures HasPrefixIgnoreCase(FILE_SCHEME + candidate, FILE_PREFIX)
  {
    var u := FILE_SCHEME + candidate;
    assert u[..|FILE_PREFIX|] == FILE_PREFIX;
  }

  /** Whatever the classifier returns is a data, http or file URL, in some
      letter case. */
  lemma ClassifiedIsUrl(candidate: string)
    requires ClassifyCandidate(candidate).Some?
    ensures var u := ClassifyCandidate(candidate).value;
      HasPrefixIgnoreCase(u, DATA_PREFIX) || HasPrefixIgnoreCase(u, HTTP_PREFIX) || HasPrefixIgnoreCase(u, FILE_PREFIX)
  {
    var compact := RemoveRegexSpaces(candidate);
    if LooksLikeBase64(compact) {
      DataUrlIsData(compact);
    } else if !HasPrefixIgnoreCase(candidate, HTTP_PREFIX) && !HasPrefixIgnoreCase(candidate, FILE_PREFIX) {
      FileUrlIsFile(candidate);
    }
  }

  /** Every reference the corrected normaliser accepts is handed to the
      image loader as a data, http or file URL. */
  lemma NormalizedIsUrl(raw: Option<string>)
    requires NormalizeProofReference(raw).Some?
    ensures var u := NormalizeProofReference(raw).value;
      HasPrefixIgnoreCase(u, DATA_PREFIX) || HasPrefixIgnoreCase(u, HTTP_PREFIX) || HasPrefixIgnoreCase(u, FILE_PREFIX)
  {
    var candidate := Trim(raw.value);
    if !HasPrefixIgnoreCase(candidate, DATA_PREFIX) {
      if QuoteWrapped(candidate) && |candidate| >= 2 {
        ClassifiedIsUrl(candidate[1..|candidate| - 1]);
      } else {
        ClassifiedIsUrl(candidate);
      }
    }
  }

  /** The second half of the base64 test, a leading slash before base64, adds
      nothing: `/` is itself in the base64 alphabet. */
  lemma {:induction false} LeadingSlashIsRedundant(compact: string)
    ensures LooksLikeBase64(compact) <==> |compact| > MIN_BASE64_LENGTH && MatchesBase64(compact)
  {
    if |compact| > MIN_BASE64_LENGTH && HasPrefix(compact, "/") && MatchesBase64(compact[1..]) {
      forall i | 0 <= i < |compact| ensures IsBase64Char(compact[i]) {
        if i == 0 {
          assert compact[0] == compact[..1][0] == '/';
        } else {
          assert compact[i] == compact[1..][i - 1];
        }
      }
    }
  }

  /** Bare base64 wins over every later test: a whitespace-free base64 text of
      more than 40 characters becomes a JPEG data URL of exactly that text. */
  lemma Base64BecomesDataUrl(raw: string)
    requires !IsBlank(raw) && !HasPrefixIgnoreCase(Trim(raw), DATA_PREFIX) && !QuoteWrapped(Trim(raw))
    requires |RemoveRegexSpaces(Trim(raw))| > MIN_BASE64_LENGTH && MatchesBase64(RemoveRegexSpaces(Trim(raw)))
    ensures NormalizeProofReference(Some(raw)) == Some(DATA_URL_PREFIX + RemoveRegexSpaces(Trim(raw)))
    ensures DetailImageData(Some(raw)) == Resolved(Some(DATA_URL_PREFIX + RemoveRegexSpaces(Trim(raw))))
  {
  }
}
