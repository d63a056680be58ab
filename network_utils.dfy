/** NetworkUtils.kt: the French message shown for a synchronisation error,
    chosen by looking for known phrases in the lower-cased error text. */
module NetworkUtils {
  import opened Common
  import opened Text
  import opened Transport

  const SYNC_FAILED: string := "Échec de la synchronisation"
  const NO_CONNECTION: string := "Pas de connexion"
  const NETWORK_TIMEOUT: string := "Délai d'attente réseau"
  const SECURITY_ERROR: string := "Erreur de sécurité réseau"
  const SERVER_ERROR: string := "Erreur du serveur"
  const FALLBACK_PREFIX: string := "Échec: "
  const SERVER_PREFIX: string := "server returned code"

  /** The connectivity phrases, tried first. */
  predicate IsConnectivityError(lower: string) {
    || Contains(lower, "unable to resolve host")
    || Contains(lower, "failed to connect")
    || Contains(lower, "no address")
    || Contains(lower, "unknownhost")
    || Contains(lower, "network is unreachable")
    || Contains(lower, "enetworkunreach")
    || Contains(lower, "network unreachable")
  }

  /** The timeout phrases, tried second. */
  predicate IsTimeoutError(lower: string) {
    || Contains(lower, "timeout")
    || Contains(lower, "timed out")
    || Contains(lower, "connect timeout")
    || Contains(lower, "socket timeout")
  }

  /** The TLS phrases, tried third. */
  predicate IsSecurityError(lower: string) {
    || Contains(lower, "ssl")
    || Contains(lower, "certificate")
    || Contains(lower, "handshake")
  }

  /** The server-error message: the last space-separated token of the text,
      upper-cased, shown as the code unless it is blank. */
  function ServerCodeToken(lower: string): string {
    ToUpper(LastToken(lower))
  }

  function ServerErrorText(lower: string): (r: string)
    ensures IsBlank(ServerCodeToken(lower)) ==> r == SERVER_ERROR
    ensures !IsBlank(ServerCodeToken(lower)) ==> r == SERVER_ERROR + " (code " + ServerCodeToken(lower) + ")"
  {
    var code := ServerCodeToken(lower);
    SERVER_ERROR + (if !IsBlank(code) then " (code " + code + ")" else "")
  }

  /** The message chosen from the lower-cased text by the phrase tests, in
      order; None when none applies and the fallback quotes the text. */
  function ClassifyLowered(lower: string): (r: Option<string>)
    ensures IsConnectivityError(lower) ==> r == Some(NO_CONNECTION)
    ensures !IsConnectivityError(lower) && IsTimeoutError(lower) ==> r == Some(NETWORK_TIMEOUT)
    ensures !IsConnectivityError(lower) && !IsTimeoutError(lower) && IsSecurityError(lower) ==> r == Some(SECURITY_ERROR)
    ensures !IsConnectivityError(lower) && !IsTimeoutError(lower) && !IsSecurityError(lower) && HasPrefix(lower, SERVER_PREFIX) ==>
              r == Some(ServerErrorText(lower))
    ensures r.None? <==>
      !IsConnectivityError(lower) && !IsTimeoutError(lower) && !IsSecurityError(lower) && !HasPrefix(lower, SERVER_PREFIX)
  {
    if IsConnectivityError(lower) then Some(NO_CONNECTION)
    else if IsTimeoutError(lower) then Some(NETWORK_TIMEOUT)
    else if IsSecurityError(lower) then Some(SECURITY_ERROR)
    else if HasPrefix(lower, SERVER_PREFIX) then Some(ServerErrorText(lower))
    else None
  }

  /** `mapNetworkErrorToFrench`. */
  function MapNetworkErrorToFrench(error: Option<string>): (r: string)
    ensures error.None? || IsBlank(error.value) ==> r == SYNC_FAILED
    ensures error.Some? && !IsBlank(error.value) && ClassifyLowered(ToLower(error.value)).None? ==>
              r == FALLBACK_PREFIX + Trim(error.value)
  {
    if error.None? || IsBlank(error.value) then SYNC_FAILED
    else
      match ClassifyLowered(ToLower(error.value))
      case Some(message) => message
      case None => FALLBACK_PREFIX + Trim(error.value)
  }

  /** A blank text contains none of the connectivity phrases. */
  lemma BlankIsNotConnectivity(s: string)
    requires IsBlank(s)
    ensures !IsConnectivityError(s)
  {
    BlankContainsNoWord(s, "unable to resolve host");
    BlankContainsNoWord(s, "failed to connect");
    BlankContainsNoWord(s, "no address");
    BlankContainsNoWord(s, "unknownhost");
    BlankContainsNoWord(s, "network is unreachable");
    BlankContainsNoWord(s, "enetworkunreach");
    BlankContainsNoWord(s, "network unreachable");
  }

  /** Any connectivity phrase, in any letter case, yields "Pas de connexion",
      whatever else the text contains. */
  lemma ConnectivityComesFirst(e: string)
    requires IsConnectivityError(ToLower(e))
    ensures MapNetworkErrorToFrench(Some(e)) == NO_CONNECTION
  {
    if IsBlank(e) {
      LowerKeepsBlank(e);
      BlankIsNotConnectivity(ToLower(e));
    }
  }

  /** A timeout phrase with no connectivity phrase yields the timeout
      message. */
  lemma TimeoutComesSecond(e: string)
    requires !IsConnectivityError(ToLower(e)) && IsTimeoutError(ToLower(e))
    ensures MapNetworkErrorToFrench(Some(e)) == NETWORK_TIMEOUT
  {
    if IsBlank(e) {
      LowerKeepsBlank(e);
      BlankContainsNoWord(ToLower(e), "timeout");
      BlankContainsNoWord(ToLower(e), "timed out");
      BlankContainsNoWord(ToLower(e), "connect timeout");
      BlankContainsNoWord(ToLower(e), "socket timeout");
    }
  }

  /** A TLS phrase with no connectivity or timeout phrase yields the
      security message. */
  lemma SecurityComesThird(e: string)
    requires !IsConnectivityError(ToLower(e)) && !IsTimeoutError(ToLower(e)) && IsSecurityError(ToLower(e))
    ensures MapNetworkErrorToFrench(Some(e)) == SECURITY_ERROR
  {
    if IsBlank(e) {
      LowerKeepsBlank(e);
      BlankContainsNoWord(ToLower(e), "ssl");
      BlankContainsNoWord(ToLower(e), "certificate");
      BlankContainsNoWord(ToLower(e), "handshake");
    }
  }

  /** Two texts that differ only in letter case get the same message, except
      in the fallback, which quotes each text as written. */
  lemma ClassificationIgnoresCase(a: string, b: string)
    requires ToLower(a) == ToLower(b)
    ensures MapNetworkErrorToFrench(Some(a)) == MapNetworkErrorToFrench(Some(b))
         || (MapNetworkErrorToFrench(Some(a)) == FALLBACK_PREFIX + Trim(a)
             && MapNetworkErrorToFrench(Some(b)) == FALLBACK_PREFIX + Trim(b))
  {
    LowerKeepsBlank(a);
    LowerKeepsBlank(b);
    assert ClassifyLowered(ToLower(a)) == ClassifyLowered(ToLower(b));
  }

  /** The text after "Échec: " is the error trimmed, in its own letter case. */
  lemma FallbackQuotesTrimmedError(e: string)
    requires !IsBlank(e)
    requires !IsConnectivityError(ToLower(e)) && !IsTimeoutError(ToLower(e)) && !IsSecurityError(ToLower(e))
    requires !HasPrefix(ToLower(e), SERVER_PREFIX)
    ensures MapNetworkErrorToFrench(Some(e)) == FALLBACK_PREFIX + Trim(e)
    ensures Trim(e) != []
  {
    TrimEmptyIffBlank(e);
  }

  lemma NoConnectivityWithoutLetters(text: string)
    requires LacksPhraseLetters(text)
    ensures !IsConnectivityError(text)
  {
    AbsentCharBlocks(text, "unable to resolve host", 'a');
    AbsentCharBlocks(text, "failed to connect", 'f');
    AbsentCharBlocks(text, "no address", 'a');
    AbsentCharBlocks(text, "unknownhost", 'k');
    AbsentCharBlocks(text, "network is unreachable", 'w');
    AbsentCharBlocks(text, "enetworkunreach", 'w');
    AbsentCharBlocks(text, "network unreachable", 'w');
  }

  lemma NoTimeoutOrSecurityWithoutLetters(text: string)
    requires LacksPhraseLetters(text)
    ensures !IsTimeoutError(text) && !IsSecurityError(text)
  {
    AbsentCharBlocks(text, "timeout", 'i');
    AbsentCharBlocks(text, "timed out", 'i');
    AbsentCharBlocks(text, "connect timeout", 'i');
    AbsentCharBlocks(text, "socket timeout", 'k');
    AbsentCharBlocks(text, "ssl", 'l');
    AbsentCharBlocks(text, "certificate", 'i');
    AbsentCharBlocks(text, "handshake", 'h');
  }

  /** A text lacking the letters a, f, h, i, k, l and w contains none of the
      phrases. */
  lemma NoPhraseWithoutLetters(text: string)
    requires LacksPhraseLetters(text)
    ensures !IsConnectivityError(text) && !IsTimeoutError(text) && !IsSecurityError(text)
  {
    NoConnectivityWithoutLetters(text);
    NoTimeoutOrSecurityWithoutLetters(text);
  }

  /** A numeral: what a Kotlin string template makes of an integer. */
  predicate IsNumeral(d: string) {
    forall i :: 0 <= i < |d| ==> d[i] == '-' || '0' <= d[i] <= '9'
  }

  /** The letters that every phrase has; a numeral has none of them.
      Stating the absence of a phrase through a missing letter keeps the
      verifier from unfolding `Contains` over a concrete text character by
      character, which is what makes the server-text lemmas provable for
      every numeral at once. */
  predicate LacksPhraseLetters(t: string) {
    'a' !in t && 'f' !in t && 'h' !in t && 'i' !in t && 'k' !in t && 'l' !in t && 'w' !in t
  }

  lemma NumeralLacksPhraseLetters(d: string)
    requires IsNumeral(d)
    ensures LacksPhraseLetters(d)
  {
  }

  /** "server returned code " followed by a numeral lacks them too. */
  lemma ServerTextLacksPhraseLetters(d: string)
    requires IsNumeral(d)
    ensures LacksPhraseLetters("server returned code " + d)
  {
    var head := "server returned code ";
    assert LacksPhraseLetters(head);
    NumeralLacksPhraseLetters(d);
  }

  /** It starts with "server returned code" and its last token is the numeral. */
  lemma ServerTextEndsInNumeral(d: string)
    requires IsNumeral(d)
    ensures HasPrefix("server returned code " + d, SERVER_PREFIX)
    ensures LastToken("server returned code " + d) == d
  {
    var lower := "server returned code " + d;
    assert lower[..|SERVER_PREFIX|] == SERVER_PREFIX;
    LastTokenAfterSpace("server returned code ", d);
  }

  /** "Server returned code " followed by a numeral, lower-cased. */
  lemma LowerServerText(d: string)
    requires IsNumeral(d)
    ensures ToLower("Server returned code " + d) == "server returned code " + d
  {
    ToLowerAppend("Server returned code ", d);
    DigitsKeepCase(d);
    assert ToLower("Server returned code ") == "server returned code ";
  }

  /** A text that starts with "server returned code" in any letter case and
      has no phrase is shown as a server error: its last space-separated
      token, upper-cased, is the code, and a blank token drops the suffix. */
  lemma ServerPrefixShowsToken(e: string)
    requires !IsBlank(e)
    requires !IsConnectivityError(ToLower(e)) && !IsTimeoutError(ToLower(e)) && !IsSecurityError(ToLower(e))
    requires HasPrefix(ToLower(e), SERVER_PREFIX)
    ensures var token := ToUpper(LastToken(ToLower(e)));
      && (IsBlank(token) ==> MapNetworkErrorToFrench(Some(e)) == SERVER_ERROR)
      && (!IsBlank(token) ==> MapNetworkErrorToFrench(Some(e)) == SERVER_ERROR + " (code " + token + ")")
  {
    var lower := ToLower(e);
    assert ClassifyLowered(lower) == Some(ServerErrorText(lower));
    assert MapNetworkErrorToFrench(Some(e)) == ServerErrorText(lower);
  }

  /** "Server returned code " followed by a non-empty numeral is not blank. */
  lemma ServerTextNotBlank(d: string)
    requires IsNumeral(d) && |d| >= 1
    ensures !IsBlank("Server returned code " + d)
  {
    var e := "Server returned code " + d;
    assert !IsWhitespace(e[0]);
  }

  /** A non-empty numeral is not blank and upper-casing keeps it. */
  lemma NumeralKeepsCase(d: string)
    requires IsNumeral(d) && |d| >= 1
    ensures ToUpper(d) == d && !IsBlank(d)
  {
    DigitsKeepCase(d);
    assert !IsWhitespace(d[0]);
  }

  /** Everything the classification looks at in "Server returned code "
      followed by a numeral. */
  lemma ServerTextShape(d: string)
    requires IsNumeral(d) && |d| >= 1
    ensures !IsBlank("Server returned code " + d)
    ensures ToLower("Server returned code " + d) == "server returned code " + d
    ensures LacksPhraseLetters("server returned code " + d)
    ensures HasPrefix("server returned code " + d, SERVER_PREFIX)
    ensures LastToken("server returned code " + d) == d
    ensures ToUpper(d) == d && !IsBlank(d)
  {
    ServerTextNotBlank(d);
    NumeralKeepsCase(d);
    LowerServerText(d);
    ServerTextLacksPhraseLetters(d);
    ServerTextEndsInNumeral(d);
  }

  /** "Server returned code " followed by a numeral is shown as a server
      error carrying the numeral. */
  lemma ServerTextIsShownAsServerError(d: string)
    requires IsNumeral(d) && |d| >= 1
    ensures MapNetworkErrorToFrench(Some("Server returned code " + d)) == SERVER_ERROR + " (code " + d + ")"
  {
    ServerTextShape(d);
    NoPhraseWithoutLetters("server returned code " + d);
    ServerPrefixShowsToken("Server returned code " + d);
  }

  /** The message the repository builds for any non-2xx code is shown as a
      server error carrying that code. */
  lemma ServerCodeIsShownAsServerError(code: int)
    ensures MapNetworkErrorToFrench(Some(ServerReturnedCode(code)))
         == SERVER_ERROR + " (code " + IntToString(code) + ")"
  {
    ServerTextIsShownAsServerError(IntToString(code));
  }

  /** The letter pattern of "network request failed": no b, c, h or m, no d
      before its last five characters, and a single s, not followed by another.
      The phrase tests are proved false on this pattern rather than on the
      literal text, because unfolding `Contains` on two literal texts costs
      the verifier far more than a handful of letter facts. */
  predicate TransportTextShape(lower: string) {
    && |lower| == 22
    && 'b' !in lower && 'c' !in lower && 'h' !in lower && 'm' !in lower
    && 'd' !in lower[..17]
    && lower[13] == 's' && 's' !in lower[..13] && 's' !in lower[14..]
    && lower[14] != 's'
    && lower[0] != 's'
  }

  lemma TransportShapeNotConnectivity(lower: string)
    requires TransportTextShape(lower)
    ensures !IsConnectivityError(lower)
  {
    AbsentCharBlocks(lower, "unable to resolve host", 'b');
    AbsentCharBlocks(lower, "failed to connect", 'c');
    AbsentCharBeforeBlocks(lower, "no address", 4);
    AbsentCharBlocks(lower, "unknownhost", 'h');
    AbsentCharBlocks(lower, "network is unreachable", 'c');
    AbsentCharBlocks(lower, "enetworkunreach", 'c');
    AbsentCharBlocks(lower, "network unreachable", 'c');
  }

  lemma TransportShapeNotTimeout(lower: string)
    requires TransportTextShape(lower)
    ensures !IsTimeoutError(lower)
  {
    AbsentCharBlocks(lower, "timeout", 'm');
    AbsentCharBlocks(lower, "timed out", 'm');
    AbsentCharBlocks(lower, "connect timeout", 'c');
    AbsentCharBlocks(lower, "socket timeout", 'c');
  }

  lemma TransportShapeNotSecurity(lower: string)
    requires TransportTextShape(lower)
    ensures !IsSecurityError(lower)
  {
    SoleCharBlocks(lower, "ssl", 13);
    AbsentCharBlocks(lower, "certificate", 'c');
    AbsentCharBlocks(lower, "handshake", 'h');
  }

  /** A text of that pattern matches no phrase and no server prefix. */
  lemma TransportShapeHasNoPhrase(lower: string)
    requires TransportTextShape(lower)
    ensures !IsConnectivityError(lower) && !IsTimeoutError(lower) && !IsSecurityError(lower)
    ensures !HasPrefix(lower, SERVER_PREFIX)
  {
    TransportShapeNotConnectivity(lower);
    TransportShapeNotTimeout(lower);
    TransportShapeNotSecurity(lower);
  }

  lemma TransportTextLowered()
    ensures ToLower(NETWORK_REQUEST_FAILED) == "network request failed"
  {
  }

  lemma TransportTextLacksLetters()
    ensures var t := "network request failed"; 'b' !in t && 'c' !in t && 'h' !in t && 'm' !in t
  {
  }

  lemma TransportTextSingleS()
    ensures var t := "network request failed";
      && 'd' !in t[..17] && t[13] == 's' && 's' !in t[..13] && 's' !in t[14..] && t[14] != 's' && t[0] != 's'
  {
  }

  lemma TransportTextHasShape()
    ensures TransportTextShape("network request failed")
  {
    TransportTextLacksLetters();
    TransportTextSingleS();
  }

  lemma TransportTextTrimmed()
    ensures !IsBlank(NETWORK_REQUEST_FAILED)
    ensures Trim(NETWORK_REQUEST_FAILED) == NETWORK_REQUEST_FAILED
  {
    var e := NETWORK_REQUEST_FAILED;
    assert !IsWhitespace(e[0]) && !IsWhitespace(e[|e| - 1]);
  }

  /** The only throwable the transport reports reaches the fallback:
      "Network request failed" is shown as "Échec: Network request failed". */
  lemma TransportFailureReachesFallback()
    ensures MapNetworkErrorToFrench(Some(NETWORK_REQUEST_FAILED)) == FALLBACK_PREFIX + NETWORK_REQUEST_FAILED
  {
    TransportTextLowered();
    TransportTextHasShape();
    TransportTextTrimmed();
    TransportShapeHasNoPhrase(ToLower(NETWORK_REQUEST_FAILED));
    FallbackQuotesTrimmedError(NETWORK_REQUEST_FAILED);
  }
}
