/** `ServerNameValidator.IsValidServerName`: a case-insensitive prefix followed by an Int32. */
module ServerNameValidator {
  import opened Wrappers
  import opened Text
  import opened ServerInfoModel
  import opened DataExtractor

  /** `HasValidStandNumber`: whatever follows the prefix parses as an Int32. */
  function HasValidStandNumber(expectedPrefix: string, serverName: string): (valid: bool)
    requires |expectedPrefix| <= |serverName|   // Substring(prefix.Length) is only reached after the prefix matched
    ensures valid ==> exists i :: |expectedPrefix| <= i < |serverName| && IsDigit(serverName[i])
    ensures AllDigits(serverName[|expectedPrefix|..]) ==>
      (valid <==> |expectedPrefix| < |serverName| && DigitsValue(serverName[|expectedPrefix|..]) <= MaxInt32)
  {
    var standNumberPart := serverName[|expectedPrefix|..];
    var valid := TryParseInt32(standNumberPart).Some?;
    if valid then
      DigitInRemainder(serverName, |expectedPrefix|);
      if AllDigits(standNumberPart) then TryParseDigits(standNumberPart); valid else valid
    else if AllDigits(standNumberPart) then TryParseDigits(standNumberPart); valid
    else valid
  }

  /** A digit of `s[k..]` is a digit of `s` at or after position k. */
  lemma DigitInRemainder(s: string, k: nat)
    requires k <= |s| && exists i :: 0 <= i < |s[k..]| && IsDigit(s[k..][i])
    ensures exists i :: k <= i < |s| && IsDigit(s[i])
  {
    var i :| 0 <= i < |s[k..]| && IsDigit(s[k..][i]);
    assert s[k + i] == s[k..][i];
  }

  /** `IsValidServerName`; the prefix and the test flag are the validator's constructor arguments. */
  function IsValidServerName(expectedPrefix: string, skipValidationForTesting: bool, serverName: string): (valid: bool)
    ensures skipValidationForTesting ==> valid
    ensures !skipValidationForTesting && serverName == [] ==> !valid
    ensures !skipValidationForTesting && !StartsWithIgnoreCase(serverName, expectedPrefix) ==> !valid
    ensures valid && !skipValidationForTesting ==>
      exists i :: |expectedPrefix| <= i < |serverName| && IsDigit(serverName[i])
  {
    if skipValidationForTesting then true
    else
      serverName != [] &&
      StartsWithIgnoreCase(serverName, expectedPrefix) &&
      HasValidStandNumber(expectedPrefix, serverName)
  }

  /** With the prefix in place, validity is exactly "the remainder parses as an Int32". */
  lemma ValidIffRemainderParses(expectedPrefix: string, serverName: string)
    requires serverName != [] && StartsWithIgnoreCase(serverName, expectedPrefix)
    ensures IsValidServerName(expectedPrefix, false, serverName) <==>
      TryParseInt32(serverName[|expectedPrefix|..]).Some?
  {
  }

  /** Only the letter case of the prefix part is ignored: case variants of a valid name are valid. */
  lemma PrefixCaseIgnored(expectedPrefix: string, prefixPart: string, remainder: string)
    requires EqualsIgnoreCase(prefixPart, expectedPrefix)
    ensures IsValidServerName(expectedPrefix, false, prefixPart + remainder) ==
            IsValidServerName(expectedPrefix, false, expectedPrefix + remainder)
  {
    assert (prefixPart + remainder)[..|expectedPrefix|] == prefixPart;
    assert (expectedPrefix + remainder)[..|expectedPrefix|] == expectedPrefix;
    assert (prefixPart + remainder)[|expectedPrefix|..] == remainder;
    assert (expectedPrefix + remainder)[|expectedPrefix|..] == remainder;
  }

  /** A prefix with nothing after it is rejected: the empty remainder does not parse. */
  lemma EmptyRemainderRejected(expectedPrefix: string)
    ensures !IsValidServerName(expectedPrefix, false, expectedPrefix)
  {
    if expectedPrefix != [] {
      assert expectedPrefix[|expectedPrefix|..] == [];
    }
  }

  /**
   * Any number of digits is accepted after the prefix (the interface comment speaks of two), and
   * when the prefix does not end in a digit the extractor reads back exactly that number.
   */
  lemma ValidNameExtractsItsNumber(expectedPrefix: string, digits: string)
    requires AllDigits(digits) && digits != [] && DigitsValue(digits) <= MaxInt32
    requires expectedPrefix == [] || !IsDigit(expectedPrefix[|expectedPrefix| - 1])
    ensures IsValidServerName(expectedPrefix, false, expectedPrefix + digits)
    ensures ExtractData(false, expectedPrefix + digits) ==
            Success(NewServerInfo(expectedPrefix + digits, DigitsValue(digits)))
  {
    var name := expectedPrefix + digits;
    assert name[..|expectedPrefix|] == expectedPrefix;
    assert name[|expectedPrefix|..] == digits;
    ExtractDataBySuffix(name, |expectedPrefix|);
  }

  /**
   * A signed remainder passes the validator ("stand-3"), but the extractor reads only the trailing
   * digits, so the stand number it reports is the magnitude (3).
   */
  lemma SignedRemainderAccepted(expectedPrefix: string, digits: string)
    requires AllDigits(digits) && digits != [] && DigitsValue(digits) <= MaxInt32
    ensures IsValidServerName(expectedPrefix, false, expectedPrefix + "-" + digits)
    ensures ExtractData(false, expectedPrefix + "-" + digits) ==
            Success(NewServerInfo(expectedPrefix + "-" + digits, DigitsValue(digits)))
  {
    var name := expectedPrefix + "-" + digits;
    assert name[..|expectedPrefix|] == expectedPrefix;
    var remainder := name[|expectedPrefix|..];
    assert remainder == "-" + digits;
    TryParseNegative(digits);
    EarlierDigitsIgnored(expectedPrefix, '-', digits);
  }

  /**
   * The remainder may carry white space around it and a sign: "stand 12", "stand+12" and "stand12 "
   * are all accepted, as long as the signed value fits an Int32.
   */
  lemma PaddedRemainderAccepted(expectedPrefix: string, lead: string, sign: string, digits: string, trail: string)
    requires AllWhite(lead) && AllWhite(trail)
    requires sign == "" || sign == "+" || sign == "-"
    requires digits != [] && AllDigits(digits)
    requires MinInt32 <= (if sign == "-" then 0 - DigitsValue(digits) else DigitsValue(digits)) <= MaxInt32
    ensures IsValidServerName(expectedPrefix, false, expectedPrefix + lead + sign + digits + trail)
  {
    var remainder := lead + sign + digits + trail;
    var name := expectedPrefix + remainder;
    assert expectedPrefix + lead + sign + digits + trail == name;
    assert StartsWithIgnoreCase(name, expectedPrefix) by {
      assert name[..|expectedPrefix|] == expectedPrefix;
    }
    assert TryParseInt32(name[|expectedPrefix|..]).Some? by {
      assert name[|expectedPrefix|..] == remainder;
      TryParsePadded(lead, sign, digits, trail);
    }
    assert name != [] by {
      assert |remainder| >= |digits| > 0;
    }
    ValidIffRemainderParses(expectedPrefix, name);
  }

  /**
   * The validator and the extractor disagree on trailing white space: "stand12 " passes the validator,
   * but the extractor finds no trailing digit and rejects it.
   */
  lemma TrailingWhiteSpaceValidatedNotExtracted(expectedPrefix: string, digits: string, trail: string)
    requires digits != [] && AllDigits(digits) && DigitsValue(digits) <= MaxInt32
    requires trail != [] && AllWhite(trail)
    ensures IsValidServerName(expectedPrefix, false, expectedPrefix + digits + trail)
    ensures ExtractData(false, expectedPrefix + digits + trail) == Failure(InvalidFormat)
  {
    TrailingWhiteSpaceValidated(expectedPrefix, digits, trail);
    TrailingWhiteSpaceNotExtracted(expectedPrefix + digits, trail);
  }

  /** The validator half: digits followed by white space form a padded remainder. */
  lemma TrailingWhiteSpaceValidated(expectedPrefix: string, digits: string, trail: string)
    requires digits != [] && AllDigits(digits) && DigitsValue(digits) <= MaxInt32
    requires AllWhite(trail)
    ensures IsValidServerName(expectedPrefix, false, expectedPrefix + digits + trail)
  {
    var name := expectedPrefix + digits + trail;
    assert name == expectedPrefix + [] + "" + digits + trail;
    PaddedRemainderAccepted(expectedPrefix, [], "", digits, trail);
  }

  /** The extractor half: a name ending in white space has no digit suffix. */
  lemma TrailingWhiteSpaceNotExtracted(head: string, trail: string)
    requires trail != [] && AllWhite(trail)
    ensures ExtractData(false, head + trail) == Failure(InvalidFormat)
  {
    EndsInWhiteSpace(head, trail);
    NoSuffixRejected(head + trail);
  }

  /** Text followed by white space does not end in a digit. */
  lemma EndsInWhiteSpace(head: string, trail: string)
    requires trail != [] && AllWhite(trail)
    ensures head + trail != [] && !IsDigit((head + trail)[|head + trail| - 1])
  {
    assert (head + trail)[|head + trail| - 1] == trail[|trail| - 1];
  }
}
