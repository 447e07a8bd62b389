/**
 * `DataExtractor.ExtractData`: turns a peer name such as "Stand012" into a `ServerInfo` whose stand
 * number is the value of the name's maximal trailing run of digits.
 */
module DataExtractor {
  import opened Wrappers
  import opened Text
  import opened ServerInfoModel

  /** The exceptions `ExtractData` and its helpers can throw. */
  datatype ExtractError =
    | EmptyInput        // ArgumentException: null or empty input
    | InvalidFormat     // ArgumentException: the suffix does not parse as an Int32
    | NoNumericSuffix   // ArgumentException from CreateItemFromInput: empty suffix
    | Overflow          // OverflowException from int.Parse

  /** The stand number the test-mode shortcut reports for every name. */
  const TestStandNumber: Int32 := 12

  /** `k` is where the maximal trailing run of digits of `input` starts. */
  predicate IsMaximalDigitSuffix(input: string, k: int)
  {
    0 <= k <= |input| && AllDigits(input[k..]) && (k == 0 || !IsDigit(input[k - 1]))
  }

  /** There is only one place where the maximal trailing digit run can start. */
  lemma MaximalDigitSuffixUnique(input: string, k1: int, k2: int)
    requires IsMaximalDigitSuffix(input, k1) && IsMaximalDigitSuffix(input, k2)
    ensures k1 == k2
  {
  }

  /** `ExtractNumberFromEnd`: reverse, take digits while they last, reverse back. */
  function ExtractNumberFromEnd(input: string): (suffix: string)
    ensures |suffix| <= |input|
    ensures IsMaximalDigitSuffix(input, |input| - |suffix|)
    ensures suffix == input[|input| - |suffix|..]
    decreases |input|
  {
    if input == [] || !IsDigit(input[|input| - 1]) then []
    else
      var init := input[..|input| - 1];
      var rest := ExtractNumberFromEnd(init);
      assert init[|init| - |rest|..] + [input[|input| - 1]] == input[|input| - |rest| - 1..];
      rest + [input[|input| - 1]]
  }

  /** The extracted suffix is the digit run that starts at the one maximal position. */
  lemma ExtractNumberFromEndAt(input: string, k: int)
    requires IsMaximalDigitSuffix(input, k)
    ensures ExtractNumberFromEnd(input) == input[k..]
  {
    MaximalDigitSuffixUnique(input, k, |input| - |ExtractNumberFromEnd(input)|);
  }

  /**
   * `HasValidSuffix`: the trailing digit run parses as an Int32, that is, the name ends in a digit and
   * its trailing run of digits is at most Int32.MaxValue.
   */
  function HasValidSuffix(input: string): (valid: bool)
    ensures valid <==>
      input != [] && IsDigit(input[|input| - 1]) && DigitsValue(ExtractNumberFromEnd(input)) <= MaxInt32
  {
    var suffix := ExtractNumberFromEnd(input);
    TryParseDigits(suffix);
    TryParseInt32(suffix).Some?
  }

  /** `CreateItemFromInput`: rejects an empty suffix, otherwise `int.Parse`s it. */
  function CreateItemFromInput(input: string): (r: Result<ServerInfo, ExtractError>)
    ensures r.Success? ==> r.value.serverName == ToLowerInvariant(input)
    ensures r.Success? ==> r.value.standNumber == DigitsValue(ExtractNumberFromEnd(input))
    ensures r.Failure? <==> !HasValidSuffix(input)
    ensures r == Failure(NoNumericSuffix) <==> ExtractNumberFromEnd(input) == []
    ensures r == Failure(Overflow) <==>
      ExtractNumberFromEnd(input) != [] && DigitsValue(ExtractNumberFromEnd(input)) > MaxInt32
  {
    var numericSuffix := ExtractNumberFromEnd(input);
    TryParseDigits(numericSuffix);
    if numericSuffix == [] then Failure(NoNumericSuffix)
    else match TryParseInt32(numericSuffix)
      case Some(number) => Success(NewServerInfo(input, number))
      case None => Failure(Overflow)
  }

  /** `ExtractData`; `skipValidationForTesting` is the extractor's constructor flag. */
  function ExtractData(skipValidationForTesting: bool, input: string): (r: Result<ServerInfo, ExtractError>)
    ensures r == Failure(EmptyInput) <==> input == []
    ensures r.Failure? ==> r.error == EmptyInput || r.error == InvalidFormat
    ensures r.Success? ==> r.value.serverName == ToLowerInvariant(input)
    ensures skipValidationForTesting && input != [] ==> r.Success? && r.value.standNumber == TestStandNumber
  {
    if input == [] then Failure(EmptyInput)
    else if skipValidationForTesting then Success(NewServerInfo(input, TestStandNumber))
    else if !HasValidSuffix(input) then Failure(InvalidFormat)
    else CreateItemFromInput(input)
  }

  /**
   * Outside test mode the result is decided by the maximal trailing digit run input[k..]: it must be
   * non-empty and at most Int32.MaxValue, and its value becomes the stand number.
   */
  lemma ExtractDataBySuffix(input: string, k: int)
    requires input != [] && IsMaximalDigitSuffix(input, k)
    ensures ExtractData(false, input) ==
      if k < |input| && DigitsValue(input[k..]) <= MaxInt32
      then Success(NewServerInfo(input, DigitsValue(input[k..])))
      else Failure(InvalidFormat)
  {
    ExtractNumberFromEndAt(input, k);
    TryParseDigits(input[k..]);
  }

  /** Leading zeros are allowed in the suffix and do not change the stand number ("stand012" gives 12). */
  lemma LeadingZerosIgnored(prefix: string, digits: string)
    requires prefix == [] || !IsDigit(prefix[|prefix| - 1])
    requires AllDigits(digits) && digits != [] && DigitsValue(digits) <= MaxInt32
    ensures ExtractData(false, prefix + "0" + digits) ==
            Success(NewServerInfo(prefix + "0" + digits, DigitsValue(digits)))
  {
    var name := prefix + "0" + digits;
    assert name[|prefix|..] == "0" + digits;
    LeadingZeroIgnored(digits);
    ExtractDataBySuffix(name, |prefix|);
  }

  /** Digits before the last non-digit play no part ("a1b2" gives 2). */
  lemma EarlierDigitsIgnored(head: string, separator: char, digits: string)
    requires !IsDigit(separator)
    requires AllDigits(digits) && digits != [] && DigitsValue(digits) <= MaxInt32
    ensures ExtractData(false, head + [separator] + digits) ==
            Success(NewServerInfo(head + [separator] + digits, DigitsValue(digits)))
  {
    var name := head + [separator] + digits;
    assert name[|head| + 1..] == digits;
    assert name[|head|] == separator;
    ExtractDataBySuffix(name, |head| + 1);
  }

  /** A name that does not end in a digit is rejected, except by the test-mode shortcut. */
  lemma NoSuffixRejected(input: string)
    requires input != [] && !IsDigit(input[|input| - 1])
    ensures ExtractData(false, input) == Failure(InvalidFormat)
    ensures ExtractData(true, input) == Success(NewServerInfo(input, TestStandNumber))
  {
    ExtractDataBySuffix(input, |input|);
  }

  /** A trailing run whose value exceeds Int32.MaxValue is rejected. */
  lemma OversizedSuffixRejected(input: string, k: int)
    requires input != [] && IsMaximalDigitSuffix(input, k) && DigitsValue(input[k..]) > MaxInt32
    ensures ExtractData(false, input) == Failure(InvalidFormat)
  {
    ExtractDataBySuffix(input, k);
  }
}
