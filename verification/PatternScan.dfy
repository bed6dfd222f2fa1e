/** Array-of-bytes scanning: patterns with wildcards at either half of a byte. */
module PatternScan {
  import opened Numbers
  import opened Memory
  import opened RegionScan

  type Nibble = x: nat | x < 16

  /** A pattern byte compares the halves that are not wildcards. */
  datatype PatternByte = PatternByte(high: Option<Nibble>, low: Option<Nibble>)

  datatype ScannerConfig = ScannerConfig(filter: RegionFilter, chunkSizeBytes: nat, maxResults: nat)

  datatype PatternScanOptions = PatternScanOptions(alignment: nat, maxResults: nat)

  predicate ByteMatches(p: PatternByte, b: Byte) {
    (p.high.Some? ==> b / 16 == p.high.value) && (p.low.Some? ==> b % 16 == p.low.value)
  }

  predicate MatchesAt(pattern: seq<PatternByte>, bytes: seq<Byte>) {
    |pattern| <= |bytes| && forall i :: 0 <= i < |pattern| ==> ByteMatches(pattern[i], bytes[i])
  }

  function ParseNibble(c: char): (r: Result<Option<Nibble>, AnalysisError>) {
    if c == '?' then Ok(None)
    else if '0' <= c <= '9' then Ok(Some(c as int - '0' as int))
    else if 'a' <= c <= 'f' then Ok(Some(c as int - 'a' as int + 10))
    else if 'A' <= c <= 'F' then Ok(Some(c as int - 'A' as int + 10))
    else Err(InvalidPatternToken)
  }

  function ParseToken(token: string): Result<PatternByte, AnalysisError> {
    if |token| != 2 then Err(InvalidPatternToken)
    else
      match (ParseNibble(token[0]), ParseNibble(token[1]))
      case (Ok(high), Ok(low)) => Ok(PatternByte(high, low))
      case _ => Err(InvalidPatternToken)
  }

  /** The tokens of a pattern, already split at white space. */
  method Parse(tokens: seq<string>) returns (r: Result<seq<PatternByte>, AnalysisError>)
    ensures r.Ok? <==> tokens != [] && forall i :: 0 <= i < |tokens| ==> ParseToken(tokens[i]).Ok?
    ensures r.Ok? ==> |r.value| == |tokens| && forall i :: 0 <= i < |tokens| ==> Ok(r.value[i]) == ParseToken(tokens[i])
    ensures r.Err? ==> r.error == if tokens == [] then EmptyPattern else InvalidPatternToken
  {
    var bytes: seq<PatternByte> := [];
    for i := 0 to |tokens|
      invariant |bytes| == i && forall j :: 0 <= j < i ==> Ok(bytes[j]) == ParseToken(tokens[j])
    {
      var token := ParseToken(tokens[i]);
      if token.Err? {
        return Err(InvalidPatternToken);
      }
      bytes := bytes + [token.value];
    }
    if bytes == [] {
      return Err(EmptyPattern);
    }
    return Ok(bytes);
  }

  function ShowNibble(n: Option<Nibble>): char {
    match n
    case None => '?'
    case Some(v) => if v < 10 then '0' + v as char else 'A' + (v - 10) as char
  }

  /** Every pattern byte can be written as a token that parses back to it. */
  lemma ShownTokensParse(p: PatternByte)
    ensures ParseToken([ShowNibble(p.high), ShowNibble(p.low)]) == Ok(p)
  {
  }

  /** The sixteen digits in ascending order, in both cases. */
  const LOWER_DIGITS := "0123456789abcdef"
  const UPPER_DIGITS := "0123456789ABCDEF"

  /** A character is the digit of a value. */
  predicate IsDigitOf(c: char, v: nat) {
    v < 16 && (c == LOWER_DIGITS[v] || c == UPPER_DIGITS[v])
  }

  /** Exactly the question mark and the digits are accepted, and every digit stands for its own value. */
  lemma NibblesAreDigits(c: char, v: nat)
    ensures ParseNibble(c) == Ok(None) <==> c == '?'
    ensures v < 16 ==> (ParseNibble(c) == Ok(Some(v)) <==> IsDigitOf(c, v))
    ensures ParseNibble(c).Err? <==> c != '?' && forall d :: 0 <= d < 16 ==> !IsDigitOf(c, d)
  {
    if '0' <= c <= '9' {
      assert IsDigitOf(c, c as int - '0' as int);
    } else if 'a' <= c <= 'f' {
      assert IsDigitOf(c, c as int - 'a' as int + 10);
    } else if 'A' <= c <= 'F' {
      assert IsDigitOf(c, c as int - 'A' as int + 10);
    }
  }

  /** What a token matches: the first character is about the high half of the byte, the second about the low half,
      and a question mark leaves its half open. */
  lemma TokensMatchHalves(token: string, p: PatternByte, b: Byte)
    requires ParseToken(token) == Ok(p)
    ensures |token| == 2
    ensures ByteMatches(p, b) <==>
            && (token[0] == '?' || IsDigitOf(token[0], b / 16)) && (token[1] == '?' || IsDigitOf(token[1], b % 16))
  {
    NibblesAreDigits(token[0], b / 16);
    NibblesAreDigits(token[1], b % 16);
  }

  /** A byte written in hexadecimal matches itself and no other byte. */
  lemma ExactTokenMatchesOneByte(b: Byte, other: Byte)
    ensures ByteMatches(PatternByte(Some(b / 16), Some(b % 16)), other) <==> other == b
  {
  }

  function QueryFor(m: Bytes, config: ScannerConfig, options: PatternScanOptions, pattern: seq<PatternByte>): Query {
    Query(m, config.filter, if config.chunkSizeBytes < |pattern| then |pattern| else config.chunkSizeBytes,
          |pattern|, options.alignment, bytes => MatchesAt(pattern, bytes))
  }

  /** The buffers the scan asks for can exist. */
  predicate Allocatable(config: ScannerConfig, tokens: seq<string>) {
    config.chunkSizeBytes + |tokens| <= MAX_BUFFER && 2 * |tokens| <= MAX_BUFFER
  }

  predicate InvalidLimits(config: ScannerConfig, options: PatternScanOptions) {
    options.alignment == 0 || options.maxResults == 0 || config.maxResults < options.maxResults
  }

  /** The pattern scan: every kind of failure, and otherwise the first matches reached, in address order. */
  method ScanPattern(m: Bytes, regions: seq<MemoryRegion>, tokens: seq<string>, config: ScannerConfig,
      options: PatternScanOptions)
    returns (r: Result<Found, AnalysisError>, ghost pattern: seq<PatternByte>)
    requires Allocatable(config, tokens)
    ensures InvalidLimits(config, options) <==> r == Err(InvalidLimit)
    ensures !InvalidLimits(config, options) && tokens == [] <==> r == Err(EmptyPattern)
    ensures !InvalidLimits(config, options) && (exists i :: 0 <= i < |tokens| && ParseToken(tokens[i]).Err?)
            <==> r == Err(InvalidPatternToken)
    ensures r.Ok? || r == Err(AddressOverflow) ==>
              |pattern| == |tokens| != 0 && forall i :: 0 <= i < |tokens| ==> Ok(pattern[i]) == ParseToken(tokens[i])
    ensures r.Ok? || r == Err(AddressOverflow) ==>
              var q := QueryFor(m, config, options, pattern);
              && WellFormed(q)
              && var all := ReachedMatches(q, BeforeOverflow(q, regions));
              if r.Ok? then
                && r.value.addresses == Take(all, options.maxResults)
                && (r.value.truncated <==> options.maxResults <= |all|)
                && (!r.value.truncated ==> BeforeOverflow(q, regions) == regions
                                           && r.value.readFailures == SatAdd(0, Failures(q, regions)))
              else BeforeOverflow(q, regions) != regions && |all| < options.maxResults
  {
    pattern := [];
    if InvalidLimits(config, options) {
      return Err(InvalidLimit), [];
    }
    var parsed := Parse(tokens);
    if parsed.Err? {
      return Err(parsed.error), [];
    }
    pattern := parsed.value;
    var found := ScanRegions(QueryFor(m, config, options, parsed.value), regions, options.maxResults);
    match found
    case None => r := Err(AddressOverflow);
    case Some(f) => r := Ok(f);
  }

  ghost predicate IsMatchIn(m: Bytes, r: MemoryRegion, alignment: nat, pattern: seq<PatternByte>, p: nat)
    requires 0 < alignment
  {
    && r.base <= p && p + |pattern| <= r.base + r.size && (p - r.base) % alignment == 0
    && forall j :: 0 <= j < |pattern| ==> p + j in m && ByteMatches(pattern[j], m[p + j])
  }

  /** A complete scan without read failures finds exactly the places in memory that match the pattern. */
  lemma CompleteScanIsNaive(m: Bytes, regions: seq<MemoryRegion>, config: ScannerConfig, options: PatternScanOptions,
                            pattern: seq<PatternByte>, found: Found, p: nat)
    requires WellFormed(QueryFor(m, config, options, pattern))
    requires var q := QueryFor(m, config, options, pattern);
             && BeforeOverflow(q, regions) == regions
             && found.addresses == Take(ReachedMatches(q, regions), options.maxResults)
             && |ReachedMatches(q, regions)| < options.maxResults
             && found.readFailures == SatAdd(0, Failures(q, regions)) == 0
    ensures p in found.addresses
            <==> exists i :: 0 <= i < |regions| && Scannable(regions[i], config.filter)
                             && IsMatchIn(m, regions[i], options.alignment, pattern, p)
  {
    var q := QueryFor(m, config, options, pattern);
    FoundExactly(q, regions, p);
    FoundIfMatching(q, regions, p);
    if i :| 0 <= i < |regions| && Eligible(q, regions[i]) && Reached(q, regions[i], p) {
      ReachedIsReadable(q, regions[i], p);
      MatchesAreInMemory(m, regions[i], config, options, pattern, p);
      assert IsMatchIn(m, regions[i], options.alignment, pattern, p);
    }
    if i :| 0 <= i < |regions| && Scannable(regions[i], config.filter)
            && IsMatchIn(m, regions[i], options.alignment, pattern, p) {
      MatchesAreInMemory(m, regions[i], config, options, pattern, p);
    }
  }

  /** A match of the walk over memory that can be read is an aligned place in the region at which the bytes in memory
      match the pattern, one by one. */
  lemma MatchesAreInMemory(m: Bytes, r: MemoryRegion, config: ScannerConfig, options: PatternScanOptions,
      pattern: seq<PatternByte>, p: nat)
    requires WellFormed(QueryFor(m, config, options, pattern))
    ensures Matches(QueryFor(m, config, options, pattern), r, p) && Readable(m, p, |pattern|)
            <==> IsMatchIn(m, r, options.alignment, pattern, p)
  {
    if r.base <= p {
      MultipleIsRemainder(p - r.base, options.alignment);
    }
    if IsMatchIn(m, r, options.alignment, pattern, p) {
      forall k | p <= k < p + |pattern| ensures k in m {
        assert ByteMatches(pattern[k - p], m[p + (k - p)]);
      }
    }
    if Readable(m, p, |pattern|) {
      var bytes := Value(m, p, |pattern|);
      assert forall j :: 0 <= j < |pattern| ==> bytes[j] == m[p + j];
    }
  }
}
