/** The spec document, its resolution to enforceable limits, and memory sizes
    (internal/sandbox/spec_resolve.go, internal/runtime/runtime.go). */
module SpecResolve {
  import opened Wrappers

  // The document a client submits: None is an absent field.
  datatype SpecFile = SpecFile(
    image: Option<string>,
    env: map<string, string>,
    cpus: Option<real>,
    memory: Option<string>,
    pidsLimit: Option<int>,
    allowNetwork: Option<bool>)

  // What a backend enforces.
  datatype Spec = Spec(
    image: string,
    env: map<string, string>,
    cpuLimit: real,
    memoryLimit: int,
    pidsLimit: int,
    allowNetwork: bool)

  const DEFAULT_CPUS: real := 1.0
  const DEFAULT_MEMORY := "512m"
  const DEFAULT_PIDS_LIMIT := 256
  const DEFAULT_IMAGE := "alpine:3.20"

  const MIN_MEMORY_LIMIT := 6 * 1024 * 1024
  const MIN_CPU_LIMIT: real := 0.01

  const TWO_62 := 0x4000_0000_0000_0000
  const MIN_INT64 := -0x8000_0000_0000_0000
  const MAX_INT64 := 0x7fff_ffff_ffff_ffff

  /** Two's-complement wrap-around of a 64-bit result. */
  function Wrap64(x: int): (r: int)
    ensures MIN_INT64 <= r <= MAX_INT64
    ensures MIN_INT64 <= x <= MAX_INT64 ==> r == x
  {
    (x - MIN_INT64) % 0x1_0000_0000_0000_0000 + MIN_INT64
  }

  // ---- Decimal numbers, as strconv.ParseInt(s, 10, 64) reads them ----

  predicate IsDigit(c: char) {
    '0' <= c <= '9'
  }

  predicate AllDigits(s: string) {
    forall k :: 0 <= k < |s| ==> IsDigit(s[k])
  }

  function DigitsValue(s: string): nat
    requires AllDigits(s)
  {
    if s == "" then 0
    else 10 * DigitsValue(s[..|s| - 1]) + (s[|s| - 1] as int - '0' as int)
  }

  function ParseInt64(s: string): (r: Option<int>)
    ensures r.Some? ==> MIN_INT64 <= r.value <= MAX_INT64
  {
    var signed := s != "" && (s[0] == '-' || s[0] == '+');
    var digits := if signed then s[1..] else s;
    if digits == "" || !AllDigits(digits) then None
    else
      var n: int := if signed && s[0] == '-' then 0 - DigitsValue(digits) else DigitsValue(digits);
      if MIN_INT64 <= n <= MAX_INT64 then Some(n) else None
  }

  /** The shortest decimal numeral. */
  function Print(n: nat): (s: string)
    ensures s != "" && AllDigits(s)
    ensures DigitsValue(s) == n
  {
    var last := ('0' as int + n % 10) as char;
    if n < 10 then assert [last][..0] == ""; [last]
    else
      var front := Print(n / 10);
      assert (front + [last])[..|front|] == front;
      front + [last]
  }

  // ---- Memory sizes ----

  function Unit(c: char): Option<int> {
    match c
    case 'b' => Some(1)
    case 'k' => Some(0x400)
    case 'm' => Some(0x10_0000)
    case 'g' => Some(0x4000_0000)
    case _ => None
  }

  predicate IsSpace(c: char) {
    c == ' ' || c == '\t' || c == '\n' || c == '\r' || c as int == 11 || c as int == 12
  }

  function LowerChar(c: char): char {
    if 'A' <= c <= 'Z' then (c as int + 32) as char else c
  }

  function ToLower(s: string): (r: string)
    ensures |r| == |s|
    ensures forall k :: 0 <= k < |s| ==> r[k] == LowerChar(s[k])
  {
    seq(|s|, k requires 0 <= k < |s| => LowerChar(s[k]))
  }

  function TrimSpace(s: string): string {
    if s != "" && IsSpace(s[0]) then TrimSpace(s[1..])
    else if s != "" && IsSpace(s[|s| - 1]) then TrimSpace(s[..|s| - 1])
    else s
  }

  // A size read apart: the numeral before the unit letter, and the unit's bytes.
  datatype Size = Size(digits: int, unit: int)

  function ReadSize(value: string): (r: Option<Size>)
    ensures r.Some? ==> r.value.unit in {1, 0x400, 0x10_0000, 0x4000_0000}
    ensures r.Some? ==> MIN_INT64 <= r.value.digits <= MAX_INT64
  {
    var trimmed := TrimSpace(ToLower(value));
    if trimmed == "" then None
    else
      var unit := Unit(trimmed[|trimmed| - 1]);
      var numeral := if unit.Some? then trimmed[..|trimmed| - 1] else trimmed;
      match ParseInt64(numeral)
      case None => None
      case Some(n) => Some(Size(n, if unit.Some? then unit.value else 1))
  }

  /** The overflow guard: it bounds the numeral from above only. */
  predicate PassesGuard(s: Size)
    requires s.unit > 0
  {
    s.digits <= TWO_62 / s.unit
  }

  // The product as int64 multiplication leaves it.
  function Bytes(s: Size): int {
    Wrap64(s.digits * s.unit)
  }

  function ParseMemoryResult(value: string): Option<int> {
    match ReadSize(value)
    case None => None
    case Some(s) => if PassesGuard(s) then Some(Bytes(s)) else None
  }

  /** parseMemory, with the source's reassigned locals. */
  method ParseMemory(value: string) returns (r: Option<int>)
    ensures r == ParseMemoryResult(value)
    ensures r.Some? <==> ReadSize(value).Some? && PassesGuard(ReadSize(value).value)
  {
    var trimmed := TrimSpace(ToLower(value));
    if trimmed == "" {
      return None;
    }
    var multiplier := 1;
    var unit := Unit(trimmed[|trimmed| - 1]);
    if unit.Some? {
      multiplier := unit.value;
      trimmed := trimmed[..|trimmed| - 1];
    }
    var digits := ParseInt64(trimmed);
    if digits.None? {
      return None;
    }
    if digits.value > TWO_62 / multiplier {
      return None;
    }
    return Some(Wrap64(digits.value * multiplier));
  }

  lemma GuardBoundsProduct(s: Size)
    requires s.unit in {1, 0x400, 0x10_0000, 0x4000_0000}
    ensures s.digits >= 0 && PassesGuard(s) <==> 0 <= s.digits * s.unit <= TWO_62
  {
  }

  /** When an accepted size is the product it names: exactly when the product does not
      fall below the 64-bit range, which no non-negative size does. */
  lemma ParseMemoryExact(value: string)
    requires ParseMemoryResult(value).Some?
    ensures var s := ReadSize(value).value;
            && (ParseMemoryResult(value).value == s.digits * s.unit <==> s.digits * s.unit >= MIN_INT64)
            && (s.digits >= 0 ==> 0 <= ParseMemoryResult(value).value == s.digits * s.unit <= TWO_62)
  {
  }

  // A trimmed text is its own trim, and lower-case text its own lower case.
  lemma TrimmedStays(s: string)
    requires s != "" && !IsSpace(s[0]) && !IsSpace(s[|s| - 1])
    ensures TrimSpace(s) == s
  {
  }

  lemma {:induction false} TrimDropsLeft(pad: string, s: string)
    requires forall k :: 0 <= k < |pad| ==> IsSpace(pad[k])
    ensures TrimSpace(pad + s) == TrimSpace(s)
  {
    if pad == "" {
      assert pad + s == s;
    } else {
      assert (pad + s)[1..] == pad[1..] + s;
      TrimDropsLeft(pad[1..], s);
    }
  }

  lemma {:induction false} TrimDropsRight(s: string, pad: string)
    requires forall k :: 0 <= k < |pad| ==> IsSpace(pad[k])
    requires s != "" && !IsSpace(s[0])
    ensures TrimSpace(s + pad) == TrimSpace(s)
  {
    if pad == "" {
      assert s + pad == s;
    } else {
      assert (s + pad)[..|s + pad| - 1] == s + pad[..|pad| - 1];
      TrimDropsRight(s, pad[..|pad| - 1]);
    }
  }

  lemma DigitsParse(s: string, n: nat)
    requires s != "" && AllDigits(s) && DigitsValue(s) == n
    ensures ParseInt64(s) == if n <= MAX_INT64 then Some(n) else None
  {
  }

  lemma NegatedNumeralParses(n: int)
    requires 0 <= n <= MAX_INT64
    ensures ParseInt64("-" + Print(n)) == Some(0 - n)
  {
  }

  predicate AllSpace(s: string) {
    forall k :: 0 <= k < |s| ==> IsSpace(s[k])
  }

  // What a numeral may be made of: nothing that trimming or lower-casing touches.
  predicate NumeralText(s: string) {
    s != "" && forall k :: 0 <= k < |s| ==> IsDigit(s[k]) || s[k] == '-'
  }

  lemma PaddedTextTrims(left: string, core: string, right: string)
    requires AllSpace(left) && AllSpace(right)
    requires core != "" && !IsSpace(core[0]) && !IsSpace(core[|core| - 1])
    ensures TrimSpace(left + core + right) == core
  {
    assert left + core + right == left + (core + right);
    TrimDropsLeft(left, core + right);
    TrimDropsRight(core, right);
    TrimmedStays(core);
  }

  lemma UnitTextTrims(left: string, numeral: string, unit: char, right: string)
    requires AllSpace(left) && AllSpace(right) && NumeralText(numeral) && Unit(LowerChar(unit)).Some?
    ensures TrimSpace(ToLower(left + numeral + [unit] + right)) == numeral + [LowerChar(unit)]
  {
    var core := numeral + [LowerChar(unit)];
    var value := left + numeral + [unit] + right;
    assert ToLower(value) == left + core + right by {
      var lower := ToLower(value);
      assert forall k :: 0 <= k < |value| ==> lower[k] == (left + core + right)[k];
    }
    assert core[0] == numeral[0];
    PaddedTextTrims(left, core, right);
  }

  lemma UnitSizeReads(value: string, numeral: string, c: char)
    requires TrimSpace(ToLower(value)) == numeral + [c] && Unit(c).Some?
    ensures ReadSize(value) == (match ParseInt64(numeral)
                                case None => None
                                case Some(n) => Some(Size(n, Unit(c).value)))
  {
    assert (numeral + [c])[..|numeral|] == numeral;
  }

  /** Printing and parsing are inverse: every number in range, under every unit letter
      in either case, between any white space, reads back as the product. */
  lemma PrintedSizeParses(n: nat, unit: char, left: string, right: string)
    requires Unit(LowerChar(unit)).Some? && AllSpace(left) && AllSpace(right)
    ensures var bytes := n * Unit(LowerChar(unit)).value;
            ParseMemoryResult(left + Print(n) + [unit] + right) == (if bytes <= TWO_62 then Some(bytes) else None)
  {
    var u := Unit(LowerChar(unit)).value;
    UnitTextTrims(left, Print(n), unit, right);
    UnitSizeReads(left + Print(n) + [unit] + right, Print(n), LowerChar(unit));
    DigitsParse(Print(n), n);
    GuardBoundsProduct(Size(n, u));
    assert n * u >= n;
  }

  lemma UnitlessSizeReads(value: string, core: string)
    requires core != "" && AllDigits(core) && TrimSpace(ToLower(value)) == core
    ensures ParseMemoryResult(value) == (match ParseInt64(core)
                                         case None => None
                                         case Some(n) => if n <= TWO_62 then Some(Wrap64(n)) else None)
  {
  }

  /** A bare number is bytes: it reads back as itself. */
  lemma PrintedBytesParse(n: nat, left: string, right: string)
    requires AllSpace(left) && AllSpace(right)
    ensures ParseMemoryResult(left + Print(n) + right) == (if n <= TWO_62 then Some(n) else None)
  {
    var core, value := Print(n), left + Print(n) + right;
    assert ToLower(value) == value by {
      var lower := ToLower(value);
      assert forall k :: 0 <= k < |value| ==> lower[k] == value[k];
    }
    assert IsDigit(core[0]) && IsDigit(core[|core| - 1]);
    PaddedTextTrims(left, core, right);
    DigitsParse(core, n);
    UnitlessSizeReads(value, core);
  }

  // ---- Resolution ----

  function OrDefault<T>(value: Option<T>, fallback: T): T {
    match value
    case Some(v) => v
    case None => fallback
  }

  function Resolve(s: SpecFile): Result<Spec> {
    match ParseMemoryResult(OrDefault(s.memory, DEFAULT_MEMORY))
    case None => Err(ErrInvalidSpec)
    case Some(bytes) =>
      Ok(Spec(
           OrDefault(s.image, DEFAULT_IMAGE),
           s.env,
           OrDefault(s.cpus, DEFAULT_CPUS),
           bytes,
           OrDefault(s.pidsLimit, DEFAULT_PIDS_LIMIT),
           OrDefault(s.allowNetwork, false)))
  }

  function Validate(s: Spec): (r: Result<()>)
    ensures r.Ok? <==>
              s.image != "" && s.cpuLimit >= MIN_CPU_LIMIT && s.memoryLimit >= MIN_MEMORY_LIMIT && s.pidsLimit >= 1
  {
    if s.image == "" then Err(ErrLimits)
    else if s.cpuLimit < MIN_CPU_LIMIT then Err(ErrLimits)
    else if s.memoryLimit < MIN_MEMORY_LIMIT then Err(ErrLimits)
    else if s.pidsLimit < 1 then Err(ErrLimits)
    else Ok(())
  }

  function ResolveValidated(s: SpecFile): Result<Spec> {
    match Resolve(s)
    case Err(e) => Err(e)
    case Ok(spec) =>
      match Validate(spec)
      case Err(e) => Err(e)
      case Ok(_) => Ok(spec)
  }

  predicate Resolves(s: SpecFile) {
    ResolveValidated(s).Ok?
  }

  const EMPTY_SPEC := SpecFile(None, map[], None, None, None, None)

  /** The empty document resolves to the documented defaults. */
  lemma EmptySpecResolves()
    ensures ResolveValidated(EMPTY_SPEC) == Ok(Spec("alpine:3.20", map[], 1.0, 512 * 1024 * 1024, 256, false))
  {
    var five := "5"; var fiftyOne := "51";
    assert ToLower("512m") == "512m";
    assert "512m"[..3] == "512";
    assert "512"[..2] == fiftyOne && fiftyOne[..1] == five && five[..0] == "";
    assert DigitsValue(five) == 5;
    assert DigitsValue(fiftyOne) == 51;
    assert DigitsValue("512") == 512;
  }

  // ---- Which sizes resolve ----

  // How many of the unit make a full turn of 64 bits.
  function FullTurn(unit: int): (turn: int)
    requires 0 < unit <= 0x4000_0000
    ensures turn > 0
  {
    0x1_0000_0000_0000_0000 / unit
  }

  /** A negative size whose numeral lies, full turns aside, from the floor up to half a
      turn: in gibibytes, 1 to 2^33 - 1 past a multiple of 2^34. */
  predicate TurnsPositive(s: Size)
    requires 0 < s.unit <= 0x4000_0000
  {
    MIN_MEMORY_LIMIT <= (s.digits % FullTurn(s.unit)) * s.unit && 2 * (s.digits % FullTurn(s.unit)) < FullTurn(s.unit)
  }

  lemma RestIsUnique(x: int, m: int, turns: int, rest: int)
    requires m > 0 && x == turns * m + rest && 0 <= rest < m
    ensures x % m == rest
  {
    var d := turns - x / m;
    assert d * m == x % m - rest;
    assert d >= 1 ==> d * m >= m;
    assert d <= -1 ==> d * m <= -m;
  }

  /** The wrapped product depends on the numeral only up to full turns. */
  lemma BytesByTurns(s: Size)
    requires s.unit in {1, 0x400, 0x10_0000, 0x4000_0000}
    ensures var rest := s.digits % FullTurn(s.unit);
            Bytes(s) == if 2 * rest < FullTurn(s.unit) then rest * s.unit else (rest - FullTurn(s.unit)) * s.unit
  {
    var turn := FullTurn(s.unit);
    assert turn * s.unit == 0x1_0000_0000_0000_0000;
    assert s.digits == s.digits / turn * turn + s.digits % turn;
    RestIsUnique(s.digits * s.unit, 0x1_0000_0000_0000_0000, s.digits / turn, s.digits % turn * s.unit);
  }

  predicate OtherLimitsPass(s: SpecFile) {
    && s.image != Some("")
    && OrDefault(s.cpus, DEFAULT_CPUS) >= MIN_CPU_LIMIT
    && OrDefault(s.pidsLimit, DEFAULT_PIDS_LIMIT) >= 1
  }

  lemma SizeClearsFloor(size: Size)
    requires size.unit in {1, 0x400, 0x10_0000, 0x4000_0000} && MIN_INT64 <= size.digits <= MAX_INT64
    ensures PassesGuard(size) && Bytes(size) >= MIN_MEMORY_LIMIT <==>
              if size.digits >= 0 then MIN_MEMORY_LIMIT <= size.digits * size.unit <= TWO_62 else TurnsPositive(size)
  {
    GuardBoundsProduct(size);
    BytesByTurns(size);
  }

  lemma MemoryDecides(s: SpecFile, value: string)
    requires s.memory == Some(value)
    ensures var r, bytes := ResolveValidated(s), ParseMemoryResult(value);
            && (r.Ok? <==> OtherLimitsPass(s) && bytes.Some? && bytes.value >= MIN_MEMORY_LIMIT)
            && (r.Ok? ==> Some(r.value.memoryLimit) == bytes)
  {
  }

  /** Which memory texts a document resolves with, all of them: a number that is not
      negative if and only if its size lies between the floor and 2^62, and a negative one,
      which the one-sided guard lets through, if and only if it turns positive. */
  lemma ResolvesIff(s: SpecFile, value: string)
    requires s.memory == Some(value)
    ensures ResolveValidated(s).Ok? <==>
              && OtherLimitsPass(s)
              && match ReadSize(value)
                 case None => false
                 case Some(size) =>
                   if size.digits >= 0 then MIN_MEMORY_LIMIT <= size.digits * size.unit <= TWO_62
                   else TurnsPositive(size)
  {
    MemoryDecides(s, value);
    if ReadSize(value).Some? {
      SizeClearsFloor(ReadSize(value).value);
    }
  }

  /** A printed negative number, under every unit letter in either case and between any
      white space, passes the guard and wraps. */
  lemma NegatedSizeWraps(n: int, unit: char, left: string, right: string)
    requires 0 < n <= MAX_INT64 && Unit(LowerChar(unit)).Some? && AllSpace(left) && AllSpace(right)
    ensures var size := Size(0 - n, Unit(LowerChar(unit)).value);
            var value := left + ("-" + Print(n)) + [unit] + right;
            ReadSize(value) == Some(size) && ParseMemoryResult(value) == Some(Bytes(size))
  {
    var numeral := "-" + Print(n);
    assert NumeralText(numeral);
    NegatedNumeralParses(n);
    UnitTextTrims(left, numeral, unit, right);
    UnitSizeReads(left + numeral + [unit] + right, numeral, LowerChar(unit));
  }

  /** A document with a negative memory size resolves if and only if the number written,
      counted up to full turns of its unit, turns positive. */
  lemma NegativeSizeCanResolve(s: SpecFile, n: int, unit: char, left: string, right: string)
    requires 0 < n <= MAX_INT64 && Unit(LowerChar(unit)).Some? && AllSpace(left) && AllSpace(right)
    requires s.memory == Some(left + ("-" + Print(n)) + [unit] + right)
    ensures ResolveValidated(s).Ok? <==> OtherLimitsPass(s) && TurnsPositive(Size(0 - n, Unit(LowerChar(unit)).value))
  {
    NegatedSizeWraps(n, unit, left, right);
    ResolvesIff(s, left + ("-" + Print(n)) + [unit] + right);
  }

  lemma NegatedRest(n: int, m: int)
    requires m > 0
    ensures (0 - n) % m == if n % m == 0 then 0 else m - n % m
  {
    assert n == n / m * m + n % m;
    if n % m != 0 {
      RestIsUnique(0 - n, m, -(n / m) - 1, m - n % m);
    } else {
      RestIsUnique(0 - n, m, -(n / m), 0);
    }
  }

  /** Unit by unit: no negative number of bytes turns positive; of kibibytes, mebibytes and
      gibibytes those within half a turn of a multiple of 2^54, 2^44 and 2^34 do, less the
      floor, and each unit has one. */
  lemma TurnsPositiveByUnit(n: int)
    requires 0 < n <= MAX_INT64
    ensures !TurnsPositive(Size(0 - n, 1))
    ensures TurnsPositive(Size(0 - n, 0x400)) <==>
              0x20_0000_0000_0000 < n % 0x40_0000_0000_0000 <= 0x40_0000_0000_0000 - 6144
    ensures TurnsPositive(Size(0 - n, 0x10_0000)) <==> 0x800_0000_0000 < n % 0x1000_0000_0000 <= 0x1000_0000_0000 - 6
    ensures TurnsPositive(Size(0 - n, 0x4000_0000)) <==> 0x2_0000_0000 < n % 0x4_0000_0000
    ensures TurnsPositive(Size(0 - 0x7fff_ffff_ffff_0000, 0x400))
    ensures TurnsPositive(Size(0 - 0x7fff_ffff_ffff_fff0, 0x10_0000))
    ensures TurnsPositive(Size(0 - MAX_INT64, 0x4000_0000))
  {
    NegatedRest(n, 0x1_0000_0000_0000_0000);
    NegatedRest(n, 0x40_0000_0000_0000);
    NegatedRest(n, 0x1000_0000_0000);
    NegatedRest(n, 0x4_0000_0000);
  }

  // ---- Memory sizes, spelled out ----

  predicate BlankChar(c: char) {
    c in [' ', '\t', '\n', '\r', 11 as char, 12 as char]
  }

  // Space, tab, line feed, carriage return, vertical tab and form feed.
  predicate Blank(s: string) {
    forall k :: 0 <= k < |s| ==> BlankChar(s[k])
  }

  function IfAtMost(bytes: int, limit: int): Option<int> {
    if bytes <= limit then Some(bytes) else None
  }

  // The documented multiples of each letter.
  function BytesPer(letter: char): int {
    match letter
    case 'b' => 1
    case 'B' => 1
    case 'k' => 1024
    case 'K' => 1024
    case 'm' => 1024 * 1024
    case 'M' => 1024 * 1024
    case 'g' => 1024 * 1024 * 1024
    case 'G' => 1024 * 1024 * 1024
    case _ => 0
  }

  lemma LettersMean(letter: char)
    requires BytesPer(letter) != 0
    ensures Unit(LowerChar(letter)) == Some(BytesPer(letter))
  {
  }

  lemma BlankIsSpace(s: string)
    requires Blank(s)
    ensures AllSpace(s)
  {
  }

  /** A whole number and b, k, m or g, in either case and between blanks, is that many bytes,
      kibibytes, mebibytes or gibibytes, a bare one that many bytes; past 2^62 bytes it is no
      size at all. */
  lemma SizesInBytes(n: nat, letter: char, left: string, right: string)
    requires Blank(left) && Blank(right) && letter in ['b', 'B', 'k', 'K', 'm', 'M', 'g', 'G']
    ensures ParseMemoryResult(left + Print(n) + right) == IfAtMost(n, 4611686018427387904)
    ensures ParseMemoryResult(left + Print(n) + [letter] + right)
         == IfAtMost(n * BytesPer(letter), 4611686018427387904)
  {
    BlankIsSpace(left);
    BlankIsSpace(right);
    PrintedBytesParse(n, left, right);
    LettersMean(letter);
    PrintedSizeParses(n, letter, left, right);
  }

  /** A leading plus sign is read, and means nothing. */
  lemma PlusSignReads(n: nat)
    requires n <= MAX_INT64
    ensures ParseInt64("+" + Print(n)) == Some(n) == ParseInt64(Print(n))
  {
    assert ("+" + Print(n))[1..] == Print(n);
    DigitsParse(Print(n), n);
    assert IsDigit(Print(n)[0]);
  }

  // The characters a size may hold, outermost blanks aside.
  predicate SizeChar(c: char) {
    '0' <= c <= '9' || c in ['+', '-', 'b', 'k', 'm', 'g', 'B', 'K', 'M', 'G']
  }

  lemma {:induction false} TrimKeeps(s: string, k: nat)
    requires k < |s| && !IsSpace(s[k])
    ensures s[k] in TrimSpace(s)
  {
    if IsSpace(s[0]) {
      assert s[1..][k - 1] == s[k];
      TrimKeeps(s[1..], k - 1);
    } else if IsSpace(s[|s| - 1]) {
      TrimKeeps(s[..|s| - 1], k);
    }
  }

  lemma StrangeNumeralIsRejected(s: string, k: nat)
    requires k < |s| && !IsDigit(s[k]) && (k == 0 ==> s[0] != '+' && s[0] != '-')
    ensures ParseInt64(s) == None
  {
    var signed := s[0] == '-' || s[0] == '+';
    if signed {
      assert s[1..][k - 1] == s[k];
    }
  }

  lemma StrangeStaysStrange(c: char)
    requires !SizeChar(c) && !BlankChar(c)
    ensures !SizeChar(LowerChar(c)) && !IsSpace(LowerChar(c)) && !IsDigit(LowerChar(c)) && Unit(LowerChar(c)) == None
  {
  }

  /** Anything else in the text, a fraction's point among it, makes it no size: nothing is
      silently cut off. */
  lemma StrangeTextIsRejected(value: string, k: nat)
    requires k < |value| && !SizeChar(value[k])
    requires !BlankChar(value[k])
    ensures ParseMemoryResult(value) == None
  {
    var lower := ToLower(value);
    var c := lower[k];
    StrangeStaysStrange(value[k]);
    TrimKeeps(lower, k);
    var core := TrimSpace(lower);
    var j :| 0 <= j < |core| && core[j] == c;
    var unit := Unit(core[|core| - 1]);
    var numeral := if unit.Some? then core[..|core| - 1] else core;
    assert numeral[j] == c;
    StrangeNumeralIsRejected(numeral, j);
  }

  // ---- Resolution, field by field ----

  /** What the document says is what is enforced, and what it leaves out is the default; the
      two ways to fail keep their own sentinels. */
  lemma ResolutionAnswers(s: SpecFile)
    ensures match ResolveValidated(s)
            case Ok(r) =>
              && (match s.image case Some(x) => r.image == x case None => r.image == "alpine:3.20")
              && r.env == s.env
              && (match s.cpus case Some(x) => r.cpuLimit == x case None => r.cpuLimit == 1.0)
              && (match s.pidsLimit case Some(x) => r.pidsLimit == x case None => r.pidsLimit == 256)
              && (match s.allowNetwork case Some(x) => r.allowNetwork == x case None => !r.allowNetwork)
              && (s.memory.Some? ==> ParseMemoryResult(s.memory.value) == Some(r.memoryLimit))
              && r.image != "" && r.cpuLimit >= 0.01 && r.memoryLimit >= 6291456 && r.pidsLimit >= 1
            case Err(e) =>
              e == if s.memory.Some? && ParseMemoryResult(s.memory.value) == None then ErrInvalidSpec else ErrLimits
  {
    EmptySpecResolves();
  }

  // ---- What is no size ----

  // What trimming leaves is a slice, and only space is cut off.
  lemma {:induction false} TrimIsSlice(s: string) returns (a: nat, b: nat)
    ensures a <= b <= |s| && TrimSpace(s) == s[a..b]
    ensures forall k :: 0 <= k < |s| && !IsSpace(s[k]) ==> a <= k < b
  {
    if s != "" && IsSpace(s[0]) {
      a, b := TrimIsSlice(s[1..]);
      assert s[1..][a..b] == s[a + 1..b + 1];
      assert forall k :: 1 <= k < |s| ==> s[1..][k - 1] == s[k];
      a, b := a + 1, b + 1;
    } else if s != "" && IsSpace(s[|s| - 1]) {
      a, b := TrimIsSlice(s[..|s| - 1]);
      assert s[..|s| - 1][a..b] == s[a..b];
    } else {
      a, b := 0, |s|;
    }
  }

  lemma BlanksByCase(c: char)
    ensures IsSpace(LowerChar(c)) <==> BlankChar(c)
    ensures BlankChar(c) ==> LowerChar(c) == c && !IsDigit(c)
    ensures IsDigit(LowerChar(c)) <==> '0' <= c <= '9'
  {
  }

  /** Blanks inside a size are not overlooked. */
  lemma InnerBlankIsRejected(value: string, i: nat, k: nat, j: nat)
    requires i < k < j < |value| && BlankChar(value[k]) && !BlankChar(value[i]) && !BlankChar(value[j])
    ensures ParseMemoryResult(value) == None
  {
    var lower := ToLower(value);
    BlanksByCase(value[i]);
    BlanksByCase(value[k]);
    BlanksByCase(value[j]);
    var a, b := TrimIsSlice(lower);
    var core := TrimSpace(lower);
    assert core[k - a] == lower[k] && k - a < |core| - 1;
    var numeral := if Unit(core[|core| - 1]).Some? then core[..|core| - 1] else core;
    StrangeNumeralIsRejected(numeral, k - a);
  }

  lemma NoDigitNoNumber(s: string)
    requires forall k :: 0 <= k < |s| ==> !IsDigit(s[k])
    ensures ParseInt64(s) == None
  {
    if |s| > 1 {
      StrangeNumeralIsRejected(s, 1);
    }
  }

  /** A text without a digit is no size: neither a unit nor a sign stands alone. */
  lemma NoDigitIsRejected(value: string)
    requires forall k :: 0 <= k < |value| ==> !('0' <= value[k] <= '9')
    ensures ParseMemoryResult(value) == None
  {
    var lower := ToLower(value);
    forall k | 0 <= k < |value|
      ensures !IsDigit(lower[k])
    {
      BlanksByCase(value[k]);
    }
    var a, b := TrimIsSlice(lower);
    var core := TrimSpace(lower);
    if core != "" {
      var numeral := if Unit(core[|core| - 1]).Some? then core[..|core| - 1] else core;
      assert forall k :: 0 <= k < |numeral| ==> numeral[k] == lower[a + k];
      NoDigitNoNumber(numeral);
    }
  }
}
