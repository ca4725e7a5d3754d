/**
 Multipart arithmetic (backend/internal/artifact/blobstore.go:14-20, 112-164, 184-196).

 `int64` is a bounded type, so every addition, product and quotient written here
 is proved to stay within 64 bits.
 */
module MultipartPlan {
  import opened Common

  newtype int64 = x: int | -0x8000_0000_0000_0000 <= x < 0x8000_0000_0000_0000

  const MEBIBYTE: int64 := 1024 * 1024
  const MIN_PART_BYTES: int64 := 5 * 1024 * 1024
  const MAX_PART_BYTES: int64 := 5 * 1024 * 1024 * 1024
  const MAX_OBJECT_BYTES: int64 := 5 * 1024 * 1024 * 1024 * 1024
  const MAX_PARTS: int64 := 10000

  datatype Plan = Plan(partBytes: int64, partCount: int64, sizeBytes: int64)

  datatype PlanError =
    | NegativeSize | InvalidMaximum | ExceedsMaximum | InvalidPartSize | CannotFit | TooManyParts

  datatype PlanResult = Planned(plan: Plan) | Refused(error: PlanError)

  lemma {:induction false} ScalesUp(a: nat, b: nat, factor: nat)
    requires a <= b
    ensures a * factor <= b * factor
  {
    if factor > 0 {
      ScalesUp(a, b, factor - 1);
      assert a * factor == a * (factor - 1) + a;
      assert b * factor == b * (factor - 1) + b;
    }
  }

  /** The quotient is the least number of blocks that hold the value. */
  lemma CeilingBounds(value: int, divisor: int)
    requires value >= 1 && divisor >= 1
    ensures
      var q := 1 + (value - 1) / divisor;
      && 1 <= q <= value
      && (q - 1) * divisor < value <= q * divisor < value + divisor
  {
    var k := (value - 1) / divisor;
    Quotient(value - 1, divisor);
    assert (k + 1) * divisor == k * divisor + divisor;
    ScalesUp(1, divisor, k);
  }

  lemma Quotient(value: nat, divisor: int)
    requires divisor >= 1
    ensures 0 <= value / divisor
    ensures value / divisor * divisor <= value < value / divisor * divisor + divisor
  {
    assert value == value / divisor * divisor + value % divisor;
  }

  function DivideRoundUp(value: int64, divisor: int64): (q: int64)
    requires value >= 0 && divisor >= 1
    ensures q >= 0 && q as int * divisor as int >= value as int
    ensures q as int * divisor as int < value as int + divisor as int
  {
    if value == 0 then 0
    else
      CeilingBounds(value as int, divisor as int);
      1 + (value - 1) / divisor
  }

  function RoundUp(value: int64, boundary: int64): (rounded: int64)
    requires value >= 0 && boundary >= 1
    requires value as int + boundary as int <= 0x8000_0000_0000_0000
    ensures value <= rounded && rounded as int < value as int + boundary as int
    ensures rounded as int == DivideRoundUp(value, boundary) as int * boundary as int
  {
    if value == 0 then 0 else DivideRoundUp(value, boundary) * boundary
  }

  predicate ValidArguments(size: int64, configured: int64, maximum: int64) {
    0 <= size <= maximum && 1 <= maximum <= MAX_OBJECT_BYTES && MIN_PART_BYTES <= configured <= MAX_PART_BYTES
  }

  function ChoosePartBytes(size: int64, configured: int64): int64
    requires 0 <= size <= MAX_OBJECT_BYTES && MIN_PART_BYTES <= configured <= MAX_PART_BYTES
  {
    var required := DivideRoundUp(size, MAX_PARTS);
    var rounded := RoundUp(configured, MEBIBYTE);
    if required > rounded then RoundUp(required, MEBIBYTE) else rounded
  }

  function CalculateMultipartPlan(size: int64, configured: int64, maximum: int64): PlanResult {
    if size < 0 then Refused(NegativeSize)
    else if maximum < 1 || maximum > MAX_OBJECT_BYTES then Refused(InvalidMaximum)
    else if size > maximum then Refused(ExceedsMaximum)
    else if configured < MIN_PART_BYTES || configured > MAX_PART_BYTES then Refused(InvalidPartSize)
    else
      var partBytes := ChoosePartBytes(size, configured);
      if partBytes > MAX_PART_BYTES then Refused(CannotFit)
      else
        var blocks := DivideRoundUp(size, partBytes);
        var partCount := if blocks == 0 then 1 else blocks;
        if partCount > MAX_PARTS then Refused(TooManyParts)
        else Planned(Plan(partBytes, partCount, size))
  }

  /** A part size that the provider accepts and that cuts the object into few enough parts. */
  predicate Admissible(size: int64, configured: int64, partBytes: int) {
    && partBytes % MEBIBYTE as int == 0
    && configured as int <= partBytes
    && size as int <= MAX_PARTS as int * partBytes
  }

  lemma RoundUpIsMultiple(value: int64)
    requires 0 <= value <= MAX_PART_BYTES
    ensures RoundUp(value, MEBIBYTE) as int % MEBIBYTE as int == 0
  {
    var q := DivideRoundUp(value, MEBIBYTE) as int;
    assert (q * 1048576) % 1048576 == 0;
  }

  /** Any multiple at least as large as the value is at least as large as its rounding. */
  lemma RoundUpIsLeast(value: int64, other: int)
    requires 0 <= value <= MAX_PART_BYTES
    requires value as int <= other && other % MEBIBYTE as int == 0
    ensures RoundUp(value, MEBIBYTE) as int <= other
  {
    assert other == other / 1048576 * 1048576;
  }

  lemma RequiredIsSmall(size: int64)
    requires 0 <= size <= MAX_OBJECT_BYTES
    ensures DivideRoundUp(size, MAX_PARTS) <= 549755814
  {
  }

  /** The chosen part size is the least admissible one, whatever the size and configuration. */
  lemma PartBytesAreLeast(size: int64, configured: int64)
    requires 0 <= size <= MAX_OBJECT_BYTES && MIN_PART_BYTES <= configured <= MAX_PART_BYTES
    ensures
      var partBytes := ChoosePartBytes(size, configured);
      && partBytes <= MAX_PART_BYTES
      && Admissible(size, configured, partBytes as int)
      && forall other: int :: Admissible(size, configured, other) ==> partBytes as int <= other
  {
    var required := DivideRoundUp(size, MAX_PARTS);
    RequiredIsSmall(size);
    RoundUpIsMultiple(configured);
    RoundUpIsMultiple(required);
    RoundUpIsLeast(configured, MAX_PART_BYTES as int);
    RoundUpIsLeast(required, MAX_PART_BYTES as int);
    forall other: int | Admissible(size, configured, other)
      ensures ChoosePartBytes(size, configured) as int <= other
    {
      RoundUpIsLeast(configured, other);
      RoundUpIsLeast(required, other);
    }
  }

  lemma FewEnoughParts(size: int64, partBytes: int64)
    requires size >= 0 && partBytes >= 1 && size as int <= MAX_PARTS as int * partBytes as int
    ensures DivideRoundUp(size, partBytes) <= MAX_PARTS
  {
    if DivideRoundUp(size, partBytes) > MAX_PARTS {
      CeilingBounds(size as int, partBytes as int);
      ScalesUp(MAX_PARTS as int, DivideRoundUp(size, partBytes) as int - 1, partBytes as int);
    }
  }

  /** The last two refusals never happen: the calculation succeeds on exactly the valid arguments. */
  lemma PlanSucceedsExactly(size: int64, configured: int64, maximum: int64)
    ensures CalculateMultipartPlan(size, configured, maximum).Planned? <==> ValidArguments(size, configured, maximum)
  {
    if ValidArguments(size, configured, maximum) {
      PartBytesAreLeast(size, configured);
      FewEnoughParts(size, ChoosePartBytes(size, configured));
      hide ChoosePartBytes, DivideRoundUp, Admissible;
    }
  }

  /** The parts cover the object: all but the last are full, the last is not beyond the end. */
  ghost predicate Covers(plan: Plan) {
    var bytes, count, size := plan.partBytes as int, plan.partCount as int, plan.sizeBytes as int;
    && bytes >= 1 && 1 <= count <= MAX_PARTS as int && size >= 0
    && (count - 1) * bytes <= size <= count * bytes
    && (size > 0 ==> (count - 1) * bytes < size)
  }

  lemma PlanCovers(size: int64, configured: int64, maximum: int64)
    ensures CalculateMultipartPlan(size, configured, maximum).Planned? ==>
      Covers(CalculateMultipartPlan(size, configured, maximum).plan)
  {
    if size > 0 && CalculateMultipartPlan(size, configured, maximum).Planned? {
      CeilingBounds(size as int, ChoosePartBytes(size, configured) as int);
    }
  }

  function Wrap(x: int): int64 {
    var r := x % 0x1_0000_0000_0000_0000;
    (if r < 0x8000_0000_0000_0000 then r else r - 0x1_0000_0000_0000_0000) as int64
  }

  /** `PartSize`, on any plan a caller may have put together: products may wrap around. */
  function PartSize(plan: Plan, number: int): Option<int64> {
    if number < 1 || number > plan.partCount as int then None
    else if number < plan.partCount as int then Some(plan.partBytes)
    else
      var before := Wrap(Wrap(plan.partCount as int - 1) as int * plan.partBytes as int);
      var remaining := Wrap(plan.sizeBytes as int - before as int);
      if remaining < 0 then None else Some(remaining)
  }

  /** Where a part begins, counting from the first part. */
  function PartStart(plan: Plan, number: int): int {
    (number - 1) * plan.partBytes as int
  }

  function PartEnd(plan: Plan, number: int): int {
    Min(number * plan.partBytes as int, plan.sizeBytes as int)
  }

  lemma SmallNumbersDoNotWrap(x: int)
    requires -0x8000_0000_0000_0000 <= x < 0x8000_0000_0000_0000
    ensures Wrap(x) as int == x
  {
  }

  /** On a plan that covers its object nothing wraps: each part is exactly its interval of the object. */
  lemma PartSizeIsInterval(plan: Plan, number: int)
    requires Covers(plan)
    ensures PartSize(plan, number).Some? <==> 1 <= number <= plan.partCount as int
    ensures PartSize(plan, number).Some? ==>
      && 0 <= PartStart(plan, number) <= PartEnd(plan, number) <= plan.sizeBytes as int
      && PartSize(plan, number).value as int == PartEnd(plan, number) - PartStart(plan, number)
      && (number < plan.partCount as int ==> PartSize(plan, number) == Some(plan.partBytes))
  {
    var bytes, count := plan.partBytes as int, plan.partCount as int;
    SmallNumbersDoNotWrap(count - 1);
    SmallNumbersDoNotWrap((count - 1) * bytes);
    SmallNumbersDoNotWrap(plan.sizeBytes as int - (count - 1) * bytes);
    hide Wrap;
    if 1 <= number <= count {
      ScalesUp(0, number - 1, bytes);
      assert number * bytes == (number - 1) * bytes + bytes;
      if number < count {
        ScalesUp(number, count - 1, bytes);
      }
    }
  }

  function SumOfParts(plan: Plan, upTo: int): int
    decreases upTo
  {
    if upTo <= 0 then 0
    else SumOfParts(plan, upTo - 1) + (match PartSize(plan, upTo) case Some(n) => n as int case None => 0)
  }

  lemma {:induction false} PartsFillPrefix(plan: Plan, upTo: nat)
    requires Covers(plan) && upTo <= plan.partCount as int
    ensures SumOfParts(plan, upTo) == Min(upTo * plan.partBytes as int, plan.sizeBytes as int)
    decreases upTo
  {
    if upTo > 0 {
      PartsFillPrefix(plan, upTo - 1);
      PartSizeIsInterval(plan, upTo);
    }
  }

  /** For every valid request the part sizes sum to the object size. */
  lemma PartsSumToSize(size: int64, configured: int64, maximum: int64)
    requires ValidArguments(size, configured, maximum)
    ensures
      var result := CalculateMultipartPlan(size, configured, maximum);
      result.Planned? && SumOfParts(result.plan, result.plan.partCount as int) == size as int
  {
    PlanSucceedsExactly(size, configured, maximum);
    PlanCovers(size, configured, maximum);
    var plan := CalculateMultipartPlan(size, configured, maximum).plan;
    PartsFillPrefix(plan, plan.partCount as int);
  }
}
