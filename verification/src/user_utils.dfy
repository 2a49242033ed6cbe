/**
 * Bipupu id generation and service-account detection (app/core/user_utils.py).
 *
 * A bipupu id is an 8-character zero-padded decimal string.  The database
 * lookups the generator makes become inputs: `existing` is the set of ids in
 * the users table and `maxId` is the id of the first row when that table is
 * ordered by id descending.  The 100 random candidates of the fallback path
 * are the `draws`.
 */
module UserUtils {
  import opened Outcomes
  import opened Text

  const IdWidth: nat := 8
  const MaxIdNumber: nat := 99999999
  const RandomAttempts: nat := 100
  const FirstId: string := "00000001"

  predicate WellFormedId(id: string) { |id| == IdWidth && AllDigits(id) }

  /** `f"{n:08d}"` for an id number. */
  function FormatId(n: nat): (id: string)
    requires n <= MaxIdNumber
    ensures WellFormedId(id) && ParseDecimal(id) == n
  {
    IdWidthBound();
    ParsePadDecimalBelow(n, IdWidth);
    PadDecimal(n, IdWidth)
  }

  /** Every id number fits in the id width. */
  lemma IdWidthBound()
    ensures MaxIdNumber < Pow10(IdWidth)
  {
    assert Pow10(IdWidth) == 100000000;
  }

  /** Formatting is injective: distinct id numbers give distinct ids. */
  lemma FormatIdInjective(a: nat, b: nat)
    requires a <= MaxIdNumber && b <= MaxIdNumber && FormatId(a) == FormatId(b)
    ensures a == b
  {
  }

  /**
   * The increment loop: the first id number from `next` upwards whose
   * formatted id is free, or None once the scan would pass 99999999.
   */
  function ScanFrom(existing: set<string>, next: nat): (r: Option<nat>)
    requires next <= MaxIdNumber
    ensures r.Some? ==> next <= r.value <= MaxIdNumber && FormatId(r.value) !in existing
    ensures r.Some? ==> forall k :: next <= k < r.value ==> FormatId(k) in existing
    ensures r.None? <==> forall k :: next <= k <= MaxIdNumber ==> FormatId(k) in existing
    decreases MaxIdNumber - next
  {
    if FormatId(next) !in existing then Some(next)
    else if next == MaxIdNumber then None
    else ScanFrom(existing, next + 1)
  }

  predicate ValidDraws(draws: seq<nat>) {
    |draws| == RandomAttempts && forall i :: 0 <= i < |draws| ==> 1 <= draws[i] <= MaxIdNumber
  }

  /** The fallback: the first of the random candidates that is free, else a ValueError. */
  function RandomFallback(existing: set<string>, draws: seq<nat>): (r: Result<string>)
    requires forall i :: 0 <= i < |draws| ==> 1 <= draws[i] <= MaxIdNumber
    ensures r.Ok? ==> exists i :: 0 <= i < |draws| && r.value == FormatId(draws[i])
    ensures r.Ok? ==> WellFormedId(r.value) && 1 <= ParseDecimal(r.value) <= MaxIdNumber
    ensures r.Ok? ==> r.value !in existing
    ensures r.Err? <==> forall i :: 0 <= i < |draws| ==> FormatId(draws[i]) in existing
    ensures r.Err? ==> r.error == ValueErr
  {
    if |draws| == 0 then Err(ValueErr)
    else if FormatId(draws[0]) !in existing then Ok(FormatId(draws[0]))
    else
      var rest := RandomFallback(existing, draws[1..]);
      assert forall i :: 1 <= i < |draws| ==> draws[i] == draws[1..][i - 1];
      rest
  }

  /**
   * `generate_bipupu_id`: "00000001" for an empty table; otherwise one more
   * than the largest id, skipping taken ids; when the largest id does not
   * parse or the increment passes 99999999, the random fallback.
   */
  function GenerateBipupuId(existing: set<string>, maxId: Option<string>, draws: seq<nat>): (r: Result<string>)
    requires maxId.None? <==> existing == {}
    requires maxId.Some? ==> maxId.value in existing
    requires ValidDraws(draws)
    ensures r.Ok? ==> WellFormedId(r.value) && r.value !in existing
    ensures r.Ok? ==> 1 <= ParseDecimal(r.value) <= MaxIdNumber
    ensures existing == {} ==> r == Ok(FirstId)
    ensures r.Err? ==> r.error == ValueErr && forall i :: 0 <= i < |draws| ==> FormatId(draws[i]) in existing
  {
    if maxId.None? then
      assert FirstId == FormatId(1);
      Ok(FirstId)
    else if !IsDigitString(maxId.value) then
      RandomFallback(existing, draws)
    else
      IncrementFrom(existing, ParseDecimal(maxId.value) + 1, draws)
  }

  /** The increment path from the id number `next`, falling back to the random draws. */
  function IncrementFrom(existing: set<string>, next: nat, draws: seq<nat>): (r: Result<string>)
    requires 1 <= next && ValidDraws(draws)
    ensures r.Ok? ==> WellFormedId(r.value) && r.value !in existing
    ensures r.Ok? ==> 1 <= ParseDecimal(r.value) <= MaxIdNumber
    ensures r.Err? ==> r.error == ValueErr && forall i :: 0 <= i < |draws| ==> FormatId(draws[i]) in existing
    ensures next <= MaxIdNumber && ScanFrom(existing, next).Some? ==> r == Ok(FormatId(ScanFrom(existing, next).value))
  {
    if next > MaxIdNumber then RandomFallback(existing, draws)
    else
      match ScanFrom(existing, next)
      case Some(n) => Ok(FormatId(n))
      case None => RandomFallback(existing, draws)
  }

  /**
   * When some id above the current largest is free, the increment path
   * answers with the smallest such id, so it is greater than the largest.
   */
  lemma IncrementalIdIsNextFree(existing: set<string>, maxId: string, draws: seq<nat>, k: nat)
    requires maxId in existing && IsDigitString(maxId) && ValidDraws(draws)
    requires ParseDecimal(maxId) < k <= MaxIdNumber && FormatId(k) !in existing
    ensures var r := GenerateBipupuId(existing, Some(maxId), draws);
      r.Ok? && ParseDecimal(r.value) > ParseDecimal(maxId) && ParseDecimal(r.value) <= k
      && forall j :: ParseDecimal(maxId) < j < ParseDecimal(r.value) ==> FormatId(j) in existing
  {
    var next := ParseDecimal(maxId) + 1;
    ScanStopsByFreeId(existing, next, k);
    var n := ScanFrom(existing, next).value;
    assert GenerateBipupuId(existing, Some(maxId), draws) == IncrementFrom(existing, next, draws) == Ok(FormatId(n));
    assert ParseDecimal(FormatId(n)) == n;
  }

  /** The scan from `next` stops at or before any free id number above it. */
  lemma ScanStopsByFreeId(existing: set<string>, next: nat, k: nat)
    requires next <= k <= MaxIdNumber && FormatId(k) !in existing
    ensures ScanFrom(existing, next).Some? && ScanFrom(existing, next).value <= k
  {
  }

  /** `is_service_account`: contains a dot and is not all digits. */
  function IsServiceAccount(s: string): (b: bool)
    ensures b <==> '.' in s
  {
    '.' in s && !IsDigitString(s)
  }

  /** A generated bipupu id is never mistaken for a service account name. */
  lemma GeneratedIdIsNotServiceAccount(id: string)
    requires WellFormedId(id)
    ensures !IsServiceAccount(id)
  {
  }
}
