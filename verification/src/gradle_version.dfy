/**
 * Per-ABI version codes of the Android build (mobile/android/app/build.gradle.kts).
 * The build splits the APK by ABI and also produces a universal APK; every
 * split output overrides its version code with `base * 1000 + abiCode`, where
 * `base` is the Flutter build number and the arithmetic is Kotlin `Int`
 * (32-bit two's complement, wrapping on overflow).
 */
module GradleVersion {
  import opened Outcomes
  import Text

  const SplitAbis: seq<string> := ["armeabi-v7a", "arm64-v8a", "x86_64"]
  const UniversalApk: bool := true
  const AbiMultiplier: int := 1000

  /** The largest base whose split codes stay below 2^31. */
  const MaxUnwrappedBase: int := 2147483

  const Int32Modulus: int := 0x1_0000_0000

  /** Kotlin `Int` arithmetic: the 32-bit two's-complement value congruent to `x`. */
  function WrapInt32(x: int): (r: int)
    ensures -0x8000_0000 <= r < 0x8000_0000
    ensures (x - r) % Int32Modulus == 0
    ensures -0x8000_0000 <= x < 0x8000_0000 ==> r == x
  {
    var m := x % Int32Modulus;
    if m >= 0x8000_0000 then m - Int32Modulus else m
  }

  /** `abiCodes.getOrDefault(abi, 0)`. */
  function AbiCode(abi: string): (c: int)
    ensures 0 <= c < AbiMultiplier
    ensures c != 0 <==> abi in SplitAbis
  {
    if abi == "armeabi-v7a" then 1
    else if abi == "arm64-v8a" then 2
    else if abi == "x86_64" then 3
    else 0
  }

  /** Different split ABIs carry different codes. */
  lemma AbiCodeInjective(a: string, b: string)
    requires a in SplitAbis && b in SplitAbis && AbiCode(a) == AbiCode(b)
    ensures a == b
  {
  }

  /** The code written to `versionCodeOverride` of a split output. */
  function SplitVersionCode(base: int, abi: string): int {
    WrapInt32(base * AbiMultiplier + AbiCode(abi))
  }

  datatype Assignment = KeepDefault | OverrideTo(code: int)

  /**
   * The version code of one build output.  An output without an ABI filter
   * (the universal APK) keeps the default; an output with one overrides it,
   * and `versionCode!!` throws when the default version code is unset.
   */
  function OutputVersionCode(base: Option<int>, abi: Option<string>): (r: Result<Assignment>)
    ensures abi.None? ==> r == Ok(KeepDefault)
    ensures abi.Some? ==> (r.Ok? <==> base.Some?)
    ensures abi.Some? && base.Some? && 0 <= base.value <= MaxUnwrappedBase ==>
      r.Ok? && r.value.OverrideTo?
      && r.value.code / AbiMultiplier == base.value
      && r.value.code % AbiMultiplier == AbiCode(abi.value)
  {
    match abi
    case None => Ok(KeepDefault)
    case Some(a) =>
      match base
      case None => Err(RuntimeErr)
      case Some(b) =>
        if 0 <= b <= MaxUnwrappedBase then SplitCodeDecodes(b, a); Ok(OverrideTo(SplitVersionCode(b, a)))
        else Ok(OverrideTo(SplitVersionCode(b, a)))
  }

  /** Within the unwrapped range a split code decodes back to its base and ABI code. */
  lemma SplitCodeDecodes(base: int, abi: string)
    requires 0 <= base <= MaxUnwrappedBase
    ensures SplitVersionCode(base, abi) == base * AbiMultiplier + AbiCode(abi)
    ensures SplitVersionCode(base, abi) / AbiMultiplier == base
    ensures SplitVersionCode(base, abi) % AbiMultiplier == AbiCode(abi)
  {
    Text.DivModUnique(base * AbiMultiplier + AbiCode(abi), AbiMultiplier, base, AbiCode(abi));
  }

  /** No two split outputs, of the same build or of different builds, share a version code. */
  lemma SplitCodesDistinct(b1: int, a1: string, b2: int, a2: string)
    requires 0 <= b1 <= MaxUnwrappedBase && 0 <= b2 <= MaxUnwrappedBase
    requires a1 in SplitAbis && a2 in SplitAbis
    requires SplitVersionCode(b1, a1) == SplitVersionCode(b2, a2)
    ensures b1 == b2 && a1 == a2
  {
    SplitCodeDecodes(b1, a1);
    SplitCodeDecodes(b2, a2);
    AbiCodeInjective(a1, a2);
  }

  /** Every split of a newer build outranks every split of an older one. */
  lemma NewerBuildOutranks(b1: int, a1: string, b2: int, a2: string)
    requires 0 <= b1 < b2 <= MaxUnwrappedBase
    ensures SplitVersionCode(b1, a1) < SplitVersionCode(b2, a2)
  {
    SplitCodeDecodes(b1, a1);
    SplitCodeDecodes(b2, a2);
  }

  /** The universal APK (which keeps the base code) ranks below every split of its build. */
  lemma UniversalBelowSplits(base: int, abi: string)
    requires 1 <= base <= MaxUnwrappedBase && abi in SplitAbis
    ensures base < SplitVersionCode(base, abi)
  {
    SplitCodeDecodes(base, abi);
  }

  /** Just past the unwrapped range the Kotlin multiplication wraps to a negative code. */
  lemma FirstWrappingBase()
    ensures SplitVersionCode(MaxUnwrappedBase + 1, "armeabi-v7a") < 0
  {
  }
}
