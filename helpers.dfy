/** The small helpers of the forwarding engine: a swap-returning boolean
    flag, the fuzzy codec lookup, and the conversions between nanoseconds
    and the 64-bit NTP timestamp format (RFC 5905 section 6), which RTP
    sender reports carry (RFC 3550 section 6.4.1). */
module Helpers {
  import opened Media
  import opened Wrappers

  // ---------------------------------------------------------------------
  // atomicBool
  // ---------------------------------------------------------------------

  /** A boolean kept in a 32-bit cell: 1 is true, 0 is false. */
  class AtomicBool {
    var cell: int

    ghost predicate Valid()
      reads this
    {
      cell == 0 || cell == 1
    }

    function Get(): bool
      reads this
    {
      cell != 0
    }

    /** The zero value of the Go type: false. */
    constructor ()
      ensures Valid() && !Get()
    {
      cell := 0;
    }

    /** Stores `value` and reports whether that changed the flag. */
    method Set(value: bool) returns (swapped: bool)
      requires Valid()
      modifies this
      ensures Valid()
      ensures Get() == value
      ensures swapped <==> old(Get()) != value
    {
      var previous := cell;
      if value {
        cell := 1;
        swapped := previous == 0;
      } else {
        cell := 0;
        swapped := previous == 1;
      }
    }
  }

  // ---------------------------------------------------------------------
  // codecParametersFuzzySearch
  // ---------------------------------------------------------------------

  /** Case folding as strings.EqualFold applies it to ASCII letters. */
  function FoldChar(c: char): char
  {
    if 'A' <= c <= 'Z' then (c as int + 32) as char else c
  }

  predicate EqualFold(a: string, b: string)
  {
    |a| == |b| && forall i :: 0 <= i < |a| ==> FoldChar(a[i]) == FoldChar(b[i])
  }

  predicate MimeMatch(c: CodecParameters, needle: CodecParameters)
  {
    EqualFold(c.mimeType, needle.mimeType)
  }

  predicate ExactMatch(c: CodecParameters, needle: CodecParameters)
  {
    MimeMatch(c, needle) && c.sdpFmtpLine == needle.sdpFmtpLine
  }

  /** Index of the first exact (mime type and fmtp line) match, or |haystack|. */
  function FirstExact(needle: CodecParameters, haystack: seq<CodecParameters>): (k: nat)
    ensures k <= |haystack|
    ensures forall i :: 0 <= i < k ==> !ExactMatch(haystack[i], needle)
    ensures k < |haystack| ==> ExactMatch(haystack[k], needle)
  {
    if haystack == [] then 0
    else if ExactMatch(haystack[0], needle) then 0
    else 1 + FirstExact(needle, haystack[1..])
  }

  /** Index of the first mime-type-only match, or |haystack|. */
  function FirstMime(needle: CodecParameters, haystack: seq<CodecParameters>): (k: nat)
    ensures k <= |haystack|
    ensures forall i :: 0 <= i < k ==> !MimeMatch(haystack[i], needle)
    ensures k < |haystack| ==> MimeMatch(haystack[k], needle)
  {
    if haystack == [] then 0
    else if MimeMatch(haystack[0], needle) then 0
    else 1 + FirstMime(needle, haystack[1..])
  }

  datatype CodecError = ErrCodecNotFound

  /** The lookup's answer as a value: the codec found, or the error. */
  function FuzzySearch(needle: CodecParameters, haystack: seq<CodecParameters>)
    : (r: (CodecParameters, Option<CodecError>))
  {
    var e := FirstExact(needle, haystack);
    if e < |haystack| then (haystack[e], None)
    else
      var m := FirstMime(needle, haystack);
      if m < |haystack| then (haystack[m], None)
      else (ZeroCodec, Some(ErrCodecNotFound))
  }

  /** codecParametersFuzzySearch: first pass on mime type (ignoring case)
      plus fmtp line, second pass on mime type alone. */
  method CodecParametersFuzzySearch(needle: CodecParameters, haystack: seq<CodecParameters>)
    returns (found: CodecParameters, err: Option<CodecError>)
    ensures (found, err) == FuzzySearch(needle, haystack)
    ensures err.None? ==> found in haystack && MimeMatch(found, needle)
    ensures err.Some? <==> forall c :: c in haystack ==> !MimeMatch(c, needle)
    ensures err.Some? ==> found == ZeroCodec
  {
    var i := 0;
    while i < |haystack|
      invariant 0 <= i <= |haystack|
      invariant forall j :: 0 <= j < i ==> !ExactMatch(haystack[j], needle)
    {
      if MimeMatch(haystack[i], needle) && haystack[i].sdpFmtpLine == needle.sdpFmtpLine {
        FirstExactIs(needle, haystack, i);
        return haystack[i], None;
      }
      i := i + 1;
    }
    FirstExactIs(needle, haystack, |haystack|);
    i := 0;
    while i < |haystack|
      invariant 0 <= i <= |haystack|
      invariant forall j :: 0 <= j < i ==> !MimeMatch(haystack[j], needle)
    {
      if MimeMatch(haystack[i], needle) {
        FirstMimeIs(needle, haystack, i);
        return haystack[i], None;
      }
      i := i + 1;
    }
    FirstMimeIs(needle, haystack, |haystack|);
    return ZeroCodec, Some(ErrCodecNotFound);
  }

  /** The first exact match is unique: an index with no exact match before
      it that is either the end or a match is FirstExact. */
  lemma {:induction false} FirstExactIs(needle: CodecParameters, haystack: seq<CodecParameters>, k: nat)
    requires k <= |haystack|
    requires forall j :: 0 <= j < k ==> !ExactMatch(haystack[j], needle)
    requires k < |haystack| ==> ExactMatch(haystack[k], needle)
    ensures FirstExact(needle, haystack) == k
  {
    if k > 0 {
      assert !ExactMatch(haystack[0], needle);
      FirstExactIs(needle, haystack[1..], k - 1);
    }
  }

  lemma {:induction false} FirstMimeIs(needle: CodecParameters, haystack: seq<CodecParameters>, k: nat)
    requires k <= |haystack|
    requires forall j :: 0 <= j < k ==> !MimeMatch(haystack[j], needle)
    requires k < |haystack| ==> MimeMatch(haystack[k], needle)
    ensures FirstMime(needle, haystack) == k
  {
    if k > 0 {
      assert !MimeMatch(haystack[0], needle);
      FirstMimeIs(needle, haystack[1..], k - 1);
    }
  }

  /** An exact match anywhere wins over a mime-only match earlier on. */
  lemma ExactMatchPreferred(needle: CodecParameters, haystack: seq<CodecParameters>, i: nat, j: nat)
    requires i < j < |haystack|
    requires MimeMatch(haystack[i], needle) && !ExactMatch(haystack[i], needle)
    requires ExactMatch(haystack[j], needle)
    ensures FuzzySearch(needle, haystack).1.None?
    ensures ExactMatch(FuzzySearch(needle, haystack).0, needle)
  {
  }

  /** Without any exact match the first mime-type match (ignoring case) is returned. */
  lemma MimeFallback(needle: CodecParameters, haystack: seq<CodecParameters>, i: nat)
    requires i < |haystack|
    requires forall c :: c in haystack ==> !ExactMatch(c, needle)
    requires MimeMatch(haystack[i], needle)
    requires forall j :: 0 <= j < i ==> !MimeMatch(haystack[j], needle)
    ensures FuzzySearch(needle, haystack) == (haystack[i], None)
  {
    FirstExactIs(needle, haystack, |haystack|);
    FirstMimeIs(needle, haystack, i);
  }

  // ---------------------------------------------------------------------
  // NTP timestamps
  // ---------------------------------------------------------------------

  const NanosPerSecond: nat := 1_000_000_000
  const TwoTo32: nat := 0x1_0000_0000
  const TwoTo64: nat := 0x1_0000_0000_0000_0000

  /** The nanoseconds that fit one NTP era: 2^32 seconds. */
  const NtpEraNanos: nat := TwoTo32 * NanosPerSecond

  /** toNtpTime, taking `t.Sub(ntpEpoch)` as its input: nanoseconds since
      1900-01-01 00:00 UTC. The shifts are uint64 operations, so `sec << 32`
      keeps only the low 32 bits of `sec`; `sec<<32 | frac` is a sum because
      `frac` stays below 2^32. The result: whole seconds (modulo the NTP era)
      in the high word, the remainder scaled to 2^-32 s and rounded half up in
      the low word. */
  function ToNtpTime(nsec: uint64): (t: uint64)
    ensures t / TwoTo32 == (nsec / NanosPerSecond) % TwoTo32
    ensures var f, r := t % TwoTo32, nsec % NanosPerSecond;
            2 * f * NanosPerSecond <= 2 * r * TwoTo32 + NanosPerSecond < 2 * (f + 1) * NanosPerSecond
  {
    var sec := nsec / NanosPerSecond;
    var rem := nsec - sec * NanosPerSecond;
    var shifted := (rem * TwoTo32) % TwoTo64;
    var frac := shifted / NanosPerSecond + (if shifted % NanosPerSecond >= NanosPerSecond / 2 then 1 else 0);
    NtpSplit(nsec, sec, rem, shifted, frac);
    (sec * TwoTo32) % TwoTo64 + frac
  }

  lemma NtpSplit(nsec: uint64, sec: nat, rem: nat, shifted: nat, frac: nat)
    requires sec == nsec / NanosPerSecond && rem == nsec - sec * NanosPerSecond
    requires shifted == (rem * TwoTo32) % TwoTo64
    requires frac == shifted / NanosPerSecond + (if shifted % NanosPerSecond >= NanosPerSecond / 2 then 1 else 0)
    ensures rem == nsec % NanosPerSecond && shifted == rem * TwoTo32
    ensures frac < TwoTo32
    ensures 2 * frac * NanosPerSecond <= 2 * rem * TwoTo32 + NanosPerSecond < 2 * (frac + 1) * NanosPerSecond
    ensures (sec * TwoTo32) % TwoTo64 == (sec % TwoTo32) * TwoTo32
    ensures ((sec * TwoTo32) % TwoTo64 + frac) / TwoTo32 == sec % TwoTo32
    ensures ((sec * TwoTo32) % TwoTo64 + frac) % TwoTo32 == frac
  {
    assert rem < NanosPerSecond;
    assert shifted == rem * TwoTo32 by {
      assert rem * TwoTo32 < NanosPerSecond * TwoTo32;
      DivModUnique(rem * TwoTo32, TwoTo64, 0, rem * TwoTo32);
    }
    var q, m := shifted / NanosPerSecond, shifted % NanosPerSecond;
    assert shifted == q * NanosPerSecond + m;
    MulMono(TwoTo32 - 1, q, NanosPerSecond);
    MulMono(rem, NanosPerSecond - 1, TwoTo32);
    assert q < TwoTo32 - 1;
    var s := sec % TwoTo32;
    var k := sec / TwoTo32;
    assert sec == k * TwoTo32 + s;
    assert sec * TwoTo32 == k * TwoTo64 + s * TwoTo32;
    DivModUnique(sec * TwoTo32, TwoTo64, k, s * TwoTo32);
    DivModUnique(s * TwoTo32 + frac, TwoTo32, s, frac);
  }

  /** ntpTime.Duration: seconds times 10^9 plus the 2^-32 s fraction scaled
      to nanoseconds and rounded half up. All products stay below 2^64 and
      the sum below 2^63, so neither the uint64 arithmetic nor the final
      conversion to time.Duration (int64) wraps. */
  function Duration(t: uint64): (d: nat)
    ensures d < 0x8000_0000_0000_0000
    ensures var n := d - t / TwoTo32 * NanosPerSecond;
            0 <= n && 2 * n * TwoTo32 <= 2 * (t % TwoTo32) * NanosPerSecond + TwoTo32 < 2 * (n + 1) * TwoTo32
  {
    var sec := (t / TwoTo32) * NanosPerSecond;
    var frac := (t % TwoTo32) * NanosPerSecond;
    var nsec := frac / TwoTo32 + (if frac % TwoTo32 >= TwoTo32 / 2 then 1 else 0);
    DurationBounds(t, frac, nsec);
    sec + nsec
  }

  lemma DurationBounds(t: uint64, frac: nat, nsec: nat)
    requires frac == (t % TwoTo32) * NanosPerSecond
    requires nsec == frac / TwoTo32 + (if frac % TwoTo32 >= TwoTo32 / 2 then 1 else 0)
    ensures nsec <= NanosPerSecond
    ensures (t / TwoTo32) * NanosPerSecond + nsec < 0x8000_0000_0000_0000
    ensures 2 * nsec * TwoTo32 <= 2 * frac + TwoTo32 < 2 * (nsec + 1) * TwoTo32
  {
    var W, D := TwoTo32, NanosPerSecond;
    var f, s := t % W, t / W;
    var q, m := frac / W, frac % W;
    assert frac == q * W + m && 0 <= m < W;
    MulMono(f, W - 1, D);
    MulMono(D, q, W);
    assert q < D;
    assert s <= W - 1;
    MulMono(s, W - 1, D);
    assert s * D + nsec <= (W - 1) * D + D;
    if m >= W / 2 {
      assert nsec == q + 1;
      assert 2 * nsec * W == 2 * q * W + 2 * W;
      assert 2 * (nsec + 1) * W == 2 * q * W + 4 * W;
    } else {
      assert nsec == q;
      assert 2 * (nsec + 1) * W == 2 * q * W + 2 * W;
    }
  }

  /** Below one NTP era, converting to an NTP timestamp and back is exact:
      2^-32 s is finer than a nanosecond, so rounding twice loses nothing. */
  lemma {:induction false} NtpRoundTrip(n: uint64)
    requires n < NtpEraNanos
    ensures Duration(ToNtpTime(n)) == n
  {
    var t := ToNtpTime(n);
    var D, W := NanosPerSecond, TwoTo32;
    var s, r := n / D, n % D;
    MulMono(W, s, D);
    assert s < W;
    var f := t % W;
    assert t / W == s;
    // f is r * W / D rounded half up, so f * D is within D/2 of r * W.
    assert 2 * f * D <= 2 * r * W + D < 2 * (f + 1) * D;
    var x := f * D;
    var d := Duration(t);
    var back := d - s * D;
    assert 2 * back * W <= 2 * x + W < 2 * (back + 1) * W;
    // x differs from r * W by at most D / 2 < W / 2, so rounding x / W gives r.
    assert 2 * r * W <= 2 * x + W < 2 * (r + 1) * W;
    RoundingUnique(x, W, back, r);
  }

  lemma RoundingUnique(x: int, w: int, a: int, b: int)
    requires w > 0
    requires 2 * a * w <= 2 * x + w < 2 * (a + 1) * w
    requires 2 * b * w <= 2 * x + w < 2 * (b + 1) * w
    ensures a == b
  {
    MulMono(a + 1, b, 2 * w);
    MulMono(b + 1, a, 2 * w);
  }

  /** Stated as an implication so that it can be called on any arguments. */
  lemma MulMono(a: int, b: int, c: int)
    ensures 0 <= c && a <= b ==> a * c <= b * c
  {
    assert b * c - a * c == (b - a) * c;
  }

  lemma DivModUnique(x: int, m: int, q: int, r: int)
    requires m > 0 && 0 <= r < m && x == q * m + r
    ensures x / m == q && x % m == r
  {
    var q', r' := x / m, x % m;
    assert (q - q') * m == r' - r;
    MulMono(1, q - q', m);
    MulMono(1, q' - q, m);
  }
}
