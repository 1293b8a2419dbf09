/** The string operations of the Python standard library that the tool relies
    on: str(int), str.split(",", 1)[0], os.path.join and str.encode('latin-1'). */
module Text {
  import opened Results

  newtype byte = x: int | 0 <= x < 0x100

  // ---------------------------------------------------------------------------
  // str(n) for a non-negative int, and its inverse int(s)

  function DigitChar(d: nat): (c: char)
    requires d < 10
    ensures '0' <= c <= '9' && c as int - '0' as int == d
  {
    (d + '0' as int) as char
  }

  /** Decimal rendering of n without leading zeros, as Python's str(n). */
  function NatToString(n: nat): (s: string)
    ensures 1 <= |s|
    decreases n
  {
    if n < 10 then [DigitChar(n)] else NatToString(n / 10) + [DigitChar(n % 10)]
  }

  /** str(n) is made of decimal digits only. */
  lemma {:induction false} NatToStringDigits(n: nat)
    ensures forall k | 0 <= k < |NatToString(n)| :: '0' <= NatToString(n)[k] <= '9'
    decreases n
  {
    if n >= 10 {
      NatToStringDigits(n / 10);
      var s := NatToString(n);
      assert forall k | 0 <= k < |s| - 1 :: s[k] == NatToString(n / 10)[k];
    }
  }

  /** Python's int(s), read digit by digit from the right; on a string of
      decimal digits it is the number the digits spell. */
  function ParseNat(s: string): int
    decreases |s|
  {
    if s == [] then 0
    else ParseNat(s[..|s| - 1]) * 10 + (s[|s| - 1] as int - '0' as int)
  }

  /** int(str(n)) == n. */
  lemma {:induction false} ParseNatToString(n: nat)
    ensures ParseNat(NatToString(n)) == n
    decreases n
  {
    var s := NatToString(n);
    if n >= 10 {
      ParseNatToString(n / 10);
      assert s[..|s| - 1] == NatToString(n / 10);
    }
  }

  /** Different numbers are rendered differently. */
  lemma NatToStringInjective(m: nat, n: nat)
    requires m != n
    ensures NatToString(m) != NatToString(n)
  {
    ParseNatToString(m);
    ParseNatToString(n);
  }

  // ---------------------------------------------------------------------------
  // s.split(",", 1)[0]

  /** The index of the first comma in s at or after from, or |s| when there
      is none. */
  function CommaIndex(s: string, from: nat): (r: nat)
    requires from <= |s|
    ensures from <= r <= |s|
    ensures r < |s| ==> s[r] == ','
    decreases |s| - from
  {
    if from == |s| || s[from] == ',' then from else CommaIndex(s, from + 1)
  }

  /** No comma lies between from and CommaIndex(s, from). */
  lemma {:induction false} CommaIndexFirst(s: string, from: nat)
    requires from <= |s|
    ensures forall j | from <= j < CommaIndex(s, from) :: s[j] != ','
    decreases |s| - from
  {
    if from < |s| && s[from] != ',' {
      CommaIndexFirst(s, from + 1);
    }
  }

  /** The first field of s.split(",", 1): everything before the first comma,
      or the whole string when it has none. */
  function BeforeFirstComma(s: string): string
  {
    s[..CommaIndex(s, 0)]
  }

  /** The first field is a prefix of s without a comma, and s continues
      after it with a comma unless the field is all of s. */
  lemma BeforeFirstCommaSplits(s: string)
    ensures BeforeFirstComma(s) <= s
    ensures ',' !in BeforeFirstComma(s)
    ensures |BeforeFirstComma(s)| < |s| ==> s[|BeforeFirstComma(s)|] == ','
  {
    CommaIndexFirst(s, 0);
  }

  /** A string without a comma is kept whole. */
  lemma NoCommaKeptWhole(s: string)
    requires ',' !in s
    ensures BeforeFirstComma(s) == s
  {
    BeforeFirstCommaSplits(s);
  }

  // ---------------------------------------------------------------------------
  // os.path.join(directory, name) on a POSIX system

  const SEP: char := '/'

  function PathJoin(directory: string, name: string): string
  {
    if |name| > 0 && name[0] == SEP then name
    else if directory == [] || directory[|directory| - 1] == SEP then directory + name
    else directory + [SEP] + name
  }

  /** A relative name is appended to a prefix fixed by the directory alone, so
      two different relative names give two different paths. */
  lemma PathJoinInjective(directory: string, a: string, b: string)
    requires a != b
    requires |a| > 0 && a[0] != SEP && |b| > 0 && b[0] != SEP
    ensures PathJoin(directory, a) != PathJoin(directory, b)
  {
    var prefix := if directory == [] || directory[|directory| - 1] == SEP then directory
                  else directory + [SEP];
    assert PathJoin(directory, a) == prefix + a;
    assert PathJoin(directory, b) == prefix + b;
    assert (prefix + a)[|prefix|..] == a && (prefix + b)[|prefix|..] == b;
  }

  // ---------------------------------------------------------------------------
  // s.encode('latin-1')

  /** Every character has a code point that fits in one byte. */
  predicate IsLatin1(s: string)
  {
    forall k | 0 <= k < |s| :: s[k] as int < 0x100
  }

  /** str.encode('latin-1'): the bytes of s, one per character, or the index
      at which UnicodeEncodeError reports the first character out of range. */
  function EncodeLatin1(s: string): (r: Result<seq<byte>, nat>)
    ensures r.Success? <==> IsLatin1(s)
    ensures r.Success? ==>
              |r.value| == |s| && forall k | 0 <= k < |s| :: r.value[k] as int == s[k] as int
    ensures r.Failure? ==> r.error < |s| && s[r.error] as int >= 0x100 && IsLatin1(s[..r.error])
    decreases |s|
  {
    if s == [] then Success([])
    else if s[0] as int >= 0x100 then Failure(0)
    else
      match EncodeLatin1(s[1..])
      case Success(tail) => Success([s[0] as int as byte] + tail)
      case Failure(at) => Failure(at + 1)
  }

  /** bytes.decode('latin-1'): one character per byte. */
  function DecodeLatin1(bytes: seq<byte>): (s: string)
    ensures IsLatin1(s)
  {
    seq(|bytes|, k requires 0 <= k < |bytes| => bytes[k] as int as char)
  }

  /** Decoding what was encoded gives back the string, and encoding what was
      decoded gives back the bytes. */
  lemma Latin1RoundTrip(s: string, bytes: seq<byte>)
    ensures IsLatin1(s) ==> EncodeLatin1(s).Success? && DecodeLatin1(EncodeLatin1(s).value) == s
    ensures EncodeLatin1(DecodeLatin1(bytes)) == Success(bytes)
  {
    var e := EncodeLatin1(DecodeLatin1(bytes));
    assert e.value == bytes;
  }
}
