/** Task ids of the form T-001: formatting, parsing and allocation
    (pc_launcher/artifact_workspace.py and nas_bridge/app/session_service.py). */
module TaskKeys {
  import opened Text

  predicate IsDigit(c: char)
  {
    '0' <= c <= '9'
  }

  predicate AllDigits(s: string)
  {
    forall k :: 0 <= k < |s| ==> IsDigit(s[k])
  }

  function DigitOf(d: nat): (c: char)
    requires d < 10
    ensures IsDigit(c)
  {
    '0' + d as char
  }

  /** Plain decimal notation. */
  function Decimal(n: nat): (r: string)
    ensures |r| > 0 && AllDigits(r)
  {
    if n < 10 then [DigitOf(n)] else Decimal(n / 10) + [DigitOf(n % 10)]
  }

  /** The value of a digit string, most significant digit first. */
  function Parse(ds: string): nat
    requires AllDigits(ds)
  {
    if |ds| == 0 then 0
    else 10 * Parse(ds[..|ds| - 1]) + (ds[|ds| - 1] - '0') as nat
  }

  function Zeros(n: nat): (r: string)
    ensures |r| == n && AllDigits(r)
  {
    seq(n, _ => '0')
  }

  /** Python's f"T-{n:03d}". */
  function Format(n: nat): string
  {
    var d := Decimal(n);
    "T-" + (if |d| < 3 then Zeros(3 - |d|) else []) + d
  }

  /** The number of a canonical key, read after stripping blanks; None for any other key. */
  function Number(key: string): Option<nat>
  {
    var k := Trim(key, PySpace);
    if |k| >= 3 && k[0] in {'T', 't'} && k[1] == '-' && AllDigits(k[2..]) then Some(Parse(k[2..])) else None
  }

  /** The numbers of the canonical keys among keys. */
  function Numbers(keys: seq<string>): seq<nat>
  {
    if |keys| == 0 then []
    else
      var rest := Numbers(keys[1..]);
      match Number(keys[0])
      case None => rest
      case Some(n) => [n] + rest
  }

  lemma {:induction false} NumbersHolds(keys: seq<string>, k: string, n: nat)
    requires k in keys && Number(k) == Some(n)
    ensures n in Numbers(keys)
  {
    if keys[0] != k {
      NumbersHolds(keys[1..], k, n);
    }
  }

  function Max(ns: seq<nat>): (r: nat)
    requires |ns| > 0
    ensures r in ns && forall n :: n in ns ==> n <= r
  {
    if |ns| == 1 then ns[0]
    else
      var rest := Max(ns[1..]);
      assert forall n :: n in ns ==> n == ns[0] || n in ns[1..];
      if rest < ns[0] then ns[0] else rest
  }

  /** One more than the highest number in use, starting at 1. */
  function NextNumber(keys: seq<string>): nat
  {
    var ns := Numbers(keys);
    if |ns| > 0 then Max(ns) + 1 else 1
  }

  function Allocate(keys: seq<string>): string
  {
    Format(NextNumber(keys))
  }

  lemma {:induction false} ParseDecimal(n: nat)
    ensures Parse(Decimal(n)) == n
  {
    if n >= 10 {
      ParseDecimal(n / 10);
      var d := Decimal(n);
      assert d[..|d| - 1] == Decimal(n / 10);
    } else {
      assert Decimal(n)[..0] == [];
    }
  }

  lemma {:induction false} LeadingZeros(z: nat, d: string)
    requires AllDigits(d)
    ensures AllDigits(Zeros(z) + d) && Parse(Zeros(z) + d) == Parse(d)
  {
    var w := Zeros(z) + d;
    if |w| > 0 {
      if |d| > 0 {
        LeadingZeros(z, d[..|d| - 1]);
        assert w[..|w| - 1] == Zeros(z) + d[..|d| - 1];
      } else {
        LeadingZeros(z - 1, d);
        assert w[..|w| - 1] == Zeros(z - 1) + d;
      }
    }
  }

  /** Parsing inverts the zero-padded format for every number. */
  lemma NumberOfFormat(n: nat)
    ensures Number(Format(n)) == Some(n)
  {
    var d := Decimal(n);
    var z := if |d| < 3 then 3 - |d| else 0;
    var f := Format(n);
    assert f == "T-" + (Zeros(z) + d);
    LeadingZeros(z, d);
    ParseDecimal(n);
    assert f[2..] == Zeros(z) + d;
    assert !PySpace(f[0]) && f[|f| - 1] == d[|d| - 1] && !PySpace(f[|f| - 1]);
    TrimClean(f, PySpace);
  }

  lemma AllocatedNumber(keys: seq<string>)
    ensures Number(Allocate(keys)) == Some(NextNumber(keys))
  {
    NumberOfFormat(NextNumber(keys));
  }

  lemma NumberedBelow(keys: seq<string>, k: string)
    requires k in keys && Number(k).Some?
    ensures Number(k).value < NextNumber(keys)
  {
    NumbersHolds(keys, k, Number(k).value);
  }

  /** An allocated id is new, whatever keys are present, and numbered above all of them. */
  lemma AllocateIsFresh(keys: seq<string>)
    ensures Allocate(keys) !in keys
    ensures Number(Allocate(keys)).Some?
    ensures forall k :: k in keys && Number(k).Some? ==> Number(k).value < Number(Allocate(keys)).value
  {
    AllocatedNumber(keys);
    forall k | k in keys && Number(k).Some? ensures Number(k).value < NextNumber(keys) { NumberedBelow(keys, k); }
  }
}
