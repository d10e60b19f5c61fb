/** The naming registry's instance row and the host:port form the data plane dials.

    `Itoa` fills a fixed buffer from the right, one digit at a time; `Decimal` is the
    value it must produce.  Distinct (ip, port) pairs get distinct addresses, which is
    what lets every counter, pool and `tried` mark be keyed by the address alone.
  */
module Registry {

  datatype Option<+T> = None | Some(value: T) {
    function UnwrapOr(default: T): T {
      if Some? then value else default
    }
  }

  /** Ports are uint32 in the registry. */
  type Port = p: int | 0 <= p < 0x1_0000_0000

  datatype Instance = Instance(
    serviceName: string, clusterName: string, ip: string, port: Port, weight: real,
    enabled: bool, metadata: map<string, string>)

  function Digit(d: int): char
    requires 0 <= d < 10
  {
    "0123456789"[d]
  }

  function Decimal(n: nat): string {
    if n < 10 then [Digit(n)] else Decimal(n / 10) + [Digit(n % 10)]
  }

  function Addr(i: Instance): string {
    i.ip + ":" + Decimal(i.port)
  }

  /** The digits of `n` without a leading zero; empty for 0, as the source's loop leaves it. */
  function Digits(n: nat): string {
    if n == 0 then [] else Digits(n / 10) + [Digit(n % 10)]
  }

  /** The number a digit string denotes. */
  function Parse(s: string): int {
    if s == [] then 0 else 10 * Parse(s[..|s| - 1]) + (s[|s| - 1] as int - '0' as int)
  }

  lemma {:induction false} DigitsIsDecimal(n: nat)
    requires n > 0
    ensures Digits(n) == Decimal(n)
  {
    if n >= 10 {
      DigitsIsDecimal(n / 10);
    }
  }

  /** Reading a rendered number back gives the number: no two ports render alike. */
  lemma {:induction false} ParseDecimal(n: nat)
    ensures Parse(Decimal(n)) == n
    ensures forall c :: c in Decimal(n) ==> '0' <= c <= '9'
  {
    var s := Decimal(n);
    if n >= 10 {
      ParseDecimal(n / 10);
      assert s[..|s| - 1] == Decimal(n / 10);
    } else {
      assert s[..|s| - 1] == [];
    }
  }

  lemma {:induction false} DigitsLength(n: nat, k: nat)
    requires k <= 11 && n < Power10(k)
    ensures |Digits(n)| <= k
  {
    if n > 0 {
      DigitsLength(n / 10, k - 1);
    }
  }

  function Power10(k: nat): nat {
    if k == 0 then 1 else 10 * Power10(k - 1)
  }

  /** The separator is the last ':' of an address. */
  lemma LastColon(i: Instance)
    ensures |i.ip| < |Addr(i)| && Addr(i)[|i.ip|] == ':'
    ensures forall k :: |i.ip| < k < |Addr(i)| ==> Addr(i)[k] != ':'
  {
    ParseDecimal(i.port);
    forall k | |i.ip| < k < |Addr(i)|
      ensures Addr(i)[k] != ':'
    {
      assert Addr(i)[k] == Decimal(i.port)[k - |i.ip| - 1];
      assert Addr(i)[k] in Decimal(i.port);
    }
  }

  /** Addresses are injective in (ip, port): the last ':' splits them, whatever the ip holds. */
  lemma AddrInjective(a: Instance, b: Instance)
    ensures Addr(a) == Addr(b) <==> a.ip == b.ip && a.port == b.port
  {
    if Addr(a) == Addr(b) {
      LastColon(a);
      LastColon(b);
      var s := Addr(a);
      assert |a.ip| == |b.ip|;
      assert a.ip == s[..|a.ip|] == s[..|b.ip|] == b.ip;
      assert Decimal(a.port) == s[|a.ip| + 1..] == Decimal(b.port);
      ParseDecimal(a.port);
      ParseDecimal(b.port);
    }
  }

  lemma PortDigits(m: nat)
    requires 0 < m < 0x1_0000_0000
    ensures Digits(m) == Decimal(m) && |Digits(m)| <= 10
  {
    DigitsIsDecimal(m);
    assert Power10(10) == 10_000_000_000 by {
      assert Power10(2) == 100;
      assert Power10(4) == 10_000;
      assert Power10(6) == 1_000_000;
      assert Power10(8) == 100_000_000;
    }
    DigitsLength(m, 10);
  }

  /** The source's hand-written integer formatter, for any int a port converts to. */
  method Itoa(n: int) returns (s: string)
    requires -0x1_0000_0000 < n < 0x1_0000_0000
    ensures s == if n >= 0 then Decimal(n) else "-" + Decimal(-n)
  {
    if n == 0 {
      return "0";
    }
    var neg := n < 0;
    var m := if neg then -n else n;
    ghost var all := Digits(m);
    PortDigits(m);
    var buf := new char[12](_ => ' ');
    var i := 12;
    while m > 0
      invariant 0 <= m && 0 <= i <= 12
      invariant |Digits(m)| + 2 <= i
      invariant Digits(m) + buf[i..] == all
    {
      i := i - 1;
      ghost var tail := buf[i + 1..];
      buf[i] := Digit(m % 10);
      assert buf[i..] == [Digit(m % 10)] + tail;
      m := m / 10;
    }
    if neg {
      i := i - 1;
      ghost var tail := buf[i + 1..];
      buf[i] := '-';
      assert buf[i..] == ['-'] + tail;
    }
    s := buf[i..];
  }
}
