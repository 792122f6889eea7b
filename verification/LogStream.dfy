/** Printing integers into a log record. */
module LogStreams {
  import opened FixedBuffers

  const MAX_NUMERIC_SIZE: nat := 48
  const DIGITS: seq<char> := "9876543210123456789"
  const ZERO: nat := 9

  /** Division and remainder of C: toward zero, the remainder with the dividend's sign. */
  function Quot(a: int, b: nat): (q: int)
    requires b > 0
  {
    if a >= 0 then a / b else -(-a / b)
  }

  function Rem(a: int, b: nat): (r: int)
    requires b > 0
  {
    if a >= 0 then a % b else -(-a % b)
  }

  function Abs(a: int): nat { if a >= 0 then a else -a }

  // ---------------------------------------------------------------- decimal numerals

  function DigitChar(d: nat): char
    requires d < 10
  {
    '0' + d as char
  }

  /** The decimal digits of a number, most significant first. */
  function Digits(n: nat): (s: string)
    ensures |s| > 0
  {
    if n < 10 then [DigitChar(n)] else Digits(n / 10) + [DigitChar(n % 10)]
  }

  /** The canonical numeral of an integer. */
  function Numeral(v: int): string {
    if v < 0 then "-" + Digits(-v) else Digits(v)
  }

  predicate IsDigit(c: char) { '0' <= c <= '9' }

  function DigitValue(c: char): nat
    requires IsDigit(c)
  {
    c as int - '0' as int
  }

  /** The value of a digit string, as one reads it. */
  function Value(s: string): (n: nat)
    requires forall i :: 0 <= i < |s| ==> IsDigit(s[i])
  {
    if s == [] then 0 else Value(s[..|s| - 1]) * 10 + DigitValue(s[|s| - 1])
  }

  datatype Parsed = NotANumber | Number(value: int)

  /** Reads an integer: an optional minus sign and at least one digit. */
  function Parse(s: string): Parsed {
    if s != [] && s[0] == '-' then
      if |s| > 1 && forall i :: 1 <= i < |s| ==> IsDigit(s[i]) then Number(-(Value(s[1..]) as int)) else NotANumber
    else
      if s != [] && forall i :: 0 <= i < |s| ==> IsDigit(s[i]) then Number(Value(s)) else NotANumber
  }

  lemma {:induction false} DigitsRead(n: nat)
    ensures forall i :: 0 <= i < |Digits(n)| ==> IsDigit(Digits(n)[i])
    ensures Value(Digits(n)) == n
  {
    if n >= 10 {
      DigitsRead(n / 10);
      assert Digits(n)[..|Digits(n)| - 1] == Digits(n / 10);
    }
  }

  /** Printing and reading give the number back. */
  lemma NumeralParses(v: int)
    ensures Parse(Numeral(v)) == Number(v)
  {
    DigitsRead(Abs(v));
    if v < 0 {
      assert Numeral(v)[1..] == Digits(-v);
    }
  }

  /** No leading zeros. */
  lemma {:induction false} DigitsCanonical(n: nat)
    ensures |Digits(n)| > 1 ==> Digits(n)[0] != '0'
  {
    if n >= 10 {
      DigitsCanonical(n / 10);
      if n / 10 < 10 {
        assert Digits(n / 10)[0] == DigitChar(n / 10);
      }
    }
  }

  function Power10(k: nat): (p: nat)
    ensures p > 0
  {
    if k == 0 then 1 else 10 * Power10(k - 1)
  }

  lemma {:induction false} DigitsLength(n: nat, k: nat)
    requires k > 0 && n < Power10(k)
    ensures |Digits(n)| <= k
  {
    if n >= 10 {
      DigitsLength(n / 10, k - 1);
    }
  }

  const MIN64: int := -0x8000_0000_0000_0000
  const LIMIT64: int := 0x1_0000_0000_0000_0000

  /** An integer of up to 64 bits takes at most 20 characters. */
  lemma NumeralLength(v: int)
    requires MIN64 <= v < LIMIT64
    ensures |Numeral(v)| <= 20
  {
    Power10At20();
    if v < 0 {
      DigitsLength(-v, 19);
    } else {
      DigitsLength(v, 20);
    }
  }

  lemma Power10At20()
    ensures Power10(19) == 10_000_000_000_000_000_000 && Power10(20) == 100_000_000_000_000_000_000
  {
    assert Power10(5) == 100_000;
    assert Power10(10) == 10_000_000_000;
    assert Power10(15) == 1_000_000_000_000_000;
  }

  // ---------------------------------------------------------------- printing in place

  function Reversed<T>(s: seq<T>): (r: seq<T>)
    ensures |r| == |s|
    ensures forall i :: 0 <= i < |s| ==> r[i] == s[|s| - 1 - i]
  {
    seq(|s|, i requires 0 <= i < |s| => s[|s| - 1 - i])
  }

  /** Writes the numeral of `val` at `buf[at..]`: digits as they come out of the division,
      least significant first, a sign behind them, then everything reversed. */
  method ConvertInteger(buf: array<char>, at: nat, val: int) returns (n: nat)
    requires MIN64 <= val < LIMIT64 && at + MAX_NUMERIC_SIZE <= buf.Length
    modifies buf
    ensures n == |Numeral(val)| <= 20 && buf[at..at + n] == Numeral(val)
    ensures buf[..at] == old(buf[..at]) && buf[at + n..] == old(buf[at + n..])
  {
    hide Digits, Numeral;
    NumeralLength(val);
    var cur := PutReversed(buf, at, val);
    Reverse(buf, at, cur);
    ReversedTwice(Numeral(val));
    n := cur - at;
  }

  /** The digits and the sign, before std::reverse. */
  method PutReversed(buf: array<char>, at: nat, val: int) returns (cur: nat)
    requires at + |Numeral(val)| <= buf.Length
    modifies buf
    ensures cur == at + |Numeral(val)| && buf[at..cur] == Reversed(Numeral(val))
    ensures buf[..at] == old(buf[..at]) && buf[cur..] == old(buf[cur..])
  {
    hide Digits, Numeral;
    NumeralParts(val);
    cur := PutDigits(buf, at, val);
    if val < 0 {
      ReversedSnoc(Digits(Abs(val)), '-');
      buf[cur] := '-';
      assert buf[at..cur + 1] == buf[at..cur] + ['-'];
      cur := cur + 1;
    }
  }

  lemma NumeralParts(v: int)
    ensures Numeral(v) == (if v < 0 then ['-'] else []) + Digits(Abs(v))
  {
  }

  lemma ReversedSnoc<T>(s: seq<T>, x: T)
    ensures Reversed(s) + [x] == Reversed([x] + s)
  {
  }

  lemma ReversedTwice<T>(s: seq<T>)
    ensures Reversed(Reversed(s)) == s
  {
  }

  /** The do-while loop of ConvertInteger. */
  method PutDigits(buf: array<char>, at: nat, val: int) returns (cur: nat)
    requires at + |Digits(Abs(val))| <= buf.Length
    modifies buf
    ensures cur == at + |Digits(Abs(val))| && buf[at..cur] == Reversed(Digits(Abs(val)))
    ensures buf[..at] == old(buf[..at]) && buf[cur..] == old(buf[cur..])
  {
    hide Digits;
    cur := at;
    var i := val;
    var more := true;
    ghost var all := Digits(Abs(val));
    while more
      invariant at <= cur <= at + |all|
      invariant more ==> cur < at + |all| && all[..|all| - (cur - at)] == Digits(Abs(i))
      invariant !more ==> cur == at + |all|
      invariant forall k :: at <= k < cur ==> buf[k] == all[|all| - 1 - (k - at)]
      invariant buf[..at] == old(buf[..at]) && buf[cur..] == old(buf[cur..])
      decreases more, Abs(i)
    {
      LastDigit(i);
      buf[cur] := DIGITS[ZERO + Rem(i, 10)];
      cur := cur + 1;
      i := Quot(i, 10);
      more := i != 0;
    }
  }

  /** One step of the division: the table holds the digit for a remainder of either sign. */
  lemma LastDigit(i: int)
    ensures -10 < Rem(i, 10) < 10 && Abs(Quot(i, 10)) == Abs(i) / 10
    ensures DIGITS[ZERO + Rem(i, 10)] == DigitChar(Abs(i) % 10)
    ensures Digits(Abs(i)) == (if Abs(i) < 10 then [] else Digits(Abs(i) / 10)) + [DigitChar(Abs(i) % 10)]
  {
  }

  /** std::reverse on a stretch of the buffer. */
  method Reverse(buf: array<char>, first: nat, last: nat)
    requires first <= last <= buf.Length
    modifies buf
    ensures buf[first..last] == Reversed(old(buf[first..last]))
    ensures buf[..first] == old(buf[..first]) && buf[last..] == old(buf[last..])
  {
    var lo, hi: int := first, last;
    while lo < hi - 1
      invariant first <= lo <= hi + 1 && hi <= last && lo - first == last - hi
      invariant forall k :: first <= k < lo ==> buf[k] == old(buf[first + last - 1 - k])
      invariant forall k :: hi <= k < last ==> buf[k] == old(buf[first + last - 1 - k])
      invariant forall k :: 0 <= k < first || lo <= k < hi || last <= k < buf.Length ==> buf[k] == old(buf[k])
      decreases hi - lo
    {
      hi := hi - 1;
      buf[lo], buf[hi] := buf[hi], buf[lo];
      lo := lo + 1;
    }
  }

  // ---------------------------------------------------------------- the stream

  /** operator<< for integers: printed whole, or not at all when the room is short. */
  method PutInteger(buffer: FixedBuffer, val: int)
    requires buffer.Valid() && MIN64 <= val < LIMIT64
    modifies buffer, buffer.storage
    ensures buffer.Valid()
    ensures buffer.Contents() == old(buffer.Contents()) + (if old(buffer.GetAvail()) >= MAX_NUMERIC_SIZE then Numeral(val) else [])
  {
    hide Numeral;
    if buffer.GetAvail() >= MAX_NUMERIC_SIZE {
      var n := ConvertInteger(buffer.storage, buffer.end, val);
      ghost var e := buffer.end;
      buffer.Add(n);
      assert buffer.storage[..e + n] == buffer.storage[..e] + buffer.storage[e..e + n];
    }
  }
}
