/** ULID generation: 26 Crockford base-32 digits that sort like the numbers they encode (src/karc/util.py). */
module Ulid {
  import opened Collections
  import StringOrder

  const B32: string := "0123456789ABCDEFGHJKMNPQRSTVWXYZ"

  /** 80 random bits. */
  const RANDS: int := 0x1_0000_0000_0000_0000_0000

  /** 50 bits: what the 26 digits leave for the time. */
  const TIMES: int := 0x4_0000_0000_0000

  const LENGTH: nat := 26

  /** (ts << 80) | rand, where rand has 80 bits. */
  function Value(ts: int, rand: nat): int
    requires rand < RANDS
  {
    ts * RANDS + rand
  }

  /** The last n base-32 digits of a number, most significant first; a negative number wraps as in two's complement. */
  function Encode(value: int, n: nat): (s: string)
    ensures |s| == n
    decreases n
  {
    if n == 0 then "" else Encode(value / 32, n - 1) + [B32[value % 32]]
  }

  function Digit(c: char): (d: nat)
    ensures d < 32
  {
    if c in B32 then IndexOf(B32, c) else 0
  }

  function Decode(s: string): nat {
    if s == "" then 0 else 32 * Decode(s[..|s| - 1]) + Digit(s[|s| - 1])
  }

  function Pow32(n: nat): (r: nat)
    ensures r >= 1
  {
    if n == 0 then 1 else 32 * Pow32(n - 1)
  }

  // ----- the alphabet -----

  /** The alphabet is listed in ASCII order. */
  lemma Ascending(i: nat, j: nat)
    requires i < j < 32
    ensures B32[i] < B32[j]
    decreases j - i
  {
    if i + 1 == j {
      Adjacent(i);
    } else {
      Ascending(i + 1, j);
      Adjacent(i);
    }
  }

  lemma Adjacent(i: nat)
    requires i < 31
    ensures B32[i] < B32[i + 1]
  {
  }

  lemma DigitOfChar(d: nat)
    requires d < 32
    ensures Digit(B32[d]) == d
  {
    var i := IndexOf(B32, B32[d]);
    if i < d {
      Ascending(i, d);
    } else if d < i {
      Ascending(d, i);
    }
  }

  // ----- the loop -----

  lemma {:induction false} EncodeSplit(value: int, k: nat, n: nat)
    requires k <= n
    ensures Encode(value, n) == Encode(Shifted(value, k), n - k) + Encode(value, k)
    decreases k
  {
    if k > 0 {
      EncodeSplit(value / 32, k - 1, n - 1);
      assert Shifted(value / 32, k - 1) == Shifted(value, k);
    } else {
      assert Encode(value, n) + "" == Encode(value, n);
    }
  }

  /** k right shifts by five bits. */
  function Shifted(value: int, k: nat): int
    decreases k
  {
    if k == 0 then value else Shifted(value / 32, k - 1)
  }

  lemma {:induction false} ShiftedSnoc(value: int, k: nat)
    ensures Shifted(value, k + 1) == Shifted(value, k) / 32
    decreases k
  {
    if k > 0 {
      ShiftedSnoc(value / 32, k - 1);
    }
  }

  function Reversed(s: string): (r: string)
    ensures |r| == |s|
  {
    if s == "" then "" else [s[|s| - 1]] + Reversed(s[..|s| - 1])
  }

  lemma EncodeMore(value: int, k: nat)
    ensures Encode(value, k + 1) == [B32[Shifted(value, k) % 32]] + Encode(value, k)
  {
    EncodeSplit(value, k, k + 1);
    var v := Shifted(value, k);
    assert Encode(v, 1) == Encode(v / 32, 0) + [B32[v % 32]];
  }

  /** new_ulid for a given time and given random bits. */
  method NewUlid(ts: int, rand: nat) returns (ulid: string)
    requires rand < RANDS
    ensures ulid == Encode(Value(ts, rand), LENGTH)
  {
    var value := Value(ts, rand);
    ghost var start := value;
    var chars := "";
    for k := 0 to LENGTH
      invariant value == Shifted(start, k)
      invariant Reversed(chars) == Encode(start, k)
    {
      EncodeMore(start, k);
      ShiftedSnoc(start, k);
      assert (chars + [B32[value % 32]])[..|chars|] == chars;
      chars := chars + [B32[value % 32]];
      value := value / 32;
    }
    ulid := Reversed(chars);
  }

  // ----- decoding -----

  lemma {:induction false} DecodeEncode(value: int, n: nat)
    ensures Decode(Encode(value, n)) == value % Pow32(n)
    decreases n
  {
    if n > 0 {
      var s := Encode(value / 32, n - 1);
      DecodeEncode(value / 32, n - 1);
      assert (s + [B32[value % 32]])[..n - 1] == s;
      DigitOfChar(value % 32);
      RemainderStep(value, Pow32(n - 1));
    }
  }

  lemma RemainderStep(value: int, p: nat)
    requires p >= 1
    ensures 32 * ((value / 32) % p) + value % 32 == value % (32 * p)
  {
    var q, d := value / 32, value % 32;
    var a, r := q / p, q % p;
    assert value == 32 * q + d && q == a * p + r;
    UniqueRemainder(value, 32 * p, a, 32 * r + d);
  }

  lemma UniqueRemainder(v: int, m: int, q: int, r: int)
    requires m > 0 && 0 <= r < m && v == q * m + r
    ensures v % m == r && v / m == q
  {
    var a, b := v / m, v % m;
    assert v == a * m + b;
    if a < q {
      Gap(a, q, m);
    } else if q < a {
      Gap(q, a, m);
    }
  }

  lemma Gap(a: int, b: int, m: int)
    requires a < b && m > 0
    ensures a * m + m <= b * m
  {
    assert (b - a - 1) * m >= 0;
    assert b * m == a * m + m + (b - a - 1) * m;
  }

  lemma {:induction false} Pow32Add(m: nat, n: nat)
    ensures Pow32(m + n) == Pow32(m) * Pow32(n)
  {
    if m > 0 {
      Pow32Add(m - 1, n);
      Associate(Pow32(m - 1), Pow32(n));
    }
  }

  lemma Associate(p: nat, q: nat)
    ensures 32 * p * q == 32 * (p * q)
  {
  }

  lemma Powers()
    ensures Pow32(10) == TIMES && Pow32(16) == RANDS && Pow32(LENGTH) == TIMES * RANDS
  {
    assert Pow32(2) == 0x400;
    Pow32Add(2, 2);
    Pow32Add(4, 4);
    Pow32Add(8, 8);
    Pow32Add(8, 2);
    Pow32Add(10, 16);
  }

  lemma ValueRange(ts: int, rand: nat)
    requires rand < RANDS
    ensures 0 <= Value(ts, rand) < Pow32(LENGTH) <==> 0 <= ts < TIMES
  {
    Powers();
  }

  /** The round trip: the time and the random bits come back exactly when the time fits 50 bits; 48 suffice. */
  lemma RoundTrip(ts: int, rand: nat)
    requires rand < RANDS
    ensures var v := Decode(Encode(Value(ts, rand), LENGTH));
      v / RANDS == ts && v % RANDS == rand <==> 0 <= ts < TIMES
  {
    var value := Value(ts, rand);
    ValueRange(ts, rand);
    DecodeEncode(value, LENGTH);
    Wrapped(value, Pow32(LENGTH), ts, rand);
  }

  /** A number keeps its two parts under wrapping exactly when it does not wrap. */
  lemma Wrapped(value: int, m: nat, ts: int, rand: nat)
    requires m > 0 && rand < RANDS && value == ts * RANDS + rand
    ensures (value % m) / RANDS == ts && (value % m) % RANDS == rand <==> 0 <= value < m
  {
    var v := value % m;
    UniqueRemainder(value, RANDS, ts, rand);
    assert v == (v / RANDS) * RANDS + v % RANDS;
    if 0 <= value < m {
      UniqueRemainder(value, m, 0, value);
    }
  }

  // ----- order -----

  lemma {:induction false} LessSnoc(a: string, b: string, c: char, d: char)
    requires |a| == |b|
    ensures StringOrder.Less(a + [c], b + [d]) <==> StringOrder.Less(a, b) || (a == b && c < d)
  {
    if a == "" {
      assert a + [c] == [c] && b + [d] == [d];
    } else {
      assert (a + [c])[1..] == a[1..] + [c] && (b + [d])[1..] == b[1..] + [d];
      LessSnoc(a[1..], b[1..], c, d);
      assert a == [a[0]] + a[1..] && b == [b[0]] + b[1..];
    }
  }

  lemma {:induction false} EncodeOrder(a: int, b: int, n: nat)
    requires 0 <= a < Pow32(n) && 0 <= b < Pow32(n)
    ensures StringOrder.Less(Encode(a, n), Encode(b, n)) <==> a < b
    ensures Encode(a, n) == Encode(b, n) <==> a == b
  {
    if n > 0 {
      var x, y := Encode(a / 32, n - 1), Encode(b / 32, n - 1);
      EncodeOrder(a / 32, b / 32, n - 1);
      LessSnoc(x, y, B32[a % 32], B32[b % 32]);
      CharOrder(a % 32, b % 32);
      assert (x + [B32[a % 32]])[..n - 1] == x && (y + [B32[b % 32]])[..n - 1] == y;
    }
  }

  lemma CharOrder(i: nat, j: nat)
    requires i < 32 && j < 32
    ensures B32[i] < B32[j] <==> i < j
    ensures B32[i] == B32[j] <==> i == j
  {
    if i < j {
      Ascending(i, j);
    } else if j < i {
      Ascending(j, i);
    }
  }

  lemma ValueOrder(ts: int, rand: nat, ts': int, rand': nat)
    requires rand < RANDS && rand' < RANDS
    ensures Value(ts, rand) < Value(ts', rand') <==> ts < ts' || (ts == ts' && rand < rand')
    ensures Value(ts, rand) == Value(ts', rand') <==> ts == ts' && rand == rand'
  {
  }

  /** ASCII order of two identifiers is the order of their (time, random bits) pairs, for times of up to 50 bits. */
  lemma SortsByTimeThenRandom(ts: int, rand: nat, ts': int, rand': nat)
    requires rand < RANDS && rand' < RANDS
    requires 0 <= ts < TIMES && 0 <= ts' < TIMES
    ensures var a, b := Encode(Value(ts, rand), LENGTH), Encode(Value(ts', rand'), LENGTH);
      && (StringOrder.Less(a, b) <==> ts < ts' || (ts == ts' && rand < rand'))
      && (a == b <==> ts == ts' && rand == rand')
  {
    ValueRange(ts, rand);
    ValueRange(ts', rand');
    ValueOrder(ts, rand, ts', rand');
    EncodeOrder(Value(ts, rand), Value(ts', rand'), LENGTH);
  }
}
