// core/types.py: run ids. A ULID is 48 bits of milliseconds and 80 bits of randomness in 26
// characters of Crockford base 32 (ULID specification, sections "Encoding", "Sorting" and
// "Monotonicity").
module Ulid {

  datatype Result<+T> = Ok(value: T) | Err(message: string)

  type Byte = b: int | 0 <= b < 256

  const CROCKFORD: string := "0123456789ABCDEFGHJKMNPQRSTVWXYZ"
  const LENGTH: nat := 26
  const MS_RANGE: nat := 0x1_0000_0000_0000
  const RAND_RANGE: nat := 0x1_0000_0000_0000_0000_0000
  const ID_RANGE: nat := MS_RANGE * RAND_RANGE

  // The alphabet by code points: five letters are left out, I, L, O and U among them.
  function Symbol(d: nat): char
    requires d < 32
  {
    (d + if d < 10 then 48 else if d < 18 then 55 else if d < 20 then 56
         else if d < 22 then 57 else if d < 27 then 58 else 59) as char
  }

  predicate IsSymbol(c: char) {
    '0' <= c <= '9' || 'A' <= c <= 'H' || 'J' <= c <= 'K' || 'M' <= c <= 'N' || 'P' <= c <= 'T' || 'V' <= c <= 'Z'
  }

  function DigitOf(c: char): (d: nat)
    requires IsSymbol(c)
    ensures d < 32 && Symbol(d) == c
  {
    c as int - if c <= '9' then 48 else if c <= 'H' then 55 else if c <= 'K' then 56
               else if c <= 'N' then 57 else if c <= 'T' then 58 else 59
  }

  lemma AlphabetIsCrockford()
    ensures |CROCKFORD| == 32
    ensures forall d :: 0 <= d < 32 ==> CROCKFORD[d] == Symbol(d)
    ensures forall c :: c in CROCKFORD <==> IsSymbol(c)
  {
    assert forall d :: 0 <= d < 32 ==> CROCKFORD[d] == Symbol(d);
    forall c: char | IsSymbol(c) ensures c in CROCKFORD {
      assert CROCKFORD[DigitOf(c)] == c;
    }
  }

  lemma SymbolsAscend(d: nat, e: nat)
    requires d < 32 && e < 32
    ensures IsSymbol(Symbol(d)) && DigitOf(Symbol(d)) == d
    ensures d < e <==> Symbol(d) < Symbol(e)
    ensures d == e <==> Symbol(d) == Symbol(e)
  {
  }

  // --- base 32, most significant digit first ---

  function Pow32(len: nat): (p: nat)
    ensures p > 0
  {
    if len == 0 then 1 else 32 * Pow32(len - 1)
  }

  function Digits(n: nat, len: nat): (s: string)
    ensures |s| == len
    ensures AllCrockford(s)
  {
    if len == 0 then [] else SymbolsAscend(n % 32, 0); Digits(n / 32, len - 1) + [Symbol(n % 32)]
  }

  predicate AllCrockford(s: string) {
    forall i :: 0 <= i < |s| ==> IsSymbol(s[i])
  }

  function Number(s: string): nat
    requires AllCrockford(s)
  {
    if s == [] then 0 else 32 * Number(s[..|s| - 1]) + DigitOf(s[|s| - 1])
  }

  // Decoding undoes encoding, within the range of the length.
  lemma {:induction false} NumberOfDigits(n: nat, len: nat)
    requires n < Pow32(len)
    ensures Number(Digits(n, len)) == n
  {
    if len > 0 {
      NumberOfDigits(n / 32, len - 1);
      SymbolsAscend(n % 32, 0);
      assert Digits(n, len)[..len - 1] == Digits(n / 32, len - 1);
    }
  }

  lemma LastDigit(n: nat, d: nat)
    requires d < 32
    ensures (32 * n + d) / 32 == n && (32 * n + d) % 32 == d
  {
  }

  // Encoding undoes decoding, and decoding stays in range.
  lemma {:induction false} DigitsOfNumber(s: string)
    requires AllCrockford(s)
    ensures Number(s) < Pow32(|s|) && Digits(Number(s), |s|) == s
  {
    if s != [] {
      DigitsOfNumber(s[..|s| - 1]);
      LastDigit(Number(s[..|s| - 1]), DigitOf(s[|s| - 1]));
      assert s == s[..|s| - 1] + [s[|s| - 1]];
    }
  }

  // Python's comparison of strings: by code point at the first difference.
  predicate Less(a: string, b: string) {
    b != [] && (a == [] || a[0] < b[0] || (a[0] == b[0] && Less(a[1..], b[1..])))
  }

  lemma {:induction false} LessSnoc(a: string, x: char, b: string, y: char)
    requires |a| == |b|
    ensures Less(a + [x], b + [y]) <==> Less(a, b) || (a == b && x < y)
  {
    if a == [] {
      assert (a + [x])[1..] == [] && (b + [y])[1..] == [];
    } else {
      assert (a + [x])[1..] == a[1..] + [x] && (b + [y])[1..] == b[1..] + [y];
      LessSnoc(a[1..], x, b[1..], y);
      assert a == b <==> a[0] == b[0] && a[1..] == b[1..];
    }
  }

  // Fixed-width encoding is an order isomorphism onto its image.
  lemma {:induction false} DigitsOrder(n: nat, m: nat, len: nat)
    requires n < Pow32(len) && m < Pow32(len)
    ensures n < m <==> Less(Digits(n, len), Digits(m, len))
    ensures n == m <==> Digits(n, len) == Digits(m, len)
  {
    NumberOfDigits(n, len);
    NumberOfDigits(m, len);
    if len > 0 {
      DigitsOrder(n / 32, m / 32, len - 1);
      LessSnoc(Digits(n / 32, len - 1), Symbol(n % 32), Digits(m / 32, len - 1), Symbol(m % 32));
      SymbolsAscend(n % 32, m % 32);
      Split(n, m);
    }
  }

  lemma Split(n: nat, m: nat)
    ensures n < m <==> n / 32 < m / 32 || (n / 32 == m / 32 && n % 32 < m % 32)
  {
  }

  lemma {:induction false} Pow32Adds(a: nat, b: nat)
    ensures Pow32(a + b) == Pow32(a) * Pow32(b)
  {
    if a > 0 {
      Pow32Adds(a - 1, b);
      assert 32 * (Pow32(a - 1) * Pow32(b)) == (32 * Pow32(a - 1)) * Pow32(b);
    }
  }

  // 26 digits hold 130 bits: four times the 128 an id has.
  lemma RangeOfLength()
    ensures Pow32(LENGTH) == 4 * ID_RANGE
  {
    assert Pow32(2) == 0x400 by { assert Pow32(1) == 32; }
    Pow32Adds(2, 2);
    Pow32Adds(4, 4);
    Pow32Adds(8, 8);
    Pow32Adds(16, 8);
    Pow32Adds(24, 2);
    assert Pow32(4) == 0x10_0000;
    assert Pow32(8) == 0x100_0000_0000;
    assert Pow32(16) == 0x1_0000_0000_0000_0000_0000;
  }

  // --- _encode_ulid ---

  function BigEndian(bytes: seq<Byte>): nat {
    if bytes == [] then 0 else 256 * BigEndian(bytes[..|bytes| - 1]) + bytes[|bytes| - 1]
  }

  function IdNumber(ms: int, rand: nat): nat {
    (ms % MS_RANGE) * RAND_RANGE + rand
  }

  function CrockfordAt(d: nat): (c: char)
    requires d < 32
    ensures c == Symbol(d)
  {
    AlphabetIsCrockford();
    CROCKFORD[d]
  }

  // One step of the loop: the digit written last is the most significant one so far.
  lemma OneMoreDigit(n: nat, len: nat, out: string)
    requires len > 0
    ensures Digits(n, len) + Reverse(out) == Digits(n / 32, len - 1) + Reverse(out + [Symbol(n % 32)])
  {
  }

  method EncodeUlid(ms: int, rand: seq<Byte>) returns (r: Result<string>)
    ensures r.Err? <==> |rand| != 10
    ensures r.Ok? ==> r.value == Digits(IdNumber(ms, BigEndian(rand)), LENGTH)
  {
    if |rand| != 10 {
      return Err("ULID randomness must be 10 bytes");
    }
    var n: nat := (ms % MS_RANGE) * RAND_RANGE;
    n := n + BigEndian(rand);
    var out: seq<char> := [];
    ghost var n0 := n;
    for k := 0 to LENGTH
      invariant |out| == k
      invariant Digits(n0, LENGTH) == Digits(n, LENGTH - k) + Reverse(out)
    {
      OneMoreDigit(n, LENGTH - k, out);
      out := out + [CrockfordAt(n % 32)];
      n := n / 32;
    }
    return Ok(Reverse(out));
  }

  function Reverse(s: string): string {
    if s == [] then [] else [s[|s| - 1]] + Reverse(s[..|s| - 1])
  }

  // --- RunId.validate ---

  method Validate(v: string) returns (r: Result<string>)
    ensures r.Ok? <==> |v| == LENGTH && AllCrockford(v)
    ensures r.Ok? ==> r.value == v
  {
    if |v| != LENGTH {
      return Err("invalid RunId");
    }
    AlphabetIsCrockford();
    for i := 0 to |v|
      invariant forall j :: 0 <= j < i ==> IsSymbol(v[j])
    {
      if v[i] !in CROCKFORD {
        return Err("invalid RunId char");
      }
    }
    return Ok(v);
  }

  // Every number below 2^128 has one 26-character string; it decodes back to the number,
  // validates, and the strings sort as the numbers do.
  lemma UlidIsOrderIsomorphism(n: nat, m: nat)
    requires n < ID_RANGE && m < ID_RANGE
    ensures var s, t := Digits(n, LENGTH), Digits(m, LENGTH);
            && |s| == LENGTH && AllCrockford(s) && Number(s) == n
            && (n < m <==> Less(s, t)) && (n == m <==> s == t)
  {
    RangeOfLength();
    NumberOfDigits(n, LENGTH);
    DigitsOrder(n, m, LENGTH);
  }

  // What validate accepts is more than what is ever minted: a valid string is the encoding of
  // an id exactly when its first character is at most '7'.
  lemma ValidIsMintableIffFirstDigitSmall(v: string)
    requires |v| == LENGTH && AllCrockford(v)
    ensures (exists n: nat :: n < ID_RANGE && Digits(n, LENGTH) == v) <==> v[0] <= '7'
  {
    RangeOfLength();
    DigitsOfNumber(v);
    FirstDigit(v);
    var d := DigitOf(v[0]);
    SymbolsAscend(d, 7);
    SymbolsAscend(7, d);
    Pow32Adds(1, 25);
    assert Pow32(1) == 32 * Pow32(0);
    EighthOfRange(d, Pow32(LENGTH - 1), Number(v));
    if d > 7 {
      forall n: nat | n < ID_RANGE ensures Digits(n, LENGTH) != v {
        NumberOfDigits(n, LENGTH);
      }
    }
  }

  lemma EighthOfRange(d: nat, q: nat, n: nat)
    requires 32 * q == 4 * ID_RANGE && d * q <= n < (d + 1) * q
    ensures n < ID_RANGE <==> d <= 7
  {
  }

  lemma {:induction false} FirstDigit(v: string)
    requires v != [] && AllCrockford(v)
    ensures DigitOf(v[0]) * Pow32(|v| - 1) <= Number(v) < (DigitOf(v[0]) + 1) * Pow32(|v| - 1)
  {
    if |v| == 1 {
      assert v[..0] == [];
      assert Number(v[..0]) == 0;
    } else {
      var w := v[..|v| - 1];
      FirstDigit(w);
      ScaleBounds(DigitOf(v[0]), Pow32(|w| - 1), Number(w), DigitOf(v[|v| - 1]));
    }
  }

  lemma ScaleBounds(d: nat, p: nat, n: nat, x: nat)
    requires d * p <= n < (d + 1) * p && x < 32
    ensures d * (32 * p) <= 32 * n + x < (d + 1) * (32 * p)
  {
    assert d * (32 * p) == 32 * (d * p);
    assert (d + 1) * (32 * p) == 32 * ((d + 1) * p);
  }

  // --- RunId.new ---

  // _last_ulid: the milliseconds and randomness of the last id minted.
  datatype Last = NoId | LastId(ms: int, rand: nat)

  function Mint(last: Last, clock: int, random: nat): Last {
    if last.LastId? && last.ms >= clock then LastId(last.ms, (last.rand + 1) % RAND_RANGE)
    else LastId(clock, random)
  }

  function IdOf(last: Last): string
    requires last.LastId?
  {
    Digits(IdNumber(last.ms, last.rand), LENGTH)
  }

  predicate InRange(last: Last) {
    last.LastId? ==> 0 <= last.ms < MS_RANGE && last.rand < RAND_RANGE
  }

  // The 80-bit counter is full and the clock has not moved on.
  predicate Wraps(last: Last, clock: int) {
    last.LastId? && last.ms >= clock && last.rand == RAND_RANGE - 1
  }

  predicate Before(a: Last, b: Last)
    requires a.LastId? && b.LastId?
  {
    a.ms < b.ms || (a.ms == b.ms && a.rand < b.rand)
  }

  lemma IdNumberOrder(a: Last, b: Last)
    requires a.LastId? && b.LastId? && InRange(a) && InRange(b)
    ensures IdNumber(a.ms, a.rand) < ID_RANGE && IdNumber(b.ms, b.rand) < ID_RANGE
    ensures IdNumber(a.ms, a.rand) < IdNumber(b.ms, b.rand) <==> Before(a, b)
  {
  }

  lemma MintOrder(last: Last, clock: int, random: nat)
    requires last.LastId? && InRange(last) && 0 <= clock < MS_RANGE && random < RAND_RANGE
    ensures var next := Mint(last, clock, random);
            next.LastId? && InRange(next) && (Before(last, next) <==> !Wraps(last, clock))
  {
  }

  // The next id sorts after the last one exactly when the counter does not wrap.
  lemma MintAscendsIffNoWrap(last: Last, clock: int, random: nat)
    requires last.LastId? && InRange(last) && 0 <= clock < MS_RANGE && random < RAND_RANGE
    ensures var next := Mint(last, clock, random);
            InRange(next) && (Less(IdOf(last), IdOf(next)) <==> !Wraps(last, clock))
  {
    MintOrder(last, clock, random);
    IdsSort(last, Mint(last, clock, random));
  }

  // The counter is full and the clock stands still: the next id sorts before the last.
  lemma FullCounterSortsBack(ms: nat, random: nat)
    requires ms < MS_RANGE && random < RAND_RANGE
    ensures var last := LastId(ms, RAND_RANGE - 1); var next := Mint(last, ms, random);
            next == LastId(ms, 0) && Less(IdOf(next), IdOf(last))
  {
    IdsSort(LastId(ms, 0), LastId(ms, RAND_RANGE - 1));
  }

  lemma IdsSort(a: Last, b: Last)
    requires a.LastId? && b.LastId? && InRange(a) && InRange(b)
    ensures Less(IdOf(a), IdOf(b)) <==> Before(a, b)
  {
    IdNumberOrder(a, b);
    UlidIsOrderIsomorphism(IdNumber(a.ms, a.rand), IdNumber(b.ms, b.rand));
  }

  // The milliseconds and the randomness an id holds, decoded.
  function Milliseconds(id: string): nat
    requires AllCrockford(id)
  {
    Number(id) / RAND_RANGE
  }

  function Randomness(id: string): nat
    requires AllCrockford(id)
  {
    Number(id) % RAND_RANGE
  }

  // What an id says: the clock's milliseconds and the randomness when the clock has moved on, and
  // otherwise the last id's milliseconds and the next count.
  lemma MintedIdDecodes(last: Last, clock: int, random: nat)
    requires InRange(last) && 0 <= clock < MS_RANGE && random < RAND_RANGE
    ensures var next := Mint(last, clock, random);
            next.LastId? && |IdOf(next)| == LENGTH && AllCrockford(IdOf(next))
            && if last == NoId || last.ms < clock then
                 Milliseconds(IdOf(next)) == clock && Randomness(IdOf(next)) == random
               else
                 && Milliseconds(IdOf(next)) == last.ms
                 && Randomness(IdOf(next)) == if last.rand == RAND_RANGE - 1 then 0 else last.rand + 1
  {
    IdDecodes(Mint(last, clock, random));
  }

  lemma IdDecodes(id: Last)
    requires id.LastId? && InRange(id)
    ensures |IdOf(id)| == LENGTH && AllCrockford(IdOf(id))
    ensures Milliseconds(IdOf(id)) == id.ms && Randomness(IdOf(id)) == id.rand
  {
    IdNumberOrder(id, id);
    UlidIsOrderIsomorphism(IdNumber(id.ms, id.rand), 0);
    IdNumberSplits(id.ms, id.rand);
  }

  lemma IdNumberSplits(ms: int, rand: nat)
    requires 0 <= ms < MS_RANGE && rand < RAND_RANGE
    ensures IdNumber(ms, rand) / RAND_RANGE == ms && IdNumber(ms, rand) % RAND_RANGE == rand
  {
  }

  // One reading per call, taken before the lock is: readings reach the locked section in any
  // order and with any values.
  datatype Reading = Reading(clock: int, random: nat)

  function State(readings: seq<Reading>): Last {
    if readings == [] then NoId
    else
      var r := readings[|readings| - 1];
      Mint(State(readings[..|readings| - 1]), r.clock, r.random)
  }

  predicate Sane(r: Reading) {
    0 <= r.clock < MS_RANGE && r.random < RAND_RANGE
  }

  lemma {:induction false} StateInRange(readings: seq<Reading>)
    requires forall k :: 0 <= k < |readings| ==> Sane(readings[k])
    ensures InRange(State(readings)) && (readings != [] ==> State(readings).LastId?)
  {
    if readings != [] {
      StateInRange(readings[..|readings| - 1]);
    }
  }

  // Over any clock readings, even going backwards, every id minted sorts after every earlier
  // one, as long as no call in between wraps the counter.
  lemma {:induction false} MintedIdsAscend(readings: seq<Reading>, i: nat, j: nat)
    requires forall k :: 0 <= k < |readings| ==> Sane(readings[k])
    requires 0 < i < j <= |readings|
    requires forall k :: i <= k < j ==> !Wraps(State(readings[..k]), readings[k].clock)
    ensures State(readings[..i]).LastId? && State(readings[..j]).LastId?
    ensures Less(IdOf(State(readings[..i])), IdOf(State(readings[..j])))
    decreases j
  {
    StateInRange(readings[..i]);
    MintedNext(readings, j);
    if i < j - 1 {
      MintedIdsAscend(readings, i, j - 1);
      LessTransitive(IdOf(State(readings[..i])), IdOf(State(readings[..j - 1])), IdOf(State(readings[..j])));
    }
  }

  lemma MintedNext(readings: seq<Reading>, j: nat)
    requires forall k :: 0 <= k < |readings| ==> Sane(readings[k])
    requires 1 < j <= |readings| && !Wraps(State(readings[..j - 1]), readings[j - 1].clock)
    ensures State(readings[..j - 1]).LastId? && State(readings[..j]).LastId?
    ensures Less(IdOf(State(readings[..j - 1])), IdOf(State(readings[..j])))
  {
    StateInRange(readings[..j - 1]);
    var r := readings[j - 1];
    assert readings[..j][..j - 1] == readings[..j - 1];
    MintAscendsIffNoWrap(State(readings[..j - 1]), r.clock, r.random);
  }

  lemma {:induction false} LessTransitive(a: string, b: string, c: string)
    requires Less(a, b) && Less(b, c)
    ensures Less(a, c)
  {
    if a != [] && a[0] == b[0] == c[0] {
      LessTransitive(a[1..], b[1..], c[1..]);
    }
  }

  class RunIdMinter {
    var lastUlid: Last

    predicate Valid()
      reads this
    {
      lastUlid.LastId? ==> lastUlid.rand < RAND_RANGE
    }

    constructor ()
      ensures Valid() && lastUlid == NoId
    {
      lastUlid := NoId;
    }

    // The locked section of RunId.new, and the id it returns.
    method New(clock: int, random: seq<Byte>) returns (id: string)
      requires |random| == 10 && Valid()
      modifies this
      ensures Valid() && lastUlid == Mint(old(lastUlid), clock, BigEndian(random))
      ensures id == IdOf(lastUlid)
    {
      var ms, rand := clock, 0;
      if lastUlid.LastId? && lastUlid.ms >= ms {
        ms := lastUlid.ms;
        rand := (lastUlid.rand + 1) % RAND_RANGE;
      } else {
        rand := BigEndian(random);
      }
      lastUlid := LastId(ms, rand);
      var bytes := ToBytes(rand, 10);
      BytesRoundTrip(rand, 10);
      TenBytes(random);
      var r := EncodeUlid(ms, bytes);
      id := r.value;
    }
  }

  function ToBytes(n: nat, len: nat): (b: seq<Byte>)
    ensures |b| == len
  {
    if len == 0 then [] else ToBytes(n / 256, len - 1) + [n % 256]
  }

  function Pow256(len: nat): nat {
    if len == 0 then 1 else 256 * Pow256(len - 1)
  }

  lemma {:induction false} BytesRoundTrip(n: nat, len: nat)
    ensures n < Pow256(len) ==> BigEndian(ToBytes(n, len)) == n
  {
    if len > 0 {
      BytesRoundTrip(n / 256, len - 1);
      assert ToBytes(n, len)[..len - 1] == ToBytes(n / 256, len - 1);
    }
  }

  lemma {:induction false} BigEndianRange(bytes: seq<Byte>)
    ensures BigEndian(bytes) < Pow256(|bytes|)
  {
    if bytes != [] {
      BigEndianRange(bytes[..|bytes| - 1]);
    }
  }

  lemma TenBytes(bytes: seq<Byte>)
    requires |bytes| == 10
    ensures BigEndian(bytes) < RAND_RANGE == Pow256(10)
  {
    BigEndianRange(bytes);
    assert Pow256(2) == 0x1_0000 && Pow256(4) == 0x1_0000_0000 && Pow256(6) == 0x1_0000_0000_0000;
    assert Pow256(8) == 0x1_0000_0000_0000_0000;
  }
}
