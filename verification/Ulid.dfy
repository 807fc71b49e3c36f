/**
 Monotonic ULID generation.

 The generator keeps the last timestamp and the last randomness; the clock and
 the random source are adversarial inputs of every call.
 */
module Ulid {

  /** Crockford base32: I, L, O and U are left out. */
  const CROCKFORD: string := "0123456789ABCDEFGHJKMNPQRSTVWXYZ"

  /** 32^10, the values ten characters can hold. */
  const TIMESTAMP_LIMIT: nat := 0x4_0000_0000_0000

  /** 32^16 == 2^80. */
  const RANDOMNESS_LIMIT: nat := 0x1_0000_0000_0000_0000_0000

  const MAX_RANDOMNESS: nat := RANDOMNESS_LIMIT - 1

  /** 2^79: what a fresh draw, shifted right by one, stays below. */
  const FRESH_LIMIT: nat := 0x8000_0000_0000_0000_0000

  // ---- Encoding -------------------------------------------------------------

  function Encoding(value: int, length: nat): (s: string)
    ensures |s| == length
    ensures forall i :: 0 <= i < length ==> s[i] in CROCKFORD
    decreases length
  {
    if length == 0 then "" else Encoding(value / 32, length - 1) + [CROCKFORD[value % 32]]
  }

  /** The shifting loop, least significant digit first, then reversed. */
  method EncodeBase32(value: int, length: nat) returns (s: string)
    ensures s == Encoding(value, length)
  {
    var chars: string := [];
    var rest := value;
    for i := 0 to length
      invariant Encoding(value, length) == Encoding(rest, length - i) + Reverse(chars)
    {
      OneDigit(rest, length - i, chars);
      chars := chars + [CROCKFORD[rest % 32]];
      rest := rest / 32;
    }
    s := Reverse(chars);
  }

  lemma OneDigit(value: int, length: nat, chars: string)
    requires length > 0
    ensures Encoding(value, length) + Reverse(chars) ==
            Encoding(value / 32, length - 1) + Reverse(chars + [CROCKFORD[value % 32]])
  {
  }

  function Reverse(s: string): string {
    if s == [] then [] else [s[|s| - 1]] + Reverse(s[..|s| - 1])
  }

  function Pow32(n: nat): (p: nat)
    ensures p > 0
  {
    if n == 0 then 1 else 32 * Pow32(n - 1)
  }

  lemma Capacities()
    ensures Pow32(10) == TIMESTAMP_LIMIT && Pow32(16) == RANDOMNESS_LIMIT
  {
    assert Pow32(4) == 0x10_0000;
    assert Pow32(8) == 0x100_0000_0000;
    assert Pow32(12) == 0x1000_0000_0000_0000;
  }

  // ---- Decoding -------------------------------------------------------------

  /** A letter of Crockford base32 by its code, the omitted letters closing ranks. */
  function Digit(c: char): (d: nat)
    ensures d < 32
  {
    if '0' <= c <= '9' then (c - '0') as nat
    else if 'A' <= c <= 'H' then (c - 'A') as nat + 10
    else if 'J' <= c <= 'K' then (c - 'J') as nat + 18
    else if 'M' <= c <= 'N' then (c - 'M') as nat + 20
    else if 'P' <= c <= 'T' then (c - 'P') as nat + 22
    else if 'V' <= c <= 'Z' then (c - 'V') as nat + 27
    else 0
  }

  /** The number a base32 field stands for, most significant character first. */
  function Decoded(s: string): nat {
    if s == "" then 0 else 32 * Decoded(s[..|s| - 1]) + Digit(s[|s| - 1])
  }

  lemma DigitOf(d: nat)
    requires d < 32
    ensures Digit(CROCKFORD[d]) == d
  {
    if d < 16 {
      if d < 8 { FirstDigits(d); } else { SecondDigits(d); }
    } else {
      if d < 24 { ThirdDigits(d); } else { LastDigits(d); }
    }
  }

  lemma FirstDigits(d: nat)
    requires 0 <= d < 8
    ensures Digit(CROCKFORD[d]) == d
  {
    assert CROCKFORD[0] == '0' && CROCKFORD[1] == '1' && CROCKFORD[2] == '2' && CROCKFORD[3] == '3';
    assert CROCKFORD[4] == '4' && CROCKFORD[5] == '5' && CROCKFORD[6] == '6' && CROCKFORD[7] == '7';
  }

  lemma SecondDigits(d: nat)
    requires 8 <= d < 16
    ensures Digit(CROCKFORD[d]) == d
  {
    assert CROCKFORD[8] == '8' && CROCKFORD[9] == '9' && CROCKFORD[10] == 'A' && CROCKFORD[11] == 'B';
    assert CROCKFORD[12] == 'C' && CROCKFORD[13] == 'D' && CROCKFORD[14] == 'E' && CROCKFORD[15] == 'F';
  }

  lemma ThirdDigits(d: nat)
    requires 16 <= d < 24
    ensures Digit(CROCKFORD[d]) == d
  {
    assert CROCKFORD[16] == 'G' && CROCKFORD[17] == 'H' && CROCKFORD[18] == 'J' && CROCKFORD[19] == 'K';
    assert CROCKFORD[20] == 'M' && CROCKFORD[21] == 'N' && CROCKFORD[22] == 'P' && CROCKFORD[23] == 'Q';
  }

  lemma LastDigits(d: nat)
    requires 24 <= d < 32
    ensures Digit(CROCKFORD[d]) == d
  {
    assert CROCKFORD[24] == 'R' && CROCKFORD[25] == 'S' && CROCKFORD[26] == 'T' && CROCKFORD[27] == 'V';
    assert CROCKFORD[28] == 'W' && CROCKFORD[29] == 'X' && CROCKFORD[30] == 'Y' && CROCKFORD[31] == 'Z';
  }

  /** Decoding undoes encoding, up to what the field can hold. */
  lemma {:induction false} DecodesEncoding(value: nat, n: nat)
    ensures Decoded(Encoding(value, n)) == value % Pow32(n)
  {
    if n != 0 {
      DecodesEncoding(value / 32, n - 1);
      DigitOf(value % 32);
      assert Encoding(value, n)[..n - 1] == Encoding(value / 32, n - 1);
      RestOfDivision(value, Pow32(n - 1));
    }
  }

  lemma RestOfDivision(value: nat, p: nat)
    requires p > 0
    ensures value % (32 * p) == 32 * (value / 32 % p) + value % 32
  {
    var q, r := value / 32 / p, value / 32 % p;
    assert value == 32 * (q * p + r) + value % 32;
    assert 32 * (q * p) == q * (32 * p);
    Remainder(value, 32 * p, q, 32 * r + value % 32);
  }

  lemma Remainder(value: nat, p: nat, q: nat, r: nat)
    requires p > 0 && r < p && value == q * p + r
    ensures value % p == r
  {
    var k: int := value / p - q;
    assert k * p == r - value % p;
    assert k > 0 ==> k * p >= p;
    assert k < 0 ==> k * p + p <= 0;
  }

  // ---- Lexicographic order --------------------------------------------------

  predicate LexLess(a: string, b: string) {
    b != "" && (a == "" || a[0] < b[0] || (a[0] == b[0] && LexLess(a[1..], b[1..])))
  }

  lemma {:induction false} LexAsymmetric(a: string, b: string)
    requires LexLess(a, b)
    ensures !LexLess(b, a)
  {
    if a != "" && a[0] == b[0] { LexAsymmetric(a[1..], b[1..]); }
  }

  lemma {:induction false} LexTransitive(a: string, b: string, c: string)
    requires LexLess(a, b) && LexLess(b, c)
    ensures LexLess(a, c)
  {
    if a != "" && a[0] == b[0] == c[0] { LexTransitive(a[1..], b[1..], c[1..]); }
  }

  /** Fixed-width fields compare field by field. */
  lemma {:induction false} LexFields(a: string, a': string, b: string, b': string)
    requires |a| == |b|
    ensures LexLess(a + a', b + b') <==> LexLess(a, b) || (a == b && LexLess(a', b'))
  {
    if a == "" {
      assert a + a' == a' && b + b' == b';
    } else {
      assert (a + a')[1..] == a[1..] + a' && (b + b')[1..] == b[1..] + b';
      LexFields(a[1..], a', b[1..], b');
      assert a == [a[0]] + a[1..] && b == [b[0]] + b[1..];
    }
  }

  lemma {:induction false} AlphabetAscends(i: nat, j: nat)
    requires i < j < 32
    ensures CROCKFORD[i] < CROCKFORD[j]
  {
    if i + 1 < j { AlphabetAscends(i, j - 1); }
    assert forall k :: 0 <= k < 31 ==> CROCKFORD[k] < CROCKFORD[k + 1];
  }

  /** The fixed-length encoding is injective and preserves order, in both directions. */
  lemma {:induction false} EncodingPreservesOrder(u: nat, v: nat, n: nat)
    requires u < Pow32(n) && v < Pow32(n)
    ensures u < v <==> LexLess(Encoding(u, n), Encoding(v, n))
    ensures u == v <==> Encoding(u, n) == Encoding(v, n)
  {
    if n != 0 {
      var x, y := CROCKFORD[u % 32], CROCKFORD[v % 32];
      EncodingPreservesOrder(u / 32, v / 32, n - 1);
      LexFields(Encoding(u / 32, n - 1), [x], Encoding(v / 32, n - 1), [y]);
      if u % 32 < v % 32 { AlphabetAscends(u % 32, v % 32); }
      if v % 32 < u % 32 { AlphabetAscends(v % 32, u % 32); }
      assert Encoding(u, n)[..n - 1] == Encoding(u / 32, n - 1) && Encoding(u, n)[n - 1] == x;
      assert Encoding(v, n)[..n - 1] == Encoding(v / 32, n - 1) && Encoding(v, n)[n - 1] == y;
    }
  }

  /** One past the capacity wraps to zero: the field has no carry. */
  lemma {:induction false} EncodingWraps(n: nat)
    ensures Encoding(Pow32(n), n) == Encoding(0, n)
  {
    if n != 0 {
      assert Pow32(n) / 32 == Pow32(n - 1) && Pow32(n) % 32 == 0;
      EncodingWraps(n - 1);
    }
  }

  // ---- The generator --------------------------------------------------------

  datatype State = State(timestamp: int, randomness: int)

  const INITIAL := State(-1, 0)

  predicate InRange(s: State) {
    0 <= s.timestamp < TIMESTAMP_LIMIT && 0 <= s.randomness < RANDOMNESS_LIMIT
  }

  /** One reading of the clock and of ten random bytes. */
  datatype Input = Input(clock: int, draw: int)

  predicate ValidInput(i: Input) {
    0 <= i.clock < TIMESTAMP_LIMIT && 0 <= i.draw < RANDOMNESS_LIMIT
  }

  function Advance(s: State, i: Input): State {
    if i.clock == s.timestamp then
      if s.randomness >= MAX_RANDOMNESS then State(i.clock + 1, i.draw / 2)
      else State(i.clock, s.randomness + 1)
    else if i.clock < s.timestamp then
      State(s.timestamp, s.randomness + 1)
    else
      State(i.clock, i.draw / 2)
  }

  function Render(s: State): string {
    Encoding(s.timestamp, 10) + Encoding(s.randomness, 16)
  }

  /** The timestamp an identifier carries. */
  function Stamp(id: string): nat
    requires |id| == 26
  {
    Decoded(id[..10])
  }

  /** The randomness an identifier carries. */
  function Entropy(id: string): nat
    requires |id| == 26
  {
    Decoded(id[10..])
  }

  lemma RenderIs(s: State)
    ensures Render(s) == Encoding(s.timestamp, 10) + Encoding(s.randomness, 16)
  {
  }

  /** An identifier carries the state it is rendered from. */
  lemma Carries(s: State, id: string)
    requires id == Render(s)
    ensures |id| == 26
    ensures InRange(s) ==> Stamp(id) == s.timestamp && Entropy(id) == s.randomness
  {
    hide Encoding, Decoded, Pow32;
    if InRange(s) {
      Capacities();
      FieldCarries(s.timestamp, 10);
      FieldCarries(s.randomness, 16);
      assert id[..10] == Encoding(s.timestamp, 10) && id[10..] == Encoding(s.randomness, 16);
    }
  }

  lemma FieldCarries(value: nat, n: nat)
    requires value < Pow32(n)
    ensures Decoded(Encoding(value, n)) == value
  {
    hide Encoding, Decoded, Pow32;
    DecodesEncoding(value, n);
  }

  class Generator {
    var lastTimestamp: int
    var lastRandomness: int

    function Current(): State
      reads this
    {
      State(lastTimestamp, lastRandomness)
    }

    constructor ()
      ensures Current() == INITIAL
    {
      lastTimestamp, lastRandomness := -1, 0;
    }

    method NewUlid(input: Input) returns (id: string)
      modifies this
      ensures Current() == Advance(old(Current()), input)
      ensures id == Render(Current()) && |id| == 26
      ensures ValidInput(input) && input.clock > old(lastTimestamp) ==>
                Stamp(id) == input.clock && Entropy(id) == input.draw / 2
      ensures InRange(old(Current())) && input.clock <= old(lastTimestamp) && old(lastRandomness) < MAX_RANDOMNESS ==>
                Stamp(id) == old(lastTimestamp) && Entropy(id) == old(lastRandomness) + 1
    {
      hide Encoding, Render, Stamp, Entropy;
      var timestamp := input.clock;
      if timestamp == lastTimestamp {
        if lastRandomness >= MAX_RANDOMNESS {
          timestamp := timestamp + 1;
          lastRandomness := input.draw / 2;
        } else {
          lastRandomness := lastRandomness + 1;
        }
      } else if timestamp < lastTimestamp {
        timestamp := lastTimestamp;
        lastRandomness := lastRandomness + 1;
      } else {
        lastRandomness := input.draw / 2;
      }
      lastTimestamp := timestamp;
      var high := EncodeBase32(timestamp, 10);
      var low := EncodeBase32(lastRandomness, 16);
      id := high + low;
      RenderIs(Current());
      Carries(Current(), id);
    }
  }

  // ---- Monotonicity ---------------------------------------------------------

  predicate Before(s: State, t: State) {
    s.timestamp < t.timestamp || (s.timestamp == t.timestamp && s.randomness < t.randomness)
  }

  lemma RenderPreservesOrder(s: State, t: State)
    requires InRange(s) && InRange(t)
    ensures Before(s, t) <==> LexLess(Render(s), Render(t))
  {
    Capacities();
    EncodingPreservesOrder(s.timestamp, t.timestamp, 10);
    EncodingPreservesOrder(s.randomness, t.randomness, 16);
    LexFields(Encoding(s.timestamp, 10), Encoding(s.randomness, 16), Encoding(t.timestamp, 10),
              Encoding(t.randomness, 16));
  }

  /** A call made with the randomness exhausted and no later millisecond to move to. */
  predicate Exhausted(s: State, i: Input) {
    s.randomness == MAX_RANDOMNESS &&
    (i.clock < s.timestamp || (i.clock == s.timestamp && i.clock == TIMESTAMP_LIMIT - 1))
  }

  /** The next identifier sorts after the last one exactly when the call is not an exhausted one. */
  lemma StepIncreasesIff(s: State, i: Input)
    requires InRange(s) && ValidInput(i)
    ensures LexLess(Render(s), Render(Advance(s, i))) <==> !Exhausted(s, i)
  {
    var t := Advance(s, i);
    if !Exhausted(s, i) {
      RenderPreservesOrder(s, t);
    } else {
      Capacities();
      if i.clock < s.timestamp {
        EncodingWraps(16);
        assert Render(t) == Render(State(s.timestamp, 0));
        RenderPreservesOrder(State(s.timestamp, 0), s);
      } else {
        EncodingWraps(10);
        assert Render(t) == Render(State(0, t.randomness));
        RenderPreservesOrder(State(0, t.randomness), s);
      }
      LexAsymmetric(Render(t), Render(s));
    }
  }

  /** The states after each of the calls. */
  function Run(s: State, inputs: seq<Input>): (states: seq<State>)
    ensures |states| == |inputs|
  {
    if inputs == [] then
      []
    else
      var front := Run(s, inputs[..|inputs| - 1]);
      front + [Advance(if front == [] then s else front[|front| - 1], inputs[|inputs| - 1])]
  }

  /** After n calls the randomness is still within n - 1 increments of a fresh draw. */
  lemma {:induction false} RunInRange(inputs: seq<Input>, k: nat)
    requires |inputs| < FRESH_LIMIT && forall i :: 0 <= i < |inputs| ==> ValidInput(inputs[i])
    requires k < |inputs|
    ensures var s := Run(INITIAL, inputs)[k]; 0 <= s.timestamp < TIMESTAMP_LIMIT && 0 <= s.randomness < FRESH_LIMIT + k
    ensures k > 0 ==> Run(INITIAL, inputs)[k] == Advance(Run(INITIAL, inputs)[k - 1], inputs[k])
  {
    var n := |inputs| - 1;
    if k < n {
      RunInRange(inputs[..n], k);
    } else if k > 0 {
      RunInRange(inputs[..n], k - 1);
    }
  }

  /** The first reading of the greatest clock among the first k + 1. */
  ghost predicate LeadingClock(inputs: seq<Input>, k: nat, i: nat)
    requires k < |inputs|
  {
    i <= k && (forall j :: 0 <= j <= k ==> inputs[j].clock <= inputs[i].clock) &&
    forall j :: 0 <= j < i ==> inputs[j].clock < inputs[i].clock
  }

  lemma {:induction false} LeadingState(inputs: seq<Input>, k: nat) returns (i: nat)
    requires |inputs| < FRESH_LIMIT && forall j :: 0 <= j < |inputs| ==> ValidInput(inputs[j])
    requires k < |inputs|
    ensures LeadingClock(inputs, k, i)
    ensures Run(INITIAL, inputs)[k] == State(inputs[i].clock, inputs[i].draw / 2 + (k - i))
  {
    hide Run;
    RunInRange(inputs, k);
    if k == 0 {
      FirstState(inputs);
      i := 0;
    } else {
      i := LeadingState(inputs, k - 1);
      if inputs[k].clock > inputs[i].clock { i := k; }
    }
  }

  lemma {:induction false} FirstState(inputs: seq<Input>)
    requires inputs != []
    ensures Run(INITIAL, inputs)[0] == Advance(INITIAL, inputs[0])
  {
    if |inputs| > 1 { FirstState(inputs[..|inputs| - 1]); }
  }

  /**
   What the identifiers of a run are, for every clock and fewer than 2^79 calls: each carries the greatest clock read
   so far, and the draw made when that was first read, halved, plus one for each call since.
   */
  lemma RunCarriesClock(inputs: seq<Input>, k: nat) returns (i: nat)
    requires |inputs| < FRESH_LIMIT && forall j :: 0 <= j < |inputs| ==> ValidInput(inputs[j])
    requires k < |inputs|
    ensures LeadingClock(inputs, k, i)
    ensures var id := Render(Run(INITIAL, inputs)[k]);
            |id| == 26 && Stamp(id) == inputs[i].clock && Entropy(id) == inputs[i].draw / 2 + (k - i)
  {
    hide Run;
    i := LeadingState(inputs, k);
    RunInRange(inputs, k);
    Carries(Run(INITIAL, inputs)[k], Render(Run(INITIAL, inputs)[k]));
  }

  /** Every identifier of a run sorts after every earlier one, whatever the clock does. */
  lemma {:induction false} RunStrictlyIncreases(inputs: seq<Input>, i: nat, j: nat)
    requires |inputs| < FRESH_LIMIT && forall k :: 0 <= k < |inputs| ==> ValidInput(inputs[k])
    requires i < j < |inputs|
    ensures var states := Run(INITIAL, inputs); LexLess(Render(states[i]), Render(states[j]))
    decreases j
  {
    var states := Run(INITIAL, inputs);
    RunInRange(inputs, j - 1);
    RunInRange(inputs, j);
    StepIncreasesIff(states[j - 1], inputs[j]);
    if i < j - 1 {
      RunStrictlyIncreases(inputs, i, j - 1);
      LexTransitive(Render(states[i]), Render(states[j - 1]), Render(states[j]));
    }
  }

  /** Twenty-six characters of the alphabet, whatever the state. */
  lemma RenderIsUlid(s: State)
    ensures |Render(s)| == 26 && forall i :: 0 <= i < 26 ==> Render(s)[i] in CROCKFORD
  {
  }
}
