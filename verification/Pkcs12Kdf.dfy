/** The PKCS#12 key derivation of the Linux agent against Appendix B.2 of
    RFC 7292, with SHA-1 as any function into 20-byte digests. */
module Pkcs12Kdf {
  import opened Wrappers

  type Digest = d: Bytes | |d| == 20 witness seq(20, i => 0)

  // ------------------------------------------------------ big-endian numbers

  function Pow256(n: nat): (r: nat)
    ensures r > 0
  {
    if n == 0 then 1 else 256 * Pow256(n - 1)
  }

  /** big.Int.SetBytes. */
  function Number(b: Bytes): nat {
    if b == [] then 0 else 256 * Number(b[..|b| - 1]) + b[|b| - 1]
  }

  /** big.Int.Bytes: no leading zero byte. */
  function Minimal(x: nat): Bytes {
    if x == 0 then [] else Minimal(x / 256) + [x % 256]
  }

  /** The low `n` bytes of a number. */
  ghost function Fixed(n: nat, x: nat): (b: Bytes)
    ensures |b| == n
  {
    if n == 0 then [] else Fixed(n - 1, x / 256) + [x % 256]
  }

  lemma ModStep(x: nat, p: nat)
    requires p > 0
    ensures 256 * (x / 256 % p) + x % 256 == x % (256 * p)
  {
    var q, r := x / 256, x % 256;
    var a, b := q / p, q % p;
    assert x == 256 * q + r && q == p * a + b;
    assert x == 256 * p * a + (256 * b + r) by {
      assert 256 * q == 256 * (p * a) + 256 * b;
      assert 256 * (p * a) == 256 * p * a;
    }
    assert 0 <= 256 * b + r < 256 * p;
    DivModUnique(x, 256 * p, a, 256 * b + r);
  }

  lemma MulAtLeast(d: int, e: int)
    requires d > 0 && e >= 1
    ensures d * e >= d
  {
  }

  lemma DivModUnique(x: int, d: int, q: int, r: int)
    requires d > 0 && x == d * q + r && 0 <= r < d
    ensures x % d == r
  {
    var k, m := x / d, x % d;
    var e := k - q;
    assert d * e == d * k - d * q;
    if e >= 1 {
      MulAtLeast(d, e);
    } else if e <= -1 {
      MulAtLeast(d, -e);
      assert d * -e == -(d * e);
    } else {
      assert d * e == 0;
    }
  }

  /** Reading the low bytes of a number gives it modulo the block size. */
  lemma {:induction false} FixedNumber(n: nat, x: nat)
    ensures Number(Fixed(n, x)) == x % Pow256(n)
  {
    if n > 0 {
      FixedNumber(n - 1, x / 256);
      assert Fixed(n, x)[..n - 1] == Fixed(n - 1, x / 256);
      ModStep(x, Pow256(n - 1));
    }
  }

  /** A block is determined by its length and number. */
  lemma {:induction false} NumberUnique(a: Bytes, b: Bytes)
    requires |a| == |b| && Number(a) == Number(b)
    ensures a == b
  {
    if a != [] {
      var n := |a| - 1;
      assert Number(a) % 256 == a[n] && Number(b) % 256 == b[n];
      NumberUnique(a[..n], b[..n]);
      assert a == a[..n] + [a[n]] && b == b[..n] + [b[n]];
    }
  }

  function Zeros(n: nat): (r: Bytes)
    ensures |r| == n
  {
    seq(n, i => 0)
  }

  /** Cutting a minimal encoding to its low bytes, or padding it with zeros. */
  lemma {:induction false} MinimalFixed(n: nat, x: nat)
    ensures var m := Minimal(x);
            if |m| >= n then m[|m| - n..] == Fixed(n, x) else Zeros(n - |m|) + m == Fixed(n, x)
  {
    var m := Minimal(x);
    if n == 0 {
    } else if x == 0 {
      MinimalFixed(n - 1, 0);
      assert Zeros(n) == Zeros(n - 1) + [0];
    } else {
      MinimalFixed(n - 1, x / 256);
      var rest := Minimal(x / 256);
      assert m == rest + [x % 256];
      if |m| >= n {
        assert m[|m| - n..] == rest[|rest| - (n - 1)..] + [x % 256];
      } else {
        assert Zeros(n - |m|) + m == (Zeros(n - 1 - |rest|) + rest) + [x % 256];
      }
    }
  }

  // ------------------------------------------------- Appendix B.2 as stated

  /** Step 2 and 3: copies of the value, the last one cut, up to a multiple of
      64 bytes; an empty value stays empty. */
  ghost predicate IsFilled(value: Bytes, filled: Bytes) {
    if value == [] then filled == []
    else
      && |filled| % 64 == 0 && |value| <= |filled| < |value| + 64
      && forall i :: 0 <= i < |filled| ==> filled[i] == value[i % |value|]
  }

  function Hash(h: Bytes -> Digest, iterations: int, input: Bytes): Digest
    decreases iterations
  {
    if iterations <= 1 then h(input) else h(Hash(h, iterations - 1, input))
  }

  /** Step 6B: the digest repeated to one block. */
  function Stretch(d: Digest): (b: Bytes)
    ensures |b| == 64 && forall i :: 0 <= i < 64 ==> b[i] == d[i % 20]
  {
    seq(64, i requires 0 <= i < 64 => d[i % 20])
  }

  /** Step 6C on one block: (I_j + B + 1) mod 2^512. */
  ghost predicate IsBumped(block: Bytes, b: Bytes, bumped: Bytes) {
    |bumped| == 64 && Number(bumped) == (Number(block) + Number(b) + 1) % Pow256(64)
  }

  /** Step 6C on the whole input. */
  ghost predicate IsNextInput(input: Bytes, d: Digest, next: Bytes) {
    && |next| == |input|
    && forall j :: 0 <= j < |input| / 64 ==> IsBumped(input[64 * j..64 * j + 64], Stretch(d), next[64 * j..64 * j + 64])
  }

  function Diversifier(identifier: Byte): (r: Bytes)
    ensures |r| == 64 && forall i :: 0 <= i < 64 ==> r[i] == identifier
  {
    seq(64, i => identifier)
  }

  ghost function DigestOf(h: Bytes -> Digest, identifier: Byte, iterations: int, input: Bytes): Digest {
    Hash(h, iterations, Diversifier(identifier) + input)
  }

  /** The inputs of the successive blocks. */
  ghost predicate IsInputChain(h: Bytes -> Digest, identifier: Byte, iterations: int, inputs: seq<Bytes>) {
    forall i :: 0 <= i < |inputs| - 1 ==> IsNextInput(inputs[i], DigestOf(h, identifier, iterations, inputs[i]), inputs[i + 1])
  }

  /** Step 7: the digests of the blocks, one after the other. */
  ghost function Blocks(h: Bytes -> Digest, identifier: Byte, iterations: int, inputs: seq<Bytes>): (r: Bytes)
    ensures |r| == 20 * |inputs|
  {
    if inputs == [] then []
    else Blocks(h, identifier, iterations, inputs[..|inputs| - 1]) + DigestOf(h, identifier, iterations, inputs[|inputs| - 1])
  }

  ghost predicate Derives(h: Bytes -> Digest, salt: Bytes, password: Bytes, iterations: int, identifier: Byte, size: nat,
                          inputs: seq<Bytes>, key: Bytes) {
    && |inputs| == (size + 19) / 20
    && (inputs != [] ==>
          exists s, p :: IsFilled(salt, s) && IsFilled(password, p) && inputs[0] == s + p)
    && IsInputChain(h, identifier, iterations, inputs)
    && key == Blocks(h, identifier, iterations, inputs)[..size]
  }

  lemma {:induction false} ChainUnique(h: Bytes -> Digest, identifier: Byte, iterations: int, a: seq<Bytes>, b: seq<Bytes>, i: nat)
    requires IsInputChain(h, identifier, iterations, a) && IsInputChain(h, identifier, iterations, b)
    requires i < |a| == |b| && a[0] == b[0] && |a[0]| % 64 == 0
    ensures a[i] == b[i] && |a[i]| == |a[0]|
  {
    if i > 0 {
      ChainUnique(h, identifier, iterations, a, b, i - 1);
      NextInputUnique(a[i - 1], DigestOf(h, identifier, iterations, a[i - 1]), a[i - 1 + 1], b[i - 1 + 1]);
    }
  }

  /** The standard fixes the key: two derivations of it are equal. */
  lemma DerivationUnique(h: Bytes -> Digest, salt: Bytes, password: Bytes, iterations: int, identifier: Byte, size: nat,
                         inputs: seq<Bytes>, key: Bytes, inputs': seq<Bytes>, key': Bytes)
    requires Derives(h, salt, password, iterations, identifier, size, inputs, key)
    requires Derives(h, salt, password, iterations, identifier, size, inputs', key')
    ensures key == key'
  {
    hide IsFilled, IsNextInput, IsInputChain, Blocks, Hash;
    if inputs != [] {
      var s, p :| IsFilled(salt, s) && IsFilled(password, p) && inputs[0] == s + p;
      var s', p' :| IsFilled(salt, s') && IsFilled(password, p') && inputs'[0] == s' + p';
      FilledUnique(salt, s, s');
      FilledUnique(password, p, p');
      assert |s + p| % 64 == 0;
      forall i | 0 <= i < |inputs| ensures inputs[i] == inputs'[i] {
        ChainUnique(h, identifier, iterations, inputs, inputs', i);
      }
    }
    assert inputs == inputs';
  }

  lemma FilledUnique(value: Bytes, a: Bytes, b: Bytes)
    requires IsFilled(value, a) && IsFilled(value, b)
    ensures a == b && |a| % 64 == 0
  {
    if value != [] {
      assert |a| == 64 * (|a| / 64) && |b| == 64 * (|b| / 64);
    }
  }

  lemma NextInputUnique(input: Bytes, d: Digest, a: Bytes, b: Bytes)
    requires |input| % 64 == 0 && IsNextInput(input, d, a) && IsNextInput(input, d, b)
    ensures a == b
  {
    forall i | 0 <= i < |input| ensures a[i] == b[i] {
      var j := i / 64;
      assert IsBumped(input[64 * j..64 * j + 64], Stretch(d), a[64 * j..64 * j + 64]);
      assert IsBumped(input[64 * j..64 * j + 64], Stretch(d), b[64 * j..64 * j + 64]);
      NumberUnique(a[64 * j..64 * j + 64], b[64 * j..64 * j + 64]);
      assert a[i] == a[64 * j..64 * j + 64][i - 64 * j] && b[i] == b[64 * j..64 * j + 64][i - 64 * j];
    }
  }

  // ------------------------------------------------------------- the code

  /** bytes.Repeat. */
  function Repeat(value: Bytes, count: nat): Bytes {
    if count == 0 then [] else value + Repeat(value, count - 1)
  }

  function Fill(value: Bytes): Bytes {
    if |value| == 0 then []
    else
      var length := 64 * ((|value| + 63) / 64);
      RepeatLength(value, (length + |value| - 1) / |value|);
      CopiesSuffice(length, |value|);
      Repeat(value, (length + |value| - 1) / |value|)[..length]
  }

  lemma {:induction false} RepeatLength(value: Bytes, count: nat)
    ensures |Repeat(value, count)| == count * |value|
  {
    if count > 0 { RepeatLength(value, count - 1); }
  }

  lemma CopiesSuffice(length: nat, n: nat)
    requires n > 0
    ensures (length + n - 1) / n * n >= length
  {
  }

  lemma ModMinus(i: int, n: int)
    requires 0 < n <= i
    ensures i % n == (i - n) % n
  {
    var q, r := (i - n) / n, (i - n) % n;
    assert i == n * (q + 1) + r;
    DivModUnique(i, n, q + 1, r);
  }

  lemma {:induction false} RepeatCyclic(value: Bytes, count: nat, i: nat)
    requires value != [] && i < |Repeat(value, count)|
    ensures Repeat(value, count)[i] == value[i % |value|]
  {
    if i >= |value| {
      RepeatCyclic(value, count - 1, i - |value|);
      ModMinus(i, |value|);
    } else {
      DivModUnique(i, |value|, 0, i);
    }
  }

  /** The padding the code builds is the padding the standard asks for. */
  lemma FillIsFilled(value: Bytes)
    ensures IsFilled(value, Fill(value))
  {
    if value != [] {
      var length := 64 * ((|value| + 63) / 64);
      var count := (length + |value| - 1) / |value|;
      RepeatLength(value, count);
      CopiesSuffice(length, |value|);
      forall i | 0 <= i < length ensures Fill(value)[i] == value[i % |value|] {
        RepeatCyclic(value, count, i);
      }
    }
  }

  method ClearBlock(input: array<Byte>, offset: nat)
    requires offset + 64 <= input.Length
    modifies input
    ensures forall i :: 0 <= i < input.Length ==> input[i] == if offset <= i < offset + 64 then 0 else old(input[i])
  {
    for index := 0 to 64
      invariant forall i :: 0 <= i < input.Length ==> input[i] == if offset <= i < offset + index then 0 else old(input[i])
    {
      input[offset + index] := 0;
    }
  }

  /** Go's copy into a slice of the buffer. */
  method CopyInto(input: array<Byte>, at: nat, data: Bytes)
    requires at + |data| <= input.Length
    modifies input
    ensures forall i :: 0 <= i < input.Length ==> input[i] == if at <= i < at + |data| then data[i - at] else old(input[i])
  {
    for index := 0 to |data|
      invariant forall i :: 0 <= i < input.Length ==> input[i] == if at <= i < at + index then data[i - at] else old(input[i])
    {
      input[at + index] := data[index];
    }
  }

  /** One block of the buffer is rewritten in place: the sum, cut to 64 bytes,
      goes right-aligned over a cleared block. */
  method BumpBlock(input: array<Byte>, offset: nat, b: Bytes)
    requires offset + 64 <= input.Length
    modifies input
    ensures IsBumped(old(input[offset..offset + 64]), b, input[offset..offset + 64])
    ensures forall i :: 0 <= i < input.Length && !(offset <= i < offset + 64) ==> input[i] == old(input[i])
  {
    hide Number, Minimal, Pow256;
    var value := Number(input[offset..offset + 64]) + Number(b) + 1;
    var encoded := Minimal(value);
    if |encoded| > 64 {
      encoded := encoded[|encoded| - 64..];
    }
    ClearBlock(input, offset);
    CopyInto(input, offset + 64 - |encoded|, encoded);
    CutOrPadded(64, value, encoded);
    assert input[offset..offset + 64] == Zeros(64 - |encoded|) + encoded;
  }

  lemma CutOrPadded(n: nat, value: nat, encoded: Bytes)
    requires var m := Minimal(value); encoded == if |m| > n then m[|m| - n..] else m
    ensures |encoded| <= n && |Zeros(n - |encoded|) + encoded| == n
    ensures Number(Zeros(n - |encoded|) + encoded) == value % Pow256(n)
  {
    hide Number, Minimal, Fixed, Pow256, Zeros;
    MinimalFixed(n, value);
    FixedNumber(n, value);
    if |encoded| == n {
      assert Zeros(0) == [];
      assert Zeros(0) + encoded == encoded;
    }
    assert Zeros(n - |encoded|) + encoded == Fixed(n, value);
  }

  /** Every block of the buffer is bumped once. */
  method BumpInput(input: array<Byte>, d: Digest)
    requires input.Length % 64 == 0
    modifies input
    ensures IsNextInput(old(input[..]), d, input[..])
  {
    hide IsBumped, Stretch;
    var adjustment := Stretch(d);
    ghost var was := input[..];
    var offset, block := 0, 0;
    while offset < input.Length
      invariant offset == 64 * block <= input.Length
      invariant forall i :: offset <= i < input.Length ==> input[i] == was[i]
      invariant forall j :: 0 <= j < block ==> IsBumped(was[64 * j..64 * j + 64], adjustment, input[..][64 * j..64 * j + 64])
    {
      ghost var before := input[..];
      BumpBlock(input, offset, adjustment);
      assert was[offset..offset + 64] == before[offset..offset + 64];
      forall j | 0 <= j < block
        ensures IsBumped(was[64 * j..64 * j + 64], adjustment, input[..][64 * j..64 * j + 64])
      {
        assert before[64 * j..64 * j + 64] == input[..][64 * j..64 * j + 64];
      }
      assert input[offset..offset + 64] == input[..][offset..offset + 64];
      offset, block := offset + 64, block + 1;
    }
  }

  method Rehash(h: Bytes -> Digest, iterations: int, data: Bytes) returns (digest: Digest)
    ensures digest == Hash(h, iterations, data)
  {
    digest := h(data);
    var round := 1;
    while round < iterations
      invariant if iterations <= 1 then round == 1 else 1 <= round <= iterations
      invariant digest == Hash(h, round, data)
    {
      digest := h(digest);
      round := round + 1;
    }
  }

  /** A chain of inputs that begins with the padded salt and password. */
  ghost predicate ChainFrom(h: Bytes -> Digest, identifier: Byte, iterations: int, start: Bytes, inputs: seq<Bytes>) {
    IsInputChain(h, identifier, iterations, inputs) && (inputs != [] ==> inputs[0] == start)
  }

  /** The buffer holds the input that comes next in the chain. */
  ghost predicate Continues(h: Bytes -> Digest, identifier: Byte, iterations: int, start: Bytes, inputs: seq<Bytes>, next: Bytes) {
    if inputs == [] then next == start
    else IsNextInput(inputs[|inputs| - 1], DigestOf(h, identifier, iterations, inputs[|inputs| - 1]), next)
  }

  lemma GrowChain(h: Bytes -> Digest, identifier: Byte, iterations: int, start: Bytes, inputs: seq<Bytes>, next: Bytes)
    requires ChainFrom(h, identifier, iterations, start, inputs) && Continues(h, identifier, iterations, start, inputs, next)
    ensures ChainFrom(h, identifier, iterations, start, inputs + [next])
    ensures Blocks(h, identifier, iterations, inputs + [next]) == Blocks(h, identifier, iterations, inputs) + DigestOf(h, identifier, iterations, next)
  {
    hide IsNextInput, DigestOf;
    assert (inputs + [next])[..|inputs|] == inputs;
  }

  /** A bumped buffer comes next; an empty one stays empty. */
  lemma Bumped(h: Bytes -> Digest, identifier: Byte, iterations: int, start: Bytes, inputs: seq<Bytes>, input: Bytes, next: Bytes)
    requires IsNextInput(input, DigestOf(h, identifier, iterations, input), next) || input == next == []
    ensures Continues(h, identifier, iterations, start, inputs + [input], next) && |next| == |input|
  {
    hide DigestOf, IsBumped;
  }

  lemma ChainDerives(h: Bytes -> Digest, salt: Bytes, password: Bytes, iterations: int, identifier: Byte, size: nat, inputs: seq<Bytes>)
    requires |inputs| == (size + 19) / 20 && ChainFrom(h, identifier, iterations, Fill(salt) + Fill(password), inputs)
    ensures |Blocks(h, identifier, iterations, inputs)| >= size
    ensures Derives(h, salt, password, iterations, identifier, size, inputs, Blocks(h, identifier, iterations, inputs)[..size])
  {
    hide IsFilled, IsInputChain, Fill;
    FillIsFilled(salt);
    FillIsFilled(password);
  }

  /** One block of the output. */
  method HashBlock(h: Bytes -> Digest, iterations: int, identifier: Byte, input: array<Byte>) returns (digest: Digest)
    ensures digest == DigestOf(h, identifier, iterations, input[..])
  {
    digest := Rehash(h, iterations, Diversifier(identifier) + input[..]);
  }

  lemma FillBlocks(salt: Bytes, password: Bytes)
    ensures |Fill(salt) + Fill(password)| % 64 == 0
  {
    hide Fill;
    FillIsFilled(salt);
    FillIsFilled(password);
  }

  /** linuxPKCS12DeriveSHA1 refines Appendix B.2 of RFC 7292 for every salt,
      password, iteration count, identifier and size. */
  method DeriveSha1(h: Bytes -> Digest, salt: Bytes, password: Bytes, iterations: int, identifier: Byte, size: nat)
    returns (key: Bytes, ghost inputs: seq<Bytes>)
    ensures Derives(h, salt, password, iterations, identifier, size, inputs, key) && |key| == size
  {
    var start := Fill(salt) + Fill(password);
    FillBlocks(salt, password);
    inputs := [];
    var output: Bytes := [];
    assert output == Blocks(h, identifier, iterations, inputs);
    assert ChainFrom(h, identifier, iterations, start, inputs);
    hide IsNextInput, ChainFrom, Continues, Blocks, DigestOf, Fill, Derives;
    var input := new Byte[|start|](i requires 0 <= i < |start| => start[i]);
    assert Continues(h, identifier, iterations, start, inputs, input[..]) by { Started(h, identifier, iterations, start, input[..]); }
    var blocks := (size + 19) / 20;
    for block := 0 to blocks
      invariant |inputs| == block && output == Blocks(h, identifier, iterations, inputs)
      invariant input.Length % 64 == 0 && ChainFrom(h, identifier, iterations, start, inputs)
      invariant block < blocks ==> Continues(h, identifier, iterations, start, inputs, input[..])
    {
      var digest := HashBlock(h, iterations, identifier, input);
      ghost var was := input[..];
      GrowChain(h, identifier, iterations, start, inputs, was);
      output := output + digest;
      if !(block == blocks - 1 || input.Length == 0) {
        BumpInput(input, digest);
      }
      if block < blocks - 1 { Bumped(h, identifier, iterations, start, inputs, was, input[..]); }
      inputs := inputs + [was];
    }
    ChainDerives(h, salt, password, iterations, identifier, size, inputs);
    key := output[..size];
  }

  lemma Started(h: Bytes -> Digest, identifier: Byte, iterations: int, start: Bytes, input: Bytes)
    requires |input| == |start| && forall i :: 0 <= i < |start| ==> input[i] == start[i]
    ensures Continues(h, identifier, iterations, start, [], input)
  {
  }
}
