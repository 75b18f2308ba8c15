/** The circuit provider (ftqc/provider/circuit_provider.py): how many
    batches a request yields, batch-size validation, and the batches of
    named random circuits. The circuits' gates are random and left out;
    a circuit is its id. */
module Provider {
  import opened Failures
  import opened Entities

  /** Python's `int(a / b)`: the quotient truncated toward zero (the float
      rounding of very large operands is not modelled). */
  function TruncDiv(a: int, b: int): int
    requires b != 0
  {
    var q := Abs(a) / Abs(b);
    if (a >= 0) == (b > 0) then q else -q
  }

  function Abs(x: int): nat {
    if x < 0 then -x else x
  }

  /** Truncation goes toward zero: on non-negative operands it is the
      floor, and negating either operand negates the quotient. */
  lemma TruncDivSpec(a: int, b: int)
    requires b != 0
    ensures a >= 0 && b > 0 ==> TruncDiv(a, b) == a / b
    ensures TruncDiv(-a, b) == -TruncDiv(a, b) && TruncDiv(a, -b) == -TruncDiv(a, b)
  {
    var q := Abs(a) / Abs(b);
    assert Abs(-a) == Abs(a) && Abs(-b) == Abs(b);
    assert TruncDiv(-a, b) == -TruncDiv(a, b) by {
      if a == 0 {
        assert q == 0;
      }
    }
  }

  /** The floor of n / d times d is at most n, and one more d exceeds it. */
  lemma FloorBounds(n: int, d: int)
    ensures n >= 0 && d > 0 ==> (n / d) * d <= n < (n / d + 1) * d
  {
    if n >= 0 && d > 0 {
      var q, m := n / d, n % d;
      assert n == q * d + m;
      assert (q + 1) * d == q * d + d;
    }
  }

  /** The divisor: the batch size, capped at 25. */
  function Divisor(batchSize: int): int {
    if batchSize >= 25 then 25 else batchSize
  }

  /** `CircuitProvider.__init__`: the batch size as given and the number of
      batches, the circuit count over the capped batch size, truncated. */
  datatype CircuitProvider = CircuitProvider(batchSize: int, numBatches: int)

  function NewCircuitProvider(numCircuits: int, batchSize: int): (r: Result<CircuitProvider>)
    ensures r.Err? <==> batchSize == 0
    ensures r.Err? ==> r.error == DivisionByZero
    ensures r.Ok? ==> r.value.batchSize == batchSize
    ensures r.Ok? && numCircuits >= 0 && batchSize > 0 ==>
              r.value.numBatches >= 0 &&
              r.value.numBatches * Divisor(batchSize) <= numCircuits < (r.value.numBatches + 1) * Divisor(batchSize)
  {
    if batchSize == 0 then Err(DivisionByZero)
    else
      TruncDivSpec(numCircuits, Divisor(batchSize));
      FloorBounds(numCircuits, Divisor(batchSize));
      Ok(CircuitProvider(batchSize, TruncDiv(numCircuits, Divisor(batchSize))))
  }

  /** `CircuitBatch`: a list of circuits of the announced size. */
  datatype CircuitBatch = CircuitBatch(size: int, circuits: seq<Circuit>)

  /** `CircuitBatch(size, circuits)`: raises unless the list has exactly
      `size` circuits. */
  function MakeBatch(size: int, circuits: seq<Circuit>): (r: Result<CircuitBatch>)
    ensures r.Ok? <==> |circuits| == size
    ensures r.Err? ==> r.error == BatchSizeMismatch
    ensures r.Ok? ==> r.value.size == size && r.value.circuits == circuits
  {
    if |circuits| != size then Err(BatchSizeMismatch) else Ok(CircuitBatch(size, circuits))
  }

  function Digit(d: nat): char
    requires d < 10
  {
    "0123456789"[d]
  }

  predicate IsDigit(c: char) {
    '0' <= c <= '9'
  }

  /** Decimal digits of n, as `str.format` writes them. */
  function Dec(n: nat): (s: string)
    ensures s != [] && forall k :: 0 <= k < |s| ==> IsDigit(s[k])
  {
    if n < 10 then [Digit(n)] else Dec(n / 10) + [Digit(n % 10)]
  }

  function DigitValue(c: char): nat
    requires IsDigit(c)
  {
    (c as int) - ('0' as int)
  }

  /** The value of a string of decimal digits. */
  function ParseDec(s: string): nat
    requires forall k :: 0 <= k < |s| ==> IsDigit(s[k])
  {
    if s == [] then 0 else 10 * ParseDec(s[..|s| - 1]) + DigitValue(s[|s| - 1])
  }

  lemma {:induction false} ParseDecOfDec(n: nat)
    ensures ParseDec(Dec(n)) == n
  {
    if n >= 10 {
      ParseDecOfDec(n / 10);
      var s := Dec(n);
      assert s[..|s| - 1] == Dec(n / 10);
    }
  }

  /** The id `batch{i}_randomcircuit{j}`. */
  function CircuitId(i: nat, j: nat): string {
    "batch" + Dec(i) + "_randomcircuit" + Dec(j)
  }

  /** Length of the leading run of digits. */
  function DigitRun(s: string): nat {
    if s == [] || !IsDigit(s[0]) then 0 else 1 + DigitRun(s[1..])
  }

  lemma {:induction false} DigitRunOf(x: string, rest: string)
    requires forall k :: 0 <= k < |x| ==> IsDigit(x[k])
    requires rest != [] && !IsDigit(rest[0])
    ensures DigitRun(x + rest) == |x|
  {
    if x != [] {
      assert (x + rest)[1..] == x[1..] + rest;
      DigitRunOf(x[1..], rest);
    } else {
      assert x + rest == rest;
    }
  }

  /** Equal sequences with a common head have equal tails. */
  lemma CancelHead(p: string, x: string, y: string)
    requires p + x == p + y
    ensures x == y
  {
    assert x == (p + x)[|p|..];
    assert y == (p + y)[|p|..];
  }

  /** Equal concatenations whose first parts have equal lengths agree
      part by part. */
  lemma SplitEqual(x: string, y: string, x': string, y': string)
    requires x + y == x' + y' && |x| == |x'|
    ensures x == x' && y == y'
  {
    assert x == (x + y)[..|x|] && x' == (x' + y')[..|x'|];
    CancelHead(x, y, y');
  }

  /** A run of digits ends at the first non-digit, so two digit runs
      followed by non-digit tails split the same way. */
  lemma SplitAtNonDigit(x: string, y: string, x': string, y': string)
    requires forall k :: 0 <= k < |x| ==> IsDigit(x[k])
    requires forall k :: 0 <= k < |x'| ==> IsDigit(x'[k])
    requires y != [] && !IsDigit(y[0]) && y' != [] && !IsDigit(y'[0])
    requires x + y == x' + y'
    ensures x == x' && y == y'
  {
    DigitRunOf(x, y);
    DigitRunOf(x', y');
    SplitEqual(x, y, x', y');
  }

  lemma DecInjective(n: nat, n': nat)
    requires Dec(n) == Dec(n')
    ensures n == n'
  {
    ParseDecOfDec(n);
    ParseDecOfDec(n');
  }

  lemma CircuitIdParts(i: nat, j: nat)
    ensures CircuitId(i, j) == "batch" + (Dec(i) + ("_randomcircuit" + Dec(j)))
  {
  }

  /** What follows "batch" determines both numbers. */
  lemma AfterHeadInjective(i: nat, j: nat, i': nat, j': nat)
    requires Dec(i) + ("_randomcircuit" + Dec(j)) == Dec(i') + ("_randomcircuit" + Dec(j'))
    ensures i == i' && j == j'
  {
    var mid := "_randomcircuit";
    assert (mid + Dec(j))[0] == '_' && (mid + Dec(j'))[0] == '_';
    SplitAtNonDigit(Dec(i), mid + Dec(j), Dec(i'), mid + Dec(j'));
    CancelHead(mid, Dec(j), Dec(j'));
    DecInjective(i, i');
    DecInjective(j, j');
  }

  /** Distinct (batch, position) pairs get distinct ids. */
  lemma CircuitIdInjective(i: nat, j: nat, i': nat, j': nat)
    requires CircuitId(i, j) == CircuitId(i', j')
    ensures i == i' && j == j'
  {
    CircuitIdParts(i, j);
    CircuitIdParts(i', j');
    CancelHead("batch", Dec(i) + ("_randomcircuit" + Dec(j)), Dec(i') + ("_randomcircuit" + Dec(j')));
    AfterHeadInjective(i, j, i', j');
  }

  /** The circuits of batch i: positions 0 .. size-1 (none for a negative
      size, as `range` gives none). */
  function BatchCircuits(i: nat, size: int): (r: seq<Circuit>)
    ensures |r| == (if size < 0 then 0 else size)
    ensures forall j :: 0 <= j < |r| ==> r[j].id == CircuitId(i, j)
  {
    seq(if size < 0 then 0 else size, j requires 0 <= j => Circuit(CircuitId(i, j)))
  }

  /** The batches i .. numBatches-1 of `RandomCircuitProvider.get`. */
  function BatchesFrom(p: CircuitProvider, i: nat): (r: Result<seq<CircuitBatch>>)
    ensures r.Err? <==> i < p.numBatches && p.batchSize < 0
    ensures r.Err? ==> r.error == BatchSizeMismatch
    ensures r.Ok? ==> |r.value| == (if i < p.numBatches then p.numBatches - i else 0)
    ensures r.Ok? ==> forall k :: 0 <= k < |r.value| ==>
              r.value[k].size == p.batchSize && r.value[k].circuits == BatchCircuits(i + k, p.batchSize)
    decreases p.numBatches - i
  {
    if i >= p.numBatches then Ok([])
    else
      var b :- MakeBatch(p.batchSize, BatchCircuits(i, p.batchSize));
      var rest := BatchesFrom(p, i + 1);
      assert rest.Ok?;
      Ok([b] + rest.value)
  }

  /** `RandomCircuitProvider.get` for valid generator bounds: `num_batches`
      batches (none when it is not positive) of `batch_size` circuits each;
      a negative batch size makes the first batch raise. */
  function Get(p: CircuitProvider): (r: Result<seq<CircuitBatch>>)
    ensures r.Err? <==> p.numBatches > 0 && p.batchSize < 0
    ensures r.Ok? ==> |r.value| == (if p.numBatches < 0 then 0 else p.numBatches)
    ensures r.Ok? ==> forall i :: 0 <= i < |r.value| ==>
              r.value[i].size == p.batchSize && |r.value[i].circuits| == p.batchSize &&
              forall j :: 0 <= j < |r.value[i].circuits| ==> r.value[i].circuits[j].id == CircuitId(i, j)
  {
    BatchesFrom(p, 0)
  }

  /** `RandomCircuitProvider`: the provider's batch size and count, and the
      upper bounds of the random qubit count and depth. */
  datatype RandomCircuitProvider = RandomCircuitProvider(provider: CircuitProvider, maxQubits: int, maxDepth: int)

  /** `RandomCircuitProvider.__init__`: the base constructor, then the two
      generator bounds as given. */
  function NewRandomCircuitProvider(numCircuits: int, batchSize: int, maxQubits: int, maxDepth: int)
    : (r: Result<RandomCircuitProvider>)
    ensures r.Err? <==> batchSize == 0
    ensures r.Ok? ==> r.value.provider.batchSize == batchSize && r.value.maxQubits == maxQubits && r.value.maxDepth == maxDepth
  {
    var p :- NewCircuitProvider(numCircuits, batchSize);
    Ok(RandomCircuitProvider(p, maxQubits, maxDepth))
  }

  /** `random.randint(2, max_num_qubits)` and `random.randint(5, max_depth)`
      both have a non-empty range. */
  predicate GeneratorBoundsValid(rp: RandomCircuitProvider) {
    2 <= rp.maxQubits && 5 <= rp.maxDepth
  }

  /** `RandomCircuitProvider.get` with its generator bounds: the first
      circuit of the first batch draws a qubit count and a depth, which
      raises when a bound is below its lower end; a batch without circuits
      draws nothing, and a negative size then fails the batch's size check. */
  function RandomGet(rp: RandomCircuitProvider): (r: Result<seq<CircuitBatch>>)
    ensures r.Err? <==> rp.provider.numBatches > 0 &&
                        (rp.provider.batchSize < 0 || (rp.provider.batchSize > 0 && !GeneratorBoundsValid(rp)))
    ensures r.Err? ==> r.error == (if rp.provider.batchSize < 0 then BatchSizeMismatch else EmptyRandomRange)
  {
    var p := rp.provider;
    if p.numBatches > 0 && p.batchSize > 0 && !GeneratorBoundsValid(rp) then Err(EmptyRandomRange)
    else Get(p)
  }

  /** With bounds `random.randint` accepts, or no circuit to draw, `get`
      hands out exactly the batches `Get` describes. */
  lemma RandomGetIsGet(rp: RandomCircuitProvider)
    requires GeneratorBoundsValid(rp) || rp.provider.numBatches <= 0 || rp.provider.batchSize <= 0
    ensures RandomGet(rp) == Get(rp.provider)
  {
  }

  /** `RandomCircuitProvider(50, 25, max_num_qubits=1).get()` raises on its
      first circuit, although the batch size is valid. */
  lemma OneQubitBoundRaises()
    ensures NewRandomCircuitProvider(50, 25, 1, 40).Ok?
    ensures RandomGet(NewRandomCircuitProvider(50, 25, 1, 40).value) == Err(EmptyRandomRange)
  {
  }

  /** No two circuits handed out share an id. */
  lemma GetIdsDistinct(p: CircuitProvider, i: nat, j: nat, i': nat, j': nat)
    requires Get(p).Ok?
    requires i < |Get(p).value| && j < |Get(p).value[i].circuits|
    requires i' < |Get(p).value| && j' < |Get(p).value[i'].circuits|
    requires (i, j) != (i', j')
    ensures Get(p).value[i].circuits[j].id != Get(p).value[i'].circuits[j'].id
  {
    if Get(p).value[i].circuits[j].id == Get(p).value[i'].circuits[j'].id {
      CircuitIdInjective(i, j, i', j');
    }
  }

  /** Total number of circuits in a list of batches. */
  function TotalCircuits(bs: seq<CircuitBatch>): nat {
    if bs == [] then 0 else |bs[0].circuits| + TotalCircuits(bs[1..])
  }

  lemma {:induction false} TotalOfEqualBatches(bs: seq<CircuitBatch>, size: nat)
    requires forall i :: 0 <= i < |bs| ==> |bs[i].circuits| == size
    ensures TotalCircuits(bs) == |bs| * size
  {
    if bs != [] {
      TotalOfEqualBatches(bs[1..], size);
    }
  }

  /** A provider asked for n >= 0 circuits in batches of at most 25 hands
      out at most n circuits (the remainder of n over the batch size is
      dropped). */
  lemma GetAtMostRequested(numCircuits: nat, batchSize: int)
    requires 0 < batchSize <= 25
    ensures NewCircuitProvider(numCircuits, batchSize).Ok?
    ensures Get(NewCircuitProvider(numCircuits, batchSize).value).Ok?
    ensures TotalCircuits(Get(NewCircuitProvider(numCircuits, batchSize).value).value) <= numCircuits
  {
    var p := NewCircuitProvider(numCircuits, batchSize).value;
    var bs := Get(p).value;
    TotalOfEqualBatches(bs, batchSize);
  }

  /** Above 25 the batch count still divides by 25, so a provider asked for
      100 circuits in batches of 50 hands out 200. */
  lemma LargeBatchesOvershoot()
    ensures NewCircuitProvider(100, 50).Ok?
    ensures Get(NewCircuitProvider(100, 50).value).Ok?
    ensures TotalCircuits(Get(NewCircuitProvider(100, 50).value).value) == 200
  {
    var p := NewCircuitProvider(100, 50).value;
    assert p.numBatches == 4;
    TotalOfEqualBatches(Get(p).value, 50);
  }
}
