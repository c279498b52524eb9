/** The fused causal convolution: one program per token and block of channels, over exact numbers. */
module ConvKernel {
  import opened Basics

  const BLOCK_C: nat := 256

  // ---- the definition: pad, convolve, truncate, activate -----------------------------------------

  function Dot(a: seq<real>, b: seq<real>): real
    requires |a| == |b|
  {
    if a == [] then 0.0 else Dot(a[..|a| - 1], b[..|b| - 1]) + a[|a| - 1] * b[|b| - 1]
  }

  /** `conv1d` with padding K-1 on both sides: one output per window of the padded sequence. */
  function Conv(xs: seq<real>, w: seq<real>): (ys: seq<real>)
    requires w != []
    ensures |ys| == |xs| + |w| - 1
  {
    var padded := Fill(|w| - 1, 0.0) + xs + Fill(|w| - 1, 0.0);
    seq(|xs| + |w| - 1, t requires 0 <= t < |xs| + |w| - 1 => Dot(padded[t..t + |w|], w))
  }

  /** Batches of tokens of channels, all of the same size. */
  type Tensor = seq<seq<seq<real>>>

  predicate Shape(x: Tensor, seqLen: nat, channels: nat) {
    && (forall b :: 0 <= b < |x| ==> |x[b]| == seqLen)
    && (forall b, t :: 0 <= b < |x| && 0 <= t < seqLen ==> |x[b][t]| == channels)
  }

  function Channel(xs: seq<seq<real>>, c: nat): (ys: seq<real>)
    requires forall t :: 0 <= t < |xs| ==> c < |xs[t]|
    ensures |ys| == |xs|
  {
    seq(|xs|, t requires 0 <= t < |xs| => xs[t][c])
  }

  predicate Weights(w: seq<seq<real>>, channels: nat, kernel: nat) {
    kernel > 0 && |w| == channels && forall c :: 0 <= c < channels ==> |w[c]| == kernel
  }

  /** Channel `c` of batch `b` at time `t`: the convolution truncated to the sequence, then the activation. */
  function Output(x: Tensor, w: seq<seq<real>>, act: real -> real, seqLen: nat, channels: nat, kernel: nat, b: nat, t: nat, c: nat): real
    requires Shape(x, seqLen, channels) && Weights(w, channels, kernel) && b < |x| && t < seqLen && c < channels
  {
    act(Conv(Channel(x[b], c), w[c])[..seqLen][t])
  }

  lemma DotStep(a: seq<real>, b: seq<real>, k: nat)
    requires |a| == |b| && k < |a|
    ensures Dot(a[..k + 1], b[..k + 1]) == Dot(a[..k], b[..k]) + a[k] * b[k]
  {
    assert a[..k + 1][..k] == a[..k] && b[..k + 1][..k] == b[..k];
  }

  /** The window ending at time `t`, as the kernel reads it: zero before the start. */
  lemma WindowAt(xs: seq<real>, kernel: nat, t: nat, k: nat)
    requires kernel > 0 && t < |xs| && k < kernel
    ensures var padded := Fill(kernel - 1, 0.0) + xs + Fill(kernel - 1, 0.0); var source := t + k - (kernel - 1);
            padded[t..t + kernel][k] == if source >= 0 then xs[source] else 0.0
  {}

  /** The output at a time depends on no input after it. */
  lemma Causal(xs: seq<real>, ys: seq<real>, w: seq<real>, t: nat)
    requires w != [] && |xs| == |ys| && t < |xs| && xs[..t + 1] == ys[..t + 1]
    ensures Conv(xs, w)[t] == Conv(ys, w)[t]
  {
    var p, q := Fill(|w| - 1, 0.0) + xs + Fill(|w| - 1, 0.0), Fill(|w| - 1, 0.0) + ys + Fill(|w| - 1, 0.0);
    var a, b := p[t..t + |w|], q[t..t + |w|];
    forall k | 0 <= k < |w| ensures a[k] == b[k] {
      WindowAt(xs, |w|, t, k);
      WindowAt(ys, |w|, t, k);
      var source := t + k - (|w| - 1);
      if source >= 0 { assert xs[source] == xs[..t + 1][source] && ys[source] == ys[..t + 1][source]; }
    }
    assert a == b;
  }

  // ---- the kernel --------------------------------------------------------------------------------

  /** A launch: sizes, inputs, and where channel `c` goes: to tensor 0, 1 or 2, at an offset. */
  datatype Launch = Launch(x: Tensor, w: seq<seq<real>>, act: real -> real, seqLen: nat, first: nat, second: nat, third: nat, kernel: nat) {
    function Channels(): nat { first + second + third }

    predicate Valid() {
      seqLen > 0 && Shape(x, seqLen, Channels()) && Weights(w, Channels(), kernel)
    }

    function Tokens(): nat { |x| * seqLen }
  }

  lemma TokenSplit(token: nat, seqLen: nat, batches: nat)
    requires seqLen > 0 && token < batches * seqLen
    ensures var b := token / seqLen; b < batches && 0 <= token - b * seqLen < seqLen
  {
    var b := token / seqLen;
    assert b * seqLen <= token < b * seqLen + seqLen;
    if b >= batches { MulLe(batches, b, seqLen); }
  }

  function BatchOf(l: Launch, token: nat): (b: nat)
    requires l.Valid() && token < l.Tokens()
    ensures b < |l.x|
  {
    TokenSplit(token, l.seqLen, |l.x|);
    token / l.seqLen
  }

  function TimeOf(l: Launch, token: nat): (t: nat)
    requires l.Valid() && token < l.Tokens()
    ensures t < l.seqLen
  {
    TokenSplit(token, l.seqLen, |l.x|);
    token - token / l.seqLen * l.seqLen
  }

  function Expected(l: Launch, token: nat, c: nat): real
    requires l.Valid() && token < l.Tokens() && c < l.Channels()
  {
    Output(l.x, l.w, l.act, l.seqLen, l.Channels(), l.kernel, BatchOf(l, token), TimeOf(l, token), c)
  }

  /** The channels of one program. */
  predicate InBlock(block: nat, c: int) { block * BLOCK_C <= c < (block + 1) * BLOCK_C }

  /** Program (token, block) stores channel `c` of that token. */
  predicate Stores(l: Launch, program: (nat, nat), token: nat, c: nat) {
    program.0 == token && InBlock(program.1, c) && c < l.Channels()
  }

  /** Every channel of every token is stored by exactly one program of the grid. */
  lemma StoredOnce(l: Launch, token: nat, c: nat)
    requires token < l.Tokens() && c < l.Channels()
    ensures var p := (token, c / BLOCK_C);
            && p.1 < Cdiv(l.Channels(), BLOCK_C) && Stores(l, p, token, c)
            && forall q: (nat, nat) :: Stores(l, q, token, c) ==> q == p
  {}

  /** The accumulation loop: all lanes of the block, one kernel tap at a time. Lanes past the last channel
      load zeros. */
  method Accumulate(l: Launch, token: nat, block: nat) returns (acc: seq<real>)
    requires l.Valid() && token < l.Tokens()
    ensures |acc| == BLOCK_C
    ensures forall i :: 0 <= i < BLOCK_C && block * BLOCK_C + i < l.Channels() ==>
              var c := block * BLOCK_C + i;
              acc[i] == Conv(Channel(l.x[BatchOf(l, token)], c), l.w[c])[TimeOf(l, token)]
  {
    hide Dot, Window, Product, Conv, Channel, BatchOf, TimeOf;
    var batch, time := BatchOf(l, token), TimeOf(l, token);
    NothingSummed();
    acc := Fill(BLOCK_C, 0.0);
    for k := 0 to l.kernel
      invariant |acc| == BLOCK_C
      invariant forall i :: 0 <= i < BLOCK_C && block * BLOCK_C + i < l.Channels() ==>
                  acc[i] == Dot(Window(l, batch, time, block * BLOCK_C + i)[..k], l.w[block * BLOCK_C + i][..k])
    {
      var source := time + k - (l.kernel - 1);
      var next := seq(BLOCK_C, i requires 0 <= i < BLOCK_C => acc[i] + Product(l, batch, source, k, block * BLOCK_C + i));
      forall i | 0 <= i < BLOCK_C && block * BLOCK_C + i < l.Channels()
        ensures next[i] == Dot(Window(l, batch, time, block * BLOCK_C + i)[..k + 1], l.w[block * BLOCK_C + i][..k + 1])
      {
        LaneStep(l, batch, time, block * BLOCK_C + i, k, acc[i]);
      }
      acc := next;
    }
    forall i | 0 <= i < BLOCK_C && block * BLOCK_C + i < l.Channels()
      ensures acc[i] == Conv(Channel(l.x[batch], block * BLOCK_C + i), l.w[block * BLOCK_C + i])[time]
    {
      WindowConv(l, batch, time, block * BLOCK_C + i);
    }
  }

  /** The padded window of one channel that ends at `time`. */
  function Window(l: Launch, batch: nat, time: nat, c: nat): (p: seq<real>)
    requires l.Valid() && batch < |l.x| && time < l.seqLen && c < l.Channels()
    ensures |p| == l.kernel
  {
    (Fill(l.kernel - 1, 0.0) + Channel(l.x[batch], c) + Fill(l.kernel - 1, 0.0))[time..time + l.kernel]
  }

  /** One masked load of source and weight, multiplied. */
  function Product(l: Launch, batch: nat, source: int, k: nat, c: nat): real
    requires l.Valid() && batch < |l.x| && source < l.seqLen && k < l.kernel
  {
    var s := if c < l.Channels() && source >= 0 then l.x[batch][source][c] else 0.0;
    var w := if c < l.Channels() then l.w[c][k] else 0.0;
    s * w
  }

  lemma NothingSummed()
    ensures Dot([], []) == 0.0
  {}

  lemma LaneStep(l: Launch, batch: nat, time: nat, c: nat, k: nat, acc: real)
    requires l.Valid() && batch < |l.x| && time < l.seqLen && c < l.Channels() && k < l.kernel
    requires acc == Dot(Window(l, batch, time, c)[..k], l.w[c][..k])
    ensures acc + Product(l, batch, time + k - (l.kernel - 1), k, c) == Dot(Window(l, batch, time, c)[..k + 1], l.w[c][..k + 1])
  {
    DotStep(Window(l, batch, time, c), l.w[c], k);
    WindowAt(Channel(l.x[batch], c), l.kernel, time, k);
  }

  lemma WindowConv(l: Launch, batch: nat, time: nat, c: nat)
    requires l.Valid() && batch < |l.x| && time < l.seqLen && c < l.Channels()
    ensures Dot(Window(l, batch, time, c)[..l.kernel], l.w[c][..l.kernel]) == Conv(Channel(l.x[batch], c), l.w[c])[time]
  {
    var p := Window(l, batch, time, c);
    assert p[..l.kernel] == p && l.w[c][..l.kernel] == l.w[c];
  }

  /** The three output tensors, each a flat buffer of tokens one after the other. */
  ghost predicate Outputs(l: Launch, first: array<real>, second: array<real>, third: array<real>) {
    && first != second && first != third && second != third
    && first.Length == Area(l.Tokens(), l.first) && second.Length == Area(l.Tokens(), l.second)
    && third.Length == Area(l.Tokens(), l.third)
  }

  /** One program. It stores its channels, each in the tensor it belongs to, at the token's row of that tensor,
      and touches nothing else. */
  method Program(l: Launch, token: nat, block: nat, first: array<real>, second: array<real>, third: array<real>)
    requires l.Valid() && token < l.Tokens() && Outputs(l, first, second, third)
    modifies first, second, third
    ensures forall t, c :: 0 <= t < l.Tokens() && 0 <= c < l.first ==>
              var k := Address(l.Tokens(), l.first, t, c);
              first[k] == if Stores(l, (token, block), t, c) then Expected(l, t, c) else old(first[k])
    ensures forall t, c :: 0 <= t < l.Tokens() && 0 <= c < l.second ==>
              var k := Address(l.Tokens(), l.second, t, c);
              second[k] == if Stores(l, (token, block), t, l.first + c) then Expected(l, t, l.first + c) else old(second[k])
    ensures forall t, c :: 0 <= t < l.Tokens() && 0 <= c < l.third ==>
              var k := Address(l.Tokens(), l.third, t, c);
              var from := l.first + l.second;
              third[k] == if Stores(l, (token, block), t, from + c) then Expected(l, t, from + c) else old(third[k])
  {
    var acc := Accumulate(l, token, block);
    var output := seq(BLOCK_C, i requires 0 <= i < BLOCK_C => l.act(acc[i]));
    forall i | 0 <= i < BLOCK_C && block * BLOCK_C + i < l.Channels()
      ensures output[i] == Expected(l, token, block * BLOCK_C + i)
    {}
    Store(l, token, block, output, 0, l.first, first);
    Store(l, token, block, output, l.first, l.second, second);
    Store(l, token, block, output, l.first + l.second, l.third, third);
  }

  /** A masked store: the lanes whose channel lies in the tensor that starts at channel `from`. */
  method Store(l: Launch, token: nat, block: nat, output: seq<real>, from: nat, size: nat, out: array<real>)
    requires l.Valid() && token < l.Tokens() && |output| == BLOCK_C && from + size <= l.Channels()
    requires out.Length == Area(l.Tokens(), size)
    requires forall i :: 0 <= i < BLOCK_C && block * BLOCK_C + i < l.Channels() ==> output[i] == Expected(l, token, block * BLOCK_C + i)
    modifies out
    ensures forall t, c :: 0 <= t < l.Tokens() && 0 <= c < size ==>
              var k := Address(l.Tokens(), size, t, c);
              out[k] == if Stores(l, (token, block), t, from + c) then Expected(l, t, from + c) else old(out[k])
  {
    hide Address, Area, Output;
    for i := 0 to BLOCK_C
      invariant forall t, c :: 0 <= t < l.Tokens() && 0 <= c < size ==>
                  var k := Address(l.Tokens(), size, t, c);
                  out[k] == if t == token && block * BLOCK_C <= from + c < block * BLOCK_C + i
                            then Expected(l, t, from + c) else old(out[k])
    {
      var c := block * BLOCK_C + i - from;
      if 0 <= c < size {
        CellsApart(l.Tokens(), size, token, c);
        out[Address(l.Tokens(), size, token, c)] := output[i];
      }
    }
  }

  // ---- the grid ----------------------------------------------------------------------------------

  ghost predicate InGrid(l: Launch, p: (nat, nat)) {
    p.0 < l.Tokens() && p.1 < Cdiv(l.Channels(), BLOCK_C)
  }

  /** Cells whose program is among the first `n` to run hold their value. */
  ghost predicate DoneUpTo(l: Launch, order: seq<(nat, nat)>, n: nat, first: array<real>, second: array<real>, third: array<real>)
    requires l.Valid() && Outputs(l, first, second, third) && n <= |order|
    reads first, second, third
  {
    && (forall t, c :: 0 <= t < l.Tokens() && 0 <= c < l.first && (t, c / BLOCK_C) in order[..n] ==>
          first[Address(l.Tokens(), l.first, t, c)] == Expected(l, t, c))
    && (forall t, c :: 0 <= t < l.Tokens() && 0 <= c < l.second && (t, (l.first + c) / BLOCK_C) in order[..n] ==>
          second[Address(l.Tokens(), l.second, t, c)] == Expected(l, t, l.first + c))
    && (forall t, c :: 0 <= t < l.Tokens() && 0 <= c < l.third && (t, (l.first + l.second + c) / BLOCK_C) in order[..n] ==>
          third[Address(l.Tokens(), l.third, t, c)] == Expected(l, t, l.first + l.second + c))
  }

  lemma AllStored(l: Launch, order: seq<(nat, nat)>)
    requires forall p: (nat, nat) :: InGrid(l, p) ==> p in order
    ensures forall t, c :: 0 <= t < l.Tokens() && 0 <= c < l.Channels() ==> (t, c / BLOCK_C) in order
  {
    forall t, c | 0 <= t < l.Tokens() && 0 <= c < l.Channels() ensures (t, c / BLOCK_C) in order {
      StoredOnce(l, t, c);
      assert InGrid(l, (t, c / BLOCK_C));
    }
  }

  lemma TakeNext(order: seq<(nat, nat)>, n: nat)
    requires n < |order|
    ensures forall p :: p in order[..n + 1] <==> p in order[..n] || p == order[n]
  {
    assert order[..n + 1] == order[..n] + [order[n]];
  }

  lemma StoresIff(l: Launch, p: (nat, nat))
    ensures forall t, c :: 0 <= t < l.Tokens() && 0 <= c < l.Channels() ==> (Stores(l, p, t, c) <==> p == (t, c / BLOCK_C))
  {
    forall t, c | 0 <= t < l.Tokens() && 0 <= c < l.Channels() ensures Stores(l, p, t, c) <==> p == (t, c / BLOCK_C) {
      StoredOnce(l, t, c);
    }
  }

  /** Running the programs of the grid in any order leaves, read one tensor after the other, the padded,
      truncated and activated convolution of every channel, whatever the tensors held before. */
  method RunGrid(l: Launch, order: seq<(nat, nat)>, first: array<real>, second: array<real>, third: array<real>)
    requires l.Valid() && Outputs(l, first, second, third)
    requires forall i :: 0 <= i < |order| ==> InGrid(l, order[i])
    requires forall p: (nat, nat) :: InGrid(l, p) ==> p in order
    modifies first, second, third
    ensures forall t, c :: 0 <= t < l.Tokens() && 0 <= c < l.first ==>
              first[Address(l.Tokens(), l.first, t, c)] == Expected(l, t, c)
    ensures forall t, c :: 0 <= t < l.Tokens() && 0 <= c < l.second ==>
              second[Address(l.Tokens(), l.second, t, c)] == Expected(l, t, l.first + c)
    ensures forall t, c :: 0 <= t < l.Tokens() && 0 <= c < l.third ==>
              third[Address(l.Tokens(), l.third, t, c)] == Expected(l, t, l.first + l.second + c)
  {
    hide Stores, Expected, Address, Area;
    for n := 0 to |order|
      invariant DoneUpTo(l, order, n, first, second, third)
    {
      assert InGrid(l, order[n]);
      StoresIff(l, order[n]);
      Program(l, order[n].0, order[n].1, first, second, third);
      TakeNext(order, n);
    }
    assert order[..|order|] == order;
    AllStored(l, order);
  }
}
