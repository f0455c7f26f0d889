/** core/batcher.py and core/inference.py generate_batch: collect, left-pad, generate together, split and truncate. */
module Batcher {
  import opened Options
  import opened WorkerPool

  datatype BatchItem = BatchItem(prompt: seq<nat>, maxTokens: nat, temperature: real)

  datatype Result = Result(generated: seq<nat>, promptTokens: nat, completionTokens: nat)

  /** The library: a next-token choice on the unmasked context, an end token and a padding token. */
  datatype Library = Library(next: (real, seq<nat>) -> nat, eos: nat, pad: nat)

  /** Generation for one context: at most n tokens, stopping after EOS. */
  function Single(lib: Library, temp: real, ctx: seq<nat>, n: nat): (r: seq<nat>)
    ensures |r| <= n
    decreases n
  {
    if n == 0 then [] else
      var t := lib.next(temp, ctx);
      if t == lib.eos then [t] else [t] + Single(lib, temp, ctx + [t], n - 1)
  }

  /**
   Generation, exactly: every token is the library's choice after the context and the tokens before it, and it goes on
   to the limit unless its last token, and only that one, is EOS.
   */
  lemma {:induction false} SingleIsSequential(lib: Library, temp: real, ctx: seq<nat>, n: nat)
    ensures var own := Single(lib, temp, ctx, n);
      && (forall i | 0 <= i < |own| :: own[i] == lib.next(temp, ctx + own[..i]))
      && (forall i | 0 <= i < |own| - 1 :: own[i] != lib.eos)
      && (|own| == n || (own != [] && own[|own| - 1] == lib.eos))
    decreases n
  {
    if n > 0 {
      var t := lib.next(temp, ctx);
      var own := Single(lib, temp, ctx, n);
      if t == lib.eos {
        assert ctx + own[..0] == ctx;
      } else {
        var rest := Single(lib, temp, ctx + [t], n - 1);
        SingleIsSequential(lib, temp, ctx + [t], n - 1);
        assert ctx + own[..0] == ctx;
        forall i | 0 < i < |own| ensures own[i] == lib.next(temp, ctx + own[..i]) {
          assert own[i] == rest[i - 1] && ctx + own[..i] == ctx + [t] + rest[..i - 1];
        }
      }
    }
  }

  function Repeat(x: nat, n: nat): (r: seq<nat>)
    ensures |r| == n
  {
    seq(n, _ => x)
  }

  /** The tokens the attention mask lets through. */
  function Unmask(row: seq<nat>, mask: seq<nat>): seq<nat>
    requires |row| == |mask|
  {
    if row == [] then [] else
      Unmask(row[..|row| - 1], mask[..|row| - 1]) + if mask[|row| - 1] == 1 then [row[|row| - 1]] else []
  }

  function Max(a: nat, b: nat): nat { if a >= b then a else b }

  /** How many columns the library generates: it goes on until every row has stopped or reached n. */
  function Width(lib: Library, temp: real, contexts: seq<seq<nat>>, n: nat): (w: nat)
    ensures w <= n
    ensures forall i | 0 <= i < |contexts| :: |Single(lib, temp, contexts[i], n)| <= w
  {
    if contexts == [] then 0 else
      Max(Width(lib, temp, contexts[..|contexts| - 1], n), |Single(lib, temp, contexts[|contexts| - 1], n)|)
  }

  /** The width is that of the longest row. */
  lemma {:induction false} WidthIsLongest(lib: Library, temp: real, contexts: seq<seq<nat>>, n: nat) returns (i: nat)
    requires contexts != []
    ensures i < |contexts| && |Single(lib, temp, contexts[i], n)| == Width(lib, temp, contexts, n)
  {
    i := |contexts| - 1;
    if |contexts| > 1 && Width(lib, temp, contexts[..i], n) > |Single(lib, temp, contexts[i], n)| {
      i := WidthIsLongest(lib, temp, contexts[..i], n);
    }
  }

  /** A row's generated part: its own tokens, then padding while other rows go on. */
  function RowOutput(lib: Library, temp: real, ctx: seq<nat>, n: nat, width: nat): (r: seq<nat>)
    ensures |r| == Max(width, |Single(lib, temp, ctx, n)|)
  {
    var own := Single(lib, temp, ctx, n);
    own + Repeat(lib.pad, Max(width, |own|) - |own|)
  }

  /** model.generate on a padded batch. */
  function BatchGenerate(lib: Library, temp: real, rows: seq<seq<nat>>, masks: seq<seq<nat>>, n: nat)
    : (out: seq<seq<nat>>)
    requires |rows| == |masks| && forall i | 0 <= i < |rows| :: |rows[i]| == |masks[i]|
    ensures |out| == |rows|
  {
    var contexts := seq(|rows|, i requires 0 <= i < |rows| => Unmask(rows[i], masks[i]));
    var width := Width(lib, temp, contexts, n);
    seq(|rows|, i requires 0 <= i < |rows| => rows[i] + RowOutput(lib, temp, contexts[i], n, width))
  }

  /** A row's generated part, cut to the request's own limit. */
  function Truncated(item: BatchItem, generated: seq<nat>): Result {
    var cut := if |generated| > item.maxTokens then generated[..item.maxTokens] else generated;
    Result(cut, |item.prompt|, |cut|)
  }

  /** What the batch returns for a request, given the width the whole batch ran to. */
  function BatchedResult(lib: Library, temp: real, item: BatchItem, n: nat, width: nat): Result {
    Truncated(item, RowOutput(lib, temp, item.prompt, n, width))
  }

  function Prompts(batch: seq<BatchItem>): (r: seq<seq<nat>>)
    ensures |r| == |batch|
  {
    seq(|batch|, i requires 0 <= i < |batch| => batch[i].prompt)
  }

  function MaxTokens(batch: seq<BatchItem>): (n: nat)
    ensures forall i | 0 <= i < |batch| :: batch[i].maxTokens <= n
    ensures batch != [] ==> exists i | 0 <= i < |batch| :: batch[i].maxTokens == n
  {
    if batch == [] then 0 else
      var rest, last := MaxTokens(batch[..|batch| - 1]), batch[|batch| - 1].maxTokens;
      if rest >= last then rest else last
  }

  function MaxTemperature(batch: seq<BatchItem>): (t: real)
    requires batch != []
    ensures forall i | 0 <= i < |batch| :: batch[i].temperature <= t
    ensures exists i | 0 <= i < |batch| :: batch[i].temperature == t
  {
    var last := batch[|batch| - 1].temperature;
    if |batch| == 1 then last else
      var rest := MaxTemperature(batch[..|batch| - 1]);
      if rest >= last then rest else last
  }

  // ---------------------------------------------------------------- padding

  lemma {:induction false} UnmaskAppend(a: seq<nat>, ma: seq<nat>, b: seq<nat>, mb: seq<nat>)
    requires |a| == |ma| && |b| == |mb|
    ensures Unmask(a + b, ma + mb) == Unmask(a, ma) + Unmask(b, mb)
  {
    if b == [] {
      assert a + b == a && ma + mb == ma;
    } else {
      assert (a + b)[..|a + b| - 1] == a + b[..|b| - 1] && (ma + mb)[..|a + b| - 1] == ma + mb[..|b| - 1];
      UnmaskAppend(a, ma, b[..|b| - 1], mb[..|b| - 1]);
    }
  }

  lemma {:induction false} UnmaskOnes(ids: seq<nat>)
    ensures Unmask(ids, Repeat(1, |ids|)) == ids
  {
    if ids != [] {
      var n := |ids| - 1;
      UnmaskOnes(ids[..n]);
      assert Repeat(1, |ids|)[..n] == Repeat(1, n);
      assert ids[..n] + [ids[n]] == ids;
    }
  }

  lemma {:induction false} UnmaskZeros(row: seq<nat>)
    ensures Unmask(row, Repeat(0, |row|)) == []
  {
    if row != [] {
      var n := |row| - 1;
      UnmaskZeros(row[..n]);
      assert Repeat(0, |row|)[..n] == Repeat(0, n);
    }
  }

  /** Left padding is invisible under its mask. */
  lemma PaddedRow(pad: nat, n: nat, ids: seq<nat>)
    ensures Unmask(Repeat(pad, n) + ids, Repeat(0, n) + Repeat(1, |ids|)) == ids
  {
    UnmaskAppend(Repeat(pad, n), Repeat(0, n), ids, Repeat(1, |ids|));
    UnmaskZeros(Repeat(pad, n));
    UnmaskOnes(ids);
  }

  /** The prompt stands last in its row, with mask 1, and nothing but padding with mask 0 before it. */
  predicate LeftPadded(row: seq<nat>, mask: seq<nat>, pad: nat, ids: seq<nat>)
    requires |row| == |mask| >= |ids|
  {
    var n := |row| - |ids|;
    && row[n..] == ids && (forall i | 0 <= i < n :: row[i] == pad)
    && forall i | 0 <= i < |mask| :: mask[i] == if i < n then 0 else 1
  }

  /** One prompt padded on the left to a width, and its mask. */
  method PadRow(pad: nat, width: nat, ids: seq<nat>) returns (row: seq<nat>, mask: seq<nat>)
    requires |ids| <= width
    ensures |row| == |mask| == width && Unmask(row, mask) == ids
    ensures LeftPadded(row, mask, pad, ids)
  {
    var padLen := width - |ids|;
    row, mask := ids, Repeat(1, |ids|);
    UnmaskOnes(ids);
    if padLen > 0 {
      PaddedRow(pad, padLen, ids);
      row, mask := Repeat(pad, padLen) + ids, Repeat(0, padLen) + mask;
    }
  }

  function MaxPromptLen(batch: seq<BatchItem>): (n: nat)
    ensures forall i | 0 <= i < |batch| :: |batch[i].prompt| <= n
    ensures batch != [] ==> exists i | 0 <= i < |batch| :: |batch[i].prompt| == n
  {
    if batch == [] then 0 else
      var rest, last := MaxPromptLen(batch[..|batch| - 1]), |batch[|batch| - 1].prompt|;
      if rest >= last then rest else last
  }

  /** The padding loop: every row has the common width, and its mask lets exactly the prompt through. */
  method LeftPad(pad: nat, batch: seq<BatchItem>, width: nat) returns (padded: seq<seq<nat>>, masks: seq<seq<nat>>)
    requires forall i | 0 <= i < |batch| :: |batch[i].prompt| <= width
    ensures |padded| == |masks| == |batch|
    ensures forall i | 0 <= i < |batch| :: |padded[i]| == |masks[i]| == width
    ensures forall i | 0 <= i < |batch| :: Unmask(padded[i], masks[i]) == batch[i].prompt
    ensures forall i | 0 <= i < |batch| :: LeftPadded(padded[i], masks[i], pad, batch[i].prompt)
  {
    padded, masks := [], [];
    for i := 0 to |batch|
      invariant |padded| == |masks| == i
      invariant forall j | 0 <= j < i :: |padded[j]| == |masks[j]| == width
      invariant forall j | 0 <= j < i :: Unmask(padded[j], masks[j]) == batch[j].prompt
      invariant forall j | 0 <= j < i :: LeftPadded(padded[j], masks[j], pad, batch[j].prompt)
    {
      var row, mask := PadRow(pad, width, batch[i].prompt);
      padded, masks := padded + [row], masks + [mask];
    }
  }

  /** The result for item i of a batch, at the batch's largest limit and temperature. */
  function ResultOf(lib: Library, batch: seq<BatchItem>, i: nat): Result
    requires i < |batch|
  {
    var n, temp := MaxTokens(batch), MaxTemperature(batch);
    BatchedResult(lib, temp, batch[i], n, Width(lib, temp, Prompts(batch), n))
  }

  /**
   What a batch hands back for a request: the prompt's own length; as many tokens as are counted, up to its limit and
   the batch's width; first its own tokens at the batch's temperature, then padding.
   */
  predicate Split(lib: Library, temp: real, width: nat, item: BatchItem, n: nat, result: Result) {
    var own := Single(lib, temp, item.prompt, n);
    && result.promptTokens == |item.prompt|
    && result.completionTokens == |result.generated| == (if item.maxTokens <= width then item.maxTokens else width)
    && forall k | 0 <= k < |result.generated| :: result.generated[k] == if k < |own| then own[k] else lib.pad
  }

  lemma ResultIsSplit(lib: Library, batch: seq<BatchItem>, i: nat)
    requires i < |batch|
    ensures var n, temp := MaxTokens(batch), MaxTemperature(batch);
      Split(lib, temp, Width(lib, temp, Prompts(batch), n), batch[i], n, ResultOf(lib, batch, i))
  {
    var n, temp := MaxTokens(batch), MaxTemperature(batch);
    assert |Single(lib, temp, Prompts(batch)[i], n)| <= Width(lib, temp, Prompts(batch), n);
  }

  /** _prepare_and_generate: pad every prompt on the left to the longest, then generate and split. */
  method PrepareAndGenerate(lib: Library, batch: seq<BatchItem>) returns (results: seq<Result>)
    requires batch != []
    ensures |results| == |batch| && forall i | 0 <= i < |batch| :: results[i] == ResultOf(lib, batch, i)
    ensures var n, temp := MaxTokens(batch), MaxTemperature(batch); forall i | 0 <= i < |batch| ::
      Split(lib, temp, Width(lib, temp, Prompts(batch), n), batch[i], n, results[i])
  {
    forall i | 0 <= i < |batch|
      ensures Split(lib, MaxTemperature(batch), Width(lib, MaxTemperature(batch), Prompts(batch), MaxTokens(batch)),
                    batch[i], MaxTokens(batch), ResultOf(lib, batch, i))
    {
      ResultIsSplit(lib, batch, i);
    }
    var maxPromptLen := MaxPromptLen(batch);
    var padded, masks := LeftPad(lib.pad, batch, maxPromptLen);
    results := GenerateBatch(lib, padded, masks, batch, maxPromptLen, MaxTokens(batch), MaxTemperature(batch));
  }

  /** Rows whose masks let the prompts through are continued as the prompts are. */
  lemma BatchRows(lib: Library, temp: real, rows: seq<seq<nat>>, masks: seq<seq<nat>>, batch: seq<BatchItem>, n: nat)
    requires |rows| == |masks| == |batch| && forall i | 0 <= i < |rows| :: |rows[i]| == |masks[i]|
    requires forall i | 0 <= i < |rows| :: Unmask(rows[i], masks[i]) == batch[i].prompt
    ensures forall i | 0 <= i < |rows| :: BatchGenerate(lib, temp, rows, masks, n)[i] ==
                                          rows[i] + RowOutput(lib, temp, batch[i].prompt, n,
                                                              Width(lib, temp, Prompts(batch), n))
  {
    assert seq(|rows|, i requires 0 <= i < |rows| => Unmask(rows[i], masks[i])) == Prompts(batch);
  }

  /** The part of a row after the padded prompt, cut to the request's own limit. */
  method SplitRow(output: seq<nat>, generatedStart: nat, item: BatchItem) returns (result: Result)
    requires generatedStart <= |output|
    ensures result == Truncated(item, output[generatedStart..])
    ensures result.promptTokens == |item.prompt| && result.completionTokens == |result.generated| <= item.maxTokens
  {
    var generated := output[generatedStart..];
    if |generated| > item.maxTokens {
      generated := generated[..item.maxTokens];
    }
    result := Result(generated, |item.prompt|, |generated|);
  }

  lemma TailOf(a: seq<nat>, b: seq<nat>)
    ensures (a + b)[|a|..] == b
  {
  }

  /** generate_batch: one library call, then every row's part after the padded prompt, cut to its own limit. */
  method GenerateBatch(lib: Library, rows: seq<seq<nat>>, masks: seq<seq<nat>>, batch: seq<BatchItem>,
                       maxPromptLen: nat, n: nat, temp: real)
    returns (results: seq<Result>)
    requires |rows| == |masks| == |batch|
    requires forall i | 0 <= i < |rows| :: |rows[i]| == |masks[i]| == maxPromptLen
    requires forall i | 0 <= i < |rows| :: Unmask(rows[i], masks[i]) == batch[i].prompt
    ensures |results| == |batch|
    ensures forall i | 0 <= i < |batch| ::
      results[i] == BatchedResult(lib, temp, batch[i], n, Width(lib, temp, Prompts(batch), n))
  {
    var output := BatchGenerate(lib, temp, rows, masks, n);
    ghost var width := Width(lib, temp, Prompts(batch), n);
    BatchRows(lib, temp, rows, masks, batch, n);
    results := [];
    for i := 0 to |batch|
      invariant |results| == i
      invariant forall j | 0 <= j < i :: results[j] == BatchedResult(lib, temp, batch[j], n, width)
    {
      TailOf(rows[i], RowOutput(lib, temp, batch[i].prompt, n, width));
      var result := SplitRow(output[i], maxPromptLen, batch[i]);
      results := results + [result];
    }
  }

  // ---------------------------------------------------------------- agreement with single requests

  /** Generating a request on its own. */
  function Alone(lib: Library, item: BatchItem): Result {
    var own := Single(lib, item.temperature, item.prompt, item.maxTokens);
    Result(own, |item.prompt|, |own|)
  }

  /** A longer limit only continues what a shorter one produced. */
  lemma {:induction false} SinglePrefix(lib: Library, temp: real, ctx: seq<nat>, m: nat, n: nat)
    requires m <= n
    ensures var long := Single(lib, temp, ctx, n);
      Single(lib, temp, ctx, m) == if m <= |long| then long[..m] else long
    decreases m
  {
    if m > 0 {
      var t := lib.next(temp, ctx);
      if t != lib.eos { SinglePrefix(lib, temp, ctx + [t], m - 1, n - 1); }
    }
  }

  /**
   For one library: at a common temperature a request gets its own tokens and counts from the batch if and only if its
   own output fills the smaller of its limit and the batch's width. Otherwise its result carries padding, which
   completion_tokens counts.
   */
  lemma RowAgreesExactly(lib: Library, temp: real, item: BatchItem, n: nat, width: nat)
    requires item.maxTokens <= n && item.temperature == temp && |Single(lib, temp, item.prompt, n)| <= width
    ensures BatchedResult(lib, temp, item, n, width) == Alone(lib, item) <==>
      Alone(lib, item).completionTokens == if item.maxTokens <= width then item.maxTokens else width
    ensures BatchedResult(lib, temp, item, n, width).promptTokens == Alone(lib, item).promptTokens
  {
    SinglePrefix(lib, temp, item.prompt, item.maxTokens, n);
    var own := Single(lib, temp, item.prompt, n);
    var row := RowOutput(lib, temp, item.prompt, n, width);
    assert forall k | 0 <= k <= |own| :: row[..k] == own[..k];
  }

  /** Every request of the batch has item i's prompt. */
  predicate OnePrompt(batch: seq<BatchItem>, i: nat)
    requires i < |batch|
  {
    forall j | 0 <= j < |batch| :: batch[j].prompt == batch[i].prompt
  }

  /** The request's own output reaches its limit. */
  predicate Fills(lib: Library, item: BatchItem) {
    Alone(lib, item).completionTokens == item.maxTokens
  }

  lemma {:induction false} OnePromptWidth(lib: Library, temp: real, contexts: seq<seq<nat>>, ctx: seq<nat>, n: nat)
    requires contexts != [] && forall j | 0 <= j < |contexts| :: contexts[j] == ctx
    ensures Width(lib, temp, contexts, n) == |Single(lib, temp, ctx, n)|
  {
    if |contexts| > 1 { OnePromptWidth(lib, temp, contexts[..|contexts| - 1], ctx, n); }
  }

  /**
   At the batch's largest temperature, a request that fills its limit, asks for at most one token, or shares its prompt
   with the whole batch is served as if alone.
   */
  lemma BatchIsSingles(lib: Library, batch: seq<BatchItem>, i: nat)
    requires i < |batch| && batch[i].temperature == MaxTemperature(batch)
    requires Fills(lib, batch[i]) || batch[i].maxTokens <= 1 || OnePrompt(batch, i)
    ensures ResultOf(lib, batch, i) == Alone(lib, batch[i])
  {
    var n, temp, item := MaxTokens(batch), MaxTemperature(batch), batch[i];
    assert Prompts(batch)[i] == item.prompt;
    SinglePrefix(lib, temp, item.prompt, item.maxTokens, n);
    RowAgreesExactly(lib, temp, item, n, Width(lib, temp, Prompts(batch), n));
    if OnePrompt(batch, i) { OnePromptWidth(lib, temp, Prompts(batch), item.prompt, n); }
  }

  lemma SingleStarts(lib: Library, temp: real, ctx: seq<nat>, n: nat)
    requires n >= 1
    ensures var own := Single(lib, temp, ctx, n);
      && |own| >= 1 && own[0] == lib.next(temp, ctx)
      && (lib.next(temp, ctx) == lib.eos ==> |own| == 1)
      && (lib.next(temp, ctx) != lib.eos && n >= 2 ==> |own| >= 2)
  {
    if n >= 2 { assert |Single(lib, temp, ctx + [lib.next(temp, ctx)], n - 1)| >= 1; }
  }

  /** A library that ends one prompt at once and no other. */
  function Ending(prompt: seq<nat>): Library {
    Library((temp: real, ctx: seq<nat>) => if ctx == prompt then 0 else 1, 0, 0)
  }

  lemma EndingPads(batch: seq<BatchItem>, i: nat, j: nat)
    requires i < |batch| && j < |batch| && batch[i].temperature == MaxTemperature(batch)
    requires batch[i].maxTokens >= 2 && batch[j].prompt != batch[i].prompt
    ensures ResultOf(Ending(batch[i].prompt), batch, i) != Alone(Ending(batch[i].prompt), batch[i])
  {
    var lib, n, temp := Ending(batch[i].prompt), MaxTokens(batch), MaxTemperature(batch);
    var width := Width(lib, temp, Prompts(batch), n);
    assert lib.next(temp, batch[j].prompt) == 1 && lib.next(temp, batch[i].prompt) == 0;
    SingleStarts(lib, temp, batch[j].prompt, n);
    SingleStarts(lib, temp, batch[i].prompt, batch[i].maxTokens);
    assert |Single(lib, temp, Prompts(batch)[i], n)| <= width && |Single(lib, temp, Prompts(batch)[j], n)| <= width;
    RowAgreesExactly(lib, temp, batch[i], n, width);
  }

  /** A library whose every token tells one temperature from all others. */
  function Telling(temp: real): Library {
    Library((t: real, ctx: seq<nat>) => if t == temp then 1 else 2, 0, 0)
  }

  lemma TellingDiffers(batch: seq<BatchItem>, i: nat)
    requires i < |batch| && batch[i].temperature != MaxTemperature(batch) && batch[i].maxTokens >= 1
    ensures ResultOf(Telling(batch[i].temperature), batch, i) != Alone(Telling(batch[i].temperature), batch[i])
  {
    var lib, item := Telling(batch[i].temperature), batch[i];
    ResultStarts(lib, batch, i);
    SingleStarts(lib, item.temperature, item.prompt, item.maxTokens);
    assert lib.next(item.temperature, item.prompt) == 1 && lib.next(MaxTemperature(batch), item.prompt) == 2;
  }

  lemma ResultStarts(lib: Library, batch: seq<BatchItem>, i: nat)
    requires i < |batch| && batch[i].maxTokens >= 1
    ensures var g := ResultOf(lib, batch, i).generated;
      |g| >= 1 && g[0] == lib.next(MaxTemperature(batch), batch[i].prompt)
  {
    SingleStarts(lib, MaxTemperature(batch), batch[i].prompt, MaxTokens(batch));
  }

  /**
   Batching against single requests, exactly, by what the requests themselves say: item i gets its own tokens and counts
   under every library if and only if it asks for nothing, or its temperature is the batch's largest and it asks for one
   token or all prompts are the same.
   */
  lemma BatchAgreesExactly(batch: seq<BatchItem>, i: nat)
    requires i < |batch|
    ensures (forall lib: Library :: ResultOf(lib, batch, i) == Alone(lib, batch[i])) <==>
      || batch[i].maxTokens == 0
      || (batch[i].temperature == MaxTemperature(batch) && (batch[i].maxTokens == 1 || OnePrompt(batch, i)))
  {
    if batch[i].maxTokens == 0 {
    } else if batch[i].temperature != MaxTemperature(batch) {
      TellingDiffers(batch, i);
    } else if batch[i].maxTokens == 1 || OnePrompt(batch, i) {
      forall lib: Library ensures ResultOf(lib, batch, i) == Alone(lib, batch[i]) { BatchIsSingles(lib, batch, i); }
    } else {
      var j: nat :| j < |batch| && batch[j].prompt != batch[i].prompt;
      EndingPads(batch, i, j);
    }
  }

  /** A request that stops at once, batched with one that goes on, is charged for the padding. */
  lemma EarlyStopIsPadded()
    ensures var lib := Library((temp: real, ctx: seq<nat>) => if ctx == [7] then 0 else 5, 0, 9);
      var batch := [BatchItem([7], 2, 1.0), BatchItem([8], 2, 1.0)];
      ResultOf(lib, batch, 0) == Result([0, 9], 1, 2)
      && Alone(lib, batch[0]) == Result([0], 1, 1)
  {
    var lib := Library((temp: real, ctx: seq<nat>) => if ctx == [7] then 0 else 5, 0, 9);
    var batch := [BatchItem([7], 2, 1.0), BatchItem([8], 2, 1.0)];
    assert Single(lib, 1.0, [7], 2) == [0];
    assert Single(lib, 1.0, [8], 2) == [5] + Single(lib, 1.0, [8] + [5], 1);
    assert |Single(lib, 1.0, [8] + [5], 1)| == 1;
    var width := Width(lib, 1.0, Prompts(batch), 2);
    assert Prompts(batch)[1] == [8] && Prompts(batch)[0] == [7];
    assert width == 2 && MaxTokens(batch) == 2 && MaxTemperature(batch) == 1.0;
    assert Repeat(9, 1) == [9];
  }

  // ---------------------------------------------------------------- the scheduler

  /** A queued item and the place of its future among all futures the scheduler has handed out. */
  datatype Submission<T> = Submission(item: T, ticket: nat)

  /** Every submission has a future of its own. */
  ghost predicate Ticketed<T>(items: seq<Submission<T>>, n: nat) {
    && (forall i | 0 <= i < |items| :: items[i].ticket < n)
    && (forall i, j | 0 <= i < j < |items| :: items[i].ticket != items[j].ticket)
  }

  /** No future but the batch's own has changed. */
  ghost predicate TicketsKept<T, R>(batch: seq<Submission<T>>, before: seq<Future<R>>, after: seq<Future<R>>) {
    |after| == |before| &&
    forall t | 0 <= t < |after| && (forall i | 0 <= i < |batch| :: batch[i].ticket != t) :: after[t] == before[t]
  }

  /** What the executor's answer gives item i: its result if the list reaches that far, an exception otherwise. */
  function AnswerAt<R>(results: Option<seq<R>>, i: nat): Future<R> {
    if results.Some? && i < |results.value| then Done(results.value[i]) else Raised
  }

  /** The scheduler's asyncio.Queue, its collector, and the futures its submitters await. */
  class BatchScheduler<T, R> {
    const maxBatchSize: nat
    var queue: seq<Submission<T>>
    var futures: seq<Future<R>>

    ghost predicate Valid()
      reads this
    {
      Ticketed(queue, |futures|)
    }

    constructor (maxBatchSize: nat)
      ensures Valid() && this.maxBatchSize == maxBatchSize && queue == [] && futures == []
    {
      this.maxBatchSize := maxBatchSize;
      queue, futures := [], [];
    }

    /** submit up to its await: a new waiting future, and the item at the end of the queue. */
    method Submit(item: T) returns (ticket: nat)
      requires Valid()
      modifies this
      ensures Valid()
      ensures ticket == old(|futures|) && futures == old(futures) + [Waiting]
      ensures queue == old(queue) + [Submission(item, ticket)]
    {
      ticket := |futures|;
      futures := futures + [Waiting];
      queue := queue + [Submission(item, ticket)];
    }

    /** The non-blocking drain after the wait: the batch takes what is queued, in order, as far as it has room. */
    method Drain(collected: seq<Submission<T>>) returns (batch: seq<Submission<T>>)
      requires Ticketed(collected + queue, |futures|)
      modifies `queue
      ensures (batch, queue) == DrainSpec(maxBatchSize, collected, old(queue))
      ensures Ticketed(batch + queue, |futures|)
    {
      batch := collected;
      while queue != [] && |batch| < maxBatchSize
        invariant DrainSpec(maxBatchSize, batch, queue) == DrainSpec(maxBatchSize, collected, old(queue))
        invariant batch + queue == collected + old(queue)
        decreases |queue|
      {
        assert batch + [queue[0]] + queue[1..] == batch + queue;
        batch := batch + [queue[0]];
        queue := queue[1..];
      }
    }

    /** The loop over batch and results together: it ends with the shorter of the two. */
    method SetResults(batch: seq<Submission<T>>, results: seq<R>)
      requires Ticketed(batch, |futures|)
      modifies `futures
      ensures TicketsKept(batch, old(futures), futures)
      ensures forall i | 0 <= i < |batch| && i < |results| ::
        futures[batch[i].ticket] == Complete(old(futures)[batch[i].ticket], Done(results[i]))
      ensures forall i | |results| <= i < |batch| :: futures[batch[i].ticket] == old(futures)[batch[i].ticket]
    {
      var n := 0;
      while n < |batch| && n < |results|
        invariant n <= |batch| && n <= |results|
        invariant TicketsKept(batch, old(futures), futures)
        invariant forall i | 0 <= i < n ::
          futures[batch[i].ticket] == Complete(old(futures)[batch[i].ticket], Done(results[i]))
        invariant forall i | n <= i < |batch| :: futures[batch[i].ticket] == old(futures)[batch[i].ticket]
      {
        if !IsDone(futures[batch[n].ticket]) {
          futures := futures[batch[n].ticket := Done(results[n])];
        }
        n := n + 1;
      }
    }

    /** The loop of the exception handler. */
    method SetExceptions(batch: seq<Submission<T>>)
      requires Ticketed(batch, |futures|)
      modifies `futures
      ensures TicketsKept(batch, old(futures), futures)
      ensures forall i | 0 <= i < |batch| ::
        futures[batch[i].ticket] == Complete(old(futures)[batch[i].ticket], Raised)
    {
      for k := 0 to |batch|
        invariant TicketsKept(batch, old(futures), futures)
        invariant forall i | 0 <= i < k :: futures[batch[i].ticket] == Complete(old(futures)[batch[i].ticket], Raised)
        invariant forall i | k <= i < |batch| :: futures[batch[i].ticket] == old(futures)[batch[i].ticket]
      {
        if !IsDone(futures[batch[k].ticket]) {
          futures := futures[batch[k].ticket := Raised];
        }
      }
    }

    /**
     _process_batch once the executor is back, with its results or none if it raised: each waiting future gets the
     result in its item's own place, or the exception where there is none; no done future and no other future changes.
     */
    method ProcessBatch(batch: seq<Submission<T>>, results: Option<seq<R>>)
      requires Ticketed(batch, |futures|)
      modifies `futures
      ensures TicketsKept(batch, old(futures), futures)
      ensures forall i | 0 <= i < |batch| ::
        futures[batch[i].ticket] == Complete(old(futures)[batch[i].ticket], AnswerAt(results, i))
      ensures forall i | 0 <= i < |batch| && old(futures)[batch[i].ticket].Waiting? ::
        && (results.Some? && i < |results.value| ==> futures[batch[i].ticket] == Done(results.value[i]))
        && (results == None || |results.value| <= i ==> futures[batch[i].ticket] == Raised)
      ensures forall i | 0 <= i < |batch| && !old(futures)[batch[i].ticket].Waiting? ::
        futures[batch[i].ticket] == old(futures)[batch[i].ticket]
    {
      if results.Some? {
        SetResults(batch, results.value);
        if |results.value| == |batch| {
          return;
        }
      }
      SetExceptions(batch);
    }
  }

  function DrainSpec<T>(max: nat, batch: seq<T>, queue: seq<T>): (seq<T>, seq<T>)
    decreases |queue|
  {
    if queue == [] || |batch| >= max then (batch, queue)
    else DrainSpec(max, batch + [queue[0]], queue[1..])
  }

  /** Draining moves a prefix of the queue, all of it or up to a full batch. */
  lemma {:induction false} DrainIsFifo<T>(max: nat, batch: seq<T>, queue: seq<T>)
    ensures var (b, q) := DrainSpec(max, batch, queue);
      && b + q == batch + queue && batch <= b
      && (|b| <= |batch| || |b| <= max)
      && (q == [] || |b| >= max)
    decreases |queue|
  {
    if queue != [] && |batch| < max {
      DrainIsFifo(max, batch + [queue[0]], queue[1..]);
      assert batch + [queue[0]] + queue[1..] == batch + queue;
    }
  }
}
